/**
The locked parser against a declarative grammar: what a text must be, said of its records and the case table alone.
*/
module SltLockedGrammar {
  import opened Prelude
  import opened PolicyLimits
  import opened Utf8
  import opened Locators
  import opened SltFields
  import opened SltMachine
  import opened SltDriver
  import opened SltLines
  import opened SltRecords
  import opened SltBody
  import opened SltMembers
  import opened SltGrammar
  import opened SltLocked

  /** A record whose member can be built. */
  predicate Usable(env: Env, r: Fields, dir: bool) {
    LockedRecordIsUsable(env, r) && ConstructibleMember(LockedMemberOf(env, r, dir), env.upper)
  }

  predicate AllUsable(env: Env, records: seq<Fields>, dir: bool) {
    forall i :: 0 <= i < |records| ==> Usable(env, records[i], dir)
  }

  function LockedMembers(env: Env, records: seq<Fields>, dir: bool): (ms: seq<Member>)
    requires AllUsable(env, records, dir)
    ensures |ms| == |records| && forall i :: 0 <= i < |ms| ==> ms[i] == LockedMemberOf(env, records[i], dir)
  {
    seq(|records|, i requires 0 <= i < |records| => LockedMemberOf(env, records[i], dir))
  }

  /** Every case that begins with these hashes is the directory case, or none is. */
  predicate Agrees(table: CaseTable, hashes: seq<string>, dir: bool) {
    forall c :: c in table && hashes <= table[c] ==> (dir <==> c == Directory)
  }

  /** The records spell out case c and no other, the first of them already settles whether they are directories, each is
      usable, and no two of the members conflict. */
  predicate SpellsCase(env: Env, table: CaseTable, records: seq<Fields>, c: FormatCase) {
    var dir := c == Directory;
    && records != [] && |records| <= MAX_MEMBER_COUNT
    && OnlyCase(table, HashesOf(env, records), c)
    && Agrees(table, [HashOf(env, records[0])], dir)
    && AllUsable(env, records, dir)
    && ConflictFree(EntriesOf(env, LockedMembers(env, records, dir)))
  }

  ghost predicate EncodesCase(env: Env, table: CaseTable, bytes: seq<byte>, records: seq<Fields>, c: FormatCase) {
    && SpellsCase(env, table, records, c)
    && exists bom, text, crs :: bytes == Encode(Mark(bom) + text) && BOM !in text && LockedListing(text, records, crs)
  }

  /** The bytes encode records of case c that denote the members ms. */
  ghost predicate ListsCase(env: Env, table: CaseTable, bytes: seq<byte>, records: seq<Fields>, c: FormatCase,
                            ms: seq<Member>) {
    EncodesCase(env, table, bytes, records, c) && ms == LockedMembers(env, records, c == Directory)
  }

  // ---------- one record ----------

  lemma AgreesOnMatching(table: CaseTable, hashes: seq<string>, c: FormatCase)
    requires c in table && hashes <= table[c] && Agrees(table, hashes, c == Directory)
    ensures var cs := Matching(table, hashes);
            && |cs| != 0 && AllDirectory(cs) == (c == Directory) && (AllDirectory(cs) || NoneDirectory(cs))
  {
    assert c in Matching(table, hashes);
  }

  lemma MoreHashesAgree(table: CaseTable, hashes: seq<string>, h: string, dir: bool)
    requires Agrees(table, hashes, dir)
    ensures Agrees(table, hashes + [h], dir)
  {
    forall c | c in table && hashes + [h] <= table[c] ensures dir <==> c == Directory {
      assert hashes == (hashes + [h])[..|hashes|] <= table[c];
    }
  }

  lemma ClosesUsable(env: Env, table: CaseTable, core: Core, r: Fields, c: FormatCase)
    requires core.candidates == Matching(table, core.hashes) && Consistent(env, core)
             && |core.members| < MAX_MEMBER_COUNT
    requires var hs := core.hashes + [HashOf(env, r)]; c in table && hs <= table[c] && Agrees(table, hs, c == Directory)
    requires Usable(env, r, c == Directory)
    requires ConflictFree(EntriesOf(env, core.members + [LockedMemberOf(env, r, c == Directory)]))
    ensures CloseOne(env, LockedForm, core, r).Ok?
    ensures var next := CloseOne(env, LockedForm, core, r).value;
            && next.members == core.members + [LockedMemberOf(env, r, c == Directory)] && Consistent(env, next)
            && next.hashes == core.hashes + [HashOf(env, r)] && next.candidates == Matching(table, next.hashes)
  {
    hide LockedRecordIsUsable, LockedMemberOf, ConstructibleMember, Append, ConflictFree, MapOf, Matching, ClassesOf,
         Agrees,
         AllDirectory, NoneDirectory;
    var m := LockedMemberOf(env, r, c == Directory);
    var hs := core.hashes + [HashOf(env, r)];
    NarrowMatching(table, core.hashes, HashOf(env, r));
    AgreesOnMatching(table, hs, c);
    var before := core.(record := r, closed := false, candidates := Matching(table, hs), hashes := hs);
    AppendIsPairwise(env, before, m);
    AppendIs(env, before, m);
  }

  /** The converse: a record that closes is usable, and the case that survives agrees with its member. */
  lemma ClosedIsUsable(env: Env, table: CaseTable, core: Core, r: Fields, c: FormatCase)
    requires core.candidates == Matching(table, core.hashes) && Consistent(env, core)
    requires CloseOne(env, LockedForm, core, r).Ok?
    requires var hs := core.hashes + [HashOf(env, r)]; c in table && hs <= table[c]
    ensures Usable(env, r, c == Directory) && Agrees(table, core.hashes + [HashOf(env, r)], c == Directory)
    ensures var next := CloseOne(env, LockedForm, core, r).value;
            && next.members == core.members + [LockedMemberOf(env, r, c == Directory)] && Consistent(env, next)
            && next.hashes == core.hashes + [HashOf(env, r)] && next.candidates == Matching(table, next.hashes)
  {
    hide LockedRecordIsUsable, LockedMemberOf, ConstructibleMember, Append, ConflictFree, MapOf, CloseLocked, HashOf,
         Matching,
         Agrees, EntriesOf;
    var open := core.(record := r, closed := false);
    var isDirectory := CloseLockedIs(env, open);
    var hs := core.hashes + [HashOf(env, r)];
    NarrowMatching(table, core.hashes, HashOf(env, r));
    CandidatesAgree(table, hs, isDirectory, c);
    var m := LockedMemberOf(env, r, isDirectory);
    var before := open.(candidates := Matching(table, hs), hashes := hs);
    AppendedIsConstructible(env, before, m);
    AppendIsPairwise(env, before, m);
    AppendIs(env, before, m);
  }

  lemma CandidatesAgree(table: CaseTable, hashes: seq<string>, isDirectory: bool, c: FormatCase)
    requires forall d :: d in Matching(table, hashes) ==> (isDirectory <==> d == Directory)
    requires c in table && hashes <= table[c]
    ensures isDirectory == (c == Directory) && Agrees(table, hashes, isDirectory)
  {
    assert c in Matching(table, hashes);
    forall d | d in table && hashes <= table[d] ensures isDirectory <==> d == Directory {
      assert d in Matching(table, hashes);
    }
  }

  lemma AppendedIsConstructible(env: Env, core: Core, m: Member)
    requires Append(env, core, m).Ok?
    ensures ConstructibleMember(m, env.upper)
  {
    hide ConstructibleMember, CanonicalKey, ParentChildConflict;
  }

  // ---------- all records ----------

  lemma MembersCons(env: Env, before: seq<Member>, r: Fields, rest: seq<Fields>, dir: bool)
    requires Usable(env, r, dir) && AllUsable(env, rest, dir)
    ensures AllUsable(env, [r] + rest, dir)
    ensures before + LockedMembers(env, [r] + rest, dir)
         == before + [LockedMemberOf(env, r, dir)] + LockedMembers(env, rest, dir)
  {
    hide Usable, LockedMemberOf;
  }

  lemma UsableUncons(env: Env, r: Fields, rest: seq<Fields>, dir: bool)
    requires AllUsable(env, [r] + rest, dir)
    ensures Usable(env, r, dir) && AllUsable(env, rest, dir)
  {
    hide Usable;
    assert ([r] + rest)[0] == r && forall i :: 0 <= i < |rest| ==> rest[i] == ([r] + rest)[i + 1];
  }

  /** What is still to come, said of a core that closed the records before. */
  predicate StillSpells(env: Env, table: CaseTable, core: Core, records: seq<Fields>, c: FormatCase) {
    var dir := c == Directory;
    && |core.members| + |records| <= MAX_MEMBER_COUNT
    && c in table && core.hashes + HashesOf(env, records) <= table[c]
    && (records != [] ==> Agrees(table, core.hashes + [HashOf(env, records[0])], dir))
    && AllUsable(env, records, dir)
    && ConflictFree(EntriesOf(env, core.members + LockedMembers(env, records, dir)))
  }

  lemma StillAfterOne(env: Env, table: CaseTable, core: Core, r: Fields, rest: seq<Fields>, c: FormatCase, next: Core)
    requires StillSpells(env, table, core, [r] + rest, c)
    requires Usable(env, r, c == Directory) && next.hashes == core.hashes + [HashOf(env, r)]
    requires next.members == core.members + [LockedMemberOf(env, r, c == Directory)]
    ensures StillSpells(env, table, next, rest, c)
  {
    hide Usable, LockedMemberOf, Agrees, HashOf, ConflictFree, HashesOf;
    var dir := c == Directory;
    assert ([r] + rest)[0] == r;
    UsableUncons(env, r, rest, dir);
    MembersCons(env, core.members, r, rest, dir);
    HashesCons(env, core.hashes, r, rest);
    if rest != [] {
      MoreHashesAgree(table, next.hashes, HashOf(env, rest[0]), dir);
    }
  }

  lemma FirstOfMany(env: Env, table: CaseTable, core: Core, r: Fields, rest: seq<Fields>, c: FormatCase)
    requires StillSpells(env, table, core, [r] + rest, c)
    ensures Usable(env, r, c == Directory) && |core.members| < MAX_MEMBER_COUNT
    ensures var hs := core.hashes + [HashOf(env, r)]; hs <= table[c] && Agrees(table, hs, c == Directory)
    ensures ConflictFree(EntriesOf(env, core.members + [LockedMemberOf(env, r, c == Directory)]))
  {
    hide LockedMemberOf, Agrees, HashOf, ConflictFree, HashesOf, EntriesOf, LockedMembers, AllUsable,
         LockedRecordIsUsable,
         ConstructibleMember;
    var dir := c == Directory;
    assert ([r] + rest)[0] == r;
    UsableUncons(env, r, rest, dir);
    var m, more := LockedMemberOf(env, r, dir), LockedMembers(env, rest, dir);
    MembersCons(env, core.members, r, rest, dir);
    HashesCons(env, core.hashes, r, rest);
    FrontOf(core.hashes + [HashOf(env, r)], HashesOf(env, rest), table[c]);
    EntriesAppend(env, core.members + [m], more);
    PrefixConflictFree(EntriesOf(env, core.members + [m]), EntriesOf(env, more));
  }

  lemma NothingMore(env: Env, core: Core, dir: bool)
    ensures AllUsable(env, [], dir) && core.members + LockedMembers(env, [], dir) == core.members
    ensures core.hashes + HashesOf(env, []) == core.hashes
  {
    hide Usable, LockedMemberOf, HashOf;
  }

  /** Records that spell out a case close one after another, to their members. */
  lemma {:induction false} SpelledCloses(env: Env, table: CaseTable, core: Core, records: seq<Fields>, c: FormatCase)
    requires core.candidates == Matching(table, core.hashes) && Consistent(env, core)
    requires StillSpells(env, table, core, records, c)
    ensures CloseAll(env, LockedForm, core, records).Ok?
    ensures var end := CloseAll(env, LockedForm, core, records).value;
            && AllUsable(env, records, c == Directory)
            && end.members == core.members + LockedMembers(env, records, c == Directory)
            && end.hashes == core.hashes + HashesOf(env, records) && end.candidates == Matching(table, end.hashes)
    decreases |records|
  {
    hide CloseOne, Usable, Agrees, HashOf, HashesOf, Matching, StillSpells, Consistent, LockedMemberOf, ConflictFree;
    if records == [] {
      NothingMore(env, core, c == Directory);
    } else {
      var r, rest := records[0], records[1..];
      assert [r] + rest == records;
      FirstOfMany(env, table, core, r, rest, c);
      CaseIsThere(env, table, core, records, c);
      ClosesUsable(env, table, core, r, c);
      var next := CloseOne(env, LockedForm, core, r).value;
      StillAfterOne(env, table, core, r, rest, c, next);
      SpelledCloses(env, table, next, rest, c);
      MembersCons(env, core.members, r, rest, c == Directory);
      HashesCons(env, core.hashes, r, rest);
    }
  }

  lemma CaseIsThere(env: Env, table: CaseTable, core: Core, records: seq<Fields>, c: FormatCase)
    requires StillSpells(env, table, core, records, c)
    ensures c in table
  {
    hide AllUsable, Agrees, HashesOf, ConflictFree;
  }

  /** Records that closed one after another spell out whatever case is left. */
  lemma {:induction false} ClosedSpells(env: Env, table: CaseTable, core: Core, records: seq<Fields>, c: FormatCase,
                                        end: Core)
    requires core.candidates == Matching(table, core.hashes) && Consistent(env, core)
    requires CloseAll(env, LockedForm, core, records) == Ok(end)
    requires c in table && core.hashes + HashesOf(env, records) <= table[c]
    ensures AllUsable(env, records, c == Directory) && Consistent(env, end)
    ensures records != [] ==> Agrees(table, core.hashes + [HashOf(env, records[0])], c == Directory)
    ensures end.members == core.members + LockedMembers(env, records, c == Directory)
    decreases |records|
  {
    hide CloseOne, CloseAll, Usable, Agrees, HashOf, HashesOf, Matching, Consistent, LockedMemberOf;
    if records == [] {
      CloseNothing(env, core);
      NothingMore(env, core, c == Directory);
    } else {
      var r, rest := records[0], records[1..];
      assert [r] + rest == records;
      var next := CloseUncons(env, LockedForm, core, records, end);
      HashesCons(env, core.hashes, r, rest);
      FrontOf(core.hashes + [HashOf(env, r)], HashesOf(env, rest), table[c]);
      ClosedIsUsable(env, table, core, r, c);
      ClosedSpells(env, table, next, rest, c, end);
      MembersCons(env, core.members, r, rest, c == Directory);
    }
  }

  lemma FrontOf<T>(a: seq<T>, b: seq<T>, s: seq<T>)
    requires a + b <= s
    ensures a <= s
  {
    assert a == (a + b)[..|a|];
  }

  // ---------- the whole text ----------

  lemma FinishesOnlyCase(env: Env, table: CaseTable, core: Core, c: FormatCase)
    requires core.candidates == Matching(table, core.hashes) && OnlyCase(table, core.hashes, c)
    requires core.closed && core.record == []
    ensures FinishCore(env, LockedForm, core) == Ok(core.(candidates := map[c := table[c]]))
  {
    hide Matching, OnlyCase, ClosePlain;
    var complete := map d | d in core.candidates && |core.candidates[d]| == |core.hashes| :: core.candidates[d];
    OnlyOneIsComplete(table, core.hashes, core.candidates, complete, c);
  }

  lemma OnlyOneIsComplete(table: CaseTable, hashes: seq<string>, candidates: CaseTable, complete: CaseTable,
                          c: FormatCase)
    requires candidates == Matching(table, hashes) && OnlyCase(table, hashes, c)
    requires complete == map d | d in candidates && |candidates[d]| == |hashes| :: candidates[d]
    ensures complete == map[c := table[c]] && |complete| == 1
  {
    assert complete.Keys == {c};
  }

  lemma LockedBodyIsParsed(env: Env, table: CaseTable, records: seq<Fields>, crs: seq<bool>, end: Core)
    requires records != [] && GoodRecords(LockedScheme, records) && |crs| == |Body(records)| && GoodLines(Body(records))
    requires CloseAll(env, LockedForm, StartCore(LockedForm, table), records) == Ok(end)
    ensures ParseText(env, LockedForm, table, JoinLines(Body(records), crs)) == FinishCore(env, LockedForm, end)
    ensures end.closed && end.record == []
  {
    hide GoodRecords, JoinLines, GoodLines, AcceptLines, CloseAll, ParseText, Body, FinishCore;
    var core := StartCore(LockedForm, table);
    FeedDocument(env, LockedForm, table, Body(records), crs);
    AcceptBody(env, LockedForm, core, records, []);
    assert Body(records) + [] == Body(records);
    AcceptNone(env, LockedForm, end);
    ClosedAfterBody(env, LockedForm, core, records, end);
  }

  lemma SpellsFromTheStart(env: Env, table: CaseTable, records: seq<Fields>, c: FormatCase)
    requires SpellsCase(env, table, records, c)
    ensures StillSpells(env, table, StartCore(LockedForm, table), records, c)
  {
    hide Usable, Agrees, HashOf, HashesOf, ConflictFree, LockedMemberOf;
    var dir := c == Directory;
    assert [] + HashesOf(env, records) == HashesOf(env, records);
    assert [] + [HashOf(env, records[0])] == [HashOf(env, records[0])];
    assert [] + LockedMembers(env, records, dir) == LockedMembers(env, records, dir);
  }

  lemma SpelledIsParsed(env: Env, table: CaseTable, text: string, records: seq<Fields>, crs: seq<bool>, c: FormatCase)
    requires SpellsCase(env, table, records, c) && LockedListing(text, records, crs)
    ensures ParseText(env, LockedForm, table, text).Ok?
    ensures var core := ParseText(env, LockedForm, table, text).value;
            core.members == LockedMembers(env, records, c == Directory) && core.candidates == map[c := table[c]]
  {
    hide GoodRecords, JoinLines, GoodLines, CloseAll, ParseText, Body, FinishCore, Usable, Agrees, HashOf, HashesOf,
         Matching,
         ConflictFree, StillSpells, LockedMemberOf, EntriesOf;
    var start := StartCore(LockedForm, table);
    SpellsFromTheStart(env, table, records, c);
    StartIsConsistent(env, LockedForm, table);
    StartMatches(table);
    SpelledCloses(env, table, start, records, c);
    var end := CloseAll(env, LockedForm, start, records).value;
    assert [] + HashesOf(env, records) == HashesOf(env, records);
    assert [] + LockedMembers(env, records, c == Directory) == LockedMembers(env, records, c == Directory);
    LockedBodyIsParsed(env, table, records, crs, end);
    FinishesOnlyCase(env, table, end, c);
  }

  lemma ParsedIsSpelled(env: Env, table: CaseTable, text: string)
    returns (records: seq<Fields>, crs: seq<bool>, c: FormatCase)
    requires ParseText(env, LockedForm, table, text).Ok?
    ensures SpellsCase(env, table, records, c) && LockedListing(text, records, crs)
    ensures var core := ParseText(env, LockedForm, table, text).value;
            core.members == LockedMembers(env, records, c == Directory) && core.candidates == map[c := table[c]]
  {
    hide GoodRecords, JoinLines, GoodLines, AcceptLines, CloseAll, FinishCore, GoodFields, Body, RecordLines, ParseText,
         Matching, HashOf, HashesOf, Usable, Agrees, ConflictFree, MapOf, EntriesOf, LockedMemberOf, Shaped;
    var start := StartCore(LockedForm, table);
    records, crs, c := LockedAcceptsOneCase(env, table, text);
    var end := ClosedText(env, table, text, records, crs);
    StartMatches(table);
    StartIsConsistent(env, LockedForm, table);
    assert [] + HashesOf(env, records) == HashesOf(env, records);
    CloseAllNarrows(env, table, start, records, end);
    ClosedSpells(env, table, start, records, c, end);
    assert [] + LockedMembers(env, records, c == Directory) == LockedMembers(env, records, c == Directory);
    assert [] + [HashOf(env, records[0])] == [HashOf(env, records[0])];
    LockedBodyIsParsed(env, table, records, crs, end);
    FinishesOnlyCase(env, table, end, c);
  }

  /** A listing that parses closes its records. */
  lemma ClosedText(env: Env, table: CaseTable, text: string, records: seq<Fields>, crs: seq<bool>) returns (end: Core)
    requires LockedListing(text, records, crs) && ParseText(env, LockedForm, table, text).Ok?
    ensures CloseAll(env, LockedForm, StartCore(LockedForm, table), records) == Ok(end)
  {
    hide GoodRecords, JoinLines, GoodLines, AcceptLines, CloseAll, ParseText, Body, FinishCore;
    var core := StartCore(LockedForm, table);
    FeedDocument(env, LockedForm, table, Body(records), crs);
    AcceptBody(env, LockedForm, core, records, []);
    assert Body(records) + [] == Body(records);
    end := CloseAll(env, LockedForm, core, records).value;
  }

  /** The locked parse accepts exactly the encoded listings that spell out one case of the table, whatever the table
      is; its members are the ones listed and its one remaining candidate is that case. */
  lemma LockedParsedIffSpelled(env: Env, table: CaseTable, bytes: seq<byte>, ms: seq<Member>, c: FormatCase)
    ensures (exists core :: ParseBytes(env, LockedForm, table, bytes) == Some(core) && core.members == ms
                            && c in table && core.candidates == map[c := table[c]])
       <==> (exists records :: ListsCase(env, table, bytes, records, c, ms))
  {
    hide ParseBytes, ParseText, Encode, LockedListing, SpellsCase, LockedMembers, AllUsable;
    if core :| ParseBytes(env, LockedForm, table, bytes) == Some(core) && core.members == ms
               && c in table && core.candidates == map[c := table[c]] {
      BytesAreText(env, LockedForm, table, bytes, core);
      var bom, text :| bytes == Encode(Mark(bom) + text) && BOM !in text
                       && ParseText(env, LockedForm, table, text) == Ok(core);
      var records, crs, d := ParsedIsSpelled(env, table, text);
      assert d in core.candidates;
      assert EncodesCase(env, table, bytes, records, c) && ListsCase(env, table, bytes, records, c, ms);
    }
    if records :| ListsCase(env, table, bytes, records, c, ms) {
      var bom, text, crs :| bytes == Encode(Mark(bom) + text) && BOM !in text && LockedListing(text, records, crs);
      SpelledIsParsed(env, table, text, records, crs, c);
      var core := ParseText(env, LockedForm, table, text).value;
      BytesAreText(env, LockedForm, table, bytes, core);
      CaseIsInTable(env, table, records, c);
    }
  }

  lemma CaseIsInTable(env: Env, table: CaseTable, records: seq<Fields>, c: FormatCase)
    requires SpellsCase(env, table, records, c)
    ensures c in table && AllUsable(env, records, c == Directory)
  {
    hide Agrees, AllUsable, ConflictFree, HashesOf;
  }
}
