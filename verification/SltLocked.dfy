/** The locked parser: candidate cases narrow with every record, and an accepted listing is exactly one case. */
module SltLocked {
  import opened Locators
  import opened SltFields
  import opened SltMachine
  import opened SltLines
  import opened SltRecords
  import opened SltBody
  import opened SltGrammar

  /** The cases whose first record hashes are these. */
  function Matching(table: CaseTable, hashes: seq<string>): (r: CaseTable) {
    map c | c in table && hashes <= table[c] :: table[c]
  }

  function HashOf(env: Env, r: Fields): (h: string) { env.recordHash(ClassesOf(r)) }

  function HashesOf(env: Env, records: seq<Fields>): (hs: seq<string>)
    ensures |hs| == |records| && forall i :: 0 <= i < |hs| ==> hs[i] == HashOf(env, records[i])
  {
    seq(|records|, i requires 0 <= i < |records| => HashOf(env, records[i]))
  }

  lemma NarrowMatching(table: CaseTable, hashes: seq<string>, h: string)
    ensures Narrow(Matching(table, hashes), |hashes|, h) == Matching(table, hashes + [h])
  {
    var narrowed, matching := Narrow(Matching(table, hashes), |hashes|, h), Matching(table, hashes + [h]);
    forall c | c in table
      ensures c in narrowed <==> c in matching
    {
      var t := table[c];
      if c in matching {
        assert (hashes + [h])[|hashes|] == t[|hashes|];
        assert hashes == t[..|hashes|];
      }
      if c in narrowed {
        assert t[..|hashes| + 1] == hashes + [h];
      }
    }
    assert narrowed.Keys == matching.Keys;
  }

  /** Every member so far is a directory exactly when the remaining cases say so. */
  predicate Shaped(core: Core) {
    forall i, c :: 0 <= i < |core.members| && c in core.candidates ==> (core.members[i].isDirectory <==> c == Directory)
  }

  predicate LockedInvariant(table: CaseTable, core: Core) {
    && core.candidates == Matching(table, core.hashes)
    && |core.members| == |core.hashes|
    && Shaped(core)
  }

  lemma CloseLockedIs(env: Env, core: Core) returns (isDirectory: bool)
    requires CloseLocked(env, core).Ok?
    ensures var h := HashOf(env, core.record);
            var cs := Narrow(core.candidates, |core.hashes|, h);
            && cs != map[] && LockedRecordIsUsable(env, core.record)
            && (forall c :: c in cs ==> (isDirectory <==> c == Directory))
            && CloseLocked(env, core)
               == Append(env, core.(candidates := cs, hashes := core.hashes + [h]),
                         LockedMemberOf(env, core.record, isDirectory))
  {
    hide LockedRecordIsUsable, LockedMemberOf, Append, ClassesOf;
    var cs := Narrow(core.candidates, |core.hashes|, HashOf(env, core.record));
    isDirectory := AllDirectory(cs);
  }

  lemma AppendIs(env: Env, core: Core, m: Member)
    ensures Append(env, core, m).Ok? ==>
              var c := Append(env, core, m).value;
              c.members == core.members + [m] && c.candidates == core.candidates && c.hashes == core.hashes
  {
    hide ConstructibleMember, CanonicalKey, ParentChildConflict;
  }

  lemma ShapedAppend(core: Core, next: Core, m: Member, isDirectory: bool)
    requires Shaped(core) && next.members == core.members + [m] && m.isDirectory == isDirectory
    requires forall c :: c in next.candidates ==> c in core.candidates
    requires forall c :: c in next.candidates ==> (isDirectory <==> c == Directory)
    ensures Shaped(next)
  {
  }

  /** One accepted record appends its hash and narrows the candidates to the cases that still match. */
  lemma CloseOneNarrows(env: Env, table: CaseTable, core: Core, r: Fields)
    requires LockedInvariant(table, core) && CloseOne(env, LockedForm, core, r).Ok?
    ensures var c := CloseOne(env, LockedForm, core, r).value;
            LockedInvariant(table, c) && c.hashes == core.hashes + [HashOf(env, r)] && c.candidates != map[]
  {
    hide CloseLocked, Append, LockedRecordIsUsable, LockedMemberOf, Matching, Shaped, HashOf;
    var open := core.(record := r, closed := false);
    var isDirectory := CloseLockedIs(env, open);
    var h := HashOf(env, r);
    var cs := Narrow(core.candidates, |core.hashes|, h);
    NarrowMatching(table, core.hashes, h);
    var m := LockedMemberOf(env, r, isDirectory);
    LockedMemberShape(env, r, isDirectory);
    var before := open.(candidates := cs, hashes := core.hashes + [h]);
    AppendIs(env, before, m);
    var c := CloseOne(env, LockedForm, core, r).value;
    ShapedAppend(core, c, m, isDirectory);
  }

  lemma LockedMemberShape(env: Env, r: Fields, isDirectory: bool)
    requires LockedRecordIsUsable(env, r)
    ensures LockedMemberOf(env, r, isDirectory).isDirectory == isDirectory
  {
    hide LockedRecordIsUsable, NumberOf, Names, Get;
  }

  lemma HashesCons(env: Env, hashes: seq<string>, r: Fields, rest: seq<Fields>)
    ensures hashes + [HashOf(env, r)] + HashesOf(env, rest) == hashes + HashesOf(env, [r] + rest)
  {
    hide HashOf;
    assert HashesOf(env, [r] + rest) == [HashOf(env, r)] + HashesOf(env, rest);
  }

  lemma CloseUncons(env: Env, form: Form, core: Core, records: seq<Fields>, end: Core) returns (next: Core)
    requires records != [] && CloseAll(env, form, core, records) == Ok(end)
    ensures CloseOne(env, form, core, records[0]) == Ok(next) && CloseAll(env, form, next, records[1..]) == Ok(end)
  {
    hide CloseOne;
    next := CloseOne(env, form, core, records[0]).value;
  }

  lemma {:induction false} CloseAllNarrows(env: Env, table: CaseTable, core: Core, records: seq<Fields>, end: Core)
    requires LockedInvariant(table, core) && CloseAll(env, LockedForm, core, records) == Ok(end)
    ensures LockedInvariant(table, end) && end.hashes == core.hashes + HashesOf(env, records)
    decreases |records|
  {
    hide CloseOne, CloseAll, LockedInvariant, HashOf, HashesOf;
    if records == [] {
      CloseNothing(env, core);
      assert HashesOf(env, records) == [];
    } else {
      var r, rest := records[0], records[1..];
      var next := CloseUncons(env, LockedForm, core, records, end);
      CloseOneNarrows(env, table, core, r);
      CloseAllNarrows(env, table, next, rest, end);
      HashesCons(env, core.hashes, r, rest);
      assert [r] + rest == records;
    }
  }

  lemma StartMatches(table: CaseTable)
    ensures LockedInvariant(table, StartCore(LockedForm, table))
  {
    assert forall c :: c in table ==> [] <= table[c];
    assert Matching(table, []) == table;
  }

  /** After the first k of any accepted records the candidates are exactly the cases that begin with their hashes. */
  lemma CandidatesMatchPrefix(env: Env, table: CaseTable, records: seq<Fields>, k: nat)
    requires k <= |records| && CloseAll(env, LockedForm, StartCore(LockedForm, table), records).Ok?
    ensures CloseAll(env, LockedForm, StartCore(LockedForm, table), records[..k]).Ok?
    ensures var c := CloseAll(env, LockedForm, StartCore(LockedForm, table), records[..k]).value;
            c.hashes == HashesOf(env, records)[..k] && c.candidates == Matching(table, HashesOf(env, records)[..k])
  {
    hide CloseOne, HashOf, Matching, Shaped;
    var start := StartCore(LockedForm, table);
    ClosePrefix(env, LockedForm, start, records, k);
    StartMatches(table);
    CloseAllNarrows(env, table, start, records[..k], CloseAll(env, LockedForm, start, records[..k]).value);
    assert [] + HashesOf(env, records[..k]) == HashesOf(env, records)[..k];
  }

  lemma {:induction false} ClosePrefix(env: Env, form: Form, core: Core, records: seq<Fields>, k: nat)
    requires k <= |records| && CloseAll(env, form, core, records).Ok?
    ensures CloseAll(env, form, core, records[..k]).Ok?
    decreases |records|
  {
    hide CloseOne;
    if k > 0 {
      assert records[..k][1..] == records[1..][..k - 1];
      ClosePrefix(env, form, CloseOne(env, form, core, records[0]).value, records[1..], k - 1);
    }
  }

  /** case c is the one case of the table equal to the whole hash sequence. */
  predicate OnlyCase(table: CaseTable, hashes: seq<string>, c: FormatCase) {
    c in table && table[c] == hashes && forall d :: d in table && table[d] == hashes ==> d == c
  }

  lemma SingletonKey(m: CaseTable) returns (c: FormatCase)
    requires |m| == 1
    ensures m.Keys == {c}
  {
    var keys := m.Keys;
    assert |keys| == 1;
    c :| c in keys;
    var rest := keys - {c};
    assert |rest| == 0;
    assert keys == rest + {c};
  }

  lemma LockedFinishIs(env: Env, table: CaseTable, core: Core) returns (c: FormatCase)
    requires LockedInvariant(table, core) && FinishCore(env, LockedForm, core).Ok?
    ensures core.closed && core.record == [] && OnlyCase(table, core.hashes, c)
    ensures FinishCore(env, LockedForm, core).value.candidates == map[c := table[c]]
    ensures FinishCore(env, LockedForm, core).value.members == core.members
  {
    hide Shaped, Matching, OnlyCase, CloseLocked, ClosePlain;
    var complete := map d | d in core.candidates && |core.candidates[d]| == |core.hashes| :: core.candidates[d];
    c := SingletonKey(complete);
    assert complete == FinishCore(env, LockedForm, core).value.candidates;
    CompleteCases(table, core.hashes, core.candidates, complete, c);
  }

  lemma CompleteCases(table: CaseTable, hashes: seq<string>, candidates: CaseTable, complete: CaseTable, c: FormatCase)
    requires candidates == Matching(table, hashes) && complete.Keys == {c}
    requires complete == map d | d in candidates && |candidates[d]| == |hashes| :: candidates[d]
    ensures OnlyCase(table, hashes, c) && complete == map[c := table[c]]
  {
    assert c in complete;
    forall d | d in table && table[d] == hashes ensures d == c {
      assert d in complete;
    }
  }

  /** The text is a locked listing of records. */
  predicate LockedListing(text: string, records: seq<Fields>, crs: seq<bool>) {
    && records != [] && GoodRecords(LockedScheme, records)
    && |crs| == |Body(records)| && text == JoinLines(Body(records), crs) && GoodLines(Body(records))
  }

  /** An accepted locked parse is the listing of records whose hashes are the whole of exactly one case; the result
      names that case, one member per record, directories exactly in the directory case. */
  lemma LockedAcceptsOneCase(env: Env, table: CaseTable, text: string)
    returns (records: seq<Fields>, crs: seq<bool>, c: FormatCase)
    requires ParseText(env, LockedForm, table, text).Ok?
    ensures LockedListing(text, records, crs) && OnlyCase(table, HashesOf(env, records), c)
    ensures var core := ParseText(env, LockedForm, table, text).value;
            && core.candidates == map[c := table[c]]
            && |core.members| == |records| == |table[c]|
            && forall i :: 0 <= i < |core.members| ==> (core.members[i].isDirectory <==> c == Directory)
  {
    hide GoodRecords, JoinLines, GoodLines, AcceptLines, CloseAll, FinishCore, GoodFields, Body, RecordLines, ParseText,
         Matching, HashOf;
    var start := StartCore(LockedForm, table);
    var lines, end;
    lines, crs, end := RecoverDocument(env, LockedForm, table, text);
    NoFieldsAreGood(LockedScheme);
    var last, k;
    records, last, k := RecoverRecords(env, LockedForm, start, lines, end);
    assert start.(record := []) == start;
    LockedFinishNeeds(env, end);
    assert last == [] && end == k;
    BodyAlone(records, lines);
    StartMatches(table);
    CloseAllNarrows(env, table, start, records, end);
    assert [] + HashesOf(env, records) == HashesOf(env, records);
    c := LockedFinishIs(env, table, end);
    if records == [] {
      CloseNothing(env, start);
      assert false;
    }
    MatchesItself(table, end, c);
  }

  lemma LockedFinishNeeds(env: Env, core: Core)
    requires FinishCore(env, LockedForm, core).Ok?
    ensures core.record == [] && core.closed
  {
    hide ClosePlain;
  }

  lemma CloseNothing(env: Env, core: Core)
    ensures CloseAll(env, LockedForm, core, []) == Ok(core)
  {
  }

  lemma MatchesItself(table: CaseTable, core: Core, c: FormatCase)
    requires LockedInvariant(table, core) && OnlyCase(table, core.hashes, c)
    ensures c in core.candidates
  {
    hide Shaped;
    assert core.hashes <= table[c];
  }
}
