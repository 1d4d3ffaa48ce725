/**
The members of a locked listing, field by field: what the parse reports of a record is what the record's own lines say.
*/
module SltLockedMembers {
  import opened Prelude
  import opened PolicyLimits
  import opened Text
  import opened Utf8
  import opened Locators
  import opened SltFields
  import opened SltMachine
  import opened SltDriver
  import opened SltLines
  import opened SltRecords
  import opened SltBody
  import opened SltMembers
  import opened SltGrammar
  import opened SltLocked
  import opened SltLockedGrammar
  import opened SltResults

  // ---------- a record and its member ----------

  /** The record has this very line. */
  predicate Has(r: Fields, name: string, value: string) { Field(name, value) in r }

  predicate Mentions(r: Fields, name: string) { exists i :: 0 <= i < |r| && r[i].name == name }

  predicate MentionsSome(r: Fields, name: string) {
    exists i :: 0 <= i < |r| && r[i].name == name && r[i].value != ""
  }

  predicate ReadsNumbers(r: Fields, m: Member) {
    && Has(r, "Path", m.locator)
    && Has(r, "Size", PrintDecimal(m.uncompressedBytes)) && Has(r, "Packed Size", PrintDecimal(m.compressedBytes))
  }

  predicate ReadsProtection(env: Env, r: Fields, m: Member) {
    && (if m.encrypted then Has(r, "Encrypted", "+")
        else Has(r, "Encrypted", "-") || (env.storageIsTar && !Mentions(r, "Encrypted")))
    && (if m.crc32.Some? then m.crc32.value != "" && Has(r, "CRC", m.crc32.value) else !MentionsSome(r, "CRC"))
  }

  predicate ReadsPresence(r: Fields, m: Member) {
    && (m.symbolicLink <==> MentionsSome(r, "Symbolic Link")) && (m.hardLink <==> MentionsSome(r, "Hard Link"))
    && (m.userPresent <==> Mentions(r, "User")) && (m.groupPresent <==> Mentions(r, "Group"))
    && (m.characteristicsPresent <==> Mentions(r, "Characteristics"))
    && (m.alternateStream <==> Has(r, "Alternate Stream", "+")) && (m.antiItem <==> Has(r, "Anti", "+"))
  }

  /** The member says what the lines of the record say: locator and sizes are there as printed, "Encrypted" may be left
      out of TAR listings only, an empty CRC is none, links must not be empty, and the rest is a matter of presence. */
  predicate ReadsAs(env: Env, r: Fields, dir: bool, m: Member) {
    m.isDirectory == dir && ReadsNumbers(r, m) && ReadsProtection(env, r, m) && ReadsPresence(r, m)
  }

  /** A lookup of the parser in terms of the lines of the record. */
  lemma LookupIs(r: Fields, name: string)
    requires Distinct(r)
    ensures Get(r, name).Some? ==> Has(r, name, Get(r, name).value)
    ensures forall v :: Has(r, name, v) ==> Get(r, name) == Some(v)
    ensures (Get(r, name).Some? <==> Mentions(r, name)) && (name in Names(r) <==> Mentions(r, name))
    ensures NonEmpty(Get(r, name)) <==> MentionsSome(r, name)
  {
    if Get(r, name).Some? {
      GetIsField(r, name);
      var k :| 0 <= k < |r| && r[k] == Field(name, Get(r, name).value);
      forall i | 0 <= i < |r| && i != k ensures r[i].name != name {
        NamesDiffer(r, i, k);
      }
    }
  }

  lemma NamesDiffer(r: Fields, i: nat, k: nat)
    requires Distinct(r) && i < |r| && k < |r| && i != k
    ensures r[i].name != r[k].name
  {
  }

  lemma NumberIsPrinted(value: string, n: nat)
    requires n <= MAX_INT64
    ensures value == PrintDecimal(n) <==> IsCanonicalNumber(value) && NumberOf(value) == n
  {
    if IsCanonicalNumber(value) { PrintOfValue(value); }
  }

  lemma NumbersFit(value: string)
    requires IsCanonicalNumber(value)
    ensures NumberOf(value) <= MAX_INT64
  {
  }

  /** Locator and sizes as the parser takes them. */
  predicate TakesNumbers(r: Fields, m: Member) {
    && Get(r, "Path") == Some(m.locator)
    && Get(r, "Size").Some? && IsCanonicalNumber(Get(r, "Size").value)
    && NumberOf(Get(r, "Size").value) == m.uncompressedBytes
    && Get(r, "Packed Size").Some? && IsCanonicalNumber(Get(r, "Packed Size").value)
    && NumberOf(Get(r, "Packed Size").value) == m.compressedBytes
  }

  lemma NumbersAgree(r: Fields, m: Member)
    requires Distinct(r) && m.uncompressedBytes <= MAX_INT64 && m.compressedBytes <= MAX_INT64
    ensures ReadsNumbers(r, m) <==> TakesNumbers(r, m)
  {
    hide Has, Mentions, MentionsSome, Get, Names, IsCanonicalNumber, NumberOf, Distinct, PrintDecimal;
    LookupIs(r, "Path");
    LookupIs(r, "Size");
    LookupIs(r, "Packed Size");
    NumberIsPrinted(PrintDecimal(m.uncompressedBytes), m.uncompressedBytes);
    NumberIsPrinted(PrintDecimal(m.compressedBytes), m.compressedBytes);
    if TakesNumbers(r, m) {
      NumberIsPrinted(Get(r, "Size").value, m.uncompressedBytes);
      NumberIsPrinted(Get(r, "Packed Size").value, m.compressedBytes);
    }
  }

  predicate TakesProtection(env: Env, r: Fields, m: Member) {
    && LockedEncrypted(env, r) == Some(if m.encrypted then "+" else "-")
    && m.crc32 == if NonEmpty(Get(r, "CRC")) then Get(r, "CRC") else None
  }

  lemma ProtectionAgrees(env: Env, r: Fields, m: Member)
    requires Distinct(r)
    ensures ReadsProtection(env, r, m) <==> TakesProtection(env, r, m)
  {
    hide Has, Mentions, MentionsSome, Get, Names, Distinct;
    LookupIs(r, "Encrypted");
    LookupIs(r, "CRC");
  }

  predicate TakesPresence(r: Fields, m: Member) {
    && m.symbolicLink == NonEmpty(Get(r, "Symbolic Link")) && m.hardLink == NonEmpty(Get(r, "Hard Link"))
    && m.userPresent == ("User" in Names(r)) && m.groupPresent == ("Group" in Names(r))
    && m.characteristicsPresent == ("Characteristics" in Names(r))
    && m.alternateStream == (Get(r, "Alternate Stream") == Some("+"))
    && m.antiItem == (Get(r, "Anti") == Some("+"))
  }

  lemma PresenceAgrees(r: Fields, m: Member)
    requires Distinct(r)
    ensures ReadsPresence(r, m) <==> TakesPresence(r, m)
  {
    hide Has, Mentions, MentionsSome, Get, Names, NonEmpty, Distinct;
    LookupIs(r, "Symbolic Link");
    LookupIs(r, "Hard Link");
    LookupIs(r, "User");
    LookupIs(r, "Group");
    LookupIs(r, "Characteristics");
    LookupIs(r, "Alternate Stream");
    LookupIs(r, "Anti");
  }

  /** What the parser takes from the record is this member. */
  predicate TakesAs(env: Env, r: Fields, dir: bool, m: Member) {
    && m.isDirectory == dir && TakesNumbers(r, m) && TakesProtection(env, r, m) && TakesPresence(r, m)
    && AcceptableLocator(m.locator, env.upper)
  }

  lemma TakenIsMember(env: Env, r: Fields, dir: bool, m: Member)
    ensures LockedRecordIsUsable(env, r) && LockedMemberOf(env, r, dir) == m <==> TakesAs(env, r, dir, m)
  {
    hide Get, Names, IsCanonicalNumber, NumberOf, AcceptableLocator, NonEmpty, LockedEncrypted;
    RequiredAre(r);
  }

  lemma ConstructibleFits(m: Member, upper: string -> string)
    requires ConstructibleMember(m, upper)
    ensures m.uncompressedBytes <= MAX_INT64 && m.compressedBytes <= MAX_INT64
    ensures AcceptableLocator(m.locator, upper)
  {
    hide SafeLocator;
  }

  /** A record is usable, and this member is its member, exactly when the member says what the record's lines say and
      its constructor takes it. */
  lemma UsableIffReads(env: Env, r: Fields, dir: bool, m: Member)
    requires Distinct(r)
    ensures Usable(env, r, dir) && LockedMemberOf(env, r, dir) == m
       <==> ReadsAs(env, r, dir, m) && ConstructibleMember(m, env.upper)
  {
    hide LockedRecordIsUsable, LockedMemberOf, TakesNumbers, TakesProtection, TakesPresence, ConstructibleMember,
         AcceptableLocator, Distinct, ReadsNumbers, ReadsProtection, ReadsPresence;
    if ConstructibleMember(m, env.upper) {
      ConstructibleFits(m, env.upper);
      NumbersAgree(r, m);
    }
    ProtectionAgrees(env, r, m);
    PresenceAgrees(r, m);
    TakenIsMember(env, r, dir, m);
  }

  lemma RequiredAre(r: Fields)
    ensures {"Path", "Size", "Packed Size"} <= Names(r)
       <==> Get(r, "Path").Some? && Get(r, "Size").Some? && Get(r, "Packed Size").Some?
  {
    hide Names;
  }

  // ---------- the listing and its members ----------

  /** The members are what the records' lines say, one each, and all of them are legal. */
  predicate AllRead(env: Env, records: seq<Fields>, dir: bool, ms: seq<Member>) {
    |ms| == |records| && forall i :: 0 <= i < |ms| ==>
      ReadsAs(env, records[i], dir, ms[i]) && ConstructibleMember(ms[i], env.upper)
  }

  /** The bytes encode a listing of these records, which spell out case c and no other and settle from the first of
      them on whether they are directories; the members are what the records say, and no two of them conflict. */
  ghost predicate ReadsCase(env: Env, table: CaseTable, bytes: seq<byte>, records: seq<Fields>, c: FormatCase,
                            ms: seq<Member>) {
    && 0 < |records| <= MAX_MEMBER_COUNT
    && OnlyCase(table, HashesOf(env, records), c)
    && Agrees(table, [HashOf(env, records[0])], c == Directory)
    && AllRead(env, records, c == Directory, ms) && ConflictFree(EntriesOf(env, ms))
    && exists bom, text, crs :: bytes == Encode(Mark(bom) + text) && BOM !in text && LockedListing(text, records, crs)
  }

  lemma OneIsRead(env: Env, r: Fields, dir: bool, m: Member)
    requires GoodFields(LockedScheme, r)
    ensures ReadsAs(env, r, dir, m) && ConstructibleMember(m, env.upper)
       <==> Usable(env, r, dir) && m == LockedMemberOf(env, r, dir)
  {
    hide GoodField, ReadsAs, ConstructibleMember, Distinct, LockedRecordIsUsable, LockedMemberOf;
    UsableIffReads(env, r, dir, m);
  }

  lemma AllReadIs(env: Env, records: seq<Fields>, dir: bool, ms: seq<Member>)
    requires GoodRecords(LockedScheme, records)
    ensures AllRead(env, records, dir, ms) <==> AllUsable(env, records, dir) && ms == LockedMembers(env, records, dir)
  {
    hide GoodFields, LockedRecordIsUsable, LockedMemberOf, ReadsAs, ConstructibleMember;
    if |ms| == |records| {
      forall i | 0 <= i < |ms|
        ensures ReadsAs(env, records[i], dir, ms[i]) && ConstructibleMember(ms[i], env.upper)
           <==> Usable(env, records[i], dir) && ms[i] == LockedMemberOf(env, records[i], dir)
      {
        OneIsRead(env, records[i], dir, ms[i]);
      }
    }
  }

  lemma ReadsCaseIs(env: Env, table: CaseTable, bytes: seq<byte>, records: seq<Fields>, c: FormatCase,
                    ms: seq<Member>)
    ensures ReadsCase(env, table, bytes, records, c, ms) <==> ListsCase(env, table, bytes, records, c, ms)
  {
    hide Encode, HashesOf, HashOf, OnlyCase, Agrees, AllRead, AllUsable, ConflictFree, LockedMembers, Body, GoodLines,
         GoodFields;
    if GoodRecords(LockedScheme, records) {
      AllReadIs(env, records, c == Directory, ms);
    }
  }

  /** The locked parse accepts exactly the encoded listings that spell out one case of the table, and reports of each
      record exactly what its lines say. */
  lemma LockedParsedIffRead(env: Env, table: CaseTable, bytes: seq<byte>, ms: seq<Member>, c: FormatCase)
    ensures (exists core :: ParseBytes(env, LockedForm, table, bytes) == Some(core) && core.members == ms
                            && c in table && core.candidates == map[c := table[c]])
       <==> (exists records :: ReadsCase(env, table, bytes, records, c, ms))
  {
    hide ParseBytes, ReadsCase, ListsCase;
    LockedParsedIffSpelled(env, table, bytes, ms, c);
    forall records
      ensures ReadsCase(env, table, bytes, records, c, ms) <==> ListsCase(env, table, bytes, records, c, ms)
    {
      ReadsCaseIs(env, table, bytes, records, c, ms);
    }
  }

  /** A record's lines say one thing only: two members it reads as are the same. */
  lemma ReadsAsOne(env: Env, r: Fields, dir: bool, m: Member, n: Member)
    requires Distinct(r) && ReadsAs(env, r, dir, m) && ReadsAs(env, r, dir, n)
    requires ConstructibleMember(m, env.upper) && ConstructibleMember(n, env.upper)
    ensures m == n
  {
    hide ReadsAs, ConstructibleMember, Distinct, Usable, LockedMemberOf;
    UsableIffReads(env, r, dir, m);
    UsableIffReads(env, r, dir, n);
  }

  // ---------- the result ----------

  /** The listed shapes of a case, field by field. */
  predicate ShapesFit(shapes: seq<SltResults.Shape>, ms: seq<Member>) {
    |shapes| == |ms| && forall i :: 0 <= i < |ms| ==> ShapeFits(shapes[i], ms[i])
  }

  predicate ShapeFits(s: SltResults.Shape, m: Member) {
    && (s.isDirectory <==> m.isDirectory) && (s.encrypted <==> m.encrypted) && (s.crc <==> m.crc32.Some?)
    && (s.symbolicLink <==> m.symbolicLink) && (s.hardLink <==> m.hardLink) && (s.user <==> m.userPresent)
    && (s.group <==> m.groupPresent) && (s.characteristics <==> m.characteristicsPresent)
    && (s.alternateStream <==> m.alternateStream) && (s.antiItem <==> m.antiItem)
  }

  lemma ShapesAre(shapes: seq<SltResults.Shape>, ms: seq<Member>)
    ensures shapes == ShapesOf(ms) <==> ShapesFit(shapes, ms)
  {
    if ShapesFit(shapes, ms) {
      forall i | 0 <= i < |ms| ensures shapes[i] == ShapeOf(ms[i]) {
        assert ShapeFits(shapes[i], ms[i]);
      }
    }
  }

  lemma AcceptedHasOneCandidate(env: Env, table: CaseTable, bytes: seq<byte>, core: Core) returns (c: FormatCase)
    requires ParseBytes(env, LockedForm, table, bytes) == Some(core)
    ensures c in table && core.candidates == map[c := table[c]]
  {
    hide ParseBytes, ParseText, Encode, LockedListing, HashesOf;
    BytesAreText(env, LockedForm, table, bytes, core);
    var bom, text :| bytes == Encode(Mark(bom) + text) && BOM !in text
                     && ParseText(env, LockedForm, table, text) == Ok(core);
    var records, crs;
    records, crs, c := LockedAcceptsOneCase(env, table, text);
  }

  lemma EndOfOneCandidate(table: CaseTable, shapes: map<FormatCase, seq<SltResults.Shape>>, core: Core, c: FormatCase)
    requires c in table && core.candidates == map[c := table[c]]
    requires core.members != [] && |core.members| == |table[c]| && |core.members| <= MAX_MEMBER_COUNT
    ensures LockedEnd(table, shapes, core)
         == if c in shapes && shapes[c] == ShapesOf(core.members) then Ok(LockedResult(c, core.members))
            else Refused(GrammarRejected)
  {
    hide ShapesOf;
    SingleCandidate(core.candidates, table, c);
  }

  lemma ReadCounts(env: Env, table: CaseTable, bytes: seq<byte>, records: seq<Fields>, c: FormatCase, ms: seq<Member>)
    requires ReadsCase(env, table, bytes, records, c, ms)
    ensures c in table && ms != [] && |ms| == |table[c]| && |ms| <= MAX_MEMBER_COUNT
  {
    hide LockedListing, Encode, ReadsAs, ConstructibleMember, Agrees, ConflictFree;
  }

  /** The locked parse yields a result exactly for the listings of one case whose shapes the members fit, and the result
      is that case with what its records say. */
  lemma LockedResultIffRead(env: Env, table: CaseTable, shapes: map<FormatCase, seq<SltResults.Shape>>,
                            bytes: seq<byte>, result: LockedResult)
    ensures ParseLocked(env, table, shapes, bytes) == Some(result)
       <==> (exists records :: ReadsCase(env, table, bytes, records, result.kind, result.members))
            && result.kind in shapes && ShapesFit(shapes[result.kind], result.members)
  {
    hide ParseBytes, ReadsCase, LockedEnd, ShapesFit, ShapesOf;
    LockedParsedIffRead(env, table, bytes, result.members, result.kind);
    if result.kind in shapes { ShapesAre(shapes[result.kind], result.members); }
    if ParseLocked(env, table, shapes, bytes) == Some(result) {
      var core := ParseBytes(env, LockedForm, table, bytes).value;
      var c := AcceptedHasOneCandidate(env, table, bytes, core);
      LockedParsedIffRead(env, table, bytes, core.members, c);
      var records :| ReadsCase(env, table, bytes, records, c, core.members);
      ReadCounts(env, table, bytes, records, c, core.members);
      EndOfOneCandidate(table, shapes, core, c);
    }
    if records :| ReadsCase(env, table, bytes, records, result.kind, result.members) {
      var core :| ParseBytes(env, LockedForm, table, bytes) == Some(core) && core.members == result.members
                  && result.kind in table && core.candidates == map[result.kind := table[result.kind]];
      ReadCounts(env, table, bytes, records, result.kind, result.members);
      EndOfOneCandidate(table, shapes, core, result.kind);
    }
  }
}
