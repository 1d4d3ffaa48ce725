/**
What the plain forms make of good records: the members they denote, subject to shape, count and the pairwise conflict
rule, and never a member its own constructor would refuse.
*/
module SltMembers {
  import opened PolicyLimits
  import opened Locators
  import opened SltFields
  import opened SltMachine
  import opened SltRecords
  import opened SltBody

  /** The required names are there and the path is short and safe. */
  predicate GoodShape(env: Env, r: Fields) {
    REQUIRED_FIELDS <= Names(r) && AcceptableLocator(Value(r, "Path"), env.upper)
  }

  predicate GoodShapes(env: Env, records: seq<Fields>) {
    forall i :: 0 <= i < |records| ==> GoodShape(env, records[i])
  }

  /** No value holds a control character or a byte-order mark, as in any text that reaches the record layer. */
  predicate CleanRecord(r: Fields) {
    forall i :: 0 <= i < |r| ==> NoControls(r[i].value) && BOM !in r[i].value
  }

  predicate CleanRecords(records: seq<Fields>) {
    forall i :: 0 <= i < |records| ==> CleanRecord(records[i])
  }

  function MembersOf(records: seq<Fields>): (ms: seq<Member>)
    requires forall i :: 0 <= i < |records| ==> REQUIRED_FIELDS <= Names(records[i])
    ensures |ms| == |records| && forall i :: 0 <= i < |ms| ==> ms[i] == MemberOf(records[i])
  {
    seq(|records|, i requires 0 <= i < |records| => MemberOf(records[i]))
  }

  function EntryOf(env: Env, m: Member): (e: Entry) {
    Entry(CanonicalKey(env, m.locator), m.isDirectory)
  }

  function EntriesOf(env: Env, ms: seq<Member>): (es: seq<Entry>)
    ensures |es| == |ms| && forall i :: 0 <= i < |es| ==> es[i] == EntryOf(env, ms[i])
  {
    seq(|ms|, i requires 0 <= i < |ms| => EntryOf(env, ms[i]))
  }

  lemma {:induction false} GetIsField(r: Fields, name: string)
    requires Get(r, name).Some?
    ensures exists i :: 0 <= i < |r| && r[i] == Field(name, Get(r, name).value)
  {
    if r[0].name != name {
      GetIsField(r[1..], name);
      var i :| 0 <= i < |r[1..]| && r[1..][i] == Field(name, Get(r[1..], name).value);
      assert r[i + 1] == Field(name, Get(r, name).value);
    } else {
      assert r[0] == Field(name, Get(r, name).value);
    }
  }

  lemma GoodValue(scheme: Scheme, r: Fields, name: string)
    requires GoodFields(scheme, r) && CleanRecord(r) && Get(r, name).Some?
    ensures var v := Get(r, name).value; GoodField(scheme, Field(name, v)) && NoControls(v) && BOM !in v
  {
    hide GoodField, NoControls;
    GetIsField(r, name);
    var i :| 0 <= i < |r| && r[i] == Field(name, Get(r, name).value);
    assert GoodField(scheme, r[i]);
  }

  lemma GoodNumber(name: string, value: string)
    requires GoodField(MemberScheme, Field(name, value)) && name in {"Size", "Packed Size"}
    ensures NumberOf(value) <= MAX_INT64
  {
    assert name in NUMBER_FIELDS;
  }

  lemma GoodCrc(value: string)
    requires GoodField(MemberScheme, Field("CRC", value))
    ensures IsCrc(value)
  {
  }

  lemma GoodPath(env: Env, path: string)
    requires GoodField(MemberScheme, Field("Path", path)) && NoControls(path) && BOM !in path
    requires AcceptableLocator(path, env.upper)
    ensures BoundedText(path, MAX_MEMBER_PATH_CODEPOINTS, MAX_MEMBER_PATH_UTF8_BYTES)
  {
    hide CheckValue, SafeSegment;
  }

  lemma HasRequired(r: Fields)
    requires REQUIRED_FIELDS <= Names(r)
    ensures "Path" in Names(r) && "Size" in Names(r) && "Packed Size" in Names(r)
  {
    hide Names;
    assert "Path" in REQUIRED_FIELDS && "Size" in REQUIRED_FIELDS && "Packed Size" in REQUIRED_FIELDS;
  }

  lemma NumberInRange(r: Fields, name: string)
    requires GoodFields(MemberScheme, r) && CleanRecord(r) && name in Names(r) && name in {"Size", "Packed Size"}
    ensures NumberOf(Value(r, name)) <= MAX_INT64
  {
    hide GoodFields, CleanRecord, GoodField, NumberOf;
    GoodValue(MemberScheme, r, name);
    GoodNumber(name, Value(r, name));
  }

  lemma CrcIsCrc(r: Fields)
    requires GoodFields(MemberScheme, r) && CleanRecord(r)
    ensures Get(r, "CRC").Some? ==> IsCrc(Get(r, "CRC").value)
  {
    hide GoodFields, CleanRecord, GoodField, IsCrc;
    if Get(r, "CRC").Some? {
      GoodValue(MemberScheme, r, "CRC");
      GoodCrc(Value(r, "CRC"));
    }
  }

  lemma PathIsBounded(env: Env, r: Fields)
    requires GoodFields(MemberScheme, r) && CleanRecord(r) && "Path" in Names(r)
    requires AcceptableLocator(Value(r, "Path"), env.upper)
    ensures BoundedText(Value(r, "Path"), MAX_MEMBER_PATH_CODEPOINTS, MAX_MEMBER_PATH_UTF8_BYTES)
  {
    hide GoodFields, CleanRecord, GoodField, BoundedText, AcceptableLocator;
    GoodValue(MemberScheme, r, "Path");
    GoodPath(env, Value(r, "Path"));
  }

  lemma AcceptableIsSafe(path: string, upper: string -> string)
    requires AcceptableLocator(path, upper)
    ensures SafeLocator(path, upper)
  {
    hide SafeLocator;
  }

  /** The state machine never builds a member its constructor refuses. */
  lemma MemberIsConstructible(env: Env, r: Fields)
    requires GoodFields(MemberScheme, r) && CleanRecord(r) && GoodShape(env, r)
    ensures ConstructibleMember(MemberOf(r), env.upper)
  {
    hide GoodFields, CleanRecord, AcceptableLocator, BoundedText, SafeLocator, NumberOf, IsCrc, Names, Get;
    HasRequired(r);
    PathIsBounded(env, r);
    AcceptableIsSafe(Value(r, "Path"), env.upper);
    NumberInRange(r, "Size");
    NumberInRange(r, "Packed Size");
    CrcIsCrc(r);
  }

  lemma NoComment(r: Fields)
    requires GoodFields(MemberScheme, r)
    ensures "Comment" !in Names(r)
  {
    hide CheckValue;
    forall i | 0 <= i < |r|
      ensures r[i].name != "Comment"
    {
      assert GoodField(MemberScheme, r[i]);
    }
  }

  /** A core whose locator map is the map of its conflict-free members. */
  predicate Consistent(env: Env, core: Core) {
    && ConflictFree(EntriesOf(env, core.members))
    && MapOf(core.keys, EntriesOf(env, core.members))
    && |core.members| <= MAX_MEMBER_COUNT
  }

  lemma AppendIsPairwise(env: Env, core: Core, m: Member)
    requires Consistent(env, core) && ConstructibleMember(m, env.upper)
    ensures Append(env, core, m).Ok?
       <==> |core.members| < MAX_MEMBER_COUNT && ConflictFree(EntriesOf(env, core.members + [m]))
    ensures Append(env, core, m).Ok? ==>
              var c := Append(env, core, m).value; c.members == core.members + [m] && Consistent(env, c)
  {
    hide ConflictFree, MapOf, ParentChildConflict, CanonicalKey, ConstructibleMember;
    CheckIsPairwise(EntriesOf(env, core.members), EntryOf(env, m), core.keys);
    assert EntriesOf(env, core.members + [m]) == EntriesOf(env, core.members) + [EntryOf(env, m)];
  }

  lemma ClosePlainIs(env: Env, core: Core)
    requires GoodFields(MemberScheme, core.record)
    ensures ClosePlain(env, core).Ok? ==> GoodShape(env, core.record)
    ensures GoodShape(env, core.record) ==> ClosePlain(env, core) == Append(env, core, MemberOf(core.record))
  {
    hide AcceptableLocator, MemberOf, Append, GoodFields;
    NoComment(core.record);
  }

  lemma CloseOneIsPairwise(env: Env, form: Form, core: Core, r: Fields)
    requires form != LockedForm && Consistent(env, core)
    requires GoodFields(MemberScheme, r) && CleanRecord(r)
    ensures CloseOne(env, form, core, r).Ok? ==> GoodShape(env, r)
    ensures GoodShape(env, r) ==>
              (CloseOne(env, form, core, r).Ok?
               <==> |core.members| < MAX_MEMBER_COUNT && ConflictFree(EntriesOf(env, core.members + [MemberOf(r)])))
    ensures CloseOne(env, form, core, r).Ok? ==>
              var c := CloseOne(env, form, core, r).value;
              c.members == core.members + [MemberOf(r)] && Consistent(env, c)
  {
    hide ClosePlain, GoodShape, Append, ConflictFree, MapOf, MemberOf, GoodFields, CleanRecord, ConstructibleMember;
    var open := core.(record := r, closed := false);
    ClosePlainIs(env, open);
    if GoodShape(env, r) {
      MemberIsConstructible(env, r);
      ShapeHasNames(env, r);
      AppendIsPairwise(env, open, MemberOf(r));
    }
  }

  lemma ShapeHasNames(env: Env, r: Fields)
    requires GoodShape(env, r)
    ensures REQUIRED_FIELDS <= Names(r)
  {
    hide AcceptableLocator;
  }

  lemma ShapesHaveNames(env: Env, records: seq<Fields>)
    requires GoodShapes(env, records)
    ensures forall i :: 0 <= i < |records| ==> REQUIRED_FIELDS <= Names(records[i])
  {
    hide GoodShape;
    forall i | 0 <= i < |records| ensures REQUIRED_FIELDS <= Names(records[i]) {
      assert GoodShape(env, records[i]);
      ShapeHasNames(env, records[i]);
    }
  }

  lemma PrefixConflictFree(a: seq<Entry>, b: seq<Entry>)
    requires ConflictFree(a + b)
    ensures ConflictFree(a)
  {
    hide Compatible;
    forall i, j | 0 <= i < j < |a| ensures Compatible(a[i], a[j]) {
      assert (a + b)[i] == a[i] && (a + b)[j] == a[j];
    }
  }

  /** The members of records all of good shape. */
  function DenotedBy(env: Env, records: seq<Fields>): (ms: seq<Member>)
    requires GoodShapes(env, records)
    ensures |ms| == |records|
  {
    ShapesHaveNames(env, records);
    MembersOf(records)
  }

  lemma ShapesUncons(env: Env, r: Fields, records: seq<Fields>)
    requires GoodShapes(env, [r] + records)
    ensures GoodShape(env, r) && GoodShapes(env, records)
  {
    hide GoodShape;
    assert ([r] + records)[0] == r;
    forall i | 0 <= i < |records| ensures GoodShape(env, records[i]) {
      assert ([r] + records)[i + 1] == records[i];
    }
  }

  lemma MembersHead(r: Fields, records: seq<Fields>)
    requires REQUIRED_FIELDS <= Names(r)
    requires forall i :: 0 <= i < |records| ==> REQUIRED_FIELDS <= Names(records[i])
    ensures forall i :: 0 <= i < |[r] + records| ==> REQUIRED_FIELDS <= Names(([r] + records)[i])
    ensures MembersOf([r] + records) == [MemberOf(r)] + MembersOf(records)
  {
    hide REQUIRED_FIELDS, Names, MemberOf;
    var all := [r] + records;
    forall i | 0 <= i < |all| ensures REQUIRED_FIELDS <= Names(all[i]) {
      if i > 0 { assert all[i] == records[i - 1]; }
    }
    assert MembersOf(all)[0] == MemberOf(r);
  }

  lemma DenotedHead(env: Env, r: Fields, records: seq<Fields>)
    requires GoodShapes(env, [r] + records) && GoodShapes(env, records) && REQUIRED_FIELDS <= Names(r)
    ensures DenotedBy(env, [r] + records) == [MemberOf(r)] + DenotedBy(env, records)
  {
    hide GoodShapes, MemberOf, Names, MembersOf, REQUIRED_FIELDS;
    ShapesHaveNames(env, records);
    MembersHead(r, records);
  }

  lemma DenotedCons(env: Env, r: Fields, records: seq<Fields>, before: seq<Member>)
    requires GoodShapes(env, [r] + records)
    ensures GoodShape(env, r) && GoodShapes(env, records) && REQUIRED_FIELDS <= Names(r)
    ensures before + DenotedBy(env, [r] + records) == before + [MemberOf(r)] + DenotedBy(env, records)
  {
    hide GoodShape, GoodShapes, MemberOf, Names, DenotedBy;
    ShapesUncons(env, r, records);
    ShapeHasNames(env, r);
    DenotedHead(env, r, records);
  }

  lemma ShapesCons(env: Env, r: Fields, records: seq<Fields>)
    requires GoodShape(env, r) && GoodShapes(env, records)
    ensures GoodShapes(env, [r] + records)
  {
    hide GoodShape;
  }

  lemma EntriesAppend(env: Env, a: seq<Member>, b: seq<Member>)
    ensures EntriesOf(env, a + b) == EntriesOf(env, a) + EntriesOf(env, b)
  {
    hide EntryOf;
  }

  /** What closing the records in turn must meet, said of the records alone. */
  predicate Acceptable(env: Env, core: Core, records: seq<Fields>) {
    && GoodShapes(env, records)
    && |core.members| + |records| <= MAX_MEMBER_COUNT
    && ConflictFree(EntriesOf(env, core.members + DenotedBy(env, records)))
  }

  /** Closing records in turn succeeds exactly when each has good shape, they are few enough and no two conflict; and
      then the members are the ones they denote, in order. */
  lemma {:induction false} CloseAllIsPairwise(env: Env, form: Form, core: Core, records: seq<Fields>)
    requires form != LockedForm && Consistent(env, core)
    requires GoodRecords(MemberScheme, records) && CleanRecords(records)
    ensures CloseAll(env, form, core, records).Ok? <==> Acceptable(env, core, records)
    ensures Acceptable(env, core, records) ==>
              var c := CloseAll(env, form, core, records).value;
              c.members == core.members + DenotedBy(env, records) && Consistent(env, c)
    decreases |records|
  {
    hide GoodShape, ConflictFree, MapOf, MemberOf, GoodFields, CleanRecord, CloseOne;
    if records == [] {
      assert core.members + DenotedBy(env, records) == core.members;
    } else {
      var r, rest := records[0], records[1..];
      assert records == [r] + rest;
      CloseOneIsPairwise(env, form, core, r);
      if CloseOne(env, form, core, r).Ok? {
        var c := CloseOne(env, form, core, r).value;
        CloseAllIsPairwise(env, form, c, rest);
        ShapeHasNames(env, r);
        StepForward(env, core, r, rest, c);
      } else if GoodShapes(env, records) {
        DenotedCons(env, r, rest, core.members);
        EntriesAppend(env, core.members + [MemberOf(r)], DenotedBy(env, rest));
        if ConflictFree(EntriesOf(env, core.members + DenotedBy(env, records))) {
          PrefixConflictFree(EntriesOf(env, core.members + [MemberOf(r)]), EntriesOf(env, DenotedBy(env, rest)));
        }
      }
    }
  }

  lemma StepForward(env: Env, core: Core, r: Fields, rest: seq<Fields>, c: Core)
    requires GoodShape(env, r) && REQUIRED_FIELDS <= Names(r) && c.members == core.members + [MemberOf(r)]
    ensures Acceptable(env, c, rest) <==> Acceptable(env, core, [r] + rest)
    ensures Acceptable(env, c, rest) ==>
              c.members + DenotedBy(env, rest) == core.members + DenotedBy(env, [r] + rest)
  {
    hide GoodShape, MemberOf, ConflictFree;
    if GoodShapes(env, rest) {
      ShapesCons(env, r, rest);
    }
    if GoodShapes(env, [r] + rest) {
      DenotedCons(env, r, rest, core.members);
    }
  }
}
