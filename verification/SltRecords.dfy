/** Lines as records: a record's fields printed one per line, records closed by blank lines, and the way back. */
module SltRecords {
  import opened Prelude
  import opened Text
  import opened SltFields

  // ---------- one field ----------

  function LineOf(f: Field): (line: string) { f.name + " = " + f.value }

  predicate GoodField(scheme: Scheme, f: Field) {
    f.name in Allowed(scheme) && Stripped(f.value) && CheckValue(scheme, f) == Parsed
  }

  predicate PlainName(name: string) { name != "" && Stripped(name) && '=' !in name }

  lemma HeaderNames(name: string)
    requires name in HEADER_FIELDS
    ensures PlainName(name)
  {
  }

  lemma MemberNames(name: string)
    requires name in MEMBER_FIELDS
    ensures PlainName(name)
  {
  }

  lemma LockedNames(name: string)
    requires name in LOCKED_EXTRA_FIELDS
    ensures PlainName(name)
  {
  }

  lemma AllowedNames(scheme: Scheme, name: string)
    requires name in Allowed(scheme)
    ensures PlainName(name)
  {
    hide PlainName;
    match scheme
    case HeaderScheme => HeaderNames(name);
    case MemberScheme => MemberNames(name);
    case LockedScheme =>
      if name in LOCKED_EXTRA_FIELDS { LockedNames(name); } else { MemberNames(name); }
  }

  /** An allowed name holds no "=", so the line splits right behind it even when the value holds " = " again. */
  lemma SeparatorIsFirst(name: string, value: string)
    requires '=' !in name
    ensures FindSeparator(name + " = " + value) == Some(|name|)
  {
    var line := name + " = " + value;
    assert SeparatorAt(line, |name|);
    forall i: nat | i < |name|
      ensures !SeparatorAt(line, i)
    {
      if i + 1 < |name| {
        assert line[i + 1] == name[i + 1];
      } else {
        assert line[i + 1] == ' ';
      }
    }
  }

  lemma LineParts(f: Field)
    ensures LineOf(f)[..|f.name|] == f.name && LineOf(f)[|f.name| + 3..] == f.value
    ensures LineOf(f) != ""
  {
  }

  /** Reading the line of a good new field adds exactly that field. */
  lemma AddsField(record: Fields, f: Field, scheme: Scheme)
    requires GoodField(scheme, f) && f.name !in Names(record) && |record| < MAX_FIELDS_PER_RECORD
    ensures AddField(record, LineOf(f), scheme) == Ok(record + [f])
  {
    hide CheckValue, Allowed, FindSeparator;
    AllowedNames(scheme, f.name);
    SeparatorIsFirst(f.name, f.value);
    LineParts(f);
  }

  /** A line that adds a field is the line of that field, which is good and new. */
  lemma AddedField(record: Fields, line: string, scheme: Scheme) returns (f: Field)
    requires AddField(record, line, scheme).Ok?
    ensures line == LineOf(f) && AddField(record, line, scheme) == Ok(record + [f])
    ensures GoodField(scheme, f) && f.name !in Names(record) && |record| < MAX_FIELDS_PER_RECORD
  {
    hide CheckValue, Allowed;
    var i := FindSeparator(line).value;
    f := Field(line[..i], line[i + 3..]);
    assert SeparatorAt(line, i);
    assert line == line[..i] + " = " + line[i + 3..];
  }

  // ---------- one record ----------

  predicate Distinct(r: Fields) {
    forall i, j :: 0 <= i < j < |r| ==> r[i].name != r[j].name
  }

  predicate GoodFields(scheme: Scheme, r: Fields) {
    && (forall i :: 0 <= i < |r| ==> GoodField(scheme, r[i]))
    && Distinct(r)
    && |r| <= MAX_FIELDS_PER_RECORD
  }

  function RecordLines(r: Fields): (lines: seq<string>)
    ensures |lines| == |r| && forall i :: 0 <= i < |r| ==> lines[i] == LineOf(r[i])
  {
    seq(|r|, i requires 0 <= i < |r| => LineOf(r[i]))
  }

  lemma GoodPrefix(scheme: Scheme, r: Fields, k: nat)
    requires GoodFields(scheme, r) && k < |r|
    ensures GoodFields(scheme, r[..k]) && GoodField(scheme, r[k]) && r[k].name !in Names(r[..k])
  {
    hide GoodField;
  }

  lemma GoodSnoc(scheme: Scheme, r: Fields, f: Field)
    requires GoodFields(scheme, r) && GoodField(scheme, f) && f.name !in Names(r) && |r| < MAX_FIELDS_PER_RECORD
    ensures GoodFields(scheme, r + [f])
  {
    hide GoodField;
    var s := r + [f];
    forall i, j | 0 <= i < j < |s|
      ensures s[i].name != s[j].name
    {
      if j == |r| {
        assert s[i].name in Names(r);
      }
    }
  }

  lemma {:induction false} NamesCount(r: Fields)
    requires Distinct(r)
    ensures |Names(r)| == |r|
    decreases |r|
  {
    if r != [] {
      var front, last := r[..|r| - 1], r[|r| - 1];
      NamesCount(front);
      assert Names(r) == Names(front) + {last.name};
    }
  }

  lemma SubsetCount<T>(a: set<T>, b: set<T>)
    requires a <= b
    ensures |a| <= |b|
    decreases |b|
  {
    if a != {} {
      var x :| x in a;
      SubsetCount(a - {x}, b - {x});
    }
  }

  lemma HeaderCount()
    ensures |HEADER_FIELDS| <= 13
  {
  }

  lemma MemberCount()
    ensures |MEMBER_FIELDS| <= 23
  {
    var some := {"Path", "Folder", "Size", "Packed Size", "Modified", "Created", "Accessed", "Attributes", "Encrypted",
                 "CRC", "Method"};
    var more := {"Block", "Characteristics", "Host OS", "Version", "Volume Index", "Offset", "Symbolic Link",
                 "Hard Link", "User", "Group", "Alternate Stream", "Anti"};
    assert |some| <= 11 && |more| <= 12;
    assert |some + more| <= |some| + |more|;
    assert MEMBER_FIELDS == some + more;
  }

  lemma CountOf(scheme: Scheme)
    requires scheme != LockedScheme
    ensures |Allowed(scheme)| <= 23
  {
    hide HEADER_FIELDS, MEMBER_FIELDS;
    HeaderCount();
    MemberCount();
  }

  /** In the plain schemes distinct allowed names number at most 23, so the field count limit cannot fire. */
  lemma PlainFieldCount(scheme: Scheme, r: Fields)
    requires scheme != LockedScheme && Distinct(r)
    requires forall i :: 0 <= i < |r| ==> GoodField(scheme, r[i])
    ensures |r| <= 23
  {
    hide Allowed, CheckValue;
    NamesCount(r);
    CountOf(scheme);
    forall n | n in Names(r)
      ensures n in Allowed(scheme)
    {
      var i :| 0 <= i < |r| && r[i].name == n;
      assert GoodField(scheme, r[i]);
    }
    SubsetCount(Names(r), Allowed(scheme));
  }
}
