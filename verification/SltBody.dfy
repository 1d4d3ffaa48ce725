/** The member part of a listing: records closed by blank lines, and the way back from accepted lines to records. */
module SltBody {
  import opened Locators
  import opened SltFields
  import opened SltMachine
  import opened SltRecords

  predicate InMemberLines(form: Form, core: Core) {
    form != HeaderForm || core.stage == InMembers
  }

  predicate GoodRecords(scheme: Scheme, records: seq<Fields>) {
    forall i :: 0 <= i < |records| ==> records[i] != [] && GoodFields(scheme, records[i])
  }

  function Body(records: seq<Fields>): (lines: seq<string>) {
    if records == [] then [] else RecordLines(records[0]) + [""] + Body(records[1..])
  }

  function CloseOne(env: Env, form: Form, core: Core, r: Fields): (q: Result<Core>) {
    match CloseRecord(env, form, core.(record := r, closed := false))
    case Refused(s) => Refused(s)
    case Ok(next) => Ok(next.(closed := true))
  }

  /** Close whole records one after another. */
  function CloseAll(env: Env, form: Form, core: Core, records: seq<Fields>): (q: Result<Core>)
    decreases |records|
  {
    if records == [] then Ok(core)
    else match CloseOne(env, form, core, records[0])
         case Refused(s) => Refused(s)
         case Ok(next) => CloseAll(env, form, next, records[1..])
  }

  function ContinueLines(env: Env, form: Form, r: Result<Core>, lines: seq<string>): (q: Result<Core>) {
    match r
    case Refused(_) => r
    case Ok(core) => AcceptLines(env, form, core, lines)
  }

  predicate Keeps(core: Core, q: Result<Core>) {
    q.Ok? ==> q.value.record == [] && q.value.stage == core.stage
              && q.value.header == core.header && q.value.headerClosed == core.headerClosed
  }

  lemma AppendKeeps(env: Env, core: Core, m: Member)
    ensures Keeps(core, Append(env, core, m))
  {
    hide ConstructibleMember, CanonicalKey, ParentChildConflict;
  }

  lemma CloseLockedKeeps(env: Env, core: Core)
    ensures Keeps(core, CloseLocked(env, core))
  {
    hide LockedRecordIsUsable, LockedMemberOf, Append, Narrow, AllDirectory, NoneDirectory, ClassesOf;
    var h := env.recordHash(ClassesOf(core.record));
    var candidates := Narrow(core.candidates, |core.hashes|, h);
    if LockedRecordIsUsable(env, core.record) {
      AppendKeeps(env, core.(candidates := candidates, hashes := core.hashes + [h]),
                  LockedMemberOf(env, core.record, AllDirectory(candidates)));
    }
  }

  lemma ClosePlainKeeps(env: Env, core: Core)
    ensures Keeps(core, ClosePlain(env, core))
  {
    hide AcceptableLocator, MemberOf, Append;
    if REQUIRED_FIELDS <= Names(core.record) {
      AppendKeeps(env, core, MemberOf(core.record));
    }
  }

  lemma CloseRecordKeeps(env: Env, form: Form, core: Core)
    ensures Keeps(core, CloseRecord(env, form, core))
  {
    hide CloseLocked, ClosePlain;
    CloseLockedKeeps(env, core);
    ClosePlainKeeps(env, core);
  }

  lemma CloseOneKeeps(env: Env, form: Form, core: Core, r: Fields)
    ensures var q := CloseOne(env, form, core, r);
            q.Ok? ==> q.value.record == [] && q.value.stage == core.stage && q.value.closed
                      && q.value.header == core.header && q.value.headerClosed == core.headerClosed
  {
    hide CloseRecord;
    CloseRecordKeeps(env, form, core.(record := r, closed := false));
  }

  // ---------- the parser follows records ----------

  lemma AcceptHead(env: Env, form: Form, core: Core, line: string, rest: seq<string>)
    ensures AcceptLines(env, form, core, [line] + rest)
         == ContinueLines(env, form, AcceptLine(env, form, core, line), rest)
  {
    hide AcceptLine;
    assert ([line] + rest)[1..] == rest;
  }

  lemma AcceptField(env: Env, form: Form, core: Core, f: Field)
    requires InMemberLines(form, core) && GoodFields(MemberSchemeOf(form), core.record + [f])
    ensures AcceptLine(env, form, core, LineOf(f)) == Ok(core.(record := core.record + [f], closed := false))
  {
    hide GoodField, AddField, CloseRecord;
    var r := core.record + [f];
    GoodPrefix(MemberSchemeOf(form), r, |core.record|);
    assert r[..|core.record|] == core.record && r[|core.record|] == f;
    AddsField(core.record, f, MemberSchemeOf(form));
    LineParts(f);
  }

  lemma {:induction false} AcceptFields(env: Env, form: Form, core: Core, r: Fields, k: nat, rest: seq<string>)
    requires InMemberLines(form, core) && GoodFields(MemberSchemeOf(form), r)
    requires k < |r| && core.record == r[..k]
    ensures AcceptLines(env, form, core, RecordLines(r)[k..] + rest)
         == AcceptLines(env, form, core.(record := r, closed := false), rest)
    decreases |r| - k
  {
    hide GoodField, AcceptLine, AcceptLines;
    var scheme, f := MemberSchemeOf(form), r[k];
    assert r[..k] + [f] == r[..k + 1];
    PrefixIsGood(scheme, r, k + 1);
    AcceptField(env, form, core, f);
    AcceptHead(env, form, core, LineOf(f), RecordLines(r)[k + 1..] + rest);
    assert RecordLines(r)[k..] + rest == [LineOf(f)] + (RecordLines(r)[k + 1..] + rest);
    if k + 1 < |r| {
      AcceptFields(env, form, core.(record := r[..k + 1], closed := false), r, k + 1, rest);
    } else {
      assert RecordLines(r)[k + 1..] + rest == rest;
      assert r[..k + 1] == r;
    }
  }

  lemma PrefixIsGood(scheme: Scheme, r: Fields, k: nat)
    requires GoodFields(scheme, r) && k <= |r|
    ensures GoodFields(scheme, r[..k])
  {
    hide GoodField;
  }

  lemma AcceptBlank(env: Env, form: Form, core: Core, r: Fields)
    requires InMemberLines(form, core) && r != []
    ensures AcceptLine(env, form, core.(record := r, closed := false), "") == CloseOne(env, form, core, r)
  {
    hide CloseRecord;
  }

  lemma AcceptRecord(env: Env, form: Form, core: Core, r: Fields, rest: seq<string>)
    requires InMemberLines(form, core) && core.record == []
    requires r != [] && GoodFields(MemberSchemeOf(form), r)
    ensures AcceptLines(env, form, core, RecordLines(r) + [""] + rest)
         == ContinueLines(env, form, CloseOne(env, form, core, r), rest)
  {
    hide GoodFields, AcceptLine, AcceptLines, CloseOne;
    AcceptFields(env, form, core, r, 0, [""] + rest);
    assert RecordLines(r)[0..] + ([""] + rest) == RecordLines(r) + [""] + rest;
    AcceptHead(env, form, core.(record := r, closed := false), "", rest);
    AcceptBlank(env, form, core, r);
  }

  /** Accepting the body of good records is closing them one after another. */
  lemma {:induction false} AcceptBody(env: Env, form: Form, core: Core, records: seq<Fields>, rest: seq<string>)
    requires InMemberLines(form, core) && core.record == []
    requires GoodRecords(MemberSchemeOf(form), records)
    ensures AcceptLines(env, form, core, Body(records) + rest)
         == ContinueLines(env, form, CloseAll(env, form, core, records), rest)
    decreases |records|
  {
    hide GoodFields, AcceptLines, CloseOne;
    if records == [] {
      assert Body(records) + rest == rest;
    } else {
      var r, more := records[0], Body(records[1..]) + rest;
      AcceptRecord(env, form, core, r, more);
      assert Body(records) + rest == RecordLines(r) + [""] + more;
      CloseOneKeeps(env, form, core, r);
      match CloseOne(env, form, core, r)
      case Refused(_) =>
      case Ok(next) => AcceptBody(env, form, next, records[1..], rest);
    }
  }

  // ---------- accepted lines are records ----------

  lemma LineCases(env: Env, form: Form, core: Core, line: string)
    requires InMemberLines(form, core) && AcceptLine(env, form, core, line).Ok?
    requires GoodFields(MemberSchemeOf(form), core.record) && (core.record != [] ==> !core.closed)
    ensures line == "" ==>
              core.record != [] && AcceptLine(env, form, core, line) == CloseOne(env, form, core, core.record)
    ensures line != "" ==>
              exists f :: line == LineOf(f) && GoodFields(MemberSchemeOf(form), core.record + [f])
                          && AcceptLine(env, form, core, line)
                                == Ok(core.(record := core.record + [f], closed := false))
  {
    hide GoodField, AddField, CloseRecord, GoodFields;
    if line == "" {
      assert core.(record := core.record, closed := false) == core;
    } else {
      var f := AddedField(core.record, line, MemberSchemeOf(form));
      GoodSnoc(MemberSchemeOf(form), core.record, f);
    }
  }

  lemma AcceptUncons(env: Env, form: Form, core: Core, lines: seq<string>, end: Core) returns (next: Core)
    requires lines != [] && AcceptLines(env, form, core, lines) == Ok(end)
    ensures AcceptLine(env, form, core, lines[0]) == Ok(next) && AcceptLines(env, form, next, lines[1..]) == Ok(end)
  {
    hide AcceptLine;
    next := AcceptLine(env, form, core, lines[0]).value;
  }

  lemma AcceptNone(env: Env, form: Form, core: Core)
    ensures AcceptLines(env, form, core, []) == Ok(core)
  {
  }

  lemma CloseFirst(env: Env, form: Form, core: Core, r: Fields, records: seq<Fields>, next: Core)
    requires CloseOne(env, form, core, r) == Ok(next)
    ensures CloseAll(env, form, core, [r] + records) == CloseAll(env, form, next, records)
    ensures Body([r] + records) == RecordLines(r) + [""] + Body(records)
  {
    hide CloseOne;
    assert ([r] + records)[1..] == records;
  }

  lemma RecordLinesSnoc(r: Fields, f: Field, rest: seq<string>)
    ensures RecordLines(r + [f]) + rest == RecordLines(r) + ([LineOf(f)] + rest)
  {
    assert RecordLines(r + [f]) == RecordLines(r) + [LineOf(f)];
  }

  lemma GoodCons(scheme: Scheme, r: Fields, records: seq<Fields>)
    requires r != [] && GoodFields(scheme, r) && GoodRecords(scheme, records)
    ensures GoodRecords(scheme, [r] + records)
  {
    hide GoodFields;
  }

  /** How a core that has begun a record compares with the one before the record. */
  function WithOpen(core: Core, last: Fields): (c: Core) {
    core.(record := last, closed := core.closed && last == [])
  }

  /** Accepted member lines are the bodies of good records and then the fields of one still open. */
  lemma {:induction false} RecoverRecords(env: Env, form: Form, core: Core, lines: seq<string>, end: Core)
    returns (records: seq<Fields>, last: Fields, c: Core)
    requires InMemberLines(form, core) && AcceptLines(env, form, core, lines) == Ok(end)
    requires GoodFields(MemberSchemeOf(form), core.record) && (core.record != [] ==> !core.closed)
    ensures RecordLines(core.record) + lines == Body(records) + RecordLines(last)
    ensures GoodRecords(MemberSchemeOf(form), records) && GoodFields(MemberSchemeOf(form), last)
    ensures CloseAll(env, form, core.(record := []), records) == Ok(c) && c.record == [] && end == WithOpen(c, last)
    decreases |lines|
  {
    hide GoodFields, AcceptLine, AcceptLines, CloseOne;
    var scheme := MemberSchemeOf(form);
    if lines == [] {
      AcceptNone(env, form, core);
      records, last, c := [], core.record, core.(record := []);
      assert RecordLines(core.record) + [] == [] + RecordLines(core.record);
    } else {
      var line, rest := lines[0], lines[1..];
      assert lines == [line] + rest;
      var next := AcceptUncons(env, form, core, lines, end);
      LineCases(env, form, core, line);
      if line == "" {
        RecoverAfterBlank(env, form, core, next);
        records, last, c := RecoverRecords(env, form, next, rest, end);
        CloseFirst(env, form, core.(record := []), core.record, records, next);
        GoodCons(scheme, core.record, records);
        BodyCons(core.record, rest, records, last);
        records := [core.record] + records;
      } else {
        var f :| line == LineOf(f) && GoodFields(scheme, core.record + [f])
                 && AcceptLine(env, form, core, line) == Ok(core.(record := core.record + [f], closed := false));
        records, last, c := RecoverRecords(env, form, next, rest, end);
        RecordLinesSnoc(core.record, f, rest);
        ClosedIsIrrelevant(env, form, core, next, records, last, c);
        if records == [] {
          c := core.(record := []);
        }
      }
    }
  }

  lemma BodyCons(r: Fields, rest: seq<string>, records: seq<Fields>, last: Fields)
    requires RecordLines([]) + rest == Body(records) + RecordLines(last)
    ensures RecordLines(r) + ([""] + rest) == Body([r] + records) + RecordLines(last)
  {
    hide RecordLines, Body;
    assert RecordLines([]) + rest == rest;
    BodyOfCons(r, records);
    assert RecordLines(r) + ([""] + (Body(records) + RecordLines(last)))
        == RecordLines(r) + [""] + Body(records) + RecordLines(last);
  }

  lemma BodyOfCons(r: Fields, records: seq<Fields>)
    ensures Body([r] + records) == RecordLines(r) + [""] + Body(records)
  {
    assert ([r] + records)[1..] == records;
  }

  lemma RecoverAfterBlank(env: Env, form: Form, core: Core, next: Core)
    requires InMemberLines(form, core) && CloseOne(env, form, core, core.record) == Ok(next)
    ensures InMemberLines(form, next) && next.record == [] && next.(record := []) == next
    ensures GoodFields(MemberSchemeOf(form), next.record)
    ensures CloseOne(env, form, core.(record := []), core.record) == Ok(next)
  {
    hide CloseRecord, GoodField;
    CloseOneKeeps(env, form, core, core.record);
    assert core.(record := []).(record := core.record, closed := false)
        == core.(record := core.record, closed := false);
  }

  lemma ClosedIsIrrelevant(env: Env, form: Form, core: Core, next: Core, records: seq<Fields>, last: Fields, c: Core)
    requires next == core.(record := next.record, closed := false) && next.record != []
    requires CloseAll(env, form, next.(record := []), records) == Ok(c)
    requires records == [] ==> last != []
    ensures records != [] ==> CloseAll(env, form, core.(record := []), records) == Ok(c)
    ensures records == [] ==> WithOpen(core.(record := []), last) == WithOpen(c, last)
  {
    hide CloseRecord;
  }
}
