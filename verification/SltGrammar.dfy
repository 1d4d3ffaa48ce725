/**
The declarative grammar of a headerless listing and the theorem that the v2 parser accepts exactly it: lines ended by
LF or CR LF, records of distinct allowed fields each closed by a blank line, every record a member of good shape, no two
members in conflict.
*/
module SltGrammar {
  import opened Prelude
  import opened PolicyLimits
  import opened Utf8
  import opened Locators
  import opened SltFields
  import opened SltMachine
  import opened SltDriver
  import opened SltLines
  import opened SltRecords
  import opened SltBody
  import opened SltMembers

  // ---------- clean values ----------

  lemma {:induction false} BomInLine(lines: seq<string>, crs: seq<bool>, i: nat)
    requires |crs| == |lines| && i < |lines| && BOM in lines[i]
    ensures BOM in JoinLines(lines, crs)
    decreases |lines|
  {
    if i > 0 {
      BomInLine(lines[1..], crs[1..], i - 1);
    }
  }

  lemma ValueIsClean(f: Field)
    requires GoodLine(LineOf(f)) && BOM !in LineOf(f)
    ensures NoControls(f.value) && BOM !in f.value
  {
    var line, n := LineOf(f), |f.name| + 3;
    forall i | 0 <= i < |f.value|
      ensures !IsControl(f.value[i]) && f.value[i] != BOM
    {
      assert line[n + i] == f.value[i];
      assert !IsControl(line[n + i]);
      assert line[n + i] in line;
    }
  }

  predicate CleanLines(lines: seq<string>) {
    forall i :: 0 <= i < |lines| ==> GoodLine(lines[i]) && BOM !in lines[i]
  }

  lemma LinesAreClean(lines: seq<string>, crs: seq<bool>)
    requires |crs| == |lines| && GoodLines(lines) && BOM !in JoinLines(lines, crs)
    ensures CleanLines(lines)
  {
    hide GoodLine, JoinLines;
    forall i | 0 <= i < |lines| ensures BOM !in lines[i] {
      if BOM in lines[i] {
        BomInLine(lines, crs, i);
      }
    }
  }

  lemma RecordIsClean(r: Fields)
    requires CleanLines(RecordLines(r))
    ensures CleanRecord(r)
  {
    hide GoodLine, NoControls, LineOf;
    forall i | 0 <= i < |r| ensures NoControls(r[i].value) && BOM !in r[i].value {
      assert RecordLines(r)[i] == LineOf(r[i]);
      ValueIsClean(r[i]);
    }
  }

  lemma CleanParts(a: seq<string>, b: seq<string>)
    requires CleanLines(a + b)
    ensures CleanLines(a) && CleanLines(b)
  {
    hide GoodLine;
    forall i | 0 <= i < |a| ensures GoodLine(a[i]) && BOM !in a[i] { assert (a + b)[i] == a[i]; }
    forall i | 0 <= i < |b| ensures GoodLine(b[i]) && BOM !in b[i] { assert (a + b)[|a| + i] == b[i]; }
  }

  lemma {:induction false} BodyIsClean(records: seq<Fields>)
    requires CleanLines(Body(records))
    ensures CleanRecords(records)
  {
    hide CleanRecord, CleanLines;
    if records != [] {
      CleanParts(RecordLines(records[0]) + [""], Body(records[1..]));
      CleanParts(RecordLines(records[0]), [""]);
      RecordIsClean(records[0]);
      BodyIsClean(records[1..]);
      forall i | 0 <= i < |records| ensures CleanRecord(records[i]) {
        if i > 0 { assert records[i] == records[1..][i - 1]; }
      }
    }
  }

  // ---------- the headerless listing ----------

  /** Records that make a listing: good fields, good shapes, few enough, no two members in conflict. */
  predicate GoodListing(env: Env, records: seq<Fields>) {
    && GoodRecords(MemberScheme, records)
    && GoodShapes(env, records)
    && |records| <= MAX_MEMBER_COUNT
    && ConflictFree(EntriesOf(env, DenotedBy(env, records)))
  }

  /** text is the listing of records, line i ended by CR LF when crs[i]. */
  predicate MemberListing(env: Env, text: string, records: seq<Fields>, crs: seq<bool>) {
    && GoodListing(env, records)
    && |crs| == |Body(records)|
    && text == JoinLines(Body(records), crs)
    && GoodLines(Body(records))
    && BOM !in text
  }

  function ParseText(env: Env, form: Form, table: CaseTable, text: string): (r: Result<Core>) {
    match FeedText(env, form, StartMachine(form, table), text)
    case Refused(s) => Refused(s)
    case Ok(m) => Finish(env, form, m)
  }

  lemma StartIsConsistent(env: Env, form: Form, table: CaseTable)
    ensures Consistent(env, StartCore(form, table))
  {
  }

  lemma AcceptableIsListing(env: Env, form: Form, table: CaseTable, records: seq<Fields>)
    ensures Acceptable(env, StartCore(form, table), records)
       <==> GoodShapes(env, records) && |records| <= MAX_MEMBER_COUNT
            && ConflictFree(EntriesOf(env, DenotedBy(env, records)))
  {
    hide ConflictFree, GoodShape, MemberOf;
    if GoodShapes(env, records) {
      assert [] + DenotedBy(env, records) == DenotedBy(env, records);
    }
  }

  lemma EmptyDenoted(ms: seq<Member>)
    ensures [] + ms == ms
  {
  }

  function FinishLines(env: Env, form: Form, r: Result<Core>): (q: Result<Core>) {
    match r
    case Refused(_) => r
    case Ok(core) => FinishCore(env, form, core)
  }

  lemma FeedDocument(env: Env, form: Form, table: CaseTable, lines: seq<string>, crs: seq<bool>)
    requires |crs| == |lines| && GoodLines(lines)
    ensures ParseText(env, form, table, JoinLines(lines, crs))
         == FinishLines(env, form, AcceptLines(env, form, StartCore(form, table), lines))
  {
    hide AcceptLines, FeedText, FinishCore, JoinLines, GoodLine;
    FeedLines(env, form, StartCore(form, table), lines, crs);
  }

  /** An accepted text has nothing pending at its end, so it is whole good lines. */
  lemma RecoverDocument(env: Env, form: Form, table: CaseTable, text: string)
    returns (lines: seq<string>, crs: seq<bool>, core: Core)
    requires ParseText(env, form, table, text).Ok?
    ensures |crs| == |lines| && GoodLines(lines) && text == JoinLines(lines, crs)
    ensures AcceptLines(env, form, StartCore(form, table), lines) == Ok(core)
    ensures ParseText(env, form, table, text) == FinishCore(env, form, core)
  {
    hide AcceptLines, FeedText, FinishCore, JoinLines, GoodLine;
    var start := StartMachine(form, table);
    var end := FeedText(env, form, start, text).value;
    lines, crs := RecoverLines(env, form, start, text, end);
    assert Pending(start) + text == text;
    core := end.core;
  }

  lemma BodyIsParsed(env: Env, table: CaseTable, records: seq<Fields>, crs: seq<bool>, end: Core)
    requires GoodRecords(MemberScheme, records) && |crs| == |Body(records)| && GoodLines(Body(records))
    requires CloseAll(env, MemberForm, StartCore(MemberForm, table), records) == Ok(end)
    ensures ParseText(env, MemberForm, table, JoinLines(Body(records), crs)) == Ok(end)
  {
    hide GoodRecords, JoinLines, GoodLines, AcceptLines, CloseAll, ParseText, Body, FinishCore;
    var core := StartCore(MemberForm, table);
    FeedDocument(env, MemberForm, table, Body(records), crs);
    AcceptBody(env, MemberForm, core, records, []);
    assert Body(records) + [] == Body(records);
    AcceptNone(env, MemberForm, end);
    FinishesAfterBody(env, core, records, end);
  }

  /** Every listing parses, to the members it denotes. */
  lemma ListingIsParsed(env: Env, table: CaseTable, text: string, records: seq<Fields>, crs: seq<bool>)
    requires MemberListing(env, text, records, crs)
    ensures ParseText(env, MemberForm, table, text).Ok?
    ensures ParseText(env, MemberForm, table, text).value.members == DenotedBy(env, records)
  {
    hide GoodRecords, GoodShapes, ConflictFree, JoinLines, GoodLines, CloseAll, CleanRecords, CleanLines,
         Consistent, DenotedBy, ParseText, Body;
    LinesAreClean(Body(records), crs);
    BodyIsClean(records);
    StartIsConsistent(env, MemberForm, table);
    AcceptableIsListing(env, MemberForm, table, records);
    CloseAllIsPairwise(env, MemberForm, StartCore(MemberForm, table), records);
    BodyIsParsed(env, table, records, crs, CloseAll(env, MemberForm, StartCore(MemberForm, table), records).value);
    EmptyDenoted(DenotedBy(env, records));
  }

  lemma {:induction false} ClosedAfterBody(env: Env, form: Form, core: Core, records: seq<Fields>, end: Core)
    requires CloseAll(env, form, core, records) == Ok(end)
    ensures records != [] ==> end.closed && end.record == []
    ensures end.stage == core.stage && end.header == core.header && end.headerClosed == core.headerClosed
    decreases |records|
  {
    hide CloseOne;
    if records != [] {
      CloseOneKeeps(env, form, core, records[0]);
      ClosedAfterBody(env, form, CloseOne(env, form, core, records[0]).value, records[1..], end);
    }
  }

  lemma FinishesAfterBody(env: Env, core: Core, records: seq<Fields>, end: Core)
    requires CloseAll(env, MemberForm, core, records) == Ok(end)
    requires core.record == [] && core.members == []
    ensures FinishCore(env, MemberForm, end) == Ok(end)
  {
    hide CloseOne;
    ClosedAfterBody(env, MemberForm, core, records, end);
  }

  lemma NoFieldsAreGood(scheme: Scheme)
    ensures GoodFields(scheme, [])
  {
  }

  lemma BodyAlone(records: seq<Fields>, lines: seq<string>)
    requires RecordLines([]) + lines == Body(records) + RecordLines([])
    ensures lines == Body(records)
  {
    hide Body;
    assert RecordLines([]) + lines == lines && Body(records) + RecordLines([]) == Body(records);
  }

  lemma MemberFormFinish(env: Env, end: Core)
    requires FinishCore(env, MemberForm, end).Ok?
    ensures end.record == [] && FinishCore(env, MemberForm, end) == Ok(end)
  {
  }

  /** Lines accepted up to an end of input the member form takes are the body of good records. */
  lemma LinesAreBody(env: Env, table: CaseTable, lines: seq<string>, end: Core) returns (records: seq<Fields>)
    requires AcceptLines(env, MemberForm, StartCore(MemberForm, table), lines) == Ok(end)
    requires FinishCore(env, MemberForm, end).Ok?
    ensures lines == Body(records) && GoodRecords(MemberScheme, records)
    ensures CloseAll(env, MemberForm, StartCore(MemberForm, table), records) == Ok(end)
    ensures FinishCore(env, MemberForm, end) == Ok(end)
  {
    hide GoodRecords, AcceptLines, CloseAll, GoodFields, Body, RecordLines, FinishCore;
    MemberFormFinish(env, end);
    var core := StartCore(MemberForm, table);
    NoFieldsAreGood(MemberScheme);
    var last, c;
    records, last, c := RecoverRecords(env, MemberForm, core, lines, end);
    assert last == [] && end == c;
    BodyAlone(records, lines);
    assert core.(record := []) == core;
  }

  /** Every text that parses without a byte-order mark is the listing of some records, with those members. */
  lemma ParsedIsListing(env: Env, table: CaseTable, text: string) returns (records: seq<Fields>, crs: seq<bool>)
    requires BOM !in text && ParseText(env, MemberForm, table, text).Ok?
    ensures MemberListing(env, text, records, crs)
    ensures ParseText(env, MemberForm, table, text).value.members == DenotedBy(env, records)
  {
    hide GoodRecords, GoodShapes, ConflictFree, JoinLines, GoodLines, AcceptLines, CloseAll, CleanRecords, CleanLines,
         Consistent, DenotedBy, ParseText, FinishCore, Body;
    var core := StartCore(MemberForm, table);
    var lines, end;
    lines, crs, end := RecoverDocument(env, MemberForm, table, text);
    records := LinesAreBody(env, table, lines, end);
    LinesAreClean(lines, crs);
    BodyIsClean(records);
    StartIsConsistent(env, MemberForm, table);
    AcceptableIsListing(env, MemberForm, table, records);
    CloseAllIsPairwise(env, MemberForm, core, records);
    EmptyDenoted(DenotedBy(env, records));
  }

  // ---------- bytes ----------

  function Mark(bom: bool): (s: string) { if bom then [BOM] else "" }

  lemma MarkDrops(bom: bool, text: string)
    requires BOM !in text
    ensures DropBom(Mark(bom) + text) == text
  {
  }

  lemma DropLeavesMark(whole: string) returns (bom: bool)
    ensures whole == Mark(bom) + DropBom(whole)
  {
    bom := whole != "" && whole[0] == BOM;
  }

  /** Parsing bytes is parsing the text they encode, after at most one leading byte-order mark. */
  lemma BytesAreText(env: Env, form: Form, table: CaseTable, bytes: seq<byte>, core: Core)
    ensures ParseBytes(env, form, table, bytes) == Some(core)
       <==> exists bom, text :: bytes == Encode(Mark(bom) + text) && BOM !in text
                               && (form == HeaderForm ==> Mark(bom) + text != "")
                               && ParseText(env, form, table, text) == Ok(core)
  {
    hide FeedText, Finish, StartMachine, Decode, Encode;
    if ParseBytes(env, form, table, bytes) == Some(core) {
      var whole := Decode([], bytes).text;
      DecodeIffEncoded(bytes, whole);
      var bom := DropLeavesMark(whole);
      var text := DropBom(whole);
      assert bytes == Encode(Mark(bom) + text) && ParseText(env, form, table, text) == Ok(core);
    }
    forall bom, text | bytes == Encode(Mark(bom) + text) && BOM !in text
                       && (form == HeaderForm ==> Mark(bom) + text != "")
                       && ParseText(env, form, table, text) == Ok(core)
      ensures ParseBytes(env, form, table, bytes) == Some(core)
    {
      DecodeIffEncoded(bytes, Mark(bom) + text);
      MarkDrops(bom, text);
    }
  }

  /** bytes encode the listing of records. */
  ghost predicate EncodesListing(env: Env, bytes: seq<byte>, records: seq<Fields>) {
    && GoodShapes(env, records)
    && exists bom, text, crs :: bytes == Encode(Mark(bom) + text) && MemberListing(env, text, records, crs)
  }

  /** The headerless parse accepts exactly the encoded listings, and its members are the ones listed. */
  lemma MembersParsedIffListed(env: Env, table: CaseTable, bytes: seq<byte>, ms: seq<Member>)
    ensures (exists core :: ParseBytes(env, MemberForm, table, bytes) == Some(core) && core.members == ms)
       <==> (exists records :: EncodesListing(env, bytes, records) && ms == DenotedBy(env, records))
  {
    hide ParseBytes, ParseText, DenotedBy, MemberListing, Encode, GoodShapes;
    if core :| ParseBytes(env, MemberForm, table, bytes) == Some(core) && core.members == ms {
      BytesAreText(env, MemberForm, table, bytes, core);
      var bom, text :| bytes == Encode(Mark(bom) + text) && BOM !in text
                       && ParseText(env, MemberForm, table, text) == Ok(core);
      var records, crs := ParsedIsListing(env, table, text);
      ListingIsClean(env, text, records, crs);
      assert EncodesListing(env, bytes, records);
    }
    if records :| EncodesListing(env, bytes, records) && ms == DenotedBy(env, records) {
      var bom, text, crs :| bytes == Encode(Mark(bom) + text) && MemberListing(env, text, records, crs);
      ListingIsParsed(env, table, text, records, crs);
      ListingIsClean(env, text, records, crs);
      var core := ParseText(env, MemberForm, table, text).value;
      BytesAreText(env, MemberForm, table, bytes, core);
      assert ParseBytes(env, MemberForm, table, bytes) == Some(core);
    }
  }

  lemma ListingIsClean(env: Env, text: string, records: seq<Fields>, crs: seq<bool>)
    requires MemberListing(env, text, records, crs)
    ensures BOM !in text && GoodShapes(env, records)
  {
    hide GoodRecords, GoodShapes, GoodLines, JoinLines, ConflictFree;
  }
}
