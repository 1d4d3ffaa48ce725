/**
The listing form with an archive header: header fields, a blank line, a separator, then records with blank lines
between them and none after the last. The v1 parser accepts exactly this.
*/
module SltHeader {
  import opened Prelude
  import opened PolicyLimits
  import opened Utf8
  import opened Locators
  import opened SltFields
  import opened SltMachine
  import opened SltDriver
  import opened SltLines
  import opened SltRecords
  import opened SltBody
  import opened SltMembers
  import opened SltGrammar

  /** Records with blank lines between them only. */
  function SeparatedBody(records: seq<Fields>): (lines: seq<string>) {
    if records == [] then [] else Body(records[..|records| - 1]) + RecordLines(records[|records| - 1])
  }

  function DocumentLines(header: Fields, records: seq<Fields>): (lines: seq<string>) {
    RecordLines(header) + ["", SEPARATOR] + SeparatedBody(records)
  }

  predicate GoodHeader(header: Fields) {
    header != [] && GoodFields(HeaderScheme, header) && HeaderIsComplete(header)
  }

  predicate HeaderListing(env: Env, text: string, header: Fields, records: seq<Fields>, crs: seq<bool>) {
    && GoodHeader(header)
    && GoodListing(env, records)
    && |crs| == |DocumentLines(header, records)|
    && text == JoinLines(DocumentLines(header, records), crs)
    && GoodLines(DocumentLines(header, records))
    && BOM !in text
  }

  // ---------- the header ----------

  function InHeaderCore(table: CaseTable, header: Fields): (c: Core) {
    StartCore(HeaderForm, table).(header := header)
  }

  function AfterHeader(table: CaseTable, header: Fields): (c: Core) {
    StartCore(HeaderForm, table).(header := header, headerClosed := true, stage := InMembers)
  }

  lemma AcceptHeaderField(env: Env, table: CaseTable, r: Fields, f: Field)
    requires GoodFields(HeaderScheme, r + [f])
    ensures AcceptLine(env, HeaderForm, InHeaderCore(table, r), LineOf(f)) == Ok(InHeaderCore(table, r + [f]))
  {
    hide GoodField, AddField, MemberLine;
    var all := r + [f];
    GoodPrefix(HeaderScheme, all, |r|);
    assert all[..|r|] == r && all[|r|] == f;
    AddsField(r, f, HeaderScheme);
    LineParts(f);
  }

  lemma {:induction false} AcceptHeaderFields(env: Env, table: CaseTable, h: Fields, k: nat, rest: seq<string>)
    requires GoodFields(HeaderScheme, h) && k <= |h|
    ensures AcceptLines(env, HeaderForm, InHeaderCore(table, h[..k]), RecordLines(h)[k..] + rest)
         == AcceptLines(env, HeaderForm, InHeaderCore(table, h), rest)
    decreases |h| - k
  {
    hide GoodField, AcceptLine, AcceptLines;
    if k == |h| {
      assert h[..k] == h && RecordLines(h)[k..] + rest == rest;
    } else {
      assert h[..k] + [h[k]] == h[..k + 1];
      PrefixIsGood(HeaderScheme, h, k + 1);
      AcceptHeaderField(env, table, h[..k], h[k]);
      AcceptHead(env, HeaderForm, InHeaderCore(table, h[..k]), LineOf(h[k]), RecordLines(h)[k + 1..] + rest);
      assert RecordLines(h)[k..] + rest == [LineOf(h[k])] + (RecordLines(h)[k + 1..] + rest);
      AcceptHeaderFields(env, table, h, k + 1, rest);
    }
  }

  function Separating(table: CaseTable, header: Fields): (c: Core) {
    StartCore(HeaderForm, table).(header := header, headerClosed := true, stage := InSeparator)
  }

  lemma HeaderCloses(env: Env, table: CaseTable, h: Fields)
    requires h != [] && HeaderIsComplete(h)
    ensures AcceptLine(env, HeaderForm, InHeaderCore(table, h), "") == Ok(Separating(table, h))
    ensures AcceptLine(env, HeaderForm, Separating(table, h), SEPARATOR) == Ok(AfterHeader(table, h))
  {
    hide HeaderIsComplete, MemberLine;
  }

  lemma AcceptHeader(env: Env, table: CaseTable, h: Fields, rest: seq<string>)
    requires GoodHeader(h)
    ensures AcceptLines(env, HeaderForm, StartCore(HeaderForm, table), RecordLines(h) + ["", SEPARATOR] + rest)
         == AcceptLines(env, HeaderForm, AfterHeader(table, h), rest)
  {
    hide GoodFields, HeaderIsComplete, AcceptLine, AcceptLines;
    AcceptHeaderFields(env, table, h, 0, ["", SEPARATOR] + rest);
    assert h[..0] == [] && InHeaderCore(table, []) == StartCore(HeaderForm, table);
    assert RecordLines(h)[0..] + (["", SEPARATOR] + rest) == RecordLines(h) + ["", SEPARATOR] + rest;
    HeaderCloses(env, table, h);
    AcceptHead(env, HeaderForm, InHeaderCore(table, h), "", [SEPARATOR] + rest);
    assert ["", SEPARATOR] + rest == [""] + ([SEPARATOR] + rest);
    AcceptHead(env, HeaderForm, Separating(table, h), SEPARATOR, rest);
  }

  lemma HeaderLineCases(env: Env, table: CaseTable, r: Fields, line: string)
    requires GoodFields(HeaderScheme, r) && AcceptLine(env, HeaderForm, InHeaderCore(table, r), line).Ok?
    ensures line == "" ==>
              r != [] && AcceptLine(env, HeaderForm, InHeaderCore(table, r), line) == Ok(Separating(table, r))
    ensures line != "" ==>
              exists f :: line == LineOf(f) && GoodFields(HeaderScheme, r + [f])
                          && AcceptLine(env, HeaderForm, InHeaderCore(table, r), line)
                                == Ok(InHeaderCore(table, r + [f]))
  {
    hide GoodFields, GoodField, AddField, MemberLine;
    if line != "" {
      var f := AddedField(r, line, HeaderScheme);
      GoodSnoc(HeaderScheme, r, f);
    }
  }

  lemma SeparatorLine(env: Env, table: CaseTable, h: Fields, line: string)
    requires AcceptLine(env, HeaderForm, Separating(table, h), line).Ok?
    ensures line == SEPARATOR && HeaderIsComplete(h)
    ensures AcceptLine(env, HeaderForm, Separating(table, h), line) == Ok(AfterHeader(table, h))
  {
    hide HeaderIsComplete, MemberLine, AddField, SEPARATOR;
  }

  /** Lines accepted past the separator begin with a good header, a blank line and the separator. */
  lemma {:induction false} RecoverHeader(env: Env, table: CaseTable, r: Fields, lines: seq<string>, end: Core)
    returns (h: Fields, rest: seq<string>)
    requires GoodFields(HeaderScheme, r)
    requires AcceptLines(env, HeaderForm, InHeaderCore(table, r), lines) == Ok(end) && end.stage == InMembers
    ensures GoodHeader(h) && RecordLines(r) + lines == RecordLines(h) + ["", SEPARATOR] + rest
    ensures AcceptLines(env, HeaderForm, AfterHeader(table, h), rest) == Ok(end)
    decreases |lines|
  {
    hide GoodFields, HeaderIsComplete, AcceptLine, AcceptLines;
    if lines == [] {
      AcceptNone(env, HeaderForm, InHeaderCore(table, r));
      assert false;
    } else {
      var line, more := lines[0], lines[1..];
      assert lines == [line] + more;
      var next := AcceptUncons(env, HeaderForm, InHeaderCore(table, r), lines, end);
      HeaderLineCases(env, table, r, line);
      if line == "" {
        h := r;
        rest := RecoverSeparator(env, table, h, more, end);
        assert RecordLines(r) + ([""] + ([SEPARATOR] + rest)) == RecordLines(r) + ["", SEPARATOR] + rest;
      } else {
        var f :| line == LineOf(f) && GoodFields(HeaderScheme, r + [f])
                 && AcceptLine(env, HeaderForm, InHeaderCore(table, r), line) == Ok(InHeaderCore(table, r + [f]));
        h, rest := RecoverHeader(env, table, r + [f], more, end);
        RecordLinesSnoc(r, f, more);
      }
    }
  }

  lemma RecoverSeparator(env: Env, table: CaseTable, h: Fields, lines: seq<string>, end: Core)
    returns (rest: seq<string>)
    requires AcceptLines(env, HeaderForm, Separating(table, h), lines) == Ok(end) && end.stage == InMembers
    ensures HeaderIsComplete(h) && lines == [SEPARATOR] + rest
    ensures AcceptLines(env, HeaderForm, AfterHeader(table, h), rest) == Ok(end)
  {
    hide HeaderIsComplete, AcceptLine, AcceptLines;
    if lines == [] {
      AcceptNone(env, HeaderForm, Separating(table, h));
      assert false;
    } else {
      var next := AcceptUncons(env, HeaderForm, Separating(table, h), lines, end);
      SeparatorLine(env, table, h, lines[0]);
      rest := lines[1..];
    }
  }

  // ---------- the records behind it ----------

  lemma {:induction false} CloseAllSnoc(env: Env, form: Form, core: Core, front: seq<Fields>, last: Fields)
    ensures CloseAll(env, form, core, front + [last])
         == (if CloseAll(env, form, core, front).Ok?
             then CloseOne(env, form, CloseAll(env, form, core, front).value, last)
             else CloseAll(env, form, core, front))
    decreases |front|
  {
    hide CloseOne;
    if front == [] {
      assert front + [last] == [last] && [last][1..] == [];
    } else {
      assert (front + [last])[1..] == front[1..] + [last];
      match CloseOne(env, form, core, front[0])
      case Refused(_) =>
      case Ok(next) => CloseAllSnoc(env, form, next, front[1..], last);
    }
  }

  lemma AcceptWhole(env: Env, form: Form, core: Core, r: Fields)
    requires InMemberLines(form, core) && core.record == [] && r != [] && GoodFields(MemberSchemeOf(form), r)
    ensures AcceptLines(env, form, core, RecordLines(r)) == Ok(core.(record := r, closed := false))
  {
    hide GoodFields, AcceptLines;
    AcceptFields(env, form, core, r, 0, []);
    assert RecordLines(r)[0..] + [] == RecordLines(r);
    AcceptNone(env, form, core.(record := r, closed := false));
  }

  /** The end of input closes the record still open, as a blank line would. */
  lemma FinishCloses(env: Env, core: Core, last: Fields)
    requires core.stage == InMembers && core.headerClosed && last != []
    ensures FinishCore(env, HeaderForm, core.(record := last, closed := false)).Ok?
       <==> CloseOne(env, HeaderForm, core, last).Ok?
    ensures CloseOne(env, HeaderForm, core, last).Ok? ==>
              FinishCore(env, HeaderForm, core.(record := last, closed := false))
              == Ok(CloseOne(env, HeaderForm, core, last).value.(closed := false))
  {
    hide ClosePlain;
    var open := core.(record := last, closed := false);
    ClosePlainKeeps(env, open);
    ClosePlainKeepsClosed(env, open);
  }

  lemma ClosePlainKeepsClosed(env: Env, core: Core)
    ensures ClosePlain(env, core).Ok? ==> ClosePlain(env, core).value.closed == core.closed
  {
    hide AcceptableLocator, MemberOf, CanonicalKey, ParentChildConflict, ConstructibleMember;
  }

  /** From behind the header: accepting separated records and finishing succeeds exactly when closing them all does. */
  lemma AcceptSeparated(env: Env, table: CaseTable, h: Fields, records: seq<Fields>)
    requires GoodRecords(MemberScheme, records)
    ensures var core := AfterHeader(table, h);
            var end := FinishLines(env, HeaderForm, AcceptLines(env, HeaderForm, core, SeparatedBody(records)));
            var all := CloseAll(env, HeaderForm, core, records);
            && (end.Ok? <==> all.Ok?)
            && (all.Ok? ==> end == Ok(all.value.(closed := false)))
  {
    hide GoodFields, AcceptLines, FinishCore, CloseAll, CloseOne, Body;
    var core := AfterHeader(table, h);
    if records == [] {
      AcceptNone(env, HeaderForm, core);
      EmptyFinish(env, table, h);
      CloseNone(env, HeaderForm, core);
    } else {
      var front, last := records[..|records| - 1], records[|records| - 1];
      assert records == front + [last];
      AcceptBody(env, HeaderForm, core, front, RecordLines(last));
      CloseAllSnoc(env, HeaderForm, core, front, last);
      if CloseAll(env, HeaderForm, core, front).Ok? {
        var c := CloseAll(env, HeaderForm, core, front).value;
        ClosedAfterBody(env, HeaderForm, core, front, c);
        if front == [] { CloseNone(env, HeaderForm, core); }
        AcceptWhole(env, HeaderForm, c, last);
        FinishCloses(env, c, last);
      }
    }
  }

  lemma CloseNone(env: Env, form: Form, core: Core)
    ensures CloseAll(env, form, core, []) == Ok(core)
  {
  }

  lemma EmptyFinish(env: Env, table: CaseTable, h: Fields)
    ensures FinishCore(env, HeaderForm, AfterHeader(table, h)) == Ok(AfterHeader(table, h))
  {
  }

  /** Lines accepted behind the header up to a legal end of input are separated good records. */
  lemma RecoverSeparated(env: Env, table: CaseTable, h: Fields, lines: seq<string>, end: Core)
    returns (records: seq<Fields>)
    requires AcceptLines(env, HeaderForm, AfterHeader(table, h), lines) == Ok(end)
             && FinishCore(env, HeaderForm, end).Ok?
    ensures lines == SeparatedBody(records) && GoodRecords(MemberScheme, records)
  {
    hide GoodFields, GoodRecords, AcceptLines, FinishCore, CloseAll, Body, RecordLines, SeparatedBody;
    var core := AfterHeader(table, h);
    NoFieldsAreGood(MemberScheme);
    var front, last, c := RecoverRecords(env, HeaderForm, core, lines, end);
    assert core.(record := []) == core;
    assert RecordLines([]) + lines == lines;
    if last == [] {
      OpenOrNothing(env, end);
      ClosedAfterBody(env, HeaderForm, core, front, c);
      assert front == [];
      BodyOfNone();
      records := [];
    } else {
      SeparatedSnoc(front, last);
      GoodRecordsSnoc(front, last);
      records := front + [last];
    }
  }

  lemma BodyOfNone()
    ensures Body([]) == [] && RecordLines([]) == [] && SeparatedBody([]) == [] && GoodRecords(MemberScheme, [])
  {
  }

  lemma SeparatedSnoc(front: seq<Fields>, last: Fields)
    ensures SeparatedBody(front + [last]) == Body(front) + RecordLines(last)
  {
    hide Body, RecordLines;
    assert (front + [last])[..|front|] == front;
  }

  lemma GoodRecordsSnoc(front: seq<Fields>, last: Fields)
    requires GoodRecords(MemberScheme, front) && last != [] && GoodFields(MemberScheme, last)
    ensures GoodRecords(MemberScheme, front + [last])
  {
    hide GoodFields;
  }

  lemma OpenOrNothing(env: Env, end: Core)
    requires FinishCore(env, HeaderForm, end).Ok?
    ensures !end.closed && end.stage == InMembers
  {
    hide ClosePlain;
  }

  // ---------- the theorem ----------

  lemma DocumentIsClean(header: Fields, records: seq<Fields>, crs: seq<bool>)
    requires |crs| == |DocumentLines(header, records)| && GoodLines(DocumentLines(header, records))
    requires BOM !in JoinLines(DocumentLines(header, records), crs)
    ensures CleanRecord(header) && CleanRecords(records)
  {
    hide GoodLines, JoinLines, CleanLines, CleanRecord, Body, RecordLines;
    LinesAreClean(DocumentLines(header, records), crs);
    CleanParts(RecordLines(header) + ["", SEPARATOR], SeparatedBody(records));
    CleanParts(RecordLines(header), ["", SEPARATOR]);
    RecordIsClean(header);
    if records != [] {
      var front, last := records[..|records| - 1], records[|records| - 1];
      CleanParts(Body(front), RecordLines(last));
      BodyIsClean(front);
      RecordIsClean(last);
    }
  }

  lemma AfterHeaderIsConsistent(env: Env, table: CaseTable, h: Fields)
    ensures Consistent(env, AfterHeader(table, h))
  {
  }

  lemma AcceptableAfterHeader(env: Env, table: CaseTable, h: Fields, records: seq<Fields>)
    ensures Acceptable(env, AfterHeader(table, h), records)
       <==> GoodShapes(env, records) && |records| <= MAX_MEMBER_COUNT
            && ConflictFree(EntriesOf(env, DenotedBy(env, records)))
  {
    hide ConflictFree, GoodShape, MemberOf;
    if GoodShapes(env, records) {
      EmptyDenoted(DenotedBy(env, records));
    }
  }

  lemma DocumentIsParsed(env: Env, table: CaseTable, text: string, header: Fields, records: seq<Fields>, crs: seq<bool>)
    requires HeaderListing(env, text, header, records, crs)
    ensures ParseText(env, HeaderForm, table, text).Ok?
    ensures var core := ParseText(env, HeaderForm, table, text).value;
            core.members == DenotedBy(env, records) && core.header == header
  {
    hide GoodRecords, GoodShapes, ConflictFree, JoinLines, GoodLines, CloseAll, CleanRecords, GoodHeader, AcceptLines,
         Consistent, DenotedBy, ParseText, SeparatedBody, RecordLines, FinishCore;
    DocumentIsClean(header, records, crs);
    FeedDocument(env, HeaderForm, table, DocumentLines(header, records), crs);
    AcceptHeader(env, table, header, SeparatedBody(records));
    AcceptSeparated(env, table, header, records);
    AfterHeaderIsConsistent(env, table, header);
    AcceptableAfterHeader(env, table, header, records);
    CloseAllIsPairwise(env, HeaderForm, AfterHeader(table, header), records);
    EmptyDenoted(DenotedBy(env, records));
    ClosedAfterBody(env, HeaderForm, AfterHeader(table, header), records,
                    CloseAll(env, HeaderForm, AfterHeader(table, header), records).value);
  }

  lemma ParsedIsDocument(env: Env, table: CaseTable, text: string)
    returns (header: Fields, records: seq<Fields>, crs: seq<bool>)
    requires BOM !in text && ParseText(env, HeaderForm, table, text).Ok?
    ensures HeaderListing(env, text, header, records, crs)
    ensures var core := ParseText(env, HeaderForm, table, text).value;
            core.members == DenotedBy(env, records) && core.header == header
  {
    hide GoodRecords, GoodShapes, ConflictFree, JoinLines, GoodLines, AcceptLines, CloseAll, CleanRecords,
         Consistent, DenotedBy, ParseText, FinishCore, GoodFields, SeparatedBody, RecordLines, GoodHeader, InHeaderCore;
    var lines, end;
    lines, crs, end := RecoverDocument(env, HeaderForm, table, text);
    OpenOrNothing(env, end);
    NoFieldsAreGood(HeaderScheme);
    StartIsInHeader(table);
    var rest;
    header, rest := RecoverHeader(env, table, [], lines, end);
    records := RecoverSeparated(env, table, header, rest, end);
    BodyOfNone();
    assert RecordLines([]) + lines == lines;
    DocumentIsClean(header, records, crs);
    AcceptSeparated(env, table, header, records);
    AfterHeaderIsConsistent(env, table, header);
    AcceptableAfterHeader(env, table, header, records);
    CloseAllIsPairwise(env, HeaderForm, AfterHeader(table, header), records);
    EmptyDenoted(DenotedBy(env, records));
    ClosedAfterBody(env, HeaderForm, AfterHeader(table, header), records,
                    CloseAll(env, HeaderForm, AfterHeader(table, header), records).value);
  }

  lemma StartIsInHeader(table: CaseTable)
    ensures InHeaderCore(table, []) == StartCore(HeaderForm, table)
  {
  }

  ghost predicate EncodesDocument(env: Env, bytes: seq<byte>, header: Fields, records: seq<Fields>) {
    && GoodShapes(env, records)
    && exists bom, text, crs :: bytes == Encode(Mark(bom) + text) && HeaderListing(env, text, header, records, crs)
  }

  lemma DocumentFacts(env: Env, text: string, header: Fields, records: seq<Fields>, crs: seq<bool>)
    requires HeaderListing(env, text, header, records, crs)
    ensures BOM !in text && text != "" && GoodShapes(env, records)
  {
    hide GoodRecords, GoodShapes, GoodLines, ConflictFree, GoodHeader;
  }

  /** The parse with a header accepts exactly the encoded documents, with the header and members they spell out. */
  lemma DocumentParsedIffListed(env: Env, table: CaseTable, bytes: seq<byte>, header: Fields, ms: seq<Member>)
    ensures (exists core :: ParseBytes(env, HeaderForm, table, bytes) == Some(core)
                            && core.members == ms && core.header == header)
       <==> (exists records :: EncodesDocument(env, bytes, header, records) && ms == DenotedBy(env, records))
  {
    hide ParseBytes, ParseText, DenotedBy, HeaderListing, Encode, GoodShapes;
    if core :| ParseBytes(env, HeaderForm, table, bytes) == Some(core) && core.members == ms && core.header == header {
      BytesAreText(env, HeaderForm, table, bytes, core);
      var bom, text :| bytes == Encode(Mark(bom) + text) && BOM !in text
                       && ParseText(env, HeaderForm, table, text) == Ok(core);
      var h, records, crs := ParsedIsDocument(env, table, text);
      DocumentFacts(env, text, h, records, crs);
      assert EncodesDocument(env, bytes, header, records);
    }
    if records :| EncodesDocument(env, bytes, header, records) && ms == DenotedBy(env, records) {
      var bom, text, crs :| bytes == Encode(Mark(bom) + text) && HeaderListing(env, text, header, records, crs);
      DocumentIsParsed(env, table, text, header, records, crs);
      DocumentFacts(env, text, header, records, crs);
      var core := ParseText(env, HeaderForm, table, text).value;
      BytesAreText(env, HeaderForm, table, bytes, core);
      assert ParseBytes(env, HeaderForm, table, bytes) == Some(core);
    }
  }
}
