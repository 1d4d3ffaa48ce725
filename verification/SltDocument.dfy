/** Printing a whole document, header included, and parsing it back with the v1 form. */
module SltDocument {
  import opened Prelude
  import opened Utf8
  import opened Locators
  import opened SltFields
  import opened SltMachine
  import opened SltDriver
  import opened SltLines
  import opened SltRecords
  import opened SltBody
  import opened SltMembers
  import opened SltGrammar
  import opened SltHeader
  import opened SltRoundTrip

  /** A header that can be printed: the fields v1 asks for, on lines short and clean enough. */
  predicate PrintableHeader(header: Fields) {
    GoodHeader(header) && CleanLines(RecordLines(header))
  }

  function PrintDocument(header: Fields, ms: seq<Member>): (lines: seq<string>) {
    DocumentLines(header, PrintMembers(ms))
  }

  lemma {:induction false} BodySnoc(front: seq<Fields>, last: Fields)
    ensures Body(front + [last]) == Body(front) + RecordLines(last) + [""]
    decreases |front|
  {
    hide RecordLines;
    if front == [] {
      assert front + [last] == [last] && [last][1..] == [];
    } else {
      assert (front + [last])[1..] == front[1..] + [last];
      BodySnoc(front[1..], last);
    }
  }

  /** Leaving out the blank line behind the last record keeps lines clean. */
  lemma SeparatedIsClean(records: seq<Fields>)
    requires CleanLines(Body(records))
    ensures CleanLines(SeparatedBody(records))
  {
    hide CleanLines, Body, RecordLines;
    if records == [] {
      NoLinesAreClean();
    } else {
      var front, last := records[..|records| - 1], records[|records| - 1];
      assert records == front + [last];
      BodySnoc(front, last);
      CleanParts(Body(front) + RecordLines(last), [""]);
    }
  }

  lemma SeparatorIsClean()
    ensures CleanLines(["", SEPARATOR])
  {
    EncodeLength(SEPARATOR);
    EncodeLength("");
  }

  lemma PrintedDocumentIsListing(env: Env, header: Fields, ms: seq<Member>, crs: seq<bool>)
    requires PrintableHeader(header) && ListableMembers(env, ms) && |crs| == |PrintDocument(header, ms)|
    ensures HeaderListing(env, JoinLines(PrintDocument(header, ms), crs), header, PrintMembers(ms), crs)
    ensures GoodShapes(env, PrintMembers(ms)) && DenotedBy(env, PrintMembers(ms)) == ms
  {
    hide GoodHeader, CleanLines, GoodRecords, GoodShapes, ConflictFree, JoinLines, GoodLines, PrintMembers, Body,
         DenotedBy,
         ConstructibleMember, SeparatedBody, RecordLines;
    var records := PrintMembers(ms);
    PrintedListing(env, ms);
    PrintedCount(ms);
    SeparatedIsClean(records);
    SeparatorIsClean();
    CleanConcat(RecordLines(header), ["", SEPARATOR]);
    CleanConcat(RecordLines(header) + ["", SEPARATOR], SeparatedBody(records));
    CleanTextHasNoBom(PrintDocument(header, ms), crs);
    CleanIsGood(PrintDocument(header, ms));
  }

  /** Print a header and members, encode, cut into chunks within the limits, parse: the same header and members come
      back. */
  lemma ParsingUndoesPrintingDocuments(env: Env, table: CaseTable, header: Fields, ms: seq<Member>, crs: seq<bool>,
                                       bom: bool,
                                       chunks: seq<seq<byte>>)
    requires PrintableHeader(header) && ListableMembers(env, ms) && |crs| == |PrintDocument(header, ms)|
    requires Concat(chunks) == Encode(Mark(bom) + JoinLines(PrintDocument(header, ms), crs))
    requires ChunksWithinLimits(0, 0, chunks)
    ensures var r := DriveEnd(env, HeaderForm, DriveChunks(env, HeaderForm, StartDrive(HeaderForm, table), chunks));
            r.Ok? && r.value.members == ms && r.value.header == header
  {
    hide PrintableHeader, ListableMembers, JoinLines, PrintDocument, PrintMembers, HeaderListing, ParseText, Encode,
         DriveEnd,
         DriveChunks, ParseBytes, GoodShapes, DenotedBy, ChunksWithinLimits, StartDrive, Concat;
    var records := PrintMembers(ms);
    var text := JoinLines(PrintDocument(header, ms), crs);
    PrintedDocumentIsListing(env, header, ms, crs);
    DocumentIsParsed(env, table, text, header, records, crs);
    DocumentFacts(env, text, header, records, crs);
    var core := ParseText(env, HeaderForm, table, text).value;
    BytesAreText(env, HeaderForm, table, Concat(chunks), core);
    AcceptanceIgnoresChunking(env, HeaderForm, table, chunks, core);
  }
}
