/**
What the parse drivers hand back. Each result type re-checks its values in its own constructor; a parse the state
machine accepts passes all of those checks, so building the result never fails behind an accepted parse, except for the
member shapes of a locked case, which only the result knows.
*/
module SltResults {
  import opened Prelude
  import opened PolicyLimits
  import opened Text
  import opened Utf8
  import opened Locators
  import opened SltFields
  import opened SltMachine
  import opened SltDriver
  import opened SltLines
  import opened SltRecords
  import opened SltBody
  import opened SltMembers
  import opened SltGrammar
  import opened SltHeader
  import opened SltLocked

  // ---------- the constructors ----------

  /** The list checks of every result: bounded, of constructible members, and passing the one-pass locator check
      again. */
  predicate MembersAreConstructible(env: Env, ms: seq<Member>) {
    && |ms| <= MAX_MEMBER_COUNT
    && (forall i :: 0 <= i < |ms| ==> ConstructibleMember(ms[i], env.upper))
    && OnePass(EntriesOf(env, ms)).Some?
  }

  predicate HeaderIsConstructible(header: Fields) {
    && {"Path", "Type", "Physical Size"} <= Names(header)
    && BoundedText(Value(header, "Path"), MAX_LINE_CODEPOINTS, MAX_LINE_UTF8_BYTES)
    && BoundedText(Value(header, "Type"), MAX_LINE_CODEPOINTS, MAX_LINE_UTF8_BYTES)
    && AllDigits(Value(header, "Physical Size")) && Value(header, "Physical Size") != ""
    && DecimalValue(Value(header, "Physical Size")) <= MAX_INT64
  }

  predicate CommentIsConstructible(comment: string) {
    && Stripped(comment) && BOM !in comment && |comment| <= MAX_COMMENT_CODEPOINTS
    && NoControls(comment) && |Encode(comment)| <= MAX_COMMENT_UTF8_BYTES
  }

  // ---------- what every step keeps ----------

  predicate Recorded(env: Env, core: Core) {
    && Consistent(env, core)
    && forall i :: 0 <= i < |core.members| ==> ConstructibleMember(core.members[i], env.upper)
  }

  lemma AppendRecords(env: Env, core: Core, m: Member)
    requires Recorded(env, core) && Append(env, core, m).Ok?
    ensures Recorded(env, Append(env, core, m).value)
  {
    hide Consistent, ConstructibleMember, ParentChildConflict, CanonicalKey;
    AppendIsPairwise(env, core, m);
  }

  lemma RecordedIsAboutMembers(env: Env, core: Core, other: Core)
    requires Recorded(env, core) && other.members == core.members && other.keys == core.keys
    ensures Recorded(env, other)
  {
    hide ConflictFree, MapOf, ConstructibleMember;
  }

  lemma ClosePlainRecords(env: Env, core: Core)
    requires Recorded(env, core) && ClosePlain(env, core).Ok?
    ensures Recorded(env, ClosePlain(env, core).value)
  {
    hide Recorded, Append, AcceptableLocator, MemberOf;
    AppendRecords(env, core, MemberOf(core.record));
  }

  lemma CloseLockedRecords(env: Env, core: Core)
    requires Recorded(env, core) && CloseLocked(env, core).Ok?
    ensures Recorded(env, CloseLocked(env, core).value)
  {
    hide Recorded, LockedRecordIsUsable, LockedMemberOf, Append, ClassesOf, HashOf;
    var isDirectory := CloseLockedIs(env, core);
    var h := HashOf(env, core.record);
    var cs := Narrow(core.candidates, |core.hashes|, h);
    var before := core.(candidates := cs, hashes := core.hashes + [h]);
    RecordedIsAboutMembers(env, core, before);
    AppendRecords(env, before, LockedMemberOf(env, core.record, isDirectory));
  }

  lemma CloseRecordRecords(env: Env, form: Form, core: Core)
    requires Recorded(env, core) && CloseRecord(env, form, core).Ok?
    ensures Recorded(env, CloseRecord(env, form, core).value)
  {
    hide Recorded, ClosePlain, CloseLocked;
    if form == LockedForm { CloseLockedRecords(env, core); } else { ClosePlainRecords(env, core); }
  }

  lemma MemberLineRecords(env: Env, form: Form, core: Core, line: string)
    requires Recorded(env, core) && MemberLine(env, form, core, line).Ok?
    ensures Recorded(env, MemberLine(env, form, core, line).value)
  {
    hide Recorded, CloseRecord, AddField;
    var next := MemberLine(env, form, core, line).value;
    if line == "" {
      CloseRecordRecords(env, form, core);
      RecordedIsAboutMembers(env, CloseRecord(env, form, core).value, next);
    } else {
      RecordedIsAboutMembers(env, core, next);
    }
  }

  lemma AcceptLineRecords(env: Env, form: Form, core: Core, line: string)
    requires Recorded(env, core) && AcceptLine(env, form, core, line).Ok?
    ensures Recorded(env, AcceptLine(env, form, core, line).value)
  {
    hide Recorded, MemberLine, AddField, HeaderIsComplete;
    if form != HeaderForm || core.stage == InMembers {
      MemberLineRecords(env, form, core, line);
    } else {
      RecordedIsAboutMembers(env, core, AcceptLine(env, form, core, line).value);
    }
  }

  lemma {:induction false} AcceptLinesRecords(env: Env, form: Form, core: Core, lines: seq<string>, end: Core)
    requires Recorded(env, core) && AcceptLines(env, form, core, lines) == Ok(end)
    ensures Recorded(env, end)
    decreases |lines|
  {
    hide Recorded, AcceptLine, AcceptLines;
    if lines == [] {
      AcceptNone(env, form, core);
    } else {
      var next := AcceptUncons(env, form, core, lines, end);
      AcceptLineRecords(env, form, core, lines[0]);
      AcceptLinesRecords(env, form, next, lines[1..], end);
    }
  }

  lemma FinishRecords(env: Env, form: Form, core: Core, end: Core)
    requires Recorded(env, core) && FinishCore(env, form, core) == Ok(end)
    ensures Recorded(env, end)
  {
    hide Recorded, ClosePlain;
    if form == HeaderForm && core.record != [] {
      ClosePlainRecords(env, core);
    } else {
      RecordedIsAboutMembers(env, core, end);
    }
  }

  lemma StartIsRecorded(env: Env, form: Form, table: CaseTable)
    ensures Recorded(env, StartCore(form, table))
  {
    StartIsConsistent(env, form, table);
  }

  lemma RecordedIsConstructible(env: Env, core: Core)
    requires Recorded(env, core)
    ensures MembersAreConstructible(env, core.members)
  {
    hide ConflictFree, MapOf, ConstructibleMember;
    OnePassIsPairwise(EntriesOf(env, core.members));
  }

  /** In all three forms the members of an accepted parse pass the member type's and the result type's own checks. */
  lemma AcceptedMembersAreConstructible(env: Env, form: Form, table: CaseTable, bytes: seq<byte>, core: Core)
    requires ParseBytes(env, form, table, bytes) == Some(core)
    ensures MembersAreConstructible(env, core.members)
  {
    hide ParseBytes, ParseText, Encode, AcceptLines, FinishCore, JoinLines, GoodLines, Recorded,
         MembersAreConstructible;
    BytesAreText(env, form, table, bytes, core);
    var bom, text :| bytes == Encode(Mark(bom) + text) && BOM !in text
                     && (form == HeaderForm ==> Mark(bom) + text != "")
                     && ParseText(env, form, table, text) == Ok(core);
    var lines, crs, before := RecoverDocument(env, form, table, text);
    StartIsRecorded(env, form, table);
    AcceptLinesRecords(env, form, StartCore(form, table), lines, before);
    FinishRecords(env, form, before, core);
    RecordedIsConstructible(env, core);
  }

  // ---------- the header and the comment ----------

  lemma PhysicalSizeInRange(header: Fields)
    requires GoodFields(HeaderScheme, header) && CleanRecord(header) && "Physical Size" in Names(header)
    ensures IsCanonicalNumber(Value(header, "Physical Size"))
  {
    hide GoodFields, CleanRecord, NoControls, IsCanonicalNumber;
    GoodValue(HeaderScheme, header, "Physical Size");
    assert "Physical Size" in NUMBER_FIELDS;
  }

  lemma CommentInRange(header: Fields)
    requires GoodFields(HeaderScheme, header) && CleanRecord(header) && "Comment" in Names(header)
    ensures CommentIsConstructible(Value(header, "Comment"))
  {
    hide GoodFields, CleanRecord, NoControls, IsCanonicalNumber, Stripped, IsCrc;
    GoodValue(HeaderScheme, header, "Comment");
  }

  lemma GoodHeaderIsConstructible(header: Fields)
    requires GoodHeader(header) && CleanRecord(header)
    ensures HeaderIsConstructible(header)
    ensures "Comment" in Names(header) ==> CommentIsConstructible(Value(header, "Comment"))
  {
    hide GoodFields, CleanRecord, BoundedText, CommentIsConstructible;
    assert "Physical Size" in {"Path", "Type", "Physical Size"};
    PhysicalSizeInRange(header);
    if "Comment" in Names(header) { CommentInRange(header); }
  }

  lemma DocumentHeaderIsGood(env: Env, text: string, header: Fields, records: seq<Fields>, crs: seq<bool>)
    requires HeaderListing(env, text, header, records, crs)
    ensures GoodHeader(header) && CleanRecord(header)
  {
    hide GoodHeader, GoodListing, JoinLines, GoodLines, CleanRecord, CleanRecords;
    DocumentIsClean(header, records, crs);
  }

  /** An accepted v1 parse passes the header's, the comment's, the members' and the result's own checks. */
  lemma AcceptedDocumentIsConstructible(env: Env, table: CaseTable, bytes: seq<byte>, core: Core)
    requires ParseBytes(env, HeaderForm, table, bytes) == Some(core)
    ensures HeaderIsConstructible(core.header) && MembersAreConstructible(env, core.members)
    ensures "Comment" in Names(core.header) ==> CommentIsConstructible(Value(core.header, "Comment"))
  {
    hide ParseBytes, ParseText, Encode, HeaderListing, HeaderIsConstructible, MembersAreConstructible,
         CommentIsConstructible, DenotedBy;
    AcceptedMembersAreConstructible(env, HeaderForm, table, bytes, core);
    BytesAreText(env, HeaderForm, table, bytes, core);
    var bom, text :| bytes == Encode(Mark(bom) + text) && BOM !in text
                     && ParseText(env, HeaderForm, table, text) == Ok(core);
    var h, records, crs := ParsedIsDocument(env, table, text);
    DocumentHeaderIsGood(env, text, h, records, crs);
    GoodHeaderIsConstructible(h);
  }

  // ---------- the locked result ----------

  /** The facts the accepted shape of a case fixes for a member: everything but its locator and sizes. */
  datatype Shape = Shape(isDirectory: bool, encrypted: bool, crc: bool, symbolicLink: bool, hardLink: bool, user: bool,
                         group: bool, characteristics: bool, alternateStream: bool, antiItem: bool)

  function ShapeOf(m: Member): (s: Shape) {
    Shape(m.isDirectory, m.encrypted, m.crc32.Some?, m.symbolicLink, m.hardLink, m.userPresent, m.groupPresent,
          m.characteristicsPresent, m.alternateStream, m.antiItem)
  }

  function ShapesOf(ms: seq<Member>): (shapes: seq<Shape>)
    ensures |shapes| == |ms| && forall i :: 0 <= i < |ms| ==> shapes[i] == ShapeOf(ms[i])
  {
    seq(|ms|, i requires 0 <= i < |ms| => ShapeOf(ms[i]))
  }

  datatype LockedResult = LockedResult(kind: FormatCase, members: seq<Member>)

  /** `locked_private_result`: a result only when its constructor finds the case, its record count and its shapes. */
  function LockedEnd(table: CaseTable, shapes: map<FormatCase, seq<Shape>>, core: Core): (r: Result<LockedResult>) {
    if c :| c in core.candidates && forall d :: d in core.candidates ==> d == c then
      if c in table && |core.members| == |table[c]| && core.members != [] && |core.members| <= MAX_MEMBER_COUNT
         && c in shapes && shapes[c] == ShapesOf(core.members)
      then Ok(LockedResult(c, core.members)) else Refused(GrammarRejected)
    else Refused(GrammarRejected)
  }

  /** The locked parse of a whole byte string. */
  function ParseLocked(env: Env, table: CaseTable, shapes: map<FormatCase, seq<Shape>>, bytes: seq<byte>)
    : (r: Option<LockedResult>)
  {
    match ParseBytes(env, LockedForm, table, bytes)
    case None => None
    case Some(core) =>
      match LockedEnd(table, shapes, core)
      case Refused(_) => None
      case Ok(r) => Some(r)
  }

  lemma SingleCandidate(candidates: CaseTable, table: CaseTable, c: FormatCase)
    requires c in table && candidates == map[c := table[c]]
    ensures c in candidates && forall d :: d in candidates ==> d == c
  {
  }

  /** Behind an accepted locked parse one case of the table equals the whole hash sequence and only its shapes can still
      refuse: the case, the record count and the members always pass. */
  lemma LockedResultNeedsOnlyShapes(env: Env, table: CaseTable, shapes: map<FormatCase, seq<Shape>>, bytes: seq<byte>,
                                    core: Core)
    returns (records: seq<Fields>, c: FormatCase)
    requires ParseBytes(env, LockedForm, table, bytes) == Some(core)
    ensures OnlyCase(table, HashesOf(env, records), c) && |core.members| == |records|
    ensures exists bom, text, crs :: bytes == Encode(Mark(bom) + text) && LockedListing(text, records, crs)
    ensures MembersAreConstructible(env, core.members)
    ensures ParseLocked(env, table, shapes, bytes)
         == if c in shapes && shapes[c] == ShapesOf(core.members) then Some(LockedResult(c, core.members)) else None
  {
    hide ParseBytes, ParseText, Encode, LockedListing, ConstructibleMember, OnePass, HashOf;
    AcceptedMembersAreConstructible(env, LockedForm, table, bytes, core);
    BytesAreText(env, LockedForm, table, bytes, core);
    var bom, text :| bytes == Encode(Mark(bom) + text) && BOM !in text
                     && ParseText(env, LockedForm, table, text) == Ok(core);
    var crs;
    records, crs, c := LockedAcceptsOneCase(env, table, text);
    SingleCandidate(core.candidates, table, c);
    LockedListingHasRecords(text, records, crs);
  }

  lemma LockedListingHasRecords(text: string, records: seq<Fields>, crs: seq<bool>)
    requires LockedListing(text, records, crs)
    ensures records != []
  {
    hide GoodRecords, GoodLines, JoinLines;
  }
}
