/** The fields of an SLT listing: which names a record may carry, what their values must look like, and a member. */
module SltFields {
  import opened Prelude
  import opened Text
  import opened Utf8
  import opened Locators

  const MAX_CHUNK_BYTES := 262_144
  const MAX_CHUNKS := 65_536
  const MAX_LINE_UTF8_BYTES := 8_192
  const MAX_LINE_CODEPOINTS := 4_096
  const MAX_FIELDS_PER_RECORD := 32
  const MAX_COMMENT_UTF8_BYTES := 4_096
  const MAX_COMMENT_CODEPOINTS := 4_086
  const MAX_STDOUT_BYTES := 8_388_608
  const MAX_INT64 := 0x7FFF_FFFF_FFFF_FFFF
  const BOM: char := '\U{FEFF}'

  datatype Status = Parsed | LimitExceeded | EncodingRejected | GrammarRejected

  /** What a failed parse reports. */
  type Rejection = s: Status | s != Parsed
    witness GrammarRejected

  datatype Result<+T> = Ok(value: T) | Refused(status: Rejection)

  const HEADER_FIELDS: set<string> := {
    "Path", "Type", "Physical Size", "Headers Size", "Method", "Solid", "Blocks", "Volumes", "Total Physical Size",
    "Tail Size", "Embedded Stub Size", "Characteristics", "Comment"
  }

  const MEMBER_FIELDS: set<string> := {
    "Path", "Folder", "Size", "Packed Size", "Modified", "Created", "Accessed", "Attributes", "Encrypted", "CRC",
    "Method", "Block", "Characteristics", "Host OS", "Version", "Volume Index", "Offset", "Symbolic Link", "Hard Link",
    "User", "Group", "Alternate Stream", "Anti"
  }

  /** The names a locked record adds to the plain member names, of which it lacks only "Anti". */
  const LOCKED_EXTRA_FIELDS: set<string> := {
    "Checksum", "Comment", "Commented", "Copy Link", "Device Major", "Device Minor", "Group ID", "Mode", "NT Security",
    "Solid", "Split After", "Split Before", "User ID"
  }

  const LOCKED_FIELDS: set<string> := MEMBER_FIELDS - {"Anti"} + LOCKED_EXTRA_FIELDS

  const NUMBER_FIELDS: set<string> := {
    "Physical Size", "Headers Size", "Blocks", "Volumes", "Total Physical Size", "Tail Size", "Embedded Stub Size",
    "Size", "Packed Size", "Block", "Volume Index", "Offset"
  }

  const BOOLEAN_FIELDS: set<string> := {"Folder", "Encrypted", "Solid", "Alternate Stream", "Anti"}

  const LOCKED_BOOLEAN_FIELDS: set<string> := {
    "Alternate Stream", "Anti", "Commented", "Encrypted", "Folder", "Solid", "Split After", "Split Before"
  }

  const LOCKED_PRIVATE_FIELDS: set<string> := {"Comment", "Copy Link", "Group", "Hard Link", "Symbolic Link", "User"}

  // ---------- values ----------

  predicate IsCanonicalNumber(value: string) {
    value != "" && AllDigits(value) && (value == "0" || value[0] != '0') && DecimalValue(value) <= MAX_INT64
  }

  predicate IsCrc(value: string) {
    |value| == 8 && forall i :: 0 <= i < |value| ==> IsDigit(value[i]) || 'A' <= value[i] <= 'F'
  }

  predicate IsTimestamp(value: string) {
    && |value| >= 12
    && (forall i :: i in [0, 1, 2, 3, 5, 6, 8, 9] ==> IsDigit(value[i]))
    && value[4] == '-' && value[7] == '-' && value[10] == ' '
    && forall i :: 11 <= i < |value| ==> IsDigit(value[i]) || value[i] in [':', '.', '-']
  }

  predicate IsControl(c: char) {
    c as int < 32 || 127 <= c as int <= 159
  }

  predicate NoControls(s: string) { forall i :: 0 <= i < |s| ==> !IsControl(s[i]) }

  predicate BoundedText(value: string, maxCodepoints: nat, maxUtf8Bytes: nat) {
    && value != "" && Stripped(value) && BOM !in value && |value| <= maxCodepoints
    && NoControls(value) && |Encode(value)| <= maxUtf8Bytes
  }

  datatype ValueClass = BoolPlus | BoolMinus | Empty | PrivateLocatorDiscarded | PrivateNonemptyDiscarded
                      | CanonicalUint | Crc32 | Timestamp | TechnicalNonemptyDiscarded

  /** The class of a locked field's value; None where the parser refuses the value. Numbers are tried before CRCs. */
  function LockedValueClass(name: string, value: string): (r: Option<ValueClass>) {
    if name in LOCKED_BOOLEAN_FIELDS then
      if value == "+" then Some(BoolPlus) else if value == "-" then Some(BoolMinus) else None
    else if value == "" then Some(Empty)
    else if name == "Path" then Some(PrivateLocatorDiscarded)
    else if name in LOCKED_PRIVATE_FIELDS then Some(PrivateNonemptyDiscarded)
    else if IsCanonicalNumber(value) then Some(CanonicalUint)
    else if IsCrc(value) then Some(Crc32)
    else if IsTimestamp(value) then Some(Timestamp)
    else Some(TechnicalNonemptyDiscarded)
  }

  /** A checksum made of digits without a leading zero is classed as a number: only the others get their own class. */
  lemma CrcClass(value: string)
    requires IsCrc(value)
    ensures LockedValueClass("CRC", value) == Some(if AllDigits(value) && value[0] != '0' then CanonicalUint else Crc32)
  {
    if AllDigits(value) {
      ValueBound(value);
      assert Pow10(8) == 100_000_000 by { assert Pow10(3) == 1000; assert Pow10(6) == 1_000_000; }
    }
  }

  // ---------- records ----------

  datatype Field = Field(name: string, value: string)

  type Fields = seq<Field>

  function Names(r: Fields): (names: set<string>) {
    set i | 0 <= i < |r| :: r[i].name
  }

  function Get(r: Fields, name: string): (v: Option<string>)
    ensures v.Some? <==> name in Names(r)
  {
    if r == [] then None
    else if r[0].name == name then Some(r[0].value)
    else
      assert forall i :: 1 <= i < |r| ==> r[i] == r[1..][i - 1];
      assert forall i :: 0 <= i < |r[1..]| ==> r[1..][i] == r[i + 1];
      Get(r[1..], name)
  }

  datatype Scheme = HeaderScheme | MemberScheme | LockedScheme

  function Allowed(scheme: Scheme): (names: set<string>) {
    match scheme
    case HeaderScheme => HEADER_FIELDS
    case MemberScheme => MEMBER_FIELDS
    case LockedScheme => LOCKED_FIELDS
  }

  /** The checks on a named value after the duplicate and count checks. */
  function CheckValue(scheme: Scheme, f: Field): (s: Status) {
    if scheme == LockedScheme then
      if LockedValueClass(f.name, f.value).None? then GrammarRejected else Parsed
    else if f.name in BOOLEAN_FIELDS && f.value != "+" && f.value != "-" then GrammarRejected
    else if f.name in NUMBER_FIELDS && !IsCanonicalNumber(f.value) then GrammarRejected
    else if f.name == "CRC" && !IsCrc(f.value) then GrammarRejected
    else if f.name == "Comment" && (|f.value| > MAX_COMMENT_CODEPOINTS || |Encode(f.value)| > MAX_COMMENT_UTF8_BYTES)
    then LimitExceeded
    else Parsed
  }

  predicate SeparatorAt(line: string, i: nat) {
    i + 3 <= |line| && line[i] == ' ' && line[i + 1] == '=' && line[i + 2] == ' '
  }

  /** The position of the first " = " in line. */
  function FindSeparator(line: string): (r: Option<nat>)
    ensures r.Some? ==> SeparatorAt(line, r.value) && forall i: nat :: i < r.value ==> !SeparatorAt(line, i)
    ensures r.None? ==> forall i: nat :: !SeparatorAt(line, i)
  {
    if |line| < 3 then None
    else if SeparatorAt(line, 0) then Some(0)
    else
      assert forall i: nat :: i > 0 && SeparatorAt(line, i) ==> SeparatorAt(line[1..], i - 1);
      match FindSeparator(line[1..])
      case None => None
      case Some(i) =>
        assert forall j: nat :: j < i + 1 && SeparatorAt(line, j) ==> j > 0;
        Some(i + 1)
  }

  /** Add the field on one line to a record. */
  function AddField(record: Fields, line: string, scheme: Scheme): (r: Result<Fields>) {
    match FindSeparator(line)
    case None => Refused(GrammarRejected)
    case Some(i) =>
      var f := Field(line[..i], line[i + 3..]);
      if f.name == "" || !Stripped(f.name) || !Stripped(f.value)
         || f.name !in Allowed(scheme) || f.name in Names(record)
      then Refused(GrammarRejected)
      else if |record| >= MAX_FIELDS_PER_RECORD then Refused(LimitExceeded)
      else if CheckValue(scheme, f) != Parsed then Refused(CheckValue(scheme, f))
      else Ok(record + [f])
  }

  // ---------- members ----------

  datatype Member = Member(
    locator: string, isDirectory: bool, uncompressedBytes: nat, compressedBytes: nat, encrypted: bool,
    crc32: Option<string>, symbolicLink: bool, hardLink: bool, userPresent: bool, groupPresent: bool,
    characteristicsPresent: bool, alternateStream: bool, antiItem: bool)

  /** What the member type's own constructor insists on. */
  predicate ConstructibleMember(m: Member, upper: string -> string) {
    && BoundedText(m.locator, MAX_MEMBER_PATH_CODEPOINTS, MAX_MEMBER_PATH_UTF8_BYTES)
    && SafeLocator(m.locator, upper)
    && m.uncompressedBytes <= MAX_INT64 && m.compressedBytes <= MAX_INT64
    && (m.crc32.Some? ==> IsCrc(m.crc32.value))
  }

  const REQUIRED_FIELDS: set<string> := {"Path", "Folder", "Size", "Packed Size", "Encrypted"}

  function Value(r: Fields, name: string): (v: string)
    requires name in Names(r)
  {
    Get(r, name).value
  }

  function NumberOf(value: string): (n: nat)
  {
    if AllDigits(value) then DecimalValue(value) else 0
  }

  /** The member a plain record denotes. */
  function MemberOf(r: Fields): (m: Member)
    requires REQUIRED_FIELDS <= Names(r)
  {
    Member(Value(r, "Path"), Value(r, "Folder") == "+", NumberOf(Value(r, "Size")), NumberOf(Value(r, "Packed Size")),
           Value(r, "Encrypted") == "+", Get(r, "CRC"), "Symbolic Link" in Names(r), "Hard Link" in Names(r),
           "User" in Names(r), "Group" in Names(r), "Characteristics" in Names(r),
           Get(r, "Alternate Stream") == Some("+"), Get(r, "Anti") == Some("+"))
  }

  /** Whether a locator is short enough and safe; the one test both member forms share. */
  predicate AcceptableLocator(locator: string, upper: string -> string) {
    && |locator| <= MAX_MEMBER_PATH_CODEPOINTS
    && |Encode(locator)| <= MAX_MEMBER_PATH_UTF8_BYTES
    && SafeLocator(locator, upper)
  }
}
