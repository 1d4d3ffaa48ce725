/**
What the values of fields must look like, and the class of a locked value, each said for itself: nothing here depends
on the order in which the parser asks.
*/
module SltValues {
  import opened Prelude
  import opened Text
  import opened Utf8
  import opened SltFields
  import opened SltMachine
  import opened SltRecords

  /** value prints a number of at most 64 bits with sign. */
  ghost predicate PrintsNumber(value: string) { exists n: nat :: n <= MAX_INT64 && value == PrintDecimal(n) }

  lemma CanonicalIsPrinted(value: string)
    ensures IsCanonicalNumber(value) <==> PrintsNumber(value)
  {
    if IsCanonicalNumber(value) {
      PrintOfValue(value);
    }
  }

  // ---------- timestamps ----------

  /** Day, time and whatever else is written with digits, colons, points and dashes. */
  predicate TimeText(s: string) { s != "" && forall i :: 0 <= i < |s| ==> IsDigit(s[i]) || s[i] in {':', '.', '-'} }

  predicate Digits(s: string, width: nat) { |s| == width && AllDigits(s) }

  ghost predicate Timestamps(value: string) {
    exists year, month, day, time :: Stamped(value, year, month, day, time)
  }

  predicate Stamped(value: string, year: string, month: string, day: string, time: string) {
    && Digits(year, 4) && Digits(month, 2) && Digits(day, 2) && TimeText(time)
    && value == year + "-" + month + "-" + day + " " + time
  }

  /** The timestamp test takes exactly a year, a month, a day and a time. */
  lemma TimestampIsTheGrammar(value: string)
    ensures IsTimestamp(value) <==> Timestamps(value)
  {
    if IsTimestamp(value) {
      var year, month, day, time := value[..4], value[5..7], value[8..10], value[11..];
      assert value == year + "-" + month + "-" + day + " " + time;
      StampDigits(value);
      assert Stamped(value, year, month, day, time);
    }
    if year, month, day, time :| Stamped(value, year, month, day, time) {
      assert forall i :: 0 <= i < |time| ==> value[11 + i] == time[i];
      StampPlaces(value, year, month, day, time);
    }
  }

  lemma StampDigits(value: string)
    requires IsTimestamp(value)
    ensures Digits(value[..4], 4) && Digits(value[5..7], 2) && Digits(value[8..10], 2) && TimeText(value[11..])
  {
    var ds := [0, 1, 2, 3, 5, 6, 8, 9];
    assert ds[0] == 0 && ds[1] == 1 && ds[2] == 2 && ds[3] == 3 && ds[4] == 5 && ds[5] == 6 && ds[6] == 8 && ds[7] == 9;
    assert forall k :: 0 <= k < |ds| ==> IsDigit(value[ds[k]]);
  }

  lemma StampPlaces(value: string, year: string, month: string, day: string, time: string)
    requires Stamped(value, year, month, day, time)
    ensures IsTimestamp(value)
  {
    assert value[0] == year[0] && value[1] == year[1] && value[2] == year[2] && value[3] == year[3];
    assert value[4] == '-' && value[7] == '-' && value[10] == ' ';
    assert value[5] == month[0] && value[6] == month[1] && value[8] == day[0] && value[9] == day[1];
    assert value[11..] == time;
    forall i | 11 <= i < |value| ensures value[i] == time[i - 11] {
      assert value[11..][i - 11] == time[i - 11];
    }
  }

  // ---------- classes ----------

  /** A field whose value is neither a flag nor private. */
  predicate Technical(name: string) {
    name !in LOCKED_BOOLEAN_FIELDS && name != "Path" && name !in LOCKED_PRIVATE_FIELDS
  }

  /** The classes, each by its own condition; a checksum that reads as a number is a number. */
  ghost predicate HasClass(name: string, value: string, c: ValueClass) {
    match c
    case BoolPlus => name in LOCKED_BOOLEAN_FIELDS && value == "+"
    case BoolMinus => name in LOCKED_BOOLEAN_FIELDS && value == "-"
    case Empty => name !in LOCKED_BOOLEAN_FIELDS && value == ""
    case PrivateLocatorDiscarded => name == "Path" && value != ""
    case PrivateNonemptyDiscarded => name in LOCKED_PRIVATE_FIELDS && value != ""
    case CanonicalUint => Technical(name) && PrintsNumber(value)
    case Crc32 => Technical(name) && IsCrc(value) && !PrintsNumber(value)
    case Timestamp => Technical(name) && Timestamps(value)
    case TechnicalNonemptyDiscarded =>
      Technical(name) && value != "" && !PrintsNumber(value) && !IsCrc(value) && !Timestamps(value)
  }

  lemma StampsAreNoNumbers(value: string)
    requires IsTimestamp(value)
    ensures !IsCanonicalNumber(value) && !IsCrc(value)
  {
    assert value[4] == '-';
  }

  lemma PrivateIsNoFlag(name: string)
    ensures name == "Path" ==> name !in LOCKED_BOOLEAN_FIELDS && name !in LOCKED_PRIVATE_FIELDS
    ensures name in LOCKED_PRIVATE_FIELDS ==> name !in LOCKED_BOOLEAN_FIELDS
  {
  }

  /** A locked value has exactly the class whose condition it meets, and only a flag that is neither + nor - has
      none. */
  lemma ClassIs(name: string, value: string, c: ValueClass)
    ensures LockedValueClass(name, value) == Some(c) <==> HasClass(name, value, c)
    ensures LockedValueClass(name, value) == None
       <==> name in LOCKED_BOOLEAN_FIELDS && value != "+" && value != "-"
  {
    hide LOCKED_BOOLEAN_FIELDS, LOCKED_PRIVATE_FIELDS, IsCanonicalNumber, IsCrc, IsTimestamp, PrintsNumber, Timestamps;
    CanonicalIsPrinted(value);
    TimestampIsTheGrammar(value);
    PrivateIsNoFlag(name);
    if IsTimestamp(value) { StampsAreNoNumbers(value); }
    if value == "" { NothingIsEmpty(value); }
  }

  lemma NothingIsEmpty(value: string)
    requires value == ""
    ensures !IsCanonicalNumber(value) && !IsCrc(value) && !IsTimestamp(value)
  {
  }

  /** What goes into the hash of a record is the names of its fields and the classes of their values, in order, and
      nothing else of them. */
  lemma {:induction false} ClassesSayTheFields(rec: Fields, i: nat)
    requires i < |rec| && forall k :: 0 <= k < |rec| ==> LockedValueClass(rec[k].name, rec[k].value).Some?
    ensures |ClassesOf(rec)| == |rec|
    ensures ClassesOf(rec)[i].0 == rec[i].name && HasClass(rec[i].name, rec[i].value, ClassesOf(rec)[i].1)
    decreases |rec|
  {
    hide LockedValueClass, HasClass;
    if i == 0 {
      ClassIs(rec[0].name, rec[0].value, LockedValueClass(rec[0].name, rec[0].value).value);
    } else {
      assert forall k :: 0 <= k < |rec[1..]| ==> rec[1..][k] == rec[k + 1];
      ClassesSayTheFields(rec[1..], i - 1);
    }
  }

  // ---------- what a record may carry ----------

  /** The comment of a listing is too long. */
  predicate LongComment(scheme: Scheme, f: Field) {
    f.name == "Comment" && scheme != LockedScheme
    && (|f.value| > MAX_COMMENT_CODEPOINTS || |Encode(f.value)| > MAX_COMMENT_UTF8_BYTES)
  }

  /** Flags are + or -; in the plain forms numbers are printed numbers and checksums eight hexadecimal digits. */
  ghost predicate ValueFits(scheme: Scheme, f: Field) {
    if scheme == LockedScheme then f.name in LOCKED_BOOLEAN_FIELDS ==> f.value == "+" || f.value == "-"
    else
      && (f.name in BOOLEAN_FIELDS ==> f.value == "+" || f.value == "-")
      && (f.name in NUMBER_FIELDS ==> PrintsNumber(f.value))
      && (f.name == "CRC" ==> IsCrc(f.value))
  }

  lemma CommentIsText()
    ensures "Comment" !in BOOLEAN_FIELDS && "Comment" !in NUMBER_FIELDS
  {
  }

  lemma CheckIs(scheme: Scheme, f: Field)
    ensures CheckValue(scheme, f)
         == if !ValueFits(scheme, f) then GrammarRejected
            else if LongComment(scheme, f) then Status.LimitExceeded else Parsed
  {
    hide LOCKED_BOOLEAN_FIELDS, BOOLEAN_FIELDS, NUMBER_FIELDS, IsCanonicalNumber, IsCrc, PrintsNumber, Encode,
         LockedValueClass;
    CanonicalIsPrinted(f.value);
    ClassIs(f.name, f.value, BoolPlus);
    CommentIsText();
  }

  /** A field is good exactly when its name is allowed, its value has no blanks around it and fits, and it is no long
      comment. */
  lemma GoodFieldMeans(scheme: Scheme, f: Field)
    ensures GoodField(scheme, f)
       <==> f.name in Allowed(scheme) && Stripped(f.value) && ValueFits(scheme, f) && !LongComment(scheme, f)
  {
    hide CheckValue, ValueFits, LongComment, Allowed, Stripped;
    CheckIs(scheme, f);
  }

  /** The line of a field is refused for a limit exactly when it is fine but for a full record, or but for the length of
      the comment. */
  lemma LimitIs(scheme: Scheme, record: Fields, f: Field)
    requires PlainName(f.name)
    ensures AddField(record, LineOf(f), scheme) == Refused(Status.LimitExceeded)
       <==> f.name in Allowed(scheme) && Stripped(f.value) && f.name !in Names(record)
            && (|record| >= MAX_FIELDS_PER_RECORD || (ValueFits(scheme, f) && LongComment(scheme, f)))
  {
    hide CheckValue, ValueFits, LongComment, Allowed, Stripped, Names;
    CheckIs(scheme, f);
    SeparatorIsFirst(f.name, f.value);
    LineParts(f);
    assert Field(f.name, f.value) == f;
  }
}
