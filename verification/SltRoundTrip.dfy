/**
Parsing undoes printing: any conflict-free list of valid members, printed as an SLT listing, parses back to itself.
*/
module SltRoundTrip {
  import opened Prelude
  import opened PolicyLimits
  import opened Text
  import opened Utf8
  import opened Locators
  import opened SltFields
  import opened SltMachine
  import opened SltDriver
  import opened SltLines
  import opened SltRecords
  import opened SltBody
  import opened SltMembers
  import opened SltGrammar

  // ---------- optional fields ----------

  /** A field that is printed or left out. */
  datatype Slot = Slot(name: string, present: bool, value: string)

  function Kept(slots: seq<Slot>): (r: Fields)
    ensures |r| <= |slots|
  {
    if slots == [] then []
    else (if slots[0].present then [Field(slots[0].name, slots[0].value)] else []) + Kept(slots[1..])
  }

  predicate DistinctSlots(slots: seq<Slot>) {
    forall i, j :: 0 <= i < j < |slots| ==> slots[i].name != slots[j].name
  }

  lemma {:induction false} KeptComeFromSlots(slots: seq<Slot>, i: nat) returns (j: nat)
    requires i < |Kept(slots)|
    ensures j < |slots| && slots[j].present && Kept(slots)[i] == Field(slots[j].name, slots[j].value)
    ensures i <= j
    decreases |slots|
  {
    if slots[0].present && i == 0 {
      j := 0;
    } else {
      var k := KeptComeFromSlots(slots[1..], if slots[0].present then i - 1 else i);
      j := k + 1;
    }
  }

  lemma {:induction false} KeptDistinct(slots: seq<Slot>)
    requires DistinctSlots(slots)
    ensures Distinct(Kept(slots))
    decreases |slots|
  {
    if slots != [] {
      var rest := slots[1..];
      assert DistinctSlots(rest) by {
        forall i, j | 0 <= i < j < |rest| ensures rest[i].name != rest[j].name {
          assert slots[i + 1].name != slots[j + 1].name;
        }
      }
      KeptDistinct(rest);
      forall i | 0 <= i < |Kept(rest)|
        ensures Kept(rest)[i].name != slots[0].name
      {
        var j := KeptComeFromSlots(rest, i);
        assert slots[0].name != slots[j + 1].name;
      }
    }
  }

  lemma GetNone(r: Fields, name: string)
    requires forall i :: 0 <= i < |r| ==> r[i].name != name
    ensures Get(r, name) == None && name !in Names(r)
  {
  }

  lemma GetSkip(f: Field, r: Fields, name: string)
    ensures Get([f] + r, name) == if f.name == name then Some(f.value) else Get(r, name)
  {
    assert ([f] + r)[1..] == r;
  }

  lemma {:induction false} KeptGet(slots: seq<Slot>, i: nat)
    requires DistinctSlots(slots) && i < |slots|
    ensures Get(Kept(slots), slots[i].name) == if slots[i].present then Some(slots[i].value) else None
    ensures slots[i].name in Names(Kept(slots)) <==> slots[i].present
    decreases |slots|
  {
    var rest, s := slots[1..], slots[0];
    forall a, b | 0 <= a < b < |rest| ensures rest[a].name != rest[b].name {
      assert slots[a + 1].name != slots[b + 1].name;
    }
    if s.present {
      GetSkip(Field(s.name, s.value), Kept(rest), slots[i].name);
    } else {
      assert Kept(slots) == Kept(rest);
    }
    if i == 0 {
      forall k | 0 <= k < |Kept(rest)| ensures Kept(rest)[k].name != s.name {
        var j := KeptComeFromSlots(rest, k);
        assert slots[0].name != slots[j + 1].name;
      }
      GetNone(Kept(rest), s.name);
    } else {
      assert slots[0].name != slots[i].name;
      KeptGet(rest, i - 1);
    }
  }

  // ---------- printing a member ----------

  function Sign(b: bool): (s: string) { if b then "+" else "-" }

  function SlotsOf(m: Member): (slots: seq<Slot>)
    ensures |slots| == 13
  {
    [Slot("Path", true, m.locator), Slot("Folder", true, Sign(m.isDirectory)),
     Slot("Size", true, PrintDecimal(m.uncompressedBytes)), Slot("Packed Size", true, PrintDecimal(m.compressedBytes)),
     Slot("Encrypted", true, Sign(m.encrypted)),
     Slot("CRC", m.crc32.Some?, if m.crc32.Some? then m.crc32.value else ""),
     Slot("Symbolic Link", m.symbolicLink, ""), Slot("Hard Link", m.hardLink, ""), Slot("User", m.userPresent, ""),
     Slot("Group", m.groupPresent, ""), Slot("Characteristics", m.characteristicsPresent, ""),
     Slot("Alternate Stream", m.alternateStream, "+"), Slot("Anti", m.antiItem, "+")]
  }

  /** The fields of a member, one per known attribute; absent attributes print nothing. */
  function PrintMember(m: Member): (r: Fields) { Kept(SlotsOf(m)) }

  lemma SlotNamesDiffer(m: Member)
    ensures DistinctSlots(SlotsOf(m))
  {
  }

  /** The record of a printed member denotes that member. */
  lemma MemberOfPrinted(m: Member)
    ensures REQUIRED_FIELDS <= Names(PrintMember(m)) && MemberOf(PrintMember(m)) == m
    ensures Value(PrintMember(m), "Path") == m.locator
  {
    hide Kept, Names, PrintDecimal, DistinctSlots;
    var slots := SlotsOf(m);
    SlotNamesDiffer(m);
    KeptGet(slots, 0); KeptGet(slots, 1); KeptGet(slots, 2); KeptGet(slots, 3); KeptGet(slots, 4);
    KeptGet(slots, 5); KeptGet(slots, 6); KeptGet(slots, 7); KeptGet(slots, 8); KeptGet(slots, 9);
    KeptGet(slots, 10); KeptGet(slots, 11); KeptGet(slots, 12);
  }

  // ---------- the printed record is good ----------

  lemma {:induction false} DecimalLength(n: nat, k: nat)
    requires 1 <= k && n < Pow10(k)
    ensures |PrintDecimal(n)| <= k
    decreases k
  {
    if n >= 10 {
      DecimalLength(n / 10, k - 1);
    }
  }

  lemma DigitsArePlain(s: string)
    requires AllDigits(s)
    ensures NoControls(s) && BOM !in s && Stripped(s)
  {
  }

  lemma {:induction false} DigitsEncode(s: string)
    requires AllDigits(s)
    ensures |Encode(s)| == |s|
  {
    if s != "" { DigitsEncode(s[1..]); }
  }

  /** A value short and clean enough for any line. */
  predicate FitsLine(value: string) {
    NoControls(value) && BOM !in value && |value| <= 1_024 && |Encode(value)| <= 4_096
  }

  predicate GoodSlot(s: Slot) {
    s.present ==> GoodField(MemberScheme, Field(s.name, s.value)) && FitsLine(s.value)
  }

  lemma NineteenDigits()
    ensures Pow10(19) > MAX_INT64
  {
    assert Pow10(4) == 10_000;
    assert Pow10(8) == 100_000_000;
    assert Pow10(12) == 1_000_000_000_000;
    assert Pow10(16) == 10_000_000_000_000_000;
  }

  lemma NumberFits(n: nat)
    requires n <= MAX_INT64
    ensures FitsLine(PrintDecimal(n)) && IsCanonicalNumber(PrintDecimal(n)) && Stripped(PrintDecimal(n))
  {
    hide NoControls, Encode, Stripped, PrintDecimal;
    NineteenDigits();
    DecimalLength(n, 19);
    DigitsArePlain(PrintDecimal(n));
    DigitsEncode(PrintDecimal(n));
  }

  lemma NumberSlot(name: string, n: nat)
    requires name in {"Size", "Packed Size"} && n <= MAX_INT64
    ensures GoodSlot(Slot(name, true, PrintDecimal(n)))
  {
    hide FitsLine, PrintDecimal, IsCanonicalNumber, Stripped;
    NumberFits(n);
    assert name in MEMBER_FIELDS;
  }

  lemma PathSlot(locator: string)
    requires BoundedText(locator, MAX_MEMBER_PATH_CODEPOINTS, MAX_MEMBER_PATH_UTF8_BYTES)
    ensures GoodSlot(Slot("Path", true, locator))
  {
    hide NoControls, Encode;
    assert "Path" in MEMBER_FIELDS;
  }

  lemma CrcSlot(crc: string)
    requires IsCrc(crc)
    ensures GoodSlot(Slot("CRC", true, crc))
  {
    hide Encode, IsCanonicalNumber, LockedValueClass, HEADER_FIELDS, LOCKED_FIELDS;
    EncodeLength(crc);
    assert "CRC" in MEMBER_FIELDS;
  }

  lemma SignSlot(name: string, b: bool)
    requires name in {"Folder", "Encrypted", "Alternate Stream", "Anti"}
    ensures GoodSlot(Slot(name, true, Sign(b)))
  {
    hide Encode, IsCanonicalNumber, LockedValueClass, IsCrc, HEADER_FIELDS, LOCKED_FIELDS;
    EncodeLength(Sign(b));
    assert name in MEMBER_FIELDS;
  }

  lemma EmptySlot(name: string)
    requires name in {"Symbolic Link", "Hard Link", "User", "Group", "Characteristics"}
    ensures GoodSlot(Slot(name, true, ""))
  {
    hide IsCanonicalNumber, LockedValueClass, IsCrc, HEADER_FIELDS, LOCKED_FIELDS;
    assert name in MEMBER_FIELDS;
  }

  lemma AbsentSlot(name: string, value: string)
    ensures GoodSlot(Slot(name, false, value))
  {
  }

  lemma OptionalCrc(crc: Option<string>)
    requires crc.Some? ==> IsCrc(crc.value)
    ensures GoodSlot(Slot("CRC", crc.Some?, if crc.Some? then crc.value else ""))
  {
    hide GoodSlot, IsCrc;
    if crc.Some? { CrcSlot(crc.value); } else { AbsentSlot("CRC", ""); }
  }

  lemma OptionalEmpty(name: string, b: bool)
    requires name in {"Symbolic Link", "Hard Link", "User", "Group", "Characteristics"}
    ensures GoodSlot(Slot(name, b, ""))
  {
    hide GoodSlot;
    if b { EmptySlot(name); } else { AbsentSlot(name, ""); }
  }

  lemma OptionalPlus(name: string, b: bool)
    requires name in {"Alternate Stream", "Anti"}
    ensures GoodSlot(Slot(name, b, "+"))
  {
    hide GoodSlot;
    if b { SignSlot(name, true); } else { AbsentSlot(name, "+"); }
  }

  lemma SlotsAreGood(m: Member, upper: string -> string)
    requires ConstructibleMember(m, upper)
    ensures forall i :: 0 <= i < 13 ==> GoodSlot(SlotsOf(m)[i])
  {
    hide GoodSlot, BoundedText, SafeLocator, PrintDecimal, IsCrc;
    PathSlot(m.locator);
    SignSlot("Folder", m.isDirectory);
    NumberSlot("Size", m.uncompressedBytes);
    NumberSlot("Packed Size", m.compressedBytes);
    SignSlot("Encrypted", m.encrypted);
    OptionalCrc(m.crc32);
    OptionalEmpty("Symbolic Link", m.symbolicLink);
    OptionalEmpty("Hard Link", m.hardLink);
    OptionalEmpty("User", m.userPresent);
    OptionalEmpty("Group", m.groupPresent);
    OptionalEmpty("Characteristics", m.characteristicsPresent);
    OptionalPlus("Alternate Stream", m.alternateStream);
    OptionalPlus("Anti", m.antiItem);
  }

  lemma LineIsGood(f: Field)
    requires f.name in MEMBER_FIELDS && FitsLine(f.value)
    ensures GoodLine(LineOf(f)) && BOM !in LineOf(f)
  {
    hide Encode, MEMBER_FIELDS;
    NameIsShort(f.name);
    EncodeAppend(f.name + " = ", f.value);
    EncodeLength(f.name + " = ");
  }

  predicate ShortName(name: string) { |name| <= 20 && NoControls(name) && BOM !in name }

  lemma EarlyNameIsShort(name: string)
    requires name in {"Path", "Folder", "Size", "Packed Size", "Modified", "Created", "Accessed", "Attributes",
                      "Encrypted", "CRC", "Method"}
    ensures ShortName(name)
  {
  }

  lemma MiddleNameIsShort(name: string)
    requires name in {"Block", "Characteristics", "Host OS", "Version", "Volume Index", "Offset"}
    ensures ShortName(name)
  {
  }

  lemma LateNameIsShort(name: string)
    requires name in {"Symbolic Link", "Hard Link", "User", "Group", "Alternate Stream", "Anti"}
    ensures ShortName(name)
  {
  }

  lemma NameIsShort(name: string)
    requires name in MEMBER_FIELDS
    ensures ShortName(name)
  {
    hide ShortName;
    if name in {"Path", "Folder", "Size", "Packed Size", "Modified", "Created", "Accessed", "Attributes", "Encrypted",
                "CRC", "Method"} {
      EarlyNameIsShort(name);
    } else if name in {"Block", "Characteristics", "Host OS", "Version", "Volume Index", "Offset"} {
      MiddleNameIsShort(name);
    } else {
      LateNameIsShort(name);
    }
  }

  lemma FieldIsAllowed(f: Field)
    requires GoodField(MemberScheme, f)
    ensures f.name in MEMBER_FIELDS
  {
    hide MEMBER_FIELDS, CheckValue;
  }

  /** Printing a valid member gives a good record of clean lines. */
  lemma PrintedIsGood(m: Member, upper: string -> string)
    requires ConstructibleMember(m, upper)
    ensures PrintMember(m) != [] && GoodFields(MemberScheme, PrintMember(m))
    ensures CleanLines(RecordLines(PrintMember(m)))
  {
    hide GoodField, FitsLine, ConstructibleMember, SlotsOf, Kept, DistinctSlots, GoodLine, LineOf;
    var slots, r := SlotsOf(m), PrintMember(m);
    SlotNamesDiffer(m);
    KeptDistinct(slots);
    SlotsAreGood(m, upper);
    KeptGet(slots, 0);
    SlotZero(m);
    forall i | 0 <= i < |r|
      ensures GoodField(MemberScheme, r[i]) && GoodLine(LineOf(r[i])) && BOM !in LineOf(r[i])
    {
      var j := KeptComeFromSlots(slots, i);
      assert GoodSlot(slots[j]);
      FieldIsAllowed(r[i]);
      LineIsGood(r[i]);
    }
  }

  lemma SlotZero(m: Member)
    ensures SlotsOf(m)[0] == Slot("Path", true, m.locator)
  {
  }

  // ---------- printing a list ----------

  function PrintMembers(ms: seq<Member>): (records: seq<Fields>)
    ensures |records| == |ms| && forall i :: 0 <= i < |ms| ==> records[i] == PrintMember(ms[i])
  {
    seq(|ms|, i requires 0 <= i < |ms| => PrintMember(ms[i]))
  }

  /** Members a listing can hold: each valid, few enough, no two in conflict. */
  predicate ListableMembers(env: Env, ms: seq<Member>) {
    && |ms| <= MAX_MEMBER_COUNT
    && (forall i :: 0 <= i < |ms| ==> ConstructibleMember(ms[i], env.upper))
    && ConflictFree(EntriesOf(env, ms))
  }

  lemma CleanConcat(a: seq<string>, b: seq<string>)
    requires CleanLines(a) && CleanLines(b)
    ensures CleanLines(a + b)
  {
    hide GoodLine;
  }

  lemma {:induction false} CleanBody(records: seq<Fields>)
    requires forall i :: 0 <= i < |records| ==> CleanLines(RecordLines(records[i]))
    ensures CleanLines(Body(records))
  {
    hide CleanLines, RecordLines;
    if records == [] {
      NoLinesAreClean();
    } else {
      CleanBody(records[1..]);
      BlankIsClean();
      CleanConcat(RecordLines(records[0]), [""]);
      CleanConcat(RecordLines(records[0]) + [""], Body(records[1..]));
    }
  }

  lemma NoLinesAreClean()
    ensures CleanLines([])
  {
  }

  lemma BlankIsClean()
    ensures CleanLines([""])
  {
  }

  lemma {:induction false} CleanTextHasNoBom(lines: seq<string>, crs: seq<bool>)
    requires |crs| == |lines| && CleanLines(lines)
    ensures BOM !in JoinLines(lines, crs)
    decreases |lines|
  {
    hide GoodLine;
    if lines != [] {
      assert forall i :: 0 <= i < |lines[1..]| ==> lines[1..][i] == lines[i + 1];
      CleanTextHasNoBom(lines[1..], crs[1..]);
    }
  }

  lemma CleanIsGood(lines: seq<string>)
    requires CleanLines(lines)
    ensures GoodLines(lines)
  {
    hide GoodLine;
  }

  lemma PrintedShape(env: Env, m: Member)
    requires ConstructibleMember(m, env.upper)
    ensures GoodShape(env, PrintMember(m))
  {
    hide PrintMember, MemberOf, Names, SafeLocator;
    MemberOfPrinted(m);
  }

  lemma PrintedListing(env: Env, ms: seq<Member>)
    requires ListableMembers(env, ms)
    ensures GoodRecords(MemberScheme, PrintMembers(ms)) && GoodShapes(env, PrintMembers(ms))
    ensures DenotedBy(env, PrintMembers(ms)) == ms
    ensures CleanLines(Body(PrintMembers(ms)))
  {
    hide ConstructibleMember, PrintMember, GoodFields, CleanLines, GoodShape, MemberOf, ConflictFree, Body, RecordLines;
    var records := PrintMembers(ms);
    forall i | 0 <= i < |records|
      ensures records[i] != [] && GoodFields(MemberScheme, records[i]) && GoodShape(env, records[i])
      ensures REQUIRED_FIELDS <= Names(records[i]) && MemberOf(records[i]) == ms[i]
      ensures CleanLines(RecordLines(records[i]))
    {
      assert ConstructibleMember(ms[i], env.upper);
      PrintedIsGood(ms[i], env.upper);
      PrintedShape(env, ms[i]);
      MemberOfPrinted(ms[i]);
    }
    CleanBody(records);
  }

  /** The printed text of members is their listing, whichever line endings are chosen. */
  lemma PrintedTextIsListing(env: Env, ms: seq<Member>, crs: seq<bool>)
    requires ListableMembers(env, ms) && |crs| == |Body(PrintMembers(ms))|
    ensures MemberListing(env, JoinLines(Body(PrintMembers(ms)), crs), PrintMembers(ms), crs)
    ensures GoodShapes(env, PrintMembers(ms)) && DenotedBy(env, PrintMembers(ms)) == ms
  {
    hide GoodRecords, GoodShapes, ConflictFree, JoinLines, GoodLines, CleanLines, PrintMembers, Body, DenotedBy,
         ConstructibleMember;
    PrintedListing(env, ms);
    CleanTextHasNoBom(Body(PrintMembers(ms)), crs);
    CleanIsGood(Body(PrintMembers(ms)));
    PrintedCount(ms);
  }

  lemma PrintedCount(ms: seq<Member>)
    ensures |PrintMembers(ms)| == |ms|
  {
    hide PrintMember;
  }

  /** Print, encode, cut into chunks within the limits, parse: the same members come back. */
  lemma ParsingUndoesPrinting(env: Env, table: CaseTable, ms: seq<Member>, crs: seq<bool>, bom: bool,
                              chunks: seq<seq<byte>>)
    requires ListableMembers(env, ms) && |crs| == |Body(PrintMembers(ms))|
    requires Concat(chunks) == Encode(Mark(bom) + JoinLines(Body(PrintMembers(ms)), crs))
    requires ChunksWithinLimits(0, 0, chunks)
    ensures var r := DriveEnd(env, MemberForm, DriveChunks(env, MemberForm, StartDrive(MemberForm, table), chunks));
            r.Ok? && r.value.members == ms
  {
    hide ListableMembers, JoinLines, Body, PrintMembers, MemberListing, ParseText, Encode, DriveEnd, DriveChunks,
         ParseBytes,
         GoodShapes, DenotedBy, ChunksWithinLimits, StartDrive, Concat;
    var records := PrintMembers(ms);
    var text := JoinLines(Body(records), crs);
    PrintedTextIsListing(env, ms, crs);
    ListingIsParsed(env, table, text, records, crs);
    ListingIsClean(env, text, records, crs);
    var core := ParseText(env, MemberForm, table, text).value;
    BytesAreText(env, MemberForm, table, Concat(chunks), core);
    AcceptanceIgnoresChunking(env, MemberForm, table, chunks, core);
  }
}
