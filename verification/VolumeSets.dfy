/** Complete volume sets, stated without any sorting or matching order: the groups of names are exactly these. */
module VolumeSets {
  import opened Prelude
  import opened Permutations
  import opened Sorting
  import opened Volumes

  // ---------- complete sets ----------

  /** volumes, in this order, are the volumes 1, 2, ... of one stem, with numbers of one width. */
  predicate NumberedSet(pattern: Pattern, volumes: seq<string>) {
    && volumes != [] && VolumesOf(pattern, volumes, StemOf(pattern, volumes[0]), 1)
    && OneWidth(pattern, volumes, WidthOf(pattern, volumes[0]))
  }

  /** parts, in this order, are the volumes first, first + 1, ... that go with the entry. */
  predicate EntrySet(pattern: Pattern, suffix: string, first: int, entry: string, parts: seq<string>) {
    && |suffix| == 4 && EndsIn(entry, suffix) && parts != [] && VolumesOf(pattern, parts, entry[..|entry| - 4], first)
  }

  /** A group that is a complete set in the order its format reads it. */
  predicate CompleteSet(pattern: Pattern, g: Group) {
    var n := |g.members|;
    match pattern
    case NewRar => NumberedSet(NewRar, g.members) && g == Group(Listed, Some(g.members[0]), g.members)
    case SevenZPart => NumberedSet(SevenZPart, g.members) && g == Group(Listed, Some(g.members[0]), g.members)
    case OldRarPart =>
      n > 1 && EntrySet(OldRarPart, ".rar", 0, g.members[0], g.members[1..])
      && g == Group(Listed, Some(g.members[0]), g.members)
    case SplitZipPart =>
      n > 1 && EntrySet(SplitZipPart, ".zip", 1, g.members[n - 1], g.members[..n - 1])
      && g == Group(UnsupportedFormat, Some(g.members[n - 1]), g.members)
  }

  lemma EndsInRar(name: string)
    requires EndsIn(name, ".rar")
    ensures name != "" && name[|name| - 1] in {'r', 'R'} && !LastIsDigit(name)
  {
    var text := ".rar";
    assert LowerAscii(name[|name| - |text| + 3]) == text[3];
  }

  lemma EndsInZip(name: string)
    requires EndsIn(name, ".zip")
    ensures name != "" && name[|name| - 1] in {'p', 'P'} && !LastIsDigit(name)
  {
    var text := ".zip";
    assert LowerAscii(name[|name| - |text| + 3]) == text[3];
  }

  /** Parts carry neither suffix, and a numbered RAR volume carries the one. */
  lemma SuffixesOf(pattern: Pattern, name: string)
    requires Matches(pattern, name)
    ensures EndsIn(name, ".rar") <==> pattern == NewRar
    ensures !EndsIn(name, ".zip")
  {
    hide EndsIn;
    if pattern == NewRar {
      NewRarHasSuffix(name);
    } else {
      PartsEndInDigits(pattern, name);
    }
    if EndsIn(name, ".rar") { EndsInRar(name); }
    if EndsIn(name, ".zip") { EndsInZip(name); }
  }

  lemma NewRarHasSuffix(name: string)
    requires Matches(NewRar, name)
    ensures EndsIn(name, ".rar")
  {
    hide EndsIn, Numbered;
  }

  // ---------- a complete set is grouped ----------

  /** The other matchers on names that all match one pattern. */
  lemma OthersRefuseNumbered(pattern: Pattern, names: seq<string>)
    requires names != [] && AllMatch(pattern, names) && (pattern == NewRar || pattern == SevenZPart)
    ensures GroupNumbered(if pattern == NewRar then SevenZPart else NewRar, names) == None
    ensures GroupWithEntry(OldRarPart, ".rar", 0, names) == None
            && GroupWithEntry(SplitZipPart, ".zip", 1, names) == None
  {
    hide Match, EndsIn, NumberedGroup;
    forall n | n in names ensures EndsIn(n, ".rar") <==> pattern == NewRar ensures !EndsIn(n, ".zip") {
      SuffixesOf(pattern, n);
    }
    var other := if pattern == NewRar then SevenZPart else NewRar;
    if AllMatch(other, names) { PatternsExclude(pattern, other, names[0]); }
    FilterNone(names, n => EndsIn(n, ".zip"));
    if pattern == NewRar {
      FilterNone(names, n => !EndsIn(n, ".rar"));
    } else {
      FilterNone(names, n => EndsIn(n, ".rar"));
    }
  }

  lemma NumberedIsGrouped(pattern: Pattern, volumes: seq<string>, names: seq<string>)
    requires NumberedSet(pattern, volumes) && SameElements(volumes, names)
    ensures names != [] && AllMatch(pattern, names)
    ensures GroupNumbered(pattern, names) == Some(Group(Listed, Some(volumes[0]), volumes))
  {
    hide Match, OneStem, OneWidth, AllMatch, ByNumber, Contiguous, StemOf, WidthOf;
    SameLength(volumes, names);
    ByNumberSorts(pattern, volumes);
    ContiguousIsUnique(pattern, volumes, ByNumber(pattern, volumes), 1);
    NumberedIgnoresOrder(pattern, volumes, names);
    AllMatchIgnoresOrder(pattern, volumes, names, "", 0);
  }

  lemma EntryIsGrouped(pattern: Pattern, suffix: string, first: int, entry: string, parts: seq<string>,
                       names: seq<string>)
    requires EntrySet(pattern, suffix, first, entry, parts) && SameElements([entry] + parts, names)
    requires forall n :: n in parts ==> !EndsIn(n, suffix)
    ensures GroupWithEntry(pattern, suffix, first, names)
         == Some(if pattern == SplitZipPart then Group(UnsupportedFormat, Some(entry), parts + [entry])
                 else Group(Listed, Some(entry), [entry] + parts))
  {
    hide Match, OneStem, AllMatch, ByNumber, Contiguous, EndsIn;
    var whole := [entry] + parts;
    assert |entry| >= 4 by { EndsInIsLong(entry, suffix); }
    FilterAppend([entry], parts, n => EndsIn(n, suffix));
    FilterAppend([entry], parts, n => !EndsIn(n, suffix));
    FilterNone(parts, n => EndsIn(n, suffix));
    FilterAll(parts, n => !EndsIn(n, suffix));
    FilterAll([entry], n => EndsIn(n, suffix));
    FilterNone([entry], n => !EndsIn(n, suffix));
    assert Entries(suffix, whole) == [entry] && Others(suffix, whole) == parts;
    ByNumberSorts(pattern, parts);
    ContiguousIsUnique(pattern, parts, ByNumber(pattern, parts), first);
    WithEntryIgnoresOrder(pattern, suffix, first, whole, names);
  }

  lemma EndsInIsLong(name: string, suffix: string)
    requires EndsIn(name, suffix)
    ensures |name| >= |suffix|
  {
  }

  lemma OthersRefuseEntry(pattern: Pattern, entry: string, parts: seq<string>, names: seq<string>)
    requires pattern == OldRarPart || pattern == SplitZipPart
    requires EndsIn(entry, if pattern == OldRarPart then ".rar" else ".zip") && parts != [] && AllMatch(pattern, parts)
    requires SameElements([entry] + parts, names)
    ensures names != [] && GroupNumbered(NewRar, names) == None && GroupNumbered(SevenZPart, names) == None
    ensures if pattern == OldRarPart then GroupWithEntry(SplitZipPart, ".zip", 1, names) == None
            else GroupWithEntry(OldRarPart, ".rar", 0, names) == None
  {
    hide Match, EndsIn, NumberedGroup;
    SameLength([entry] + parts, names);
    SameMembers([entry] + parts, names);
    assert entry in names && parts[0] in names;
    PatternsAreNot(pattern, entry, parts[0]);
    assert !AllMatch(NewRar, names) && !AllMatch(SevenZPart, names);
    forall n | n in names ensures if pattern == OldRarPart then !EndsIn(n, ".zip") else !EndsIn(n, ".rar") {
      if n in parts { SuffixesOf(pattern, n); }
    }
    if pattern == OldRarPart {
      FilterNone(names, n => EndsIn(n, ".zip"));
    } else {
      FilterNone(names, n => EndsIn(n, ".rar"));
    }
  }

  /** An entry is no numbered 7z volume, a part no numbered RAR volume, and an entry carries one suffix only. */
  lemma PatternsAreNot(pattern: Pattern, entry: string, part: string)
    requires pattern == OldRarPart || pattern == SplitZipPart
    requires EndsIn(entry, if pattern == OldRarPart then ".rar" else ".zip") && Matches(pattern, part)
    ensures !Matches(SevenZPart, entry) && !Matches(NewRar, part)
    ensures if pattern == OldRarPart then !EndsIn(entry, ".zip") else !EndsIn(entry, ".rar")
  {
    hide Match, EndsIn;
    if Matches(NewRar, part) { PatternsExclude(NewRar, pattern, part); }
    if EndsIn(entry, ".rar") { EndsInRar(entry); }
    if EndsIn(entry, ".zip") { EndsInZip(entry); }
    if Matches(SevenZPart, entry) { PartsEndInDigits(SevenZPart, entry); }
  }

  lemma DistinctFolds(names: seq<string>, fold: string -> string)
    requires DistinctUnder(names, fold)
    ensures Distinct(names)
  {
  }

  /** Few enough names, different under folding, that are the members of a complete set make up that very group. */
  lemma CompleteIsGrouped(pattern: Pattern, g: Group, names: seq<string>, fold: string -> string)
    requires CompleteSet(pattern, g) && SameElements(g.members, names)
    requires |names| <= MAX_ARCHIVE_VOLUMES && DistinctUnder(names, fold)
    ensures GroupNames(names, fold) == g
  {
    hide GroupNumbered, GroupWithEntry, NumberedSet, EntrySet, DistinctUnder, Distinct;
    DistinctFolds(names, fold);
    match pattern
    case NewRar =>
      NumberedIsGrouped(NewRar, g.members, names);
      OthersRefuseNumbered(NewRar, names);
    case SevenZPart =>
      NumberedIsGrouped(SevenZPart, g.members, names);
      OthersRefuseNumbered(SevenZPart, names);
    case OldRarPart => EntryMakesGroup(OldRarPart, ".rar", 0, g.members[0], g.members[1..], g, names);
    case SplitZipPart =>
      var n := |g.members|;
      assert g.members == g.members[..n - 1] + [g.members[n - 1]];
      EntryMakesGroup(SplitZipPart, ".zip", 1, g.members[n - 1], g.members[..n - 1], g, names);
  }

  lemma EntryMakesGroup(pattern: Pattern, suffix: string, first: int, entry: string, parts: seq<string>, g: Group,
                        names: seq<string>)
    requires EntrySet(pattern, suffix, first, entry, parts)
    requires (pattern == OldRarPart && suffix == ".rar" && first == 0
              && g == Group(Listed, Some(entry), [entry] + parts))
             || (pattern == SplitZipPart && suffix == ".zip" && first == 1
                 && g == Group(UnsupportedFormat, Some(entry), parts + [entry]))
    requires SameElements(g.members, names)
    ensures names != [] && GroupWithEntry(pattern, suffix, first, names) == Some(g)
    ensures GroupNumbered(NewRar, names) == None && GroupNumbered(SevenZPart, names) == None
    ensures if pattern == OldRarPart then GroupWithEntry(SplitZipPart, ".zip", 1, names) == None
            else GroupWithEntry(OldRarPart, ".rar", 0, names) == None
  {
    hide Match, GroupNumbered, GroupWithEntry, EndsIn, OneStem, Contiguous;
    forall n | n in parts ensures !EndsIn(n, suffix) {
      SuffixesOf(pattern, n);
    }
    assert SameElements([entry] + parts, parts + [entry]);
    EntryIsGrouped(pattern, suffix, first, entry, parts, names);
    OthersRefuseEntry(pattern, entry, parts, names);
  }

  // ---------- every group is a complete set ----------

  lemma NumberedIsComplete(pattern: Pattern, names: seq<string>)
    requires names != [] && (pattern == NewRar || pattern == SevenZPart)
    requires GroupNumbered(pattern, names).Some? && GroupNumbered(pattern, names).value.status == Listed
    ensures var g := GroupNumbered(pattern, names).value; CompleteSet(pattern, g) && SameElements(g.members, names)
  {
    hide Match, OneStem, OneWidth, AllMatch, Contiguous, ByNumber, StemOf, WidthOf;
    var g := GroupNumbered(pattern, names).value;
    var stem := NumberedGroupIsContiguous(pattern, names);
    FirstStemIgnoresOrder(pattern, names, g.members);
  }

  lemma EntryIsComplete(pattern: Pattern, names: seq<string>)
    requires pattern == OldRarPart || pattern == SplitZipPart
    requires GroupWithEntry(pattern, if pattern == OldRarPart then ".rar" else ".zip",
                            if pattern == OldRarPart then 0 else 1,
                            names).Some?
    requires var r := GroupWithEntry(pattern, if pattern == OldRarPart then ".rar" else ".zip",
                                     if pattern == OldRarPart then 0 else 1, names).value;
             r.status == Listed || r.status == UnsupportedFormat
    ensures var g := GroupWithEntry(pattern, if pattern == OldRarPart then ".rar" else ".zip",
                                    if pattern == OldRarPart then 0 else 1, names).value;
            CompleteSet(pattern, g) && SameElements(g.members, names)
  {
    hide Match, AllMatch, OneStem, Contiguous, ByNumber, Entries, Others, EndsIn;
    var suffix, first := if pattern == OldRarPart then ".rar" else ".zip", if pattern == OldRarPart then 0 else 1;
    var g := GroupWithEntry(pattern, suffix, first, names).value;
    var entry, parts := EntryGroupIsContiguous(pattern, suffix, first, names);
    var n := |g.members|;
    if pattern == OldRarPart {
      assert g.members[1..] == parts;
    } else {
      assert g.members[..n - 1] == parts;
    }
  }

  /** The classification of names succeeds exactly on complete sets of at most 256 names that differ under folding,
      whatever order they come in, and its result is the set in its own order. */
  lemma GroupedIffComplete(names: seq<string>, fold: string -> string, g: Group)
    ensures GroupNames(names, fold) == g && g.status in {Listed, UnsupportedFormat}
       <==> |names| <= MAX_ARCHIVE_VOLUMES && DistinctUnder(names, fold) && SameElements(g.members, names)
            && exists pattern :: CompleteSet(pattern, g)
  {
    hide GroupNumbered, GroupWithEntry, CompleteSet, Distinct, DistinctUnder;
    if GroupNames(names, fold) == g && g.status in {Listed, UnsupportedFormat} {
      NumberedHaveNoOther(NewRar, names);
      NumberedHaveNoOther(SevenZPart, names);
      if GroupNumbered(NewRar, names) == Some(g) {
        NumberedIsComplete(NewRar, names);
      } else if GroupNumbered(SevenZPart, names) == Some(g) {
        NumberedIsComplete(SevenZPart, names);
      } else if GroupWithEntry(OldRarPart, ".rar", 0, names) == Some(g) {
        EntryIsComplete(OldRarPart, names);
      } else {
        EntryIsComplete(SplitZipPart, names);
      }
    }
    if |names| <= MAX_ARCHIVE_VOLUMES && DistinctUnder(names, fold) && SameElements(g.members, names) {
      if pattern :| CompleteSet(pattern, g) {
        CompleteIsGrouped(pattern, g, names, fold);
        CompleteIsListed(pattern, g);
      }
    }
  }

  lemma CompleteIsListed(pattern: Pattern, g: Group)
    requires CompleteSet(pattern, g)
    ensures g.status in {Listed, UnsupportedFormat}
  {
    hide NumberedSet, EntrySet;
  }

  lemma NumberedHaveNoOther(pattern: Pattern, names: seq<string>)
    requires names != []
    ensures GroupNumbered(pattern, names).Some? ==> GroupNumbered(pattern, names).value.status != UnsupportedFormat
  {
    hide OneStem, AllMatch, OneWidth, Contiguous, ByNumber;
  }
}
