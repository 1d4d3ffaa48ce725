/**
Multi-volume archive names: the four name patterns, and the classification of one set of basenames as a volume group.
The result depends on the set of names alone, and a numbered group holds exactly the contiguous volumes of one stem.
*/
module Volumes {
  import opened Prelude
  import opened Text
  import opened Permutations
  import opened Sorting

  const MAX_ARCHIVE_VOLUMES := 256

  datatype Pattern = NewRar | OldRarPart | SevenZPart | SplitZipPart

  /** What a pattern captures. */
  datatype Part = Part(stem: string, number: string)

  function LowerAscii(c: char): (r: char) { if 'A' <= c <= 'Z' then (c as int + 32) as char else c }

  /** s ends in the lower-case ASCII text, in either case. */
  predicate EndsIn(s: string, text: string) {
    |s| >= |text| && forall i :: 0 <= i < |text| ==> LowerAscii(s[|s| - |text| + i]) == text[i]
  }

  /** How many digits s ends in. */
  function DigitRun(s: string): (n: nat)
    ensures n <= |s| && AllDigits(s[|s| - n..])
  {
    if s == "" || !IsDigit(s[|s| - 1]) then 0
    else
      var n := 1 + DigitRun(s[..|s| - 1]);
      assert s[|s| - n..] == s[..|s| - 1][|s| - n..] + [s[|s| - 1]];
      n
  }

  /** The part that base + digits is, when base ends in the marker behind a stem. */
  function Numbered(base: string, marker: string, least: nat, most: nat): (p: Option<Part>) {
    var n := DigitRun(base);
    var front := base[..|base| - n];
    if least <= n <= most && EndsIn(front, marker) && |front| > |marker|
    then Some(Part(front[..|front| - |marker|], base[|base| - n..])) else None
  }

  /** `fullmatch` of the four patterns; IGNORECASE touches only the ASCII letters they spell. */
  function Match(pattern: Pattern, name: string): (p: Option<Part>)
    ensures p.Some? ==> AllDigits(p.value.number) && p.value.stem != ""
  {
    match pattern
    case NewRar => if EndsIn(name, ".rar") then Numbered(name[..|name| - 4], ".part", 1, 6) else None
    case OldRarPart => Numbered(name, ".r", 2, 2)
    case SevenZPart => Numbered(name, ".7z.", 3, 6)
    case SplitZipPart => Numbered(name, ".z", 2, 2)
  }

  predicate Matches(pattern: Pattern, name: string) { Match(pattern, name).Some? }

  function StemOf(pattern: Pattern, name: string): (s: string) {
    if Matches(pattern, name) then Match(pattern, name).value.stem else ""
  }

  function WidthOf(pattern: Pattern, name: string): (n: nat) {
    if Matches(pattern, name) then |Match(pattern, name).value.number| else 0
  }

  function NumberOf(pattern: Pattern, name: string): (n: int) {
    if Matches(pattern, name) then DecimalValue(Match(pattern, name).value.number) else -1
  }

  // ---------- how names end ----------

  predicate LastIsDigit(name: string) { name != "" && IsDigit(name[|name| - 1]) }

  lemma NewRarEndsInR(name: string)
    requires Matches(NewRar, name)
    ensures name != "" && name[|name| - 1] in {'r', 'R'} && !LastIsDigit(name)
  {
    hide Numbered;
    var text := ".rar";
    assert LowerAscii(name[|name| - |text| + 3]) == text[3];
  }

  lemma PartsEndInDigits(pattern: Pattern, name: string)
    requires pattern != NewRar && Matches(pattern, name)
    ensures LastIsDigit(name)
  {
  }

  lemma PatternsExclude(p: Pattern, q: Pattern, name: string)
    requires Matches(p, name) && Matches(q, name)
    ensures p == q
  {
    if p == NewRar || q == NewRar {
      NewRarEndsInR(name);
      if p != NewRar { PartsEndInDigits(p, name); }
      if q != NewRar { PartsEndInDigits(q, name); }
    } else {
      var front := name[..|name| - DigitRun(name)];
      var r, z := ".r", ".z";
      assert EndsIn(front, r) ==> LowerAscii(front[|front| - |r| + 1]) == r[1];
      assert EndsIn(front, z) ==> LowerAscii(front[|front| - |z| + 1]) == z[1];
    }
  }

  // ---------- groups ----------

  datatype Status = Listed | UnsupportedFormat | MissingVolume | PolicyRejected

  datatype Group = Group(status: Status, entry: Option<string>, members: seq<string>) {
    /** What the group type's own constructor insists on. */
    predicate Constructible() {
      && |members| <= MAX_ARCHIVE_VOLUMES && Distinct(members)
      && (if status == Listed || status == UnsupportedFormat then entry.Some? && entry.value in members
          else entry.None?)
    }
  }

  function Refused(status: Status): (g: Group) { Group(status, None, []) }

  predicate AllMatch(pattern: Pattern, names: seq<string>) {
    forall i :: 0 <= i < |names| ==> Matches(pattern, names[i])
  }

  predicate OneStem(pattern: Pattern, names: seq<string>, stem: string) {
    forall i :: 0 <= i < |names| ==> StemOf(pattern, names[i]) == stem
  }

  predicate OneWidth(pattern: Pattern, names: seq<string>, width: nat) {
    forall i :: 0 <= i < |names| ==> WidthOf(pattern, names[i]) == width
  }

  /** names in this order carry the numbers first, first + 1, ... */
  predicate Contiguous(pattern: Pattern, names: seq<string>, first: int) {
    forall i :: 0 <= i < |names| ==> NumberOf(pattern, names[i]) == first + i
  }

  function ByNumber(pattern: Pattern, names: seq<string>): (r: seq<string>) {
    SortBy(names, name => NumberOf(pattern, name))
  }

  function NumberedGroup(pattern: Pattern, names: seq<string>): (g: Group)
    requires names != []
  {
    if !OneStem(pattern, names, StemOf(pattern, names[0])) || !OneWidth(pattern, names, WidthOf(pattern, names[0]))
    then Refused(PolicyRejected)
    else
      var ordered := ByNumber(pattern, names);
      if ordered == [] || !Contiguous(pattern, ordered, 1) then Refused(MissingVolume)
      else Group(Listed, Some(ordered[0]), ordered)
  }

  /** `_group_new_rar` and `_group_seven_z`. */
  function GroupNumbered(pattern: Pattern, names: seq<string>): (g: Option<Group>)
    requires names != []
  {
    if AllMatch(pattern, names) then Some(NumberedGroup(pattern, names)) else None
  }

  function Entries(suffix: string, names: seq<string>): (r: seq<string>) { Filter(names, name => EndsIn(name, suffix)) }

  function Others(suffix: string, names: seq<string>): (r: seq<string>) { Filter(names, name => !EndsIn(name, suffix)) }

  /** `_group_old_rar` and `_group_split_zip`: one entry with the suffix, and numbered parts of exactly its stem. */
  function GroupWithEntry(pattern: Pattern, suffix: string, first: int, names: seq<string>): (g: Option<Group>)
    requires |suffix| == 4
  {
    var entries, parts := Entries(suffix, names), Others(suffix, names);
    if |entries| != 1 || parts == [] || !AllMatch(pattern, parts) || |entries[0]| < 4 then None
    else
      var entry := entries[0];
      if !OneStem(pattern, parts, entry[..|entry| - 4]) then Some(Refused(PolicyRejected))
      else
        var ordered := ByNumber(pattern, parts);
        if !Contiguous(pattern, ordered, first) then Some(Refused(MissingVolume))
        else if pattern == SplitZipPart then Some(Group(UnsupportedFormat, Some(entry), ordered + [entry]))
        else Some(Group(Listed, Some(entry), [entry] + ordered))
  }

  predicate DistinctUnder(names: seq<string>, fold: string -> string) {
    forall i, j :: 0 <= i < j < |names| ==> fold(names[i]) != fold(names[j])
  }

  function Present(g: Option<Group>): (n: nat) { if g.Some? then 1 else 0 }

  /** `group_archive_volume_names`. */
  function GroupNames(names: seq<string>, fold: string -> string): (g: Group) {
    if names == [] || |names| > MAX_ARCHIVE_VOLUMES || !Distinct(names) || !DistinctUnder(names, fold)
    then Refused(PolicyRejected)
    else
      var a, b := GroupNumbered(NewRar, names), GroupWithEntry(OldRarPart, ".rar", 0, names);
      var c, d := GroupNumbered(SevenZPart, names), GroupWithEntry(SplitZipPart, ".zip", 1, names);
      if Present(a) + Present(b) + Present(c) + Present(d) != 1 then Refused(PolicyRejected)
      else if a.Some? then a.value else if b.Some? then b.value else if c.Some? then c.value else d.value
  }

  // ---------- contiguous volumes in any order ----------

  lemma ByNumberSorts(pattern: Pattern, names: seq<string>)
    ensures SameElements(ByNumber(pattern, names), names)
    ensures forall i, j :: 0 <= i < j < |ByNumber(pattern, names)| ==>
              NumberOf(pattern, ByNumber(pattern, names)[i]) <= NumberOf(pattern, ByNumber(pattern, names)[j])
  {
    SortBySorts(names, name => NumberOf(pattern, name));
  }

  /** A list with contiguous numbers is the only sorted arrangement of its elements. */
  lemma ContiguousIsUnique(pattern: Pattern, a: seq<string>, b: seq<string>, first: int)
    requires SameElements(a, b) && Contiguous(pattern, a, first)
    requires forall i, j :: 0 <= i < j < |b| ==> NumberOf(pattern, b[i]) <= NumberOf(pattern, b[j])
    ensures a == b
  {
    hide NumberOf;
    SameLength(a, b);
    SameMembers(a, b);
    ContiguousIsDistinct(pattern, a, first);
    DistinctIgnoresOrder(a, b);
    forall i, j | 0 <= i < j < |b| ensures NumberOf(pattern, b[i]) < NumberOf(pattern, b[j]) {
      NumbersDiffer(pattern, a, first, b[i], b[j]);
    }
    StrictlyContiguous(pattern, a, b, first);
    forall i | 0 <= i < |a| ensures a[i] == b[i] {
      SameNumberSameName(pattern, a, first, a[i], b[i]);
    }
  }

  lemma SameNumberSameName(pattern: Pattern, a: seq<string>, first: int, m: string, n: string)
    requires Contiguous(pattern, a, first) && m in a && n in a && NumberOf(pattern, m) == NumberOf(pattern, n)
    ensures m == n
  {
    hide NumberOf;
    var x :| 0 <= x < |a| && a[x] == m;
    var y :| 0 <= y < |a| && a[y] == n;
    assert NumberOf(pattern, a[x]) == first + x && NumberOf(pattern, a[y]) == first + y;
  }

  lemma NumbersDiffer(pattern: Pattern, a: seq<string>, first: int, m: string, n: string)
    requires Contiguous(pattern, a, first) && m in a && n in a && m != n
    ensures NumberOf(pattern, m) != NumberOf(pattern, n)
  {
    hide NumberOf, Contiguous;
    if NumberOf(pattern, m) == NumberOf(pattern, n) { SameNumberSameName(pattern, a, first, m, n); }
  }

  lemma ContiguousIsDistinct(pattern: Pattern, a: seq<string>, first: int)
    requires Contiguous(pattern, a, first)
    ensures Distinct(a)
  {
    forall i, j | 0 <= i < j < |a| ensures a[i] != a[j] {
      assert NumberOf(pattern, a[i]) != NumberOf(pattern, a[j]);
    }
  }

  lemma StrictlyContiguous(pattern: Pattern, a: seq<string>, b: seq<string>, first: int)
    requires |a| == |b| && Contiguous(pattern, a, first) && forall x :: x in b ==> x in a
    requires forall i, j :: 0 <= i < j < |b| ==> NumberOf(pattern, b[i]) < NumberOf(pattern, b[j])
    ensures Contiguous(pattern, b, first)
  {
    hide NumberOf;
    forall i | 0 <= i < |b| ensures first <= NumberOf(pattern, b[i]) < first + |b| {
      assert b[i] in b;
      var x :| 0 <= x < |a| && a[x] == b[i];
    }
    AtLeast(pattern, b, first, |b|);
    AtMost(pattern, b, first, 0);
  }

  lemma {:induction false} AtLeast(pattern: Pattern, b: seq<string>, first: int, k: nat)
    requires k <= |b| && forall i :: 0 <= i < |b| ==> first <= NumberOf(pattern, b[i])
    requires forall i, j :: 0 <= i < j < |b| ==> NumberOf(pattern, b[i]) < NumberOf(pattern, b[j])
    ensures forall i :: 0 <= i < k ==> NumberOf(pattern, b[i]) >= first + i
    decreases k
  {
    hide NumberOf;
    if k > 1 {
      AtLeast(pattern, b, first, k - 1);
      assert NumberOf(pattern, b[k - 2]) < NumberOf(pattern, b[k - 1]);
    }
  }

  lemma {:induction false} AtMost(pattern: Pattern, b: seq<string>, first: int, k: nat)
    requires k <= |b| && forall i :: 0 <= i < |b| ==> NumberOf(pattern, b[i]) < first + |b|
    requires forall i, j :: 0 <= i < j < |b| ==> NumberOf(pattern, b[i]) < NumberOf(pattern, b[j])
    ensures forall i :: k <= i < |b| ==> NumberOf(pattern, b[i]) <= first + i
    decreases |b| - k
  {
    hide NumberOf;
    if k < |b| {
      AtMost(pattern, b, first, k + 1);
      if k + 1 < |b| {
        assert NumberOf(pattern, b[k]) < NumberOf(pattern, b[k + 1]);
      }
    }
  }

  /** Sorting by number and finding the numbers contiguous gives the same answer for every order of the names. */
  lemma ArrangeIgnoresOrder(pattern: Pattern, a: seq<string>, b: seq<string>, first: int)
    requires SameElements(a, b)
    ensures Contiguous(pattern, ByNumber(pattern, a), first) <==> Contiguous(pattern, ByNumber(pattern, b), first)
    ensures Contiguous(pattern, ByNumber(pattern, a), first) ==> ByNumber(pattern, a) == ByNumber(pattern, b)
  {
    hide NumberOf, Contiguous, ByNumber;
    ByNumberSorts(pattern, a);
    ByNumberSorts(pattern, b);
    if Contiguous(pattern, ByNumber(pattern, a), first) {
      ContiguousIsUnique(pattern, ByNumber(pattern, a), ByNumber(pattern, b), first);
    }
    if Contiguous(pattern, ByNumber(pattern, b), first) {
      ContiguousIsUnique(pattern, ByNumber(pattern, b), ByNumber(pattern, a), first);
    }
  }

  // ---------- the classification ignores order ----------

  lemma AllMatchIgnoresOrder(pattern: Pattern, a: seq<string>, b: seq<string>, stem: string, width: nat)
    requires SameElements(a, b)
    ensures AllMatch(pattern, a) <==> AllMatch(pattern, b)
    ensures OneStem(pattern, a, stem) <==> OneStem(pattern, b, stem)
    ensures OneWidth(pattern, a, width) <==> OneWidth(pattern, b, width)
  {
    hide Match;
    SameMembers(a, b);
    assert forall x :: x in a <==> x in b;
    assert AllMatch(pattern, a) <==> forall x :: x in a ==> Matches(pattern, x);
    assert AllMatch(pattern, b) <==> forall x :: x in b ==> Matches(pattern, x);
    assert OneStem(pattern, a, stem) <==> forall x :: x in a ==> StemOf(pattern, x) == stem;
    assert OneStem(pattern, b, stem) <==> forall x :: x in b ==> StemOf(pattern, x) == stem;
    assert OneWidth(pattern, a, width) <==> forall x :: x in a ==> WidthOf(pattern, x) == width;
    assert OneWidth(pattern, b, width) <==> forall x :: x in b ==> WidthOf(pattern, x) == width;
  }

  /** "All share the first one's stem" is the same statement whichever comes first. */
  lemma FirstStemIgnoresOrder(pattern: Pattern, a: seq<string>, b: seq<string>)
    requires SameElements(a, b) && a != [] && b != []
    ensures OneStem(pattern, a, StemOf(pattern, a[0])) <==> OneStem(pattern, b, StemOf(pattern, b[0]))
    ensures OneWidth(pattern, a, WidthOf(pattern, a[0])) <==> OneWidth(pattern, b, WidthOf(pattern, b[0]))
  {
    hide Match, StemOf, WidthOf;
    SameMembers(a, b);
    assert a[0] in b && b[0] in a;
    AllMatchIgnoresOrder(pattern, a, b, StemOf(pattern, a[0]), WidthOf(pattern, a[0]));
    AllMatchIgnoresOrder(pattern, a, b, StemOf(pattern, b[0]), WidthOf(pattern, b[0]));
  }

  lemma NumberedIgnoresOrder(pattern: Pattern, a: seq<string>, b: seq<string>)
    requires SameElements(a, b) && a != [] && b != []
    ensures GroupNumbered(pattern, a) == GroupNumbered(pattern, b)
  {
    hide Match, OneStem, OneWidth, AllMatch, ByNumber, Contiguous;
    AllMatchIgnoresOrder(pattern, a, b, "", 0);
    FirstStemIgnoresOrder(pattern, a, b);
    ArrangeIgnoresOrder(pattern, a, b, 1);
    ByNumberSorts(pattern, a);
    ByNumberSorts(pattern, b);
    SameLength(ByNumber(pattern, a), a);
    SameLength(ByNumber(pattern, b), b);
  }

  lemma SingletonIgnoresOrder<T>(a: seq<T>, b: seq<T>)
    requires SameElements(a, b) && |a| == 1
    ensures a == b
  {
    SameLength(a, b);
    SameMembers(a, b);
    assert a[0] in b;
  }

  lemma WithEntryIgnoresOrder(pattern: Pattern, suffix: string, first: int, a: seq<string>, b: seq<string>)
    requires |suffix| == 4 && SameElements(a, b)
    ensures GroupWithEntry(pattern, suffix, first, a) == GroupWithEntry(pattern, suffix, first, b)
  {
    hide Match, OneStem, AllMatch, ByNumber, Contiguous, EndsIn;
    FilterIgnoresOrder(a, b, name => EndsIn(name, suffix));
    FilterIgnoresOrder(a, b, name => !EndsIn(name, suffix));
    var ea, eb, pa, pb := Entries(suffix, a), Entries(suffix, b), Others(suffix, a), Others(suffix, b);
    SameLength(ea, eb);
    SameLength(pa, pb);
    AllMatchIgnoresOrder(pattern, pa, pb, "", 0);
    ArrangeIgnoresOrder(pattern, pa, pb, first);
    if |ea| == 1 {
      SingletonIgnoresOrder(ea, eb);
      if |ea[0]| >= 4 {
        AllMatchIgnoresOrder(pattern, pa, pb, ea[0][..|ea[0]| - 4], 0);
      }
    }
  }

  lemma DistinctFoldsIgnoreOrder(a: seq<string>, b: seq<string>, fold: string -> string)
    requires SameElements(a, b) && Distinct(a) && DistinctUnder(a, fold)
    ensures DistinctUnder(b, fold)
  {
    DistinctIgnoresOrder(a, b);
    SameMembers(a, b);
    forall i, j | 0 <= i < j < |b| ensures fold(b[i]) != fold(b[j]) {
      assert b[i] in a && b[j] in a;
      var x :| 0 <= x < |a| && a[x] == b[i];
      var y :| 0 <= y < |a| && a[y] == b[j];
      assert x < y || y < x;
    }
  }

  /** The classification of a set of names does not depend on the order they come in. */
  lemma GroupIgnoresOrder(a: seq<string>, b: seq<string>, fold: string -> string)
    requires SameElements(a, b)
    ensures GroupNames(a, fold) == GroupNames(b, fold)
  {
    hide GroupNumbered, GroupWithEntry, Distinct, DistinctUnder;
    SameLength(a, b);
    if Distinct(a) { DistinctIgnoresOrder(a, b); }
    if Distinct(b) { DistinctIgnoresOrder(b, a); }
    if Distinct(a) && DistinctUnder(a, fold) { DistinctFoldsIgnoreOrder(a, b, fold); }
    if Distinct(b) && DistinctUnder(b, fold) { DistinctFoldsIgnoreOrder(b, a, fold); }
    if a != [] {
      NumberedIgnoresOrder(NewRar, a, b);
      NumberedIgnoresOrder(SevenZPart, a, b);
      WithEntryIgnoresOrder(OldRarPart, ".rar", 0, a, b);
      WithEntryIgnoresOrder(SplitZipPart, ".zip", 1, a, b);
    }
  }

  // ---------- what a group holds ----------

  /** names, in this order, are the volumes first, first + 1, ... of one stem. */
  predicate VolumesOf(pattern: Pattern, names: seq<string>, stem: string, first: int) {
    AllMatch(pattern, names) && OneStem(pattern, names, stem) && Contiguous(pattern, names, first)
  }

  /** A numbered group holds exactly the names given, as the contiguous volumes from 1 of one stem and one width, led by
      the first. */
  lemma NumberedGroupIsContiguous(pattern: Pattern, names: seq<string>) returns (stem: string)
    requires names != [] && GroupNumbered(pattern, names).Some? && GroupNumbered(pattern, names).value.status == Listed
    ensures var g := GroupNumbered(pattern, names).value;
            && SameElements(g.members, names) && VolumesOf(pattern, g.members, stem, 1)
            && OneWidth(pattern, g.members, WidthOf(pattern, names[0]))
            && g.members != [] && g.entry == Some(g.members[0])
  {
    hide Match, OneStem, OneWidth, AllMatch, ByNumber, Contiguous;
    stem := StemOf(pattern, names[0]);
    ByNumberSorts(pattern, names);
    AllMatchIgnoresOrder(pattern, names, ByNumber(pattern, names), stem, WidthOf(pattern, names[0]));
  }

  /** A group with an entry holds exactly the names given: the entry, and the contiguous volumes of the entry's stem. */
  lemma EntryGroupIsContiguous(pattern: Pattern, suffix: string, first: int, names: seq<string>)
    returns (entry: string, parts: seq<string>)
    requires |suffix| == 4 && GroupWithEntry(pattern, suffix, first, names).Some?
    requires GroupWithEntry(pattern, suffix, first, names).value.entry.Some?
    ensures var g := GroupWithEntry(pattern, suffix, first, names).value;
            && g.entry == Some(entry) && |entry| >= 4 && entry in names && EndsIn(entry, suffix)
            && VolumesOf(pattern, parts, entry[..|entry| - 4], first) && parts != []
            && g.members == (if pattern == SplitZipPart then parts + [entry] else [entry] + parts)
            && SameElements(g.members, names)
  {
    hide Match, OneStem, AllMatch, ByNumber, Contiguous, EndsIn;
    var given := Others(suffix, names);
    entry := Entries(suffix, names)[0];
    parts := ByNumber(pattern, given);
    ByNumberSorts(pattern, given);
    AllMatchIgnoresOrder(pattern, given, parts, entry[..|entry| - 4], 0);
    FilterMembers(names, name => EndsIn(name, suffix));
    assert entry in Entries(suffix, names);
    SplitElements(names, suffix);
    assert Entries(suffix, names) == [entry];
    SameLength(parts, given);
  }

  lemma {:induction false} SplitElements(names: seq<string>, suffix: string)
    ensures multiset(Entries(suffix, names)) + multiset(Others(suffix, names)) == multiset(names)
  {
    hide EndsIn;
    if names != [] {
      SplitElements(names[1..], suffix);
      assert names == [names[0]] + names[1..];
    }
  }
}
