/**
Partitioning the names of one directory into volume groups: names that collide under case folding are set aside, the
others are bucketed by pattern and folded stem, every stem yields one group or one finding, and what is left over is
listed by itself.
*/
module VolumePartition {
  import opened Prelude
  import opened Permutations
  import opened Sorting
  import opened Volumes

  /** The library functions involved: `str.casefold`, the basename check, and whether a name has a known archive
      suffix. */
  datatype Env = Env(fold: string -> string, basename: string -> bool, recognized: string -> bool)

  /** What is used of case folding: it works character by character, is idempotent, keeps digits, and lowers R and P. */
  ghost predicate CaseFolds(fold: string -> string) {
    && (forall a, b :: fold(a + b) == fold(a) + fold(b))
    && (forall a :: fold(fold(a)) == fold(a))
    && (forall s :: |s| == 1 && '0' <= s[0] <= '9' ==> fold(s) == s)
    && fold("r") == fold("R") == "r" && fold("p") == fold("P") == "p"
  }

  datatype Finding = AmbiguousVolume | MissingVolumeFound | NameCollision | OrphanVolume | UnsupportedVolume

  datatype Partition = Partition(groups: seq<Group>, findings: seq<Finding>)

  // ---------- names, buckets, stems ----------

  /** The names with this folding. */
  function SameFold(env: Env, names: seq<string>, folded: string): (r: seq<string>) {
    Filter(names, name => env.fold(name) == folded)
  }

  function Folds(env: Env, names: seq<string>): (r: set<string>) { set name | name in names :: env.fold(name) }

  function Collisions(env: Env, names: seq<string>): (r: set<string>) {
    set f | f in Folds(env, names) && |SameFold(env, names, f)| > 1
  }

  function Available(env: Env, names: seq<string>): (r: seq<string>) {
    Filter(names, name => |SameFold(env, names, env.fold(name))| <= 1)
  }

  predicate InBucket(env: Env, pattern: Pattern, stem: string, name: string) {
    Matches(pattern, name) && env.fold(StemOf(pattern, name)) == stem
  }

  function Bucket(env: Env, avail: seq<string>, pattern: Pattern, stem: string): (r: seq<string>) {
    Filter(avail, name => InBucket(env, pattern, stem, name))
  }

  function Stems(env: Env, avail: seq<string>, pattern: Pattern): (r: set<string>) {
    set name | name in avail && Matches(pattern, name) :: env.fold(StemOf(pattern, name))
  }

  function AllStems(env: Env, avail: seq<string>): (r: set<string>) {
    Stems(env, avail, NewRar) + Stems(env, avail, SevenZPart) + Stems(env, avail, OldRarPart)
    + Stems(env, avail, SplitZipPart)
  }

  /** The available name with this folding; there is at most one. */
  function Lookup(env: Env, avail: seq<string>, folded: string): (r: seq<string>) { SameFold(env, avail, folded) }

  /** The four buckets of a stem and the direct archives of its names. */
  datatype Families = Families(newRar: seq<string>, sevenZ: seq<string>, oldRar: seq<string>, splitZip: seq<string>,
                               rar: seq<string>, sevenZip: seq<string>, zip: seq<string>)

  function FamiliesOf(env: Env, avail: seq<string>, stem: string): (f: Families) {
    Families(Bucket(env, avail, NewRar, stem), Bucket(env, avail, SevenZPart, stem),
             Bucket(env, avail, OldRarPart, stem),
             Bucket(env, avail, SplitZipPart, stem), Lookup(env, avail, stem + ".rar"),
             Lookup(env, avail, stem + ".7z"),
             Lookup(env, avail, stem + ".zip"))
  }

  function One(b: bool): (n: nat) { if b then 1 else 0 }

  /** How many families a stem has; a direct archive beside a numbered set is a family of its own. */
  function FamilyCount(f: Families): (n: nat) {
    One(f.newRar != []) + One(f.newRar != [] && f.rar != []) + One(f.sevenZ != [])
    + One(f.sevenZ != [] && f.sevenZip != [])
    + One(f.oldRar != []) + One(f.splitZip != [])
  }

  /** The sources of the one family a stem has. */
  function Sources(f: Families): (names: seq<string>) {
    if f.newRar != [] then f.newRar else if f.sevenZ != [] then f.sevenZ
    else if f.oldRar != [] then f.rar + f.oldRar
    else if f.splitZip != [] then f.zip + f.splitZip else []
  }

  /** Everything the families of a stem use up. */
  function FamilyMembers(f: Families): (names: set<string>) {
    (set n | n in f.newRar) + (set n | n in f.sevenZ) + (set n | n in f.oldRar) + (set n | n in f.splitZip)
    + (if f.newRar != [] || f.oldRar != [] then set n | n in f.rar else {})
    + (if f.sevenZ != [] then set n | n in f.sevenZip else {})
    + (if f.splitZip != [] then set n | n in f.zip else {})
  }

  datatype Outcome = Grouped(group: Group) | Found(finding: Finding)

  predicate IsOrphan(env: Env, f: Families, stem: string) {
    || (f.oldRar != [] && SameFold(env, Sources(f), stem + ".rar") == [])
    || (f.oldRar == [] && f.splitZip != [] && SameFold(env, Sources(f), stem + ".zip") == [])
  }

  /** What one stem comes to. */
  function Decide(env: Env, f: Families, stem: string): (o: Outcome) {
    if FamilyCount(f) != 1 then Found(AmbiguousVolume)
    else if IsOrphan(env, f, stem) then Found(OrphanVolume)
    else if |Sources(f)| > MAX_ARCHIVE_VOLUMES then Found(UnsupportedVolume)
    else
      var g := GroupNames(Sources(f), env.fold);
      if g.status == MissingVolume then Found(MissingVolumeFound)
      else if g.status == PolicyRejected then Found(AmbiguousVolume)
      else Grouped(g)
  }

  // ---------- the whole ----------

  function GroupsOf(env: Env, avail: seq<string>, stems: seq<string>): (gs: seq<Group>) {
    if stems == [] then []
    else match Decide(env, FamiliesOf(env, avail, stems[0]), stems[0])
         case Grouped(g) => [g] + GroupsOf(env, avail, stems[1..])
         case Found(_) => GroupsOf(env, avail, stems[1..])
  }

  function FindingsOf(env: Env, avail: seq<string>, stems: seq<string>): (fs: seq<Finding>) {
    if stems == [] then []
    else match Decide(env, FamiliesOf(env, avail, stems[0]), stems[0])
         case Grouped(_) => FindingsOf(env, avail, stems[1..])
         case Found(x) => [x] + FindingsOf(env, avail, stems[1..])
  }

  function Consumed(env: Env, avail: seq<string>, stems: seq<string>): (names: set<string>) {
    if stems == [] then {} else FamilyMembers(FamiliesOf(env, avail, stems[0])) + Consumed(env, avail, stems[1..])
  }

  function Single(name: string): (g: Group) { Group(Listed, Some(name), [name]) }

  function Singles(names: seq<string>): (gs: seq<Group>)
    ensures |gs| == |names| && forall i :: 0 <= i < |gs| ==> gs[i] == Single(names[i])
  {
    seq(|names|, i requires 0 <= i < |names| => Single(names[i]))
  }

  function Flatten(gs: seq<Group>): (names: seq<string>) {
    if gs == [] then [] else gs[0].members + Flatten(gs[1..])
  }

  /** The order of leftover names and of groups: by folding, then by the name itself. */
  predicate Before(env: Env, a: string, b: string) {
    Lex(env.fold(a), env.fold(b)) && (env.fold(a) == env.fold(b) ==> Lex(a, b))
  }

  function NameOrder(env: Env): (le: (string, string) -> bool) { (a, b) => Before(env, a, b) }

  function EntryName(g: Group): (s: string) { if g.entry.Some? then g.entry.value else "" }

  function Rank(f: Finding): (n: int) {
    match f case AmbiguousVolume => 0 case MissingVolumeFound => 1 case NameCollision => 2 case OrphanVolume => 3
            case UnsupportedVolume => 4
  }

  function SortGroups(env: Env, gs: seq<Group>): (r: seq<Group>) {
    SortLe(gs, (a: Group, b: Group) => Before(env, EntryName(a), EntryName(b)))
  }

  function SortFindings(fs: seq<Finding>): (r: seq<Finding>) { SortBy(fs, Rank) }

  function Leftover(env: Env, avail: seq<string>, consumed: set<string>): (names: set<string>) {
    set name | name in avail && name !in consumed && env.recognized(name)
  }

  lemma NameOrderIsTotal(env: Env)
    ensures TotalOrder(NameOrder(env))
  {
    LexIsTotalOrder();
  }

  ghost function StemList(env: Env, names: seq<string>): (r: seq<string>) {
    LexIsTotalOrder();
    SortedSet(AllStems(env, Available(env, names)), Lex)
  }

  ghost function LeftoverList(env: Env, names: seq<string>): (r: seq<string>) {
    NameOrderIsTotal(env);
    var avail := Available(env, names);
    SortedSet(Leftover(env, avail, Consumed(env, avail, StemList(env, names))), NameOrder(env))
  }

  /** The groups before the constructor looks at them. */
  ghost function AllGroups(env: Env, names: seq<string>): (gs: seq<Group>) {
    SortGroups(env, GroupsOf(env, Available(env, names), StemList(env, names)) + Singles(LeftoverList(env, names)))
  }

  ghost function AllFindings(env: Env, names: seq<string>): (fs: seq<Finding>) {
    SortFindings(seq(|Collisions(env, names)|, _ => NameCollision)
                 + FindingsOf(env, Available(env, names), StemList(env, names)))
  }

  predicate AllBasenames(env: Env, names: seq<string>) { forall i :: 0 <= i < |names| ==> env.basename(names[i]) }

  /** The partition, or None where the code raises: for a name that is no basename, and for an input used twice. */
  ghost function PartitionOf(env: Env, names: seq<string>): (r: Option<Partition>) {
    if !AllBasenames(env, names) || !Distinct(Flatten(AllGroups(env, names))) then None
    else Some(Partition(AllGroups(env, names), AllFindings(env, names)))
  }

  // ---------- order ----------

  lemma SameFoldIgnoresOrder(env: Env, a: seq<string>, b: seq<string>, folded: string)
    requires SameElements(a, b)
    ensures SameElements(SameFold(env, a, folded), SameFold(env, b, folded))
    ensures |SameFold(env, a, folded)| == |SameFold(env, b, folded)|
  {
    FilterIgnoresOrder(a, b, name => env.fold(name) == folded);
    SameLength(SameFold(env, a, folded), SameFold(env, b, folded));
  }

  lemma AvailableIgnoresOrder(env: Env, a: seq<string>, b: seq<string>)
    requires SameElements(a, b)
    ensures SameElements(Available(env, a), Available(env, b)) && Collisions(env, a) == Collisions(env, b)
  {
    var p := (name: string) => |SameFold(env, a, env.fold(name))| <= 1;
    var q := (name: string) => |SameFold(env, b, env.fold(name))| <= 1;
    forall f: string ensures |SameFold(env, a, f)| == |SameFold(env, b, f)| {
      SameFoldIgnoresOrder(env, a, b, f);
    }
    FilterIgnoresOrder(a, b, p);
    FilterCongruence(b, p, q);
    SameMembers(a, b);
    assert Folds(env, a) == Folds(env, b);
  }

  /** The families of a stem hold the same names, whatever the order within. */
  predicate Similar(f: Families, g: Families) {
    && SameElements(f.newRar, g.newRar) && SameElements(f.sevenZ, g.sevenZ) && SameElements(f.oldRar, g.oldRar)
    && SameElements(f.splitZip, g.splitZip) && SameElements(f.rar, g.rar) && SameElements(f.sevenZip, g.sevenZip)
    && SameElements(f.zip, g.zip)
  }

  lemma FamiliesIgnoreOrder(env: Env, a: seq<string>, b: seq<string>, stem: string)
    requires SameElements(a, b)
    ensures Similar(FamiliesOf(env, a, stem), FamiliesOf(env, b, stem))
  {
    FilterIgnoresOrder(a, b, name => InBucket(env, NewRar, stem, name));
    FilterIgnoresOrder(a, b, name => InBucket(env, SevenZPart, stem, name));
    FilterIgnoresOrder(a, b, name => InBucket(env, OldRarPart, stem, name));
    FilterIgnoresOrder(a, b, name => InBucket(env, SplitZipPart, stem, name));
    SameFoldIgnoresOrder(env, a, b, stem + ".rar");
    SameFoldIgnoresOrder(env, a, b, stem + ".7z");
    SameFoldIgnoresOrder(env, a, b, stem + ".zip");
  }

  lemma EmptyIgnoresOrder<T>(a: seq<T>, b: seq<T>)
    requires SameElements(a, b)
    ensures a == [] <==> b == []
  {
    SameLength(a, b);
  }

  lemma SimilarShape(f: Families, g: Families)
    requires Similar(f, g)
    ensures FamilyCount(f) == FamilyCount(g) && FamilyMembers(f) == FamilyMembers(g)
    ensures SameElements(Sources(f), Sources(g))
    ensures (f.oldRar == [] <==> g.oldRar == []) && (f.splitZip == [] <==> g.splitZip == [])
  {
    EmptyIgnoresOrder(f.newRar, g.newRar);
    EmptyIgnoresOrder(f.sevenZ, g.sevenZ);
    EmptyIgnoresOrder(f.oldRar, g.oldRar);
    EmptyIgnoresOrder(f.splitZip, g.splitZip);
    EmptyIgnoresOrder(f.rar, g.rar);
    EmptyIgnoresOrder(f.sevenZip, g.sevenZip);
    SameMembers(f.newRar, g.newRar);
    SameMembers(f.sevenZ, g.sevenZ);
    SameMembers(f.oldRar, g.oldRar);
    SameMembers(f.splitZip, g.splitZip);
    SameMembers(f.rar, g.rar);
    SameMembers(f.sevenZip, g.sevenZip);
    SameMembers(f.zip, g.zip);
  }

  lemma DecideIgnoresOrder(env: Env, f: Families, g: Families, stem: string)
    requires Similar(f, g)
    ensures Decide(env, f, stem) == Decide(env, g, stem)
  {
    hide GroupNames, Similar, FamilyCount, Sources, SameFold;
    SimilarShape(f, g);
    SameLength(Sources(f), Sources(g));
    SameFoldIgnoresOrder(env, Sources(f), Sources(g), stem + ".rar");
    SameFoldIgnoresOrder(env, Sources(f), Sources(g), stem + ".zip");
    GroupIgnoresOrder(Sources(f), Sources(g), env.fold);
  }

  lemma {:induction false} OutcomesIgnoreOrder(env: Env, a: seq<string>, b: seq<string>, stems: seq<string>)
    requires SameElements(a, b)
    ensures GroupsOf(env, a, stems) == GroupsOf(env, b, stems)
    ensures FindingsOf(env, a, stems) == FindingsOf(env, b, stems)
    ensures Consumed(env, a, stems) == Consumed(env, b, stems)
  {
    hide Decide, FamiliesOf, FamilyMembers, Similar;
    if stems != [] {
      FamiliesIgnoreOrder(env, a, b, stems[0]);
      SimilarShape(FamiliesOf(env, a, stems[0]), FamiliesOf(env, b, stems[0]));
      DecideIgnoresOrder(env, FamiliesOf(env, a, stems[0]), FamiliesOf(env, b, stems[0]), stems[0]);
      OutcomesIgnoreOrder(env, a, b, stems[1..]);
    }
  }

  lemma StemsIgnoreOrder(env: Env, a: seq<string>, b: seq<string>)
    requires SameElements(a, b)
    ensures AllStems(env, a) == AllStems(env, b)
  {
    hide Matches, StemOf;
    SameMembers(a, b);
    assert Stems(env, a, NewRar) == Stems(env, b, NewRar);
    assert Stems(env, a, SevenZPart) == Stems(env, b, SevenZPart);
    assert Stems(env, a, OldRarPart) == Stems(env, b, OldRarPart);
    assert Stems(env, a, SplitZipPart) == Stems(env, b, SplitZipPart);
  }

  lemma ListsIgnoreOrder(env: Env, a: seq<string>, b: seq<string>)
    requires SameElements(a, b)
    ensures SameElements(Available(env, a), Available(env, b))
    ensures StemList(env, a) == StemList(env, b) && LeftoverList(env, a) == LeftoverList(env, b)
  {
    hide AllStems, Available, Consumed, GroupsOf, FindingsOf;
    AvailableIgnoresOrder(env, a, b);
    var x, y := Available(env, a), Available(env, b);
    StemsIgnoreOrder(env, x, y);
    OutcomesIgnoreOrder(env, x, y, StemList(env, a));
    SameMembers(x, y);
    var consumed := Consumed(env, x, StemList(env, a));
    assert Leftover(env, x, consumed) == Leftover(env, y, consumed);
  }

  /** The partition, or the refusal, is the same for every order of the names. */
  lemma PartitionIgnoresOrder(env: Env, a: seq<string>, b: seq<string>)
    requires SameElements(a, b)
    ensures PartitionOf(env, a) == PartitionOf(env, b)
  {
    hide AllStems, Available, Consumed, GroupsOf, FindingsOf, StemList, LeftoverList, SortGroups, SortFindings,
         Collisions,
         Distinct, Flatten;
    AvailableIgnoresOrder(env, a, b);
    ListsIgnoreOrder(env, a, b);
    OutcomesIgnoreOrder(env, Available(env, a), Available(env, b), StemList(env, a));
    SameMembers(a, b);
    assert AllBasenames(env, a) <==> forall n :: n in a ==> env.basename(n);
    assert AllBasenames(env, b) <==> forall n :: n in b ==> env.basename(n);
    assert seq(|Collisions(env, a)|, _ => NameCollision) == seq(|Collisions(env, b)|, _ => NameCollision);
  }

  // ---------- what a grouped stem holds ----------

  /** A group has exactly the sources it was made from, and its constructor takes it. */
  lemma GroupHoldsItsSources(names: seq<string>, fold: string -> string)
    requires GroupNames(names, fold).status in {Listed, UnsupportedFormat}
    ensures SameElements(GroupNames(names, fold).members, names) && GroupNames(names, fold).Constructible()
  {
    hide GroupNumbered, GroupWithEntry, Distinct, DistinctUnder, OneStem, AllMatch, OneWidth, Contiguous;
    var g := GroupNames(names, fold);
    NumberedStatus(NewRar, names);
    NumberedStatus(SevenZPart, names);
    EntryStatus(OldRarPart, ".rar", 0, names);
    EntryStatus(SplitZipPart, ".zip", 1, names);
    if GroupNumbered(NewRar, names) == Some(g) {
      var _ := NumberedGroupIsContiguous(NewRar, names);
    } else if GroupWithEntry(OldRarPart, ".rar", 0, names) == Some(g) {
      var _, _ := EntryGroupIsContiguous(OldRarPart, ".rar", 0, names);
    } else if GroupNumbered(SevenZPart, names) == Some(g) {
      var _ := NumberedGroupIsContiguous(SevenZPart, names);
    } else {
      var _, _ := EntryGroupIsContiguous(SplitZipPart, ".zip", 1, names);
    }
    DistinctIgnoresOrder(names, g.members);
    SameLength(names, g.members);
    SameMembers(names, g.members);
  }

  lemma NumberedStatus(pattern: Pattern, names: seq<string>)
    requires names != []
    ensures var g := GroupNumbered(pattern, names); g.Some? ==> g.value.status != UnsupportedFormat
  {
    hide OneStem, AllMatch, OneWidth, Contiguous, ByNumber;
  }

  lemma EntryStatus(pattern: Pattern, suffix: string, first: int, names: seq<string>)
    requires |suffix| == 4
    ensures var g := GroupWithEntry(pattern, suffix, first, names);
            g.Some? && g.value.status in {Listed, UnsupportedFormat} ==> g.value.entry.Some?
  {
    hide OneStem, AllMatch, Contiguous, ByNumber, Entries, Others;
  }

  predicate GroupedAt(env: Env, avail: seq<string>, stem: string) {
    Decide(env, FamiliesOf(env, avail, stem), stem).Grouped?
  }

  function GroupAt(env: Env, avail: seq<string>, stem: string): (g: Group)
    requires GroupedAt(env, avail, stem)
  {
    Decide(env, FamiliesOf(env, avail, stem), stem).group
  }

  lemma GroupedHolds(env: Env, avail: seq<string>, stem: string)
    requires GroupedAt(env, avail, stem)
    ensures var f := FamiliesOf(env, avail, stem);
            && FamilyCount(f) == 1 && GroupAt(env, avail, stem).Constructible()
            && forall n :: n in GroupAt(env, avail, stem).members <==> n in Sources(f)
  {
    hide GroupNames, FamilyCount, Sources, IsOrphan, FamiliesOf;
    var f := FamiliesOf(env, avail, stem);
    GroupHoldsItsSources(Sources(f), env.fold);
    SameMembers(GroupAt(env, avail, stem).members, Sources(f));
  }

  // ---------- a name in two groups ----------

  /** How a folded name ends is how the folding of its last character ends. */
  lemma FoldEnds(fold: string -> string, name: string)
    requires CaseFolds(fold) && name != ""
    ensures LastIsDigit(name) ==> LastIsDigit(fold(name))
    ensures name[|name| - 1] in {'r', 'R'} ==> fold(name) != "" && fold(name)[|fold(name)| - 1] == 'r'
  {
    var front, last := name[..|name| - 1], [name[|name| - 1]];
    assert name == front + last;
    assert fold(name) == fold(front) + fold(last);
    assert last == "r" || last == "R" || LastIsDigit(name) || !(name[|name| - 1] in {'r', 'R'});
  }

  lemma SourceIsPartOrEntry(env: Env, avail: seq<string>, stem: string, n: string) returns (part: Option<Pattern>)
    requires FamilyCount(FamiliesOf(env, avail, stem)) == 1 && n in Sources(FamiliesOf(env, avail, stem))
    ensures n in avail
    ensures part.Some? ==> InBucket(env, part.value, stem, n)
    ensures part == Some(NewRar) ==> Bucket(env, avail, NewRar, stem) != []
    ensures part.None? ==> (Bucket(env, avail, OldRarPart, stem) != [] && env.fold(n) == stem + ".rar")
                           || (Bucket(env, avail, SplitZipPart, stem) != [] && env.fold(n) == stem + ".zip")
  {
    hide InBucket;
    FilterMembers(avail, name => InBucket(env, NewRar, stem, name));
    FilterMembers(avail, name => InBucket(env, SevenZPart, stem, name));
    FilterMembers(avail, name => InBucket(env, OldRarPart, stem, name));
    FilterMembers(avail, name => InBucket(env, SplitZipPart, stem, name));
    FilterMembers(avail, name => env.fold(name) == stem + ".rar");
    FilterMembers(avail, name => env.fold(name) == stem + ".zip");
    var f := FamiliesOf(env, avail, stem);
    part := if n in f.newRar then Some(NewRar) else if n in f.sevenZ then Some(SevenZPart)
            else if n in f.oldRar then Some(OldRarPart) else if n in f.splitZip then Some(SplitZipPart) else None;
  }

  /** A `<stem>.partN.rar` volume of one group that is at the same time the entry of another stem's `.rNN` group. */
  predicate Overlap(env: Env, avail: seq<string>, n: string, numbered: string, entered: string) {
    && n in avail && InBucket(env, NewRar, numbered, n) && GroupedAt(env, avail, numbered)
    && env.fold(n) == entered + ".rar" && Bucket(env, avail, OldRarPart, entered) != []
    && GroupedAt(env, avail, entered)
  }

  lemma EntryAndPart(env: Env, avail: seq<string>, n: string, entryStem: string, partStem: string, pattern: Pattern)
    requires CaseFolds(env.fold) && n in avail
    requires GroupedAt(env, avail, entryStem) && GroupedAt(env, avail, partStem) && InBucket(env, pattern, partStem, n)
    requires (Bucket(env, avail, OldRarPart, entryStem) != [] && env.fold(n) == entryStem + ".rar")
             || (Bucket(env, avail, SplitZipPart, entryStem) != [] && env.fold(n) == entryStem + ".zip")
    ensures Overlap(env, avail, n, partStem, entryStem)
  {
    hide Decide, FamiliesOf, Bucket;
    if pattern == NewRar {
      NewRarEndsInR(n);
      FoldEnds(env.fold, n);
    } else {
      PartsEndInDigits(pattern, n);
      FoldEnds(env.fold, n);
    }
  }

  lemma SharedMeansOverlap(env: Env, avail: seq<string>, n: string, a: string, b: string)
    requires CaseFolds(env.fold) && a != b && GroupedAt(env, avail, a) && GroupedAt(env, avail, b)
    requires n in GroupAt(env, avail, a).members && n in GroupAt(env, avail, b).members
    ensures Overlap(env, avail, n, a, b) || Overlap(env, avail, n, b, a)
  {
    hide Decide, FamiliesOf, Bucket, Matches, StemOf, Sources, FamilyCount, Overlap;
    GroupedHolds(env, avail, a);
    GroupedHolds(env, avail, b);
    var x := SourceIsPartOrEntry(env, avail, a, n);
    var y := SourceIsPartOrEntry(env, avail, b, n);
    if x.Some? && y.Some? {
      PatternsExclude(x.value, y.value, n);
    } else if x.Some? {
      EntryAndPart(env, avail, n, b, a, x.value);
    } else if y.Some? {
      EntryAndPart(env, avail, n, a, b, y.value);
    } else {
      TwoEntries(env.fold(n), a, b);
    }
  }

  lemma TwoEntries(folded: string, a: string, b: string)
    requires folded == a + ".rar" || folded == a + ".zip"
    requires folded == b + ".rar" || folded == b + ".zip"
    ensures a == b
  {
    var n := |folded|;
    assert folded[n - 1] == 'r' || folded[n - 1] == 'p';
    assert folded[..n - 4] == a && folded[..n - 4] == b;
  }

  // ---------- when the constructor refuses ----------

  lemma {:induction false} FlattenAppend(a: seq<Group>, b: seq<Group>)
    ensures Flatten(a + b) == Flatten(a) + Flatten(b)
  {
    if a == [] {
      assert a + b == b;
    } else {
      assert (a + b)[1..] == a[1..] + b;
      FlattenAppend(a[1..], b);
    }
  }

  lemma {:induction false} FlattenIgnoresOrder(a: seq<Group>, b: seq<Group>)
    requires SameElements(a, b)
    ensures SameElements(Flatten(a), Flatten(b))
    decreases |a|
  {
    SameLength(a, b);
    if a != [] {
      var k := FindHead(a, b);
      FlattenIgnoresOrder(a[1..], Without(b, k));
      FlattenAppend(b[..k], [b[k]] + b[k + 1..]);
      FlattenAppend([b[k]], b[k + 1..]);
      FlattenAppend(b[..k], b[k + 1..]);
      assert b == b[..k] + ([b[k]] + b[k + 1..]);
      assert Flatten([b[k]]) == b[k].members;
    }
  }

  lemma {:induction false} FlattenSingles(names: seq<string>)
    ensures Flatten(Singles(names)) == names
  {
    if names != [] {
      assert Singles(names)[1..] == Singles(names[1..]);
      FlattenSingles(names[1..]);
      assert names == [names[0]] + names[1..];
    }
  }

  lemma DistinctConcat<T>(a: seq<T>, b: seq<T>)
    requires Distinct(a) && Distinct(b) && forall x :: x in a ==> x !in b
    ensures Distinct(a + b)
  {
    forall i, j | 0 <= i < j < |a + b| ensures (a + b)[i] != (a + b)[j] {
      if i < |a| <= j { assert a[i] in a && b[j - |a|] in b; }
    }
  }

  lemma SortedFlatten(env: Env, gs: seq<Group>)
    ensures SameElements(Flatten(SortGroups(env, gs)), Flatten(gs))
  {
    SortLeKeeps(gs, (a: Group, b: Group) => Before(env, EntryName(a), EntryName(b)));
    FlattenIgnoresOrder(SortGroups(env, gs), gs);
  }

  /** The names in the groups of some stems come from grouped stems among them. */
  lemma {:induction false} FlattenFrom(env: Env, avail: seq<string>, stems: seq<string>, n: string)
    requires n in Flatten(GroupsOf(env, avail, stems))
    ensures exists k :: k in stems && GroupedAt(env, avail, k) && n in GroupAt(env, avail, k).members
    decreases |stems|
  {
    hide Decide, FamiliesOf;
    if stems != [] {
      var g := Decide(env, FamiliesOf(env, avail, stems[0]), stems[0]);
      if g.Grouped? && n in g.group.members {
        assert GroupedAt(env, avail, stems[0]) && GroupAt(env, avail, stems[0]) == g.group;
      } else {
        if g.Grouped? {
          assert ([g.group] + GroupsOf(env, avail, stems[1..]))[1..] == GroupsOf(env, avail, stems[1..]);
        }
        FlattenFrom(env, avail, stems[1..], n);
        var k :| k in stems[1..] && GroupedAt(env, avail, k) && n in GroupAt(env, avail, k).members;
        assert k in stems;
      }
    }
  }

  lemma {:induction false} FlattenHas(env: Env, avail: seq<string>, stems: seq<string>, k: string, n: string)
    requires k in stems && GroupedAt(env, avail, k) && n in GroupAt(env, avail, k).members
    ensures n in Flatten(GroupsOf(env, avail, stems))
    decreases |stems|
  {
    hide Decide, FamiliesOf;
    var g := Decide(env, FamiliesOf(env, avail, stems[0]), stems[0]);
    if g.Grouped? { assert ([g.group] + GroupsOf(env, avail, stems[1..]))[1..] == GroupsOf(env, avail, stems[1..]); }
    if k != stems[0] {
      assert k in stems[1..];
      FlattenHas(env, avail, stems[1..], k, n);
    }
  }

  /** Without an overlap no name is in two groups. */
  ghost predicate NoOverlap(env: Env, avail: seq<string>, stems: seq<string>) {
    forall n, a, b :: a in stems && b in stems ==> !Overlap(env, avail, n, a, b)
  }

  lemma {:induction false} GroupsAreDisjoint(env: Env, avail: seq<string>, stems: seq<string>)
    requires CaseFolds(env.fold) && Distinct(stems) && NoOverlap(env, avail, stems)
    ensures Distinct(Flatten(GroupsOf(env, avail, stems)))
    decreases |stems|
  {
    hide Decide, FamiliesOf, Overlap, CaseFolds;
    if stems != [] {
      var k, rest := stems[0], stems[1..];
      assert forall x :: x in rest ==> x in stems;
      GroupsAreDisjoint(env, avail, rest);
      if GroupedAt(env, avail, k) {
        var g := GroupAt(env, avail, k);
        assert ([g] + GroupsOf(env, avail, rest))[1..] == GroupsOf(env, avail, rest);
        GroupedHolds(env, avail, k);
        forall n | n in g.members ensures n !in Flatten(GroupsOf(env, avail, rest)) {
          HeadIsAlone(env, avail, stems, n);
        }
        DistinctConcat(g.members, Flatten(GroupsOf(env, avail, rest)));
      }
    }
  }

  lemma HeadIsAlone(env: Env, avail: seq<string>, stems: seq<string>, n: string)
    requires CaseFolds(env.fold) && Distinct(stems) && NoOverlap(env, avail, stems)
    requires stems != [] && GroupedAt(env, avail, stems[0]) && n in GroupAt(env, avail, stems[0]).members
    ensures n !in Flatten(GroupsOf(env, avail, stems[1..]))
  {
    hide Decide, FamiliesOf, Overlap, CaseFolds, GroupsOf;
    if n in Flatten(GroupsOf(env, avail, stems[1..])) {
      FlattenFrom(env, avail, stems[1..], n);
      var b :| b in stems[1..] && GroupedAt(env, avail, b) && n in GroupAt(env, avail, b).members;
      var i :| 0 <= i < |stems[1..]| && stems[1..][i] == b;
      assert stems[i + 1] == b && b in stems && stems[0] in stems;
      SharedMeansOverlap(env, avail, n, stems[0], b);
    }
  }

  /** An overlap puts its name into the groups twice. */
  lemma {:induction false} OverlapRepeats(env: Env, avail: seq<string>, stems: seq<string>, n: string, i: nat, j: nat)
    requires i < j < |stems| && GroupedAt(env, avail, stems[i]) && GroupedAt(env, avail, stems[j])
    requires n in GroupAt(env, avail, stems[i]).members && n in GroupAt(env, avail, stems[j]).members
    ensures multiset(Flatten(GroupsOf(env, avail, stems)))[n] >= 2
    decreases |stems|
  {
    hide Decide, FamiliesOf;
    var d := Decide(env, FamiliesOf(env, avail, stems[0]), stems[0]);
    var rest := GroupsOf(env, avail, stems[1..]);
    if d.Grouped? {
      assert ([d.group] + rest)[1..] == rest;
      assert Flatten(GroupsOf(env, avail, stems)) == d.group.members + Flatten(rest);
    }
    if i > 0 {
      OverlapRepeats(env, avail, stems[1..], n, i - 1, j - 1);
    } else {
      assert stems[1..][j - 1] == stems[j];
      FlattenHas(env, avail, stems[1..], stems[j], n);
    }
  }

  lemma {:induction false} ConsumedHas(env: Env, avail: seq<string>, stems: seq<string>, k: string, n: string)
    requires k in stems && n in Sources(FamiliesOf(env, avail, k))
    ensures n in Consumed(env, avail, stems)
    decreases |stems|
  {
    hide FamiliesOf;
    if k != stems[0] {
      assert k in stems[1..];
      ConsumedHas(env, avail, stems[1..], k, n);
    }
  }

  lemma StemListIs(env: Env, names: seq<string>)
    ensures Distinct(StemList(env, names))
    ensures forall k :: k in StemList(env, names) <==> k in AllStems(env, Available(env, names))
  {
    hide AllStems;
    LexIsTotalOrder();
    SortedSetIsSorted(AllStems(env, Available(env, names)), Lex);
  }

  lemma LeftoverListIs(env: Env, names: seq<string>)
    ensures var avail, rest := Available(env, names), LeftoverList(env, names);
            Distinct(rest)
            && forall n :: n in rest ==>
                      n in avail && n !in Consumed(env, avail, StemList(env, names)) && env.recognized(n)
  {
    hide AllStems, Consumed, Available;
    NameOrderIsTotal(env);
    var avail := Available(env, names);
    SortedSetIsSorted(Leftover(env, avail, Consumed(env, avail, StemList(env, names))), NameOrder(env));
  }

  lemma FlattenAll(env: Env, names: seq<string>)
    ensures SameElements(Flatten(AllGroups(env, names)),
                         Flatten(GroupsOf(env, Available(env, names), StemList(env, names))) + LeftoverList(env, names))
  {
    hide SortGroups, GroupsOf, StemList, LeftoverList, Available;
    var gs, rest := GroupsOf(env, Available(env, names), StemList(env, names)), Singles(LeftoverList(env, names));
    SortedFlatten(env, gs + rest);
    FlattenAppend(gs, rest);
    FlattenSingles(LeftoverList(env, names));
  }

  /** The stems of an overlap are among the stems the partition visits. */
  lemma OverlapStems(env: Env, names: seq<string>, n: string, a: string, b: string)
    requires Overlap(env, Available(env, names), n, a, b)
    ensures a in StemList(env, names) && b in StemList(env, names) && a != b
    ensures var avail := Available(env, names);
            n in GroupAt(env, avail, a).members && n in GroupAt(env, avail, b).members
  {
    hide Decide, Available, StemList, Matches, StemOf;
    var avail := Available(env, names);
    StemListIs(env, names);
    GroupedHolds(env, avail, a);
    GroupedHolds(env, avail, b);
    FilterMembers(avail, name => InBucket(env, NewRar, a, name));
    FilterMembers(avail, name => env.fold(name) == b + ".rar");
    assert n in Bucket(env, avail, NewRar, a) && n in Lookup(env, avail, b + ".rar");
    var part := Bucket(env, avail, OldRarPart, b)[0];
    FilterMembers(avail, name => InBucket(env, OldRarPart, b, name));
    assert part in Bucket(env, avail, OldRarPart, b);
  }

  lemma NoOverlapMeansDistinct(env: Env, names: seq<string>)
    requires CaseFolds(env.fold) && NoOverlap(env, Available(env, names), StemList(env, names))
    ensures Distinct(Flatten(AllGroups(env, names)))
  {
    hide Available, StemList, LeftoverList, GroupsOf, Consumed, AllGroups, CaseFolds, Overlap, Flatten, AllStems;
    var avail, stems := Available(env, names), StemList(env, names);
    StemListIs(env, names);
    LeftoverListIs(env, names);
    GroupsAreDisjoint(env, avail, stems);
    forall n | n in Flatten(GroupsOf(env, avail, stems)) ensures n !in LeftoverList(env, names) {
      FlattenFrom(env, avail, stems, n);
      var k :| k in stems && GroupedAt(env, avail, k) && n in GroupAt(env, avail, k).members;
      GroupedHolds(env, avail, k);
      ConsumedHas(env, avail, stems, k, n);
    }
    DistinctConcat(Flatten(GroupsOf(env, avail, stems)), LeftoverList(env, names));
    FlattenAll(env, names);
    DistinctIgnoresOrder(Flatten(GroupsOf(env, avail, stems)) + LeftoverList(env, names),
                         Flatten(AllGroups(env, names)));
  }

  lemma OverlapMeansRepeat(env: Env, names: seq<string>, n: string, a: string, b: string)
    requires Overlap(env, Available(env, names), n, a, b)
    ensures !Distinct(Flatten(AllGroups(env, names)))
  {
    hide Available, StemList, LeftoverList, GroupsOf, AllGroups, Overlap, Flatten, Decide, FamiliesOf;
    var avail, stems := Available(env, names), StemList(env, names);
    OverlapStems(env, names, n, a, b);
    var i :| 0 <= i < |stems| && stems[i] == a;
    var j :| 0 <= j < |stems| && stems[j] == b;
    OverlapGroupedAt(env, avail, n, a, b);
    if i < j { OverlapRepeats(env, avail, stems, n, i, j); } else { OverlapRepeats(env, avail, stems, n, j, i); }
    FlattenAll(env, names);
    var all, parts := Flatten(AllGroups(env, names)), Flatten(GroupsOf(env, avail, stems));
    assert multiset(parts + LeftoverList(env, names))[n] >= 2;
    if Distinct(all) { AtMostOnce(all, n); }
  }

  lemma OverlapGroupedAt(env: Env, avail: seq<string>, n: string, a: string, b: string)
    requires Overlap(env, avail, n, a, b)
    ensures GroupedAt(env, avail, a) && GroupedAt(env, avail, b)
  {
    hide Decide, FamiliesOf;
  }

  /** Given basenames, the partition raises exactly when a numbered RAR volume of one complete group is also the entry
      of another stem's complete `.rNN` group. */
  lemma RaisesExactlyOnOverlap(env: Env, names: seq<string>)
    requires CaseFolds(env.fold) && AllBasenames(env, names)
    ensures PartitionOf(env, names).None? <==> exists n, a, b :: Overlap(env, Available(env, names), n, a, b)
  {
    hide Available, StemList, AllGroups, AllFindings, Overlap, CaseFolds, Flatten, Distinct;
    if n, a, b :| Overlap(env, Available(env, names), n, a, b) {
      OverlapMeansRepeat(env, names, n, a, b);
    } else {
      NoOverlapMeansDistinct(env, names);
    }
  }

  /** A partition's groups are disjoint and drawn from the names given. */
  lemma GroupsAreDrawnFromInputs(env: Env, names: seq<string>)
    requires PartitionOf(env, names).Some?
    ensures Distinct(Flatten(PartitionOf(env, names).value.groups))
    ensures forall n :: n in Flatten(PartitionOf(env, names).value.groups) ==> n in names
  {
    hide Available, StemList, LeftoverList, GroupsOf, AllGroups, AllFindings, Flatten, Distinct, Consumed, AllStems;
    var avail, stems := Available(env, names), StemList(env, names);
    FlattenAll(env, names);
    SameMembers(Flatten(AllGroups(env, names)), Flatten(GroupsOf(env, avail, stems)) + LeftoverList(env, names));
    LeftoverListIs(env, names);
    AvailableAreNames(env, names);
    forall n | n in Flatten(AllGroups(env, names)) ensures n in names {
      if n in Flatten(GroupsOf(env, avail, stems)) {
        FlattenFrom(env, avail, stems, n);
        var k :| k in stems && GroupedAt(env, avail, k) && n in GroupAt(env, avail, k).members;
        GroupedHolds(env, avail, k);
        var _ := SourceIsPartOrEntry(env, avail, k, n);
      }
    }
  }

  lemma AvailableAreNames(env: Env, names: seq<string>)
    ensures forall n :: n in Available(env, names) ==> n in names
  {
    FilterMembers(names, name => |SameFold(env, names, env.fold(name))| <= 1);
  }
}
