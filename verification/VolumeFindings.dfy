/**
What a partition finds, said of the available names alone: which stems come to which finding, and how often each
finding is listed.
*/
module VolumeFindings {
  import opened Prelude
  import opened Permutations
  import opened Sorting
  import opened Volumes
  import opened VolumeSets
  import opened VolumePartition
  import opened VolumeGroups

  // ---------- what can be wrong with a family ----------

  /** The number of the first volume beside an entry, or of the first of a numbered set. */
  function FirstNumber(pattern: Pattern): (n: int) { if pattern == OldRarPart then 0 else 1 }

  predicate IsVolume(env: Env, avail: seq<string>, pattern: Pattern, stem: string, n: string) {
    n in avail && InBucket(env, pattern, stem, n)
  }

  predicate IsEntry(env: Env, avail: seq<string>, pattern: Pattern, stem: string, n: string) {
    n in avail && env.fold(n) == stem + DirectSuffix(pattern)
  }

  function VolumeNames(env: Env, avail: seq<string>, pattern: Pattern, stem: string): (names: set<string>) {
    set n | n in avail && IsVolume(env, avail, pattern, stem, n)
  }

  function FamilyNames(env: Env, avail: seq<string>, pattern: Pattern, stem: string): (names: set<string>) {
    set n | n in avail && Belongs(env, avail, pattern, stem, n)
  }

  /** The volumes need an entry and there is none. */
  predicate LacksEntry(env: Env, avail: seq<string>, pattern: Pattern, stem: string) {
    TakesEntry(pattern) && forall n :: n in avail ==> !IsEntry(env, avail, pattern, stem, n)
  }

  predicate TooMany(env: Env, avail: seq<string>, pattern: Pattern, stem: string) {
    |FamilyNames(env, avail, pattern, stem)| > MAX_ARCHIVE_VOLUMES
  }

  /** The names agree without folding: numbered volumes in stem and width; parts, in their stem, with the entry, whose
      suffix is spelled in ASCII. */
  predicate Uniform(env: Env, avail: seq<string>, pattern: Pattern, stem: string) {
    if TakesEntry(pattern) then
      exists e :: e in avail && IsEntry(env, avail, pattern, stem, e) && GoesWith(env, avail, pattern, stem, e)
    else
      forall m, n :: m in avail && n in avail && IsVolume(env, avail, pattern, stem, m)
                     && IsVolume(env, avail, pattern, stem, n) ==>
        StemOf(pattern, m) == StemOf(pattern, n) && WidthOf(pattern, m) == WidthOf(pattern, n)
  }

  predicate GoesWith(env: Env, avail: seq<string>, pattern: Pattern, stem: string, e: string) {
    && |e| >= 4 && EndsIn(e, DirectSuffix(pattern))
    && forall n :: n in avail && IsVolume(env, avail, pattern, stem, n) ==> StemOf(pattern, n) == e[..|e| - 4]
  }

  predicate Carried(env: Env, avail: seq<string>, pattern: Pattern, stem: string, i: int) {
    exists n :: n in avail && IsVolume(env, avail, pattern, stem, n) && NumberOf(pattern, n) == i
  }

  /** One of the numbers that as many volumes should carry is carried by none. */
  predicate HasGap(env: Env, avail: seq<string>, pattern: Pattern, stem: string) {
    exists i :: FirstNumber(pattern) <= i < FirstNumber(pattern) + |VolumeNames(env, avail, pattern, stem)|
                && !Carried(env, avail, pattern, stem, i)
  }

  /** The family that a stem's names are judged as. */
  predicate Judged(env: Env, avail: seq<string>, pattern: Pattern, stem: string) {
    && SoleFamily(env, avail, pattern, stem) && !LacksEntry(env, avail, pattern, stem)
    && !TooMany(env, avail, pattern, stem)
  }

  /** A stem comes to this finding. */
  predicate ComesTo(env: Env, avail: seq<string>, stem: string, x: Finding) {
    match x
    case AmbiguousVolume =>
      (forall pattern :: !SoleFamily(env, avail, pattern, stem))
      || exists pattern :: Judged(env, avail, pattern, stem) && !Uniform(env, avail, pattern, stem)
    case OrphanVolume =>
      exists pattern :: SoleFamily(env, avail, pattern, stem) && LacksEntry(env, avail, pattern, stem)
    case UnsupportedVolume =>
      exists pattern :: SoleFamily(env, avail, pattern, stem) && !LacksEntry(env, avail, pattern, stem)
                        && TooMany(env, avail, pattern, stem)
    case MissingVolumeFound =>
      exists pattern :: Judged(env, avail, pattern, stem) && Uniform(env, avail, pattern, stem)
                        && HasGap(env, avail, pattern, stem)
    case NameCollision => false
  }

  // ---------- gaps ----------

  predicate NumberIn(pattern: Pattern, names: seq<string>, i: int) {
    exists n :: n in names && NumberOf(pattern, n) == i
  }

  predicate Ascends(pattern: Pattern, names: seq<string>) {
    forall i, j :: 0 <= i < j < |names| ==> NumberOf(pattern, names[i]) <= NumberOf(pattern, names[j])
  }

  /** A sorted list in which each of the numbers it should have occurs has exactly these. */
  lemma {:induction false} FullIsContiguous(pattern: Pattern, r: seq<string>, first: int)
    requires Ascends(pattern, r) && forall i :: first <= i < first + |r| ==> NumberIn(pattern, r, i)
    ensures Contiguous(pattern, r, first)
    decreases |r|
  {
    hide NumberOf, NumberIn, Ascends;
    if r != [] {
      var front := r[..|r| - 1];
      assert r == front + [r[|r| - 1]];
      FrontIsFull(pattern, front, r[|r| - 1], first);
      FullIsContiguous(pattern, front, first);
      LastCloses(pattern, front, r[|r| - 1], first);
    }
  }

  lemma FrontIsFull(pattern: Pattern, front: seq<string>, last: string, first: int)
    requires Ascends(pattern, front + [last])
    requires forall i :: first <= i < first + |front| + 1 ==> NumberIn(pattern, front + [last], i)
    ensures Ascends(pattern, front)
    ensures forall i :: first <= i < first + |front| ==> NumberIn(pattern, front, i)
  {
    hide NumberOf;
    var r := front + [last];
    forall i, j | 0 <= i < j < |front| ensures NumberOf(pattern, front[i]) <= NumberOf(pattern, front[j]) {
      assert r[i] == front[i] && r[j] == front[j];
    }
    HighestIsLast(pattern, r, first + |front|);
    forall i | first <= i < first + |front| ensures NumberIn(pattern, front, i) {
      assert NumberIn(pattern, r, i);
      var n :| n in r && NumberOf(pattern, n) == i;
      assert n in front;
    }
  }

  lemma LastCloses(pattern: Pattern, front: seq<string>, last: string, first: int)
    requires Contiguous(pattern, front, first) && NumberIn(pattern, front + [last], first + |front|)
    ensures Contiguous(pattern, front + [last], first)
  {
    hide NumberOf;
    forall n | n in front ensures NumberOf(pattern, n) < first + |front| {
      var k :| 0 <= k < |front| && front[k] == n;
    }
    assert NumberOf(pattern, last) == first + |front|;
  }

  lemma HighestIsLast(pattern: Pattern, r: seq<string>, i: int)
    requires r != [] && Ascends(pattern, r) && NumberIn(pattern, r, i)
    ensures NumberOf(pattern, r[|r| - 1]) >= i
  {
    hide NumberOf;
    var n :| n in r && NumberOf(pattern, n) == i;
    var k :| 0 <= k < |r| && r[k] == n;
  }

  lemma ContiguousIffFull(pattern: Pattern, names: seq<string>, first: int)
    ensures Contiguous(pattern, ByNumber(pattern, names), first)
       <==> forall i :: first <= i < first + |names| ==> NumberIn(pattern, names, i)
  {
    hide NumberOf, ByNumber;
    var r := ByNumber(pattern, names);
    ByNumberSorts(pattern, names);
    SameLength(r, names);
    SameMembers(r, names);
    if Contiguous(pattern, r, first) {
      forall i | first <= i < first + |names| ensures NumberIn(pattern, names, i) {
        assert r[i - first] in r && NumberOf(pattern, r[i - first]) == i;
      }
    }
    if forall i :: first <= i < first + |names| ==> NumberIn(pattern, names, i) {
      forall i | first <= i < first + |r| ensures NumberIn(pattern, r, i) {
        assert NumberIn(pattern, names, i);
      }
      FullIsContiguous(pattern, r, first);
    }
  }

  lemma DistinctTail<T>(s: seq<T>)
    requires Distinct(s) && s != []
    ensures Distinct(s[1..]) && s[0] !in s[1..]
  {
    var rest := s[1..];
    assert forall i :: 0 <= i < |rest| ==> rest[i] == s[i + 1];
  }

  lemma {:induction false} DistinctCount<T>(s: seq<T>)
    requires Distinct(s)
    ensures |set x | x in s| == |s|
  {
    hide Distinct;
    if s != [] {
      var rest := s[1..];
      DistinctTail(s);
      DistinctCount(rest);
      assert (set x | x in s) == {s[0]} + (set x | x in rest) by { assert s == [s[0]] + rest; }
    }
  }

  // ---------- the names of one family as the classification sees them ----------

  /** Names that all match one numbered pattern are classified by it alone. */
  lemma NumberedNames(pattern: Pattern, names: seq<string>, fold: string -> string)
    requires !TakesEntry(pattern) && names != [] && AllMatch(pattern, names) && |names| <= MAX_ARCHIVE_VOLUMES
    requires DistinctUnder(names, fold)
    ensures GroupNames(names, fold) == NumberedGroup(pattern, names)
  {
    hide Match, NumberedGroup, GroupWithEntry, DistinctUnder, Distinct;
    DistinctFolds(names, fold);
    OthersRefuseNumbered(pattern, names);
  }

  lemma OtherEntryRefuses(pattern: Pattern, other: Pattern, first: int, entry: string, parts: seq<string>)
    requires TakesEntry(other) && other != pattern && TakesEntry(pattern) && parts != [] && AllMatch(pattern, parts)
    ensures GroupWithEntry(other, DirectSuffix(other), first, [entry] + parts) == None
  {
    hide Match, EndsIn, StemOf;
    var names, suffix := [entry] + parts, DirectSuffix(other);
    SuffixesOf(pattern, parts[0]);
    FilterMembers(names, n => !EndsIn(n, suffix));
    assert names[1] == parts[0];
    assert parts[0] in Others(suffix, names);
    if AllMatch(other, Others(suffix, names)) {
      PatternsExclude(pattern, other, parts[0]);
    }
  }

  lemma OtherNumberedRefuse(pattern: Pattern, other: Pattern, entry: string, parts: seq<string>)
    requires !TakesEntry(other) && TakesEntry(pattern) && parts != [] && AllMatch(pattern, parts)
    ensures GroupNumbered(other, [entry] + parts) == None
  {
    hide Match, NumberedGroup;
    var names := [entry] + parts;
    assert names[1] == parts[0];
    if AllMatch(other, names) { PatternsExclude(pattern, other, parts[0]); }
  }

  /** Names that are one direct archive and parts are classified by the parts' pattern alone. */
  lemma EntryNames(pattern: Pattern, entry: string, parts: seq<string>, fold: string -> string)
    requires TakesEntry(pattern) && parts != [] && AllMatch(pattern, parts)
    requires |[entry] + parts| <= MAX_ARCHIVE_VOLUMES && DistinctUnder([entry] + parts, fold)
    ensures var g := GroupWithEntry(pattern, DirectSuffix(pattern), FirstNumber(pattern), [entry] + parts);
            GroupNames([entry] + parts, fold) == if g.Some? then g.value else Refused(PolicyRejected)
  {
    hide GroupNumbered, GroupWithEntry, DistinctUnder, Distinct, AllMatch;
    var names := [entry] + parts;
    DistinctFolds(names, fold);
    OtherNumberedRefuse(pattern, NewRar, entry, parts);
    OtherNumberedRefuse(pattern, SevenZPart, entry, parts);
    if pattern == OldRarPart {
      OtherEntryRefuses(pattern, SplitZipPart, 1, entry, parts);
    } else {
      OtherEntryRefuses(pattern, OldRarPart, 0, entry, parts);
    }
  }

  lemma EntryGroup(pattern: Pattern, entry: string, parts: seq<string>)
    requires TakesEntry(pattern) && parts != [] && AllMatch(pattern, parts)
    ensures var g := GroupWithEntry(pattern, DirectSuffix(pattern), FirstNumber(pattern), [entry] + parts);
            && (g.Some? <==> EndsIn(entry, DirectSuffix(pattern)))
            && (g.Some? ==> |entry| >= 4 && g.value.status
                                            == if !OneStem(pattern, parts, entry[..|entry| - 4]) then PolicyRejected
                                               else if !Contiguous(pattern, ByNumber(pattern, parts),
                                                                   FirstNumber(pattern))
                                               then MissingVolume
                                               else if pattern == SplitZipPart then UnsupportedFormat else Listed)
  {
    hide Match, OneStem, ByNumber, Contiguous, EndsIn;
    var names, suffix := [entry] + parts, DirectSuffix(pattern);
    forall n | n in parts ensures !EndsIn(n, suffix) {
      SuffixesOf(pattern, n);
    }
    FilterAppend([entry], parts, n => EndsIn(n, suffix));
    FilterAppend([entry], parts, n => !EndsIn(n, suffix));
    FilterNone(parts, n => EndsIn(n, suffix));
    FilterAll(parts, n => !EndsIn(n, suffix));
    if EndsIn(entry, suffix) {
      EndsInIsLong(entry, suffix);
      FilterAll([entry], n => EndsIn(n, suffix));
      FilterNone([entry], n => !EndsIn(n, suffix));
      assert Entries(suffix, names) == [entry] && Others(suffix, names) == parts;
    } else {
      FilterNone([entry], n => EndsIn(n, suffix));
      assert Entries(suffix, names) == [];
    }
  }

  // ---------- the one family of a stem ----------

  /** The sources of the one family are its names, each once, and the volumes are its bucket. */
  lemma FamilySources(env: Env, avail: seq<string>, pattern: Pattern, stem: string)
    requires CaseFolds(env.fold) && DistinctUnder(avail, env.fold) && OnlyBucket(FamiliesOf(env, avail, stem), pattern)
    ensures DistinctUnder(Sources(FamiliesOf(env, avail, stem)), env.fold)
    ensures |Sources(FamiliesOf(env, avail, stem))| == |FamilyNames(env, avail, pattern, stem)|
  {
    hide CaseFolds, DistinctUnder, Distinct, FamiliesOf, Sources, Belongs, OnlyBucket;
    var sources := Sources(FamiliesOf(env, avail, stem));
    SourcesDiffer(env, avail, pattern, stem);
    SourcesBelong(env, avail, pattern, stem);
    BelongingIsAvailable(env, avail, pattern, stem);
    DistinctFolds(sources, env.fold);
    DistinctCount(sources);
    assert (set n | n in sources) == FamilyNames(env, avail, pattern, stem);
  }

  lemma BucketNames(env: Env, avail: seq<string>, pattern: Pattern, stem: string)
    requires DistinctUnder(avail, env.fold)
    ensures var b := Bucket(env, avail, pattern, stem);
            && (forall n :: n in b <==> IsVolume(env, avail, pattern, stem, n))
            && AllMatch(pattern, b) && |b| == |VolumeNames(env, avail, pattern, stem)|
  {
    hide DistinctUnder, Distinct, Matches, StemOf;
    var b := Bucket(env, avail, pattern, stem);
    BucketIs(env, avail, pattern, stem);
    FilterDiffers(avail, env.fold, name => InBucket(env, pattern, stem, name));
    DistinctFolds(b, env.fold);
    DistinctCount(b);
    assert (set n | n in b) == VolumeNames(env, avail, pattern, stem);
    forall i | 0 <= i < |b| ensures Matches(pattern, b[i]) {
      assert b[i] in b;
    }
  }

  lemma ContiguousIffNoGap(env: Env, avail: seq<string>, pattern: Pattern, stem: string)
    requires DistinctUnder(avail, env.fold)
    ensures Contiguous(pattern, ByNumber(pattern, Bucket(env, avail, pattern, stem)), FirstNumber(pattern))
       <==> !HasGap(env, avail, pattern, stem)
  {
    hide DistinctUnder, InBucket, NumberOf, Bucket, AllMatch, ByNumber, Contiguous;
    var b := Bucket(env, avail, pattern, stem);
    BucketNames(env, avail, pattern, stem);
    ContiguousIffFull(pattern, b, FirstNumber(pattern));
    forall i ensures NumberIn(pattern, b, i) <==> Carried(env, avail, pattern, stem, i) {
      if NumberIn(pattern, b, i) {
        var n :| n in b && NumberOf(pattern, n) == i;
        assert IsVolume(env, avail, pattern, stem, n);
      }
      if Carried(env, avail, pattern, stem, i) {
        var n :| n in avail && IsVolume(env, avail, pattern, stem, n) && NumberOf(pattern, n) == i;
        assert n in b;
      }
    }
  }

  lemma NumberedStatus(env: Env, avail: seq<string>, pattern: Pattern, stem: string)
    requires CaseFolds(env.fold) && DistinctUnder(avail, env.fold) && OnlyBucket(FamiliesOf(env, avail, stem), pattern)
    requires !TakesEntry(pattern) && !TooMany(env, avail, pattern, stem)
    ensures GroupNames(Sources(FamiliesOf(env, avail, stem)), env.fold).status
         == if !Uniform(env, avail, pattern, stem) then PolicyRejected
            else if HasGap(env, avail, pattern, stem) then MissingVolume else Listed
  {
    hide CaseFolds, DistinctUnder, InBucket, Matches, StemOf, WidthOf, HasGap, FamilyNames, Contiguous, ByNumber,
         Bucket, Lookup;
    var b := Bucket(env, avail, pattern, stem);
    assert Sources(FamiliesOf(env, avail, stem)) == b && b != [];
    FamilySources(env, avail, pattern, stem);
    BucketNames(env, avail, pattern, stem);
    NumberedNames(pattern, b, env.fold);
    ContiguousIffNoGap(env, avail, pattern, stem);
    ByNumberSorts(pattern, b);
    SameLength(ByNumber(pattern, b), b);
    UniformNumbered(env, avail, pattern, stem);
  }

  lemma UniformNumbered(env: Env, avail: seq<string>, pattern: Pattern, stem: string)
    requires DistinctUnder(avail, env.fold) && !TakesEntry(pattern) && Bucket(env, avail, pattern, stem) != []
    ensures var b := Bucket(env, avail, pattern, stem);
            (Uniform(env, avail, pattern, stem)
             <==> OneStem(pattern, b, StemOf(pattern, b[0])) && OneWidth(pattern, b, WidthOf(pattern, b[0])))
  {
    hide DistinctUnder, InBucket, Matches, StemOf, WidthOf, Bucket;
    var b := Bucket(env, avail, pattern, stem);
    BucketNames(env, avail, pattern, stem);
    assert b[0] in b;
    forall n | n in b ensures exists i :: 0 <= i < |b| && b[i] == n {
    }
    if Uniform(env, avail, pattern, stem) {
      forall i | 0 <= i < |b|
        ensures StemOf(pattern, b[i]) == StemOf(pattern, b[0]) && WidthOf(pattern, b[i]) == WidthOf(pattern, b[0])
      {
        assert b[i] in b;
        assert IsVolume(env, avail, pattern, stem, b[i]) && IsVolume(env, avail, pattern, stem, b[0]);
      }
    }
  }

  lemma EntryStatus(env: Env, avail: seq<string>, pattern: Pattern, stem: string)
    requires CaseFolds(env.fold) && DistinctUnder(avail, env.fold) && OnlyBucket(FamiliesOf(env, avail, stem), pattern)
    requires TakesEntry(pattern) && !LacksEntry(env, avail, pattern, stem) && !TooMany(env, avail, pattern, stem)
    ensures GroupNames(Sources(FamiliesOf(env, avail, stem)), env.fold).status
         == if !Uniform(env, avail, pattern, stem) then PolicyRejected
            else if HasGap(env, avail, pattern, stem) then MissingVolume
            else if pattern == SplitZipPart then UnsupportedFormat else Listed
  {
    hide CaseFolds, DistinctUnder, InBucket, Matches, StemOf, HasGap, FamilyNames, Contiguous, ByNumber, Bucket,
         Lookup, GroupWithEntry, GroupNames, Uniform, AllMatch, OneStem;
    var b := Bucket(env, avail, pattern, stem);
    var e := TheEntry(env, avail, pattern, stem);
    assert Sources(FamiliesOf(env, avail, stem)) == [e] + b && b != [];
    FamilySources(env, avail, pattern, stem);
    BucketNames(env, avail, pattern, stem);
    EntryNames(pattern, e, b, env.fold);
    EntryGroup(pattern, e, b);
    ContiguousIffNoGap(env, avail, pattern, stem);
    UniformEntry(env, avail, pattern, stem, e);
  }

  lemma TheEntry(env: Env, avail: seq<string>, pattern: Pattern, stem: string) returns (e: string)
    requires DistinctUnder(avail, env.fold) && TakesEntry(pattern) && !LacksEntry(env, avail, pattern, stem)
    ensures Lookup(env, avail, stem + DirectSuffix(pattern)) == [e] && IsEntry(env, avail, pattern, stem, e)
  {
    hide Lookup, DirectSuffix;
    var found := Lookup(env, avail, stem + DirectSuffix(pattern));
    LookupIs(env, avail, stem + DirectSuffix(pattern));
    FoundOnce(env, avail, stem + DirectSuffix(pattern));
    e :| e in avail && IsEntry(env, avail, pattern, stem, e);
    assert e in found;
  }

  lemma FoundOnce(env: Env, avail: seq<string>, folded: string)
    requires DistinctUnder(avail, env.fold)
    ensures |Lookup(env, avail, folded)| <= 1
  {
    var found := Lookup(env, avail, folded);
    FilterDiffers(avail, env.fold, name => env.fold(name) == folded);
    FilterMembers(avail, name => env.fold(name) == folded);
    forall i | 0 <= i < |found| ensures env.fold(found[i]) == folded {
      assert found[i] in found;
    }
    if |found| > 1 { FirstTwoDiffer(found, env.fold); }
  }

  lemma FirstTwoDiffer(names: seq<string>, fold: string -> string)
    requires DistinctUnder(names, fold) && |names| > 1
    ensures fold(names[0]) != fold(names[1])
  {
  }

  lemma UniformEntry(env: Env, avail: seq<string>, pattern: Pattern, stem: string, e: string)
    requires DistinctUnder(avail, env.fold) && TakesEntry(pattern)
    requires Lookup(env, avail, stem + DirectSuffix(pattern)) == [e] && IsEntry(env, avail, pattern, stem, e)
    ensures Uniform(env, avail, pattern, stem)
       <==> EndsIn(e, DirectSuffix(pattern)) && |e| >= 4
            && OneStem(pattern, Bucket(env, avail, pattern, stem), e[..|e| - 4])
  {
    hide DistinctUnder, InBucket, Matches, StemOf, Bucket, EndsIn, Lookup, DirectSuffix;
    var b := Bucket(env, avail, pattern, stem);
    LookupIs(env, avail, stem + DirectSuffix(pattern));
    BucketNames(env, avail, pattern, stem);
    if Uniform(env, avail, pattern, stem) {
      var x :| x in avail && IsEntry(env, avail, pattern, stem, x) && GoesWith(env, avail, pattern, stem, x);
      assert x in [e];
      forall i | 0 <= i < |b| ensures StemOf(pattern, b[i]) == e[..|e| - 4] {
        assert b[i] in b;
        assert IsVolume(env, avail, pattern, stem, b[i]);
      }
    }
    if EndsIn(e, DirectSuffix(pattern)) && |e| >= 4 && OneStem(pattern, b, e[..|e| - 4]) {
      forall n | n in avail && IsVolume(env, avail, pattern, stem, n) ensures StemOf(pattern, n) == e[..|e| - 4] {
        var i :| 0 <= i < |b| && b[i] == n;
      }
      assert GoesWith(env, avail, pattern, stem, e);
    }
  }

  // ---------- what a stem comes to ----------

  lemma OrphanIffLacksEntry(env: Env, avail: seq<string>, pattern: Pattern, stem: string)
    requires OnlyBucket(FamiliesOf(env, avail, stem), pattern)
    ensures IsOrphan(env, FamiliesOf(env, avail, stem), stem) <==> LacksEntry(env, avail, pattern, stem)
  {
    hide Bucket, InBucket, Sources, SameFold;
    var sources := Sources(FamiliesOf(env, avail, stem));
    SourcesBelong(env, avail, pattern, stem);
    LookupIs(env, sources, stem + DirectSuffix(pattern));
    BelongingIsAvailable(env, avail, pattern, stem);
    if TakesEntry(pattern) {
      EntriesBelong(env, avail, pattern, stem);
    }
  }

  lemma EntriesBelong(env: Env, avail: seq<string>, pattern: Pattern, stem: string)
    requires TakesEntry(pattern)
    ensures forall n :: IsEntry(env, avail, pattern, stem, n) ==> Belongs(env, avail, pattern, stem, n)
  {
  }

  /** What the one family of a stem comes to. */
  lemma JudgedAs(env: Env, avail: seq<string>, pattern: Pattern, stem: string)
    requires CaseFolds(env.fold) && DistinctUnder(avail, env.fold) && OnlyBucket(FamiliesOf(env, avail, stem), pattern)
    ensures var o := Decide(env, FamiliesOf(env, avail, stem), stem);
            if LacksEntry(env, avail, pattern, stem) then o == Found(OrphanVolume)
            else if TooMany(env, avail, pattern, stem) then o == Found(UnsupportedVolume)
            else if !Uniform(env, avail, pattern, stem) then o == Found(AmbiguousVolume)
            else if HasGap(env, avail, pattern, stem) then o == Found(MissingVolumeFound)
            else o.Grouped?
  {
    hide CaseFolds, DistinctUnder, FamiliesOf, Sources, LacksEntry, Uniform, HasGap, FamilyNames, IsOrphan, GroupNames,
         FamilyCount, OnlyBucket;
    var f := FamiliesOf(env, avail, stem);
    OneFamilyHasABucket(f);
    OrphanIffLacksEntry(env, avail, pattern, stem);
    FamilySources(env, avail, pattern, stem);
    if !LacksEntry(env, avail, pattern, stem) && !TooMany(env, avail, pattern, stem) {
      if TakesEntry(pattern) {
        EntryStatus(env, avail, pattern, stem);
      } else {
        NumberedStatus(env, avail, pattern, stem);
      }
    }
  }

  lemma OneSoleFamily(env: Env, avail: seq<string>, p: Pattern, q: Pattern, stem: string)
    requires SoleFamily(env, avail, p, stem) && SoleFamily(env, avail, q, stem)
    ensures p == q
  {
    hide InBucket;
  }

  /** The finding the partition makes of a stem. */
  predicate FoundAt(env: Env, avail: seq<string>, stem: string, x: Finding) {
    Decide(env, FamiliesOf(env, avail, stem), stem) == Found(x)
  }

  /** A stem comes to a finding exactly as its families say. */
  lemma FoundIffComesTo(env: Env, avail: seq<string>, stem: string, x: Finding)
    requires CaseFolds(env.fold) && DistinctUnder(avail, env.fold)
    ensures FoundAt(env, avail, stem, x) <==> ComesTo(env, avail, stem, x)
  {
    hide CaseFolds, DistinctUnder, FamiliesOf, SoleFamily, LacksEntry, TooMany, Uniform, HasGap, OnlyBucket,
         FamilyCount, IsOrphan, Sources, GroupNames;
    var f := FamiliesOf(env, avail, stem);
    OneFamilyHasABucket(f);
    forall p ensures SoleFamily(env, avail, p, stem) <==> OnlyBucket(f, p) {
      SoleIsOnlyBucket(env, avail, p, stem);
    }
    if pattern :| SoleFamily(env, avail, pattern, stem) {
      JudgedAs(env, avail, pattern, stem);
      forall p | SoleFamily(env, avail, p, stem) ensures p == pattern {
        OneSoleFamily(env, avail, p, pattern, stem);
      }
    }
  }

  // ---------- the findings of a partition ----------

  function StemsFound(env: Env, avail: seq<string>, stems: seq<string>, x: Finding): (ks: set<string>) {
    set k | k in stems && FoundAt(env, avail, k, x)
  }

  lemma OneMore<T>(some: set<T>, x: T)
    requires x !in some
    ensures |some + {x}| == |some| + 1
  {
  }

  lemma StemsFoundFirst(env: Env, avail: seq<string>, k: string, rest: seq<string>, x: Finding)
    requires k !in rest
    ensures |StemsFound(env, avail, [k] + rest, x)|
         == |StemsFound(env, avail, rest, x)| + (if FoundAt(env, avail, k, x) then 1 else 0)
  {
    hide FoundAt;
    var all, some := StemsFound(env, avail, [k] + rest, x), StemsFound(env, avail, rest, x);
    if FoundAt(env, avail, k, x) {
      assert all == some + {k};
      OneMore(some, k);
    } else {
      assert all == some;
    }
  }

  lemma {:induction false} FindingsOfStems(env: Env, avail: seq<string>, stems: seq<string>, x: Finding)
    requires Distinct(stems)
    ensures multiset(FindingsOf(env, avail, stems))[x] == |StemsFound(env, avail, stems, x)|
    decreases |stems|
  {
    hide Decide, FamiliesOf, Distinct;
    if stems != [] {
      hide StemsFound;
      DistinctTail(stems);
      StemsFoundFirst(env, avail, stems[0], stems[1..], x);
      assert stems == [stems[0]] + stems[1..];
      FindingsOfStems(env, avail, stems[1..], x);
      var o := Decide(env, FamiliesOf(env, avail, stems[0]), stems[0]);
      assert multiset(FindingsOf(env, avail, stems))
          == (if o.Found? then multiset{o.finding} else multiset{}) + multiset(FindingsOf(env, avail, stems[1..]));
    }
  }

  lemma SortedFindings(fs: seq<Finding>)
    ensures multiset(SortFindings(fs)) == multiset(fs) && SortedBy(SortFindings(fs), Rank)
  {
    SortBySorts(fs, Rank);
  }

  /** The value of a finding, by which findings are sorted. */
  function FindingValue(f: Finding): (s: string) {
    match f case AmbiguousVolume => "AMBIGUOUS_VOLUME" case MissingVolumeFound => "MISSING_VOLUME"
            case NameCollision => "NAME_COLLISION" case OrphanVolume => "ORPHAN_VOLUME"
            case UnsupportedVolume => "UNSUPPORTED_VOLUME"
  }

  lemma RanksAreAlphabetical(a: Finding, b: Finding)
    ensures Rank(a) <= Rank(b) <==> Lex(FindingValue(a), FindingValue(b))
  {
    var s, t := FindingValue(a), FindingValue(b);
    assert s[0] == (match a case AmbiguousVolume => 'A' case MissingVolumeFound => 'M' case NameCollision => 'N'
                            case OrphanVolume => 'O' case UnsupportedVolume => 'U');
    if a == b { LexTotal(s, t); }
  }

  lemma CollisionsCount(n: nat, x: Finding)
    ensures multiset(seq(n, _ => NameCollision))[x] == if x == NameCollision then n else 0
  {
    var s := seq(n, _ => NameCollision);
    if n > 0 {
      CollisionsCount(n - 1, x);
      assert s == seq(n - 1, _ => NameCollision) + [NameCollision];
    }
  }

  lemma SortedAlphabetically(fs: seq<Finding>)
    requires SortedBy(fs, Rank)
    ensures forall i, j :: 0 <= i < j < |fs| ==> Lex(FindingValue(fs[i]), FindingValue(fs[j]))
  {
    hide Rank, Lex, FindingValue;
    forall i, j | 0 <= i < j < |fs| ensures Lex(FindingValue(fs[i]), FindingValue(fs[j])) {
      RanksAreAlphabetical(fs[i], fs[j]);
    }
  }

  /** The findings of a partition, in the order of their values: each is listed once for every stem that comes to it,
      and NAME_COLLISION once for every folding that several names share. */
  lemma FindingsSayTheirStems(env: Env, names: seq<string>, x: Finding)
    requires CaseFolds(env.fold) && PartitionOf(env, names).Some?
    ensures var avail := Available(env, names);
            multiset(PartitionOf(env, names).value.findings)[x]
            == if x == NameCollision then |Collisions(env, names)|
               else |set k | k in AllStems(env, avail) && ComesTo(env, avail, k, x)|
    ensures var fs := PartitionOf(env, names).value.findings;
            forall i, j :: 0 <= i < j < |fs| ==> Lex(FindingValue(fs[i]), FindingValue(fs[j]))
  {
    hide CaseFolds, Available, StemList, AllStems, FoundAt, Collisions, ComesTo, AllGroups, Flatten, SortBy,
         Rank, SortFindings;
    var avail, stems := Available(env, names), StemList(env, names);
    var collisions := seq(|Collisions(env, names)|, _ => NameCollision);
    StemListIs(env, names);
    AvailableDiffer(env, names);
    FindingsOfStems(env, avail, stems, x);
    CollisionsCount(|Collisions(env, names)|, x);
    SortedFindings(collisions + FindingsOf(env, avail, stems));
    SortedAlphabetically(PartitionOf(env, names).value.findings);
    forall k ensures FoundAt(env, avail, k, x) <==> ComesTo(env, avail, k, x) {
      FoundIffComesTo(env, avail, k, x);
    }
    assert StemsFound(env, avail, stems, x)
        == set k | k in AllStems(env, avail) && ComesTo(env, avail, k, x);
    NoStemCollides(env, avail, stems, x);
  }

  lemma NoStemCollides(env: Env, avail: seq<string>, stems: seq<string>, x: Finding)
    ensures NameCollision !in FindingsOf(env, avail, stems)
  {
    hide FamiliesOf, GroupNames;
  }
}
