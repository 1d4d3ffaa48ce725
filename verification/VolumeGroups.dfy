/**
What a partition holds, said of the available names alone: its groups are exactly the complete sets that are the whole
of one family of one stem, and the recognized names that no family uses.
*/
module VolumeGroups {
  import opened Prelude
  import opened Permutations
  import opened Sorting
  import opened Volumes
  import opened VolumeSets
  import opened VolumePartition

  // ---------- families ----------

  /** The suffix of the direct archive that goes with, or competes with, the volumes of a pattern. */
  function DirectSuffix(pattern: Pattern): (s: string) {
    match pattern case NewRar => ".rar" case OldRarPart => ".rar" case SevenZPart => ".7z" case SplitZipPart => ".zip"
  }

  predicate TakesEntry(pattern: Pattern) { pattern == OldRarPart || pattern == SplitZipPart }

  /** n is a volume of the stem, or the entry of its volumes. */
  predicate Belongs(env: Env, avail: seq<string>, pattern: Pattern, stem: string, n: string) {
    n in avail && (InBucket(env, pattern, stem, n)
                   || (TakesEntry(pattern) && env.fold(n) == stem + DirectSuffix(pattern)))
  }

  /** The stem has volumes of this pattern and of no other, and no direct archive beside numbered volumes. */
  predicate SoleFamily(env: Env, avail: seq<string>, pattern: Pattern, stem: string) {
    && (exists n :: n in avail && InBucket(env, pattern, stem, n))
    && (forall n :: n in avail ==> forall p :: InBucket(env, p, stem, n) ==> p == pattern)
    && (!TakesEntry(pattern) ==> forall n :: n in avail ==> env.fold(n) != stem + DirectSuffix(pattern))
  }

  /** g is a complete set, and is the whole family. */
  predicate CompleteFamily(env: Env, avail: seq<string>, pattern: Pattern, stem: string, g: Group) {
    && SoleFamily(env, avail, pattern, stem) && CompleteSet(pattern, g) && |g.members| <= MAX_ARCHIVE_VOLUMES
    && (forall n :: n in g.members ==> Belongs(env, avail, pattern, stem, n))
    && (forall n :: n in avail && Belongs(env, avail, pattern, stem, n) ==> n in g.members)
  }

  /** n is a volume of the pattern and stem, or the direct archive beside some. */
  predicate UsedWith(env: Env, avail: seq<string>, pattern: Pattern, stem: string, n: string) {
    exists m :: m in avail && InBucket(env, pattern, stem, m) && (n == m || env.fold(n) == stem + DirectSuffix(pattern))
  }

  /** n is a volume, or a direct archive beside volumes. */
  ghost predicate Used(env: Env, avail: seq<string>, n: string) {
    exists pattern, stem :: UsedWith(env, avail, pattern, stem, n)
  }

  // ---------- the families of a stem ----------

  lemma BucketIs(env: Env, avail: seq<string>, pattern: Pattern, stem: string)
    ensures forall n :: n in Bucket(env, avail, pattern, stem) <==> n in avail && InBucket(env, pattern, stem, n)
    ensures Bucket(env, avail, pattern, stem) != [] <==> exists n :: n in avail && InBucket(env, pattern, stem, n)
  {
    hide InBucket;
    var b := Bucket(env, avail, pattern, stem);
    FilterMembers(avail, name => InBucket(env, pattern, stem, name));
    if b != [] { assert b[0] in b; }
  }

  lemma LookupIs(env: Env, avail: seq<string>, folded: string)
    ensures forall n :: n in Lookup(env, avail, folded) <==> n in avail && env.fold(n) == folded
    ensures Lookup(env, avail, folded) != [] <==> exists n :: n in avail && env.fold(n) == folded
  {
    var l := Lookup(env, avail, folded);
    FilterMembers(avail, name => env.fold(name) == folded);
    if l != [] { assert l[0] in l; }
  }

  /** The one bucket that is not empty. */
  predicate OnlyBucket(f: Families, pattern: Pattern) {
    && (f.newRar != [] <==> pattern == NewRar) && (f.sevenZ != [] <==> pattern == SevenZPart)
    && (f.oldRar != [] <==> pattern == OldRarPart) && (f.splitZip != [] <==> pattern == SplitZipPart)
    && (pattern == NewRar ==> f.rar == []) && (pattern == SevenZPart ==> f.sevenZip == [])
  }

  lemma SoleIsOnlyBucket(env: Env, avail: seq<string>, pattern: Pattern, stem: string)
    ensures SoleFamily(env, avail, pattern, stem) <==> OnlyBucket(FamiliesOf(env, avail, stem), pattern)
  {
    hide InBucket, Bucket, Lookup;
    BucketIs(env, avail, NewRar, stem);
    BucketIs(env, avail, SevenZPart, stem);
    BucketIs(env, avail, OldRarPart, stem);
    BucketIs(env, avail, SplitZipPart, stem);
    LookupIs(env, avail, stem + ".rar");
    LookupIs(env, avail, stem + ".7z");
  }

  lemma OneFamilyHasABucket(f: Families)
    ensures FamilyCount(f) == 1 <==> exists pattern :: OnlyBucket(f, pattern)
  {
    if FamilyCount(f) == 1 {
      var p := if f.newRar != [] then NewRar else if f.sevenZ != [] then SevenZPart
               else if f.oldRar != [] then OldRarPart else SplitZipPart;
      assert OnlyBucket(f, p);
    }
  }

  lemma SourcesBelong(env: Env, avail: seq<string>, pattern: Pattern, stem: string)
    requires OnlyBucket(FamiliesOf(env, avail, stem), pattern)
    ensures forall n :: n in Sources(FamiliesOf(env, avail, stem)) <==> Belongs(env, avail, pattern, stem, n)
  {
    hide InBucket, Bucket, Lookup;
    BucketIs(env, avail, pattern, stem);
    LookupIs(env, avail, stem + ".rar");
    LookupIs(env, avail, stem + ".zip");
  }

  // ---------- the sources differ under folding ----------

  lemma {:induction false} FilterDiffers(names: seq<string>, fold: string -> string, p: string -> bool)
    requires DistinctUnder(names, fold)
    ensures DistinctUnder(Filter(names, p), fold)
    decreases |names|
  {
    if names != [] {
      assert forall i, j :: 0 <= i < j < |names[1..]| ==>
                names[1..][i] == names[i + 1] && names[1..][j] == names[j + 1];
      FilterDiffers(names[1..], fold, p);
      FilterMembers(names[1..], p);
      var rest := Filter(names[1..], p);
      forall i | 0 <= i < |rest| ensures fold(names[0]) != fold(rest[i]) {
        assert rest[i] in names[1..];
        var k :| 0 <= k < |names[1..]| && names[1..][k] == rest[i];
        assert names[k + 1] == rest[i];
      }
    }
  }

  lemma JoinDiffers(a: seq<string>, b: seq<string>, fold: string -> string)
    requires DistinctUnder(a, fold) && DistinctUnder(b, fold)
    requires forall x, y :: x in a && y in b ==> fold(x) != fold(y)
    ensures DistinctUnder(a + b, fold)
  {
    forall i, j | 0 <= i < j < |a + b| ensures fold((a + b)[i]) != fold((a + b)[j]) {
      if i < |a| <= j {
        assert (a + b)[i] in a && (a + b)[j] in b;
      }
    }
  }

  lemma EntryAndPartsDiffer(env: Env, avail: seq<string>, pattern: Pattern, stem: string)
    requires CaseFolds(env.fold) && TakesEntry(pattern) && DistinctUnder(avail, env.fold)
    ensures DistinctUnder(Lookup(env, avail, stem + DirectSuffix(pattern)) + Bucket(env, avail, pattern, stem),
                          env.fold)
  {
    hide Matches, StemOf, CaseFolds;
    var entries, parts := Lookup(env, avail, stem + DirectSuffix(pattern)), Bucket(env, avail, pattern, stem);
    FilterDiffers(avail, env.fold, name => env.fold(name) == stem + DirectSuffix(pattern));
    FilterDiffers(avail, env.fold, name => InBucket(env, pattern, stem, name));
    BucketIs(env, avail, pattern, stem);
    LookupIs(env, avail, stem + DirectSuffix(pattern));
    forall x, y | x in entries && y in parts ensures env.fold(x) != env.fold(y) {
      PartsEndInDigits(pattern, y);
      FoldEnds(env.fold, y);
      assert !LastIsDigit(env.fold(x)) by { EntryFoldEnds(stem, pattern); }
    }
    JoinDiffers(entries, parts, env.fold);
  }

  lemma EntryFoldEnds(stem: string, pattern: Pattern)
    requires TakesEntry(pattern)
    ensures !LastIsDigit(stem + DirectSuffix(pattern))
  {
  }

  lemma SourcesDiffer(env: Env, avail: seq<string>, pattern: Pattern, stem: string)
    requires CaseFolds(env.fold) && DistinctUnder(avail, env.fold) && OnlyBucket(FamiliesOf(env, avail, stem), pattern)
    ensures DistinctUnder(Sources(FamiliesOf(env, avail, stem)), env.fold)
  {
    hide CaseFolds, DistinctUnder, Lookup, InBucket;
    FilterDiffers(avail, env.fold, name => InBucket(env, pattern, stem, name));
    if TakesEntry(pattern) {
      EntryAndPartsDiffer(env, avail, pattern, stem);
    }
  }

  // ---------- the group of a stem ----------

  /** A complete set that is a whole family is of that family's pattern. */
  lemma SetOfFamily(env: Env, avail: seq<string>, pattern: Pattern, stem: string, p: Pattern, g: Group)
    requires CaseFolds(env.fold) && SoleFamily(env, avail, pattern, stem) && CompleteSet(p, g)
    requires forall n :: n in g.members <==> Belongs(env, avail, pattern, stem, n)
    ensures p == pattern
  {
    hide Matches, StemOf, CaseFolds, NumberedSet, EntrySet, EndsIn;
    var n :| n in avail && InBucket(env, pattern, stem, n);
    assert Belongs(env, avail, pattern, stem, n) && n in g.members;
    var m := SomePart(p, g);
    if m != n && pattern != p {
      if InBucket(env, pattern, stem, m) {
        PatternsExclude(pattern, p, m);
      } else {
        assert TakesEntry(pattern) && env.fold(m) == stem + DirectSuffix(pattern);
        EntryFoldEnds(stem, pattern);
        if p != NewRar {
          PartsEndInDigits(p, m);
          FoldEnds(env.fold, m);
        } else {
          AllNumbered(p, g, n);
          PatternsExclude(pattern, p, n);
        }
      }
    } else if pattern != p {
      PatternsExclude(pattern, p, n);
    }
  }

  lemma SomePart(p: Pattern, g: Group) returns (m: string)
    requires CompleteSet(p, g)
    ensures m in g.members && Matches(p, m)
  {
    hide Match;
    m := if p == OldRarPart then g.members[1] else g.members[0];
    if p == OldRarPart { assert g.members[1..][0] == m; }
    if p == SplitZipPart { assert g.members[..|g.members| - 1][0] == m; }
  }

  lemma AllNumbered(p: Pattern, g: Group, n: string)
    requires CompleteSet(p, g) && !TakesEntry(p) && n in g.members
    ensures Matches(p, n)
  {
    hide Match;
  }

  /** In a set with an entry, the names that match the pattern are the parts, and the other one is the entry. */
  lemma EntryOrPart(p: Pattern, g: Group, n: string)
    requires CompleteSet(p, g) && TakesEntry(p) && n in g.members
    ensures g.entry == Some(n) || Matches(p, n)
    ensures g.entry.Some? && g.entry.value in g.members && !Matches(p, g.entry.value)
  {
    hide Match, EndsIn;
    var k := |g.members|;
    var parts := if p == OldRarPart then g.members[1..] else g.members[..k - 1];
    assert g.members == if p == OldRarPart then [g.members[0]] + parts else parts + [g.members[k - 1]];
    if Matches(p, g.entry.value) {
      SuffixesOf(p, g.entry.value);
    }
  }

  lemma SetsAreDistinct(p: Pattern, g: Group)
    requires CompleteSet(p, g)
    ensures Distinct(g.members)
  {
    hide Match, EndsIn, OneStem, OneWidth;
    if TakesEntry(p) {
      var k := |g.members|;
      var parts := if p == OldRarPart then g.members[1..] else g.members[..k - 1];
      ContiguousIsDistinct(p, parts, if p == OldRarPart then 0 else 1);
      EntryOrPart(p, g, g.members[0]);
      var entry := g.entry.value;
      assert entry !in parts;
      if p == OldRarPart {
        assert g.members == [entry] + parts;
      } else {
        assert g.members == parts + [entry];
      }
    } else {
      ContiguousIsDistinct(p, g.members, 1);
    }
  }

  /** The one family of a stem is never an orphan when its names are a complete set. */
  lemma CompleteIsNoOrphan(env: Env, avail: seq<string>, pattern: Pattern, stem: string, g: Group)
    requires CompleteFamily(env, avail, pattern, stem, g) && OnlyBucket(FamiliesOf(env, avail, stem), pattern)
    ensures !IsOrphan(env, FamiliesOf(env, avail, stem), stem)
  {
    hide CompleteSet, SoleFamily, Matches, StemOf, Sources, FamiliesOf;
    var f := FamiliesOf(env, avail, stem);
    if TakesEntry(pattern) {
      SourcesBelong(env, avail, pattern, stem);
      EntryOrPart(pattern, g, SomeMember(pattern, g));
      var entry := g.entry.value;
      assert Belongs(env, avail, pattern, stem, entry) && env.fold(entry) == stem + DirectSuffix(pattern);
      LookupIs(env, Sources(f), stem + DirectSuffix(pattern));
      assert entry in Lookup(env, Sources(f), stem + DirectSuffix(pattern));
    }
  }

  function SomeMember(p: Pattern, g: Group): (n: string)
    requires CompleteSet(p, g)
    ensures n in g.members
  {
    g.members[0]
  }

  /** A stem is grouped exactly when the names of its one family are a complete set of at most 256, and into that
      set. */
  lemma GroupedAtIffComplete(env: Env, avail: seq<string>, stem: string, g: Group)
    requires CaseFolds(env.fold) && DistinctUnder(avail, env.fold)
    ensures GroupedAt(env, avail, stem) && GroupAt(env, avail, stem) == g
       <==> exists pattern :: CompleteFamily(env, avail, pattern, stem, g)
  {
    hide CaseFolds, DistinctUnder, CompleteSet, SoleFamily, OnlyBucket, Belongs, IsOrphan, GroupNames, Sources,
         FamiliesOf,
         FamilyCount;
    var f := FamiliesOf(env, avail, stem);
    OneFamilyHasABucket(f);
    if GroupedAt(env, avail, stem) && GroupAt(env, avail, stem) == g {
      var pattern :| OnlyBucket(f, pattern);
      GroupedIffComplete(Sources(f), env.fold, g);
      var p :| CompleteSet(p, g);
      SoleIsOnlyBucket(env, avail, pattern, stem);
      SourcesBelong(env, avail, pattern, stem);
      SameMembers(g.members, Sources(f));
      SameLength(g.members, Sources(f));
      BelongingIsAvailable(env, avail, pattern, stem);
      SetOfFamily(env, avail, pattern, stem, p, g);
      assert CompleteFamily(env, avail, pattern, stem, g);
    }
    if pattern :| CompleteFamily(env, avail, pattern, stem, g) {
      FamilyIsGrouped(env, avail, pattern, stem, g);
    }
  }

  lemma BelongingIsAvailable(env: Env, avail: seq<string>, pattern: Pattern, stem: string)
    ensures forall n :: Belongs(env, avail, pattern, stem, n) ==> n in avail
  {
    hide InBucket;
  }

  lemma FamilyIsGrouped(env: Env, avail: seq<string>, pattern: Pattern, stem: string, g: Group)
    requires CaseFolds(env.fold) && DistinctUnder(avail, env.fold) && CompleteFamily(env, avail, pattern, stem, g)
    ensures GroupedAt(env, avail, stem) && GroupAt(env, avail, stem) == g
  {
    hide CaseFolds, DistinctUnder, CompleteSet, SoleFamily, OnlyBucket, Belongs, IsOrphan, GroupNames, Sources,
         FamiliesOf,
         FamilyCount, Distinct;
    var f := FamiliesOf(env, avail, stem);
    SoleIsOnlyBucket(env, avail, pattern, stem);
    OneFamilyHasABucket(f);
    CompleteIsNoOrphan(env, avail, pattern, stem, g);
    SourcesBelong(env, avail, pattern, stem);
    SourcesDiffer(env, avail, pattern, stem);
    DistinctFolds(Sources(f), env.fold);
    SetsAreDistinct(pattern, g);
    BelongingIsAvailable(env, avail, pattern, stem);
    DistinctSameMembers(g.members, Sources(f));
    SameLength(g.members, Sources(f));
    CompleteIsGrouped(pattern, g, Sources(f), env.fold);
    CompleteIsListed(pattern, g);
  }

  // ---------- the groups of a partition ----------

  lemma {:induction false} GroupsOfStems(env: Env, avail: seq<string>, stems: seq<string>, g: Group)
    ensures g in GroupsOf(env, avail, stems)
       <==> exists k :: k in stems && GroupedAt(env, avail, k) && GroupAt(env, avail, k) == g
    decreases |stems|
  {
    hide Decide, FamiliesOf;
    if stems != [] {
      var rest := GroupsOf(env, avail, stems[1..]);
      GroupsOfStems(env, avail, stems[1..], g);
      var o := Decide(env, FamiliesOf(env, avail, stems[0]), stems[0]);
      if o.Grouped? {
        assert GroupedAt(env, avail, stems[0]) && GroupAt(env, avail, stems[0]) == o.group;
        assert g in [o.group] + rest <==> g == o.group || g in rest;
      }
      if k :| k in stems && GroupedAt(env, avail, k) && GroupAt(env, avail, k) == g {
        if k != stems[0] { assert k in stems[1..]; }
      }
      if k :| k in stems[1..] && GroupedAt(env, avail, k) && GroupAt(env, avail, k) == g {
        assert k in stems;
      }
    }
  }

  /** The stems of complete families are visited. */
  lemma FamilyStemIsVisited(env: Env, names: seq<string>, pattern: Pattern, stem: string, n: string)
    requires n in Available(env, names) && InBucket(env, pattern, stem, n)
    ensures stem in StemList(env, names)
  {
    hide Available, StemList, Matches, StemOf;
    StemListIs(env, names);
  }

  lemma {:induction false} ConsumedByStems(env: Env, avail: seq<string>, stems: seq<string>, n: string)
    ensures n in Consumed(env, avail, stems)
       <==> exists k :: k in stems && n in FamilyMembers(FamiliesOf(env, avail, k))
    decreases |stems|
  {
    hide FamiliesOf, FamilyMembers;
    if stems != [] {
      ConsumedByStems(env, avail, stems[1..], n);
      if k :| k in stems && n in FamilyMembers(FamiliesOf(env, avail, k)) {
        if k != stems[0] { assert k in stems[1..]; }
      }
      if k :| k in stems[1..] && n in FamilyMembers(FamiliesOf(env, avail, k)) {
        assert k in stems;
      }
    }
  }

  lemma UsedWithIs(env: Env, avail: seq<string>, pattern: Pattern, stem: string, n: string)
    requires n in avail
    ensures UsedWith(env, avail, pattern, stem, n)
       <==> n in Bucket(env, avail, pattern, stem)
            || (Bucket(env, avail, pattern, stem) != [] && n in Lookup(env, avail, stem + DirectSuffix(pattern)))
  {
    hide InBucket, Bucket, Lookup;
    BucketIs(env, avail, pattern, stem);
    LookupIs(env, avail, stem + DirectSuffix(pattern));
  }

  lemma FamilyMembersAreUsed(env: Env, avail: seq<string>, stem: string, n: string)
    requires n in avail
    ensures n in FamilyMembers(FamiliesOf(env, avail, stem))
       <==> exists pattern :: UsedWith(env, avail, pattern, stem, n)
  {
    hide InBucket, Bucket, Lookup, UsedWith;
    UsedWithIs(env, avail, NewRar, stem, n);
    UsedWithIs(env, avail, SevenZPart, stem, n);
    UsedWithIs(env, avail, OldRarPart, stem, n);
    UsedWithIs(env, avail, SplitZipPart, stem, n);
    if pattern :| UsedWith(env, avail, pattern, stem, n) {
      assert pattern == NewRar || pattern == SevenZPart || pattern == OldRarPart || pattern == SplitZipPart;
    }
  }

  lemma ConsumedIffUsed(env: Env, names: seq<string>, n: string)
    requires n in Available(env, names)
    ensures n in Consumed(env, Available(env, names), StemList(env, names)) <==> Used(env, Available(env, names), n)
  {
    hide Available, StemList, InBucket, FamiliesOf, FamilyMembers, Consumed;
    var avail, stems := Available(env, names), StemList(env, names);
    ConsumedByStems(env, avail, stems, n);
    if k :| k in stems && n in FamilyMembers(FamiliesOf(env, avail, k)) {
      FamilyMembersAreUsed(env, avail, k, n);
    }
    if pattern, stem :| UsedWith(env, avail, pattern, stem, n) {
      var m :| m in avail && InBucket(env, pattern, stem, m);
      FamilyStemIsVisited(env, names, pattern, stem, m);
      FamilyMembersAreUsed(env, avail, stem, n);
    }
  }

  lemma AvailableDiffer(env: Env, names: seq<string>)
    ensures DistinctUnder(Available(env, names), env.fold)
  {
    AloneDiffer(env, names, names);
  }

  lemma {:induction false} AloneDiffer(env: Env, all: seq<string>, part: seq<string>)
    requires forall f :: multiset(SameFold(env, part, f)) <= multiset(SameFold(env, all, f))
    ensures DistinctUnder(Filter(part, name => |SameFold(env, all, env.fold(name))| <= 1), env.fold)
    decreases |part|
  {
    hide SameFold;
    var p := name => |SameFold(env, all, env.fold(name))| <= 1;
    if part != [] {
      var x, rest := part[0], part[1..];
      forall f ensures multiset(SameFold(env, rest, f)) <= multiset(SameFold(env, all, f)) {
        RestAlike(env, part, f);
      }
      AloneDiffer(env, all, rest);
      var kept := Filter(rest, p);
      FilterMembers(rest, p);
      if p(x) {
        forall i | 0 <= i < |kept| ensures env.fold(x) != env.fold(kept[i]) {
          if env.fold(x) == env.fold(kept[i]) {
            assert kept[i] in rest;
            TwoAlike(env, all, part, kept[i]);
          }
        }
      }
    }
  }

  lemma RestAlike(env: Env, part: seq<string>, f: string)
    requires part != []
    ensures multiset(SameFold(env, part[1..], f)) <= multiset(SameFold(env, part, f))
  {
  }

  lemma TwoAlike(env: Env, all: seq<string>, part: seq<string>, y: string)
    requires part != [] && y in part[1..] && env.fold(part[0]) == env.fold(y)
    requires multiset(SameFold(env, part, env.fold(y))) <= multiset(SameFold(env, all, env.fold(y)))
    ensures |SameFold(env, all, env.fold(y))| > 1
  {
    var f := env.fold(y);
    FilterMembers(part[1..], name => env.fold(name) == f);
    assert y in SameFold(env, part[1..], f);
    assert |SameFold(env, part, f)| >= 2;
    SmallerMultiset(SameFold(env, part, f), SameFold(env, all, f));
  }

  lemma SmallerMultiset<T>(a: seq<T>, b: seq<T>)
    requires multiset(a) <= multiset(b)
    ensures |a| <= |b|
  {
    assert multiset(b) == multiset(a) + (multiset(b) - multiset(a));
    assert |multiset(a)| == |a| && |multiset(b)| == |b|;
  }

  lemma SinglesHold(names: seq<string>, g: Group)
    ensures g in Singles(names) <==> exists n :: n in names && g == Single(n)
  {
    var gs := Singles(names);
    if g in gs {
      var i :| 0 <= i < |gs| && gs[i] == g;
      assert names[i] in names;
    }
    if n :| n in names && g == Single(n) {
      var i :| 0 <= i < |names| && names[i] == n;
      assert gs[i] == g;
    }
  }

  /** n is listed by itself: available, recognized, and used by no family. */
  ghost predicate ListedAlone(env: Env, avail: seq<string>, n: string) {
    n in avail && env.recognized(n) && !Used(env, avail, n)
  }

  lemma LeftoverIffAlone(env: Env, names: seq<string>, n: string)
    ensures n in LeftoverList(env, names) <==> ListedAlone(env, Available(env, names), n)
  {
    hide Available, AllStems, Consumed, Used, StemList;
    NameOrderIsTotal(env);
    var avail := Available(env, names);
    SortedSetIsSorted(Leftover(env, avail, Consumed(env, avail, StemList(env, names))), NameOrder(env));
    if n in avail { ConsumedIffUsed(env, names, n); }
  }

  lemma FamilyIsVisited(env: Env, names: seq<string>, pattern: Pattern, stem: string, g: Group)
    requires CompleteFamily(env, Available(env, names), pattern, stem, g)
    ensures stem in StemList(env, names)
  {
    hide Available, StemList, InBucket, CompleteSet, Belongs;
    var n :| n in Available(env, names) && InBucket(env, pattern, stem, n);
    FamilyStemIsVisited(env, names, pattern, stem, n);
  }

  /** The groups of a partition are exactly the complete sets that are the whole of one stem's only family, and the
      recognized names that no family uses, each by itself. */
  lemma GroupsAreCompleteSets(env: Env, names: seq<string>, g: Group)
    requires CaseFolds(env.fold) && PartitionOf(env, names).Some?
    ensures g in PartitionOf(env, names).value.groups
       <==> (exists pattern, stem :: CompleteFamily(env, Available(env, names), pattern, stem, g))
            || exists n :: ListedAlone(env, Available(env, names), n) && g == Single(n)
  {
    hide Available, StemList, LeftoverList, GroupsOf, GroupedAt, GroupAt, CompleteFamily, ListedAlone, CaseFolds,
         Distinct,
         Flatten, AllFindings, DistinctUnder, SortGroups, Single;
    var avail, stems, rest := Available(env, names), StemList(env, names), LeftoverList(env, names);
    SortedGroupsHold(env, GroupsOf(env, avail, stems) + Singles(rest), g);
    GroupsOfStems(env, avail, stems, g);
    SinglesHold(rest, g);
    AvailableDiffer(env, names);
    if k :| k in stems && GroupedAt(env, avail, k) && GroupAt(env, avail, k) == g {
      GroupedAtIffComplete(env, avail, k, g);
    }
    if pattern, stem :| CompleteFamily(env, avail, pattern, stem, g) {
      GroupedAtIffComplete(env, avail, stem, g);
      FamilyIsVisited(env, names, pattern, stem, g);
    }
    forall n ensures n in rest <==> ListedAlone(env, avail, n) {
      LeftoverIffAlone(env, names, n);
    }
  }

  lemma SortedGroupsHold(env: Env, gs: seq<Group>, g: Group)
    ensures g in SortGroups(env, gs) <==> g in gs
  {
    SortLeKeeps(gs, (a: Group, b: Group) => Before(env, EntryName(a), EntryName(b)));
    SameMembers(SortGroups(env, gs), gs);
  }

  /** The groups come in the order of their entries: by folding, then by the name itself. */
  lemma GroupsAreOrdered(env: Env, names: seq<string>, i: nat, j: nat)
    requires PartitionOf(env, names).Some? && i < j < |PartitionOf(env, names).value.groups|
    ensures var gs := PartitionOf(env, names).value.groups;
            var a, b := EntryName(gs[i]), EntryName(gs[j]);
            Lex(env.fold(a), env.fold(b)) && (env.fold(a) == env.fold(b) ==> Lex(a, b))
  {
    hide Available, StemList, LeftoverList, GroupsOf, Distinct, Flatten, AllFindings, Before, EntryName, Singles;
    var gs := GroupsOf(env, Available(env, names), StemList(env, names)) + Singles(LeftoverList(env, names));
    var le := (a: Group, b: Group) => Before(env, EntryName(a), EntryName(b));
    NameOrderIsTotal(env);
    assert forall a, b :: NameOrder(env)(a, b) == Before(env, a, b);
    GroupOrder(env);
    SortLeOrders(gs, le);
    BeforeIs(env, EntryName(SortLe(gs, le)[i]), EntryName(SortLe(gs, le)[j]));
  }

  lemma GroupOrder(env: Env)
    ensures Total((a: Group, b: Group) => Before(env, EntryName(a), EntryName(b)))
    ensures Transitive((a: Group, b: Group) => Before(env, EntryName(a), EntryName(b)))
  {
    hide Before, EntryName;
    NameOrderIsTotal(env);
    var le := NameOrder(env);
    forall a: Group, b: Group
      ensures Before(env, EntryName(a), EntryName(b)) || Before(env, EntryName(b), EntryName(a))
    {
      assert le(EntryName(a), EntryName(b)) || le(EntryName(b), EntryName(a));
    }
    forall a: Group, b: Group, c: Group
      | Before(env, EntryName(a), EntryName(b)) && Before(env, EntryName(b), EntryName(c))
      ensures Before(env, EntryName(a), EntryName(c))
    {
      assert le(EntryName(a), EntryName(b)) && le(EntryName(b), EntryName(c));
    }
  }

  lemma BeforeIs(env: Env, a: string, b: string)
    requires Before(env, a, b)
    ensures Lex(env.fold(a), env.fold(b)) && (env.fold(a) == env.fold(b) ==> Lex(a, b))
  {
  }

  // ---------- the one way to raise ----------

  /** A volume of a complete numbered RAR set that is at the same time the entry of another stem's complete `.rNN`
      set. */
  predicate SharedVolume(env: Env, avail: seq<string>, n: string, numbered: string, g: Group, entered: string,
                         h: Group) {
    && CompleteFamily(env, avail, NewRar, numbered, g) && CompleteFamily(env, avail, OldRarPart, entered, h)
    && n in g.members && h.entry == Some(n)
  }

  lemma OverlapIsShared(env: Env, avail: seq<string>, n: string, a: string, b: string) returns (g: Group, h: Group)
    requires CaseFolds(env.fold) && DistinctUnder(avail, env.fold) && Overlap(env, avail, n, a, b)
    ensures SharedVolume(env, avail, n, a, g, b, h)
  {
    hide CaseFolds, DistinctUnder, CompleteSet, Matches, StemOf, Decide, FamiliesOf, Bucket, GroupAt;
    OverlapGroupedAt(env, avail, n, a, b);
    g, h := GroupAt(env, avail, a), GroupAt(env, avail, b);
    GroupedAtIffComplete(env, avail, a, g);
    GroupedAtIffComplete(env, avail, b, h);
    var p :| CompleteFamily(env, avail, p, a, g);
    var q :| CompleteFamily(env, avail, q, b, h);
    BucketIs(env, avail, OldRarPart, b);
    var part :| part in avail && InBucket(env, OldRarPart, b, part);
    assert p == NewRar && q == OldRarPart;
    assert Belongs(env, avail, NewRar, a, n) && Belongs(env, avail, OldRarPart, b, n);
    EntryOrPart(OldRarPart, h, n);
    if Matches(OldRarPart, n) { PatternsExclude(NewRar, OldRarPart, n); }
  }

  lemma SharedIsOverlap(env: Env, avail: seq<string>, n: string, a: string, g: Group, b: string, h: Group)
    requires CaseFolds(env.fold) && DistinctUnder(avail, env.fold) && SharedVolume(env, avail, n, a, g, b, h)
    ensures Overlap(env, avail, n, a, b)
  {
    hide CaseFolds, DistinctUnder, CompleteSet, Matches, StemOf, Decide, FamiliesOf, Bucket, GroupAt;
    FamilyIsGrouped(env, avail, NewRar, a, g);
    FamilyIsGrouped(env, avail, OldRarPart, b, h);
    EntryOrPart(OldRarPart, h, SomeMember(OldRarPart, h));
    assert Belongs(env, avail, NewRar, a, n) && Belongs(env, avail, OldRarPart, b, n);
    BucketIs(env, avail, OldRarPart, b);
  }

  /** Given basenames, the partition raises exactly when a volume of one complete numbered RAR set is also the entry of
      another stem's complete `.rNN` set. */
  lemma RaisesExactlyOnSharedVolume(env: Env, names: seq<string>)
    requires CaseFolds(env.fold) && AllBasenames(env, names)
    ensures PartitionOf(env, names).None?
       <==> exists n, a, g, b, h :: SharedVolume(env, Available(env, names), n, a, g, b, h)
  {
    hide CaseFolds, Available, PartitionOf, Overlap, SharedVolume, DistinctUnder;
    var avail := Available(env, names);
    RaisesExactlyOnOverlap(env, names);
    AvailableDiffer(env, names);
    if n, a, b :| Overlap(env, avail, n, a, b) {
      var g, h := OverlapIsShared(env, avail, n, a, b);
    }
    if n, a, g, b, h :| SharedVolume(env, avail, n, a, g, b, h) {
      SharedIsOverlap(env, avail, n, a, g, b, h);
    }
  }
}
