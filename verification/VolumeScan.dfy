/** `partition_archive_volume_names` as the loops it is, proved to compute the partition. */
module VolumeScan {
  import opened Prelude
  import opened Permutations
  import opened Sorting
  import opened Volumes
  import opened VolumePartition

  type Buckets = map<string, seq<string>>

  function Get(m: Buckets, key: string): (names: seq<string>) { if key in m then m[key] else [] }

  /** `m.setdefault(key, []).append(name)` */
  function Put(m: Buckets, key: string, name: string): (r: Buckets) { m[key := Get(m, key) + [name]] }

  predicate FoldMap(env: Env, m: Buckets, names: seq<string>) {
    m.Keys == Folds(env, names) && forall f :: f in m ==> m[f] == SameFold(env, names, f)
  }

  predicate BucketMap(env: Env, m: Buckets, pattern: Pattern, names: seq<string>) {
    m.Keys == Stems(env, names, pattern) && forall k :: k in m ==> m[k] == Bucket(env, names, pattern, k)
  }

  lemma FilterSnoc<T>(s: seq<T>, x: T, p: T -> bool)
    ensures Filter(s + [x], p) == Filter(s, p) + (if p(x) then [x] else [])
  {
    FilterAppend(s, [x], p);
    assert [x][1..] == [];
  }

  lemma FoldMapSnoc(env: Env, m: Buckets, names: seq<string>, name: string)
    requires FoldMap(env, m, names)
    ensures FoldMap(env, Put(m, env.fold(name), name), names + [name])
  {
    var r := Put(m, env.fold(name), name);
    assert Folds(env, names + [name]) == Folds(env, names) + {env.fold(name)};
    forall f | f in r ensures r[f] == SameFold(env, names + [name], f) {
      FilterSnoc(names, name, n => env.fold(n) == f);
      if f !in m { FilterNone(names, n => env.fold(n) == f); }
    }
  }

  lemma BucketMapSnoc(env: Env, m: Buckets, pattern: Pattern, names: seq<string>, name: string)
    requires BucketMap(env, m, pattern, names)
    ensures BucketMap(env, if Matches(pattern, name) then Put(m, env.fold(StemOf(pattern, name)), name) else m, pattern,
                      names + [name])
  {
    hide Match, StemOf;
    var stem := env.fold(StemOf(pattern, name));
    var r := if Matches(pattern, name) then Put(m, stem, name) else m;
    assert Stems(env, names + [name], pattern)
        == Stems(env, names, pattern) + (if Matches(pattern, name) then {stem} else {});
    forall k | k in r ensures r[k] == Bucket(env, names + [name], pattern, k) {
      FilterSnoc(names, name, n => InBucket(env, pattern, k, n));
      if k !in m { FilterNone(names, n => InBucket(env, pattern, k, n)); }
    }
  }

  method CollectFolds(env: Env, names: seq<string>) returns (m: Buckets)
    ensures FoldMap(env, m, names)
  {
    m := map[];
    var i := 0;
    while i < |names|
      invariant 0 <= i <= |names| && FoldMap(env, m, names[..i])
    {
      FoldMapSnoc(env, m, names[..i], names[i]);
      assert names[..i + 1] == names[..i] + [names[i]];
      m := Put(m, env.fold(names[i]), names[i]);
      i := i + 1;
    }
    assert names[..i] == names;
  }

  method CollectBuckets(env: Env, avail: seq<string>)
    returns (newRar: Buckets, sevenZ: Buckets, oldRar: Buckets, splitZip: Buckets)
    ensures BucketMap(env, newRar, NewRar, avail) && BucketMap(env, sevenZ, SevenZPart, avail)
    ensures BucketMap(env, oldRar, OldRarPart, avail) && BucketMap(env, splitZip, SplitZipPart, avail)
  {
    hide Matches, StemOf, BucketMap;
    newRar, sevenZ, oldRar, splitZip := map[], map[], map[], map[];
    var i := 0;
    NoBuckets(env);
    assert avail[..0] == [];
    while i < |avail|
      invariant 0 <= i <= |avail|
      invariant BucketMap(env, newRar, NewRar, avail[..i]) && BucketMap(env, sevenZ, SevenZPart, avail[..i])
      invariant BucketMap(env, oldRar, OldRarPart, avail[..i]) && BucketMap(env, splitZip, SplitZipPart, avail[..i])
    {
      var name := avail[i];
      assert avail[..i + 1] == avail[..i] + [name];
      BucketMapSnoc(env, newRar, NewRar, avail[..i], name);
      BucketMapSnoc(env, sevenZ, SevenZPart, avail[..i], name);
      BucketMapSnoc(env, oldRar, OldRarPart, avail[..i], name);
      BucketMapSnoc(env, splitZip, SplitZipPart, avail[..i], name);
      if Matches(NewRar, name) { newRar := Put(newRar, env.fold(StemOf(NewRar, name)), name); }
      if Matches(SevenZPart, name) { sevenZ := Put(sevenZ, env.fold(StemOf(SevenZPart, name)), name); }
      if Matches(OldRarPart, name) { oldRar := Put(oldRar, env.fold(StemOf(OldRarPart, name)), name); }
      if Matches(SplitZipPart, name) { splitZip := Put(splitZip, env.fold(StemOf(SplitZipPart, name)), name); }
      i := i + 1;
    }
    assert avail[..i] == avail;
  }

  lemma NoBuckets(env: Env)
    ensures forall p :: BucketMap(env, map[], p, [])
  {
  }

  lemma BucketIsGet(env: Env, m: Buckets, pattern: Pattern, avail: seq<string>, stem: string)
    requires BucketMap(env, m, pattern, avail)
    ensures Get(m, stem) == Bucket(env, avail, pattern, stem)
  {
    hide Match, StemOf;
    if stem !in m { FilterNone(avail, n => InBucket(env, pattern, stem, n)); }
  }

  lemma LookupIsGet(env: Env, m: Buckets, avail: seq<string>, folded: string)
    requires FoldMap(env, m, avail)
    ensures Get(m, folded) == Lookup(env, avail, folded)
  {
    if folded !in m { FilterNone(avail, n => env.fold(n) == folded); }
  }

  /** One turn of the loop over the stems. */
  method DecideStem(env: Env, avail: seq<string>, stem: string, newRar: Buckets, sevenZ: Buckets, oldRar: Buckets,
                    splitZip: Buckets, lookup: Buckets)
    returns (o: Outcome, members: set<string>)
    requires FoldMap(env, lookup, avail)
    requires BucketMap(env, newRar, NewRar, avail) && BucketMap(env, sevenZ, SevenZPart, avail)
    requires BucketMap(env, oldRar, OldRarPart, avail) && BucketMap(env, splitZip, SplitZipPart, avail)
    ensures o == Decide(env, FamiliesOf(env, avail, stem), stem)
    ensures members == FamilyMembers(FamiliesOf(env, avail, stem))
  {
    hide BucketMap, FoldMap, Decide, FamilyMembers, Bucket;
    BucketIsGet(env, newRar, NewRar, avail, stem);
    BucketIsGet(env, sevenZ, SevenZPart, avail, stem);
    BucketIsGet(env, oldRar, OldRarPart, avail, stem);
    BucketIsGet(env, splitZip, SplitZipPart, avail, stem);
    LookupIsGet(env, lookup, avail, stem + ".rar");
    LookupIsGet(env, lookup, avail, stem + ".7z");
    LookupIsGet(env, lookup, avail, stem + ".zip");
    var f := Families(Get(newRar, stem), Get(sevenZ, stem), Get(oldRar, stem), Get(splitZip, stem),
                      Get(lookup, stem + ".rar"), Get(lookup, stem + ".7z"), Get(lookup, stem + ".zip"));
    o, members := Decide(env, f, stem), FamilyMembers(f);
  }

  lemma FoldIsMapped(env: Env, byFold: Buckets, names: seq<string>, i: nat)
    requires FoldMap(env, byFold, names) && i < |names|
    ensures env.fold(names[i]) in byFold
    ensures byFold[env.fold(names[i])] == SameFold(env, names, env.fold(names[i]))
  {
    hide SameFold;
    assert env.fold(names[i]) in Folds(env, names);
  }

  method TakeAvailable(env: Env, names: seq<string>, byFold: Buckets) returns (avail: seq<string>)
    requires FoldMap(env, byFold, names)
    ensures avail == Available(env, names)
  {
    hide FoldMap, SameFold;
    avail := [];
    var i := 0;
    ghost var p := (name: string) => |SameFold(env, names, env.fold(name))| <= 1;
    while i < |names|
      invariant 0 <= i <= |names| && avail == Filter(names[..i], p)
    {
      FilterSnoc(names[..i], names[i], p);
      assert names[..i + 1] == names[..i] + [names[i]];
      FoldIsMapped(env, byFold, names, i);
      if |byFold[env.fold(names[i])]| <= 1 {
        avail := avail + [names[i]];
      }
      i := i + 1;
    }
    assert names[..i] == names;
  }

  /** The loop over the sorted stems. */
  method DecideStems(env: Env, avail: seq<string>, stems: seq<string>, newRar: Buckets, sevenZ: Buckets,
                     oldRar: Buckets,
                     splitZip: Buckets, lookup: Buckets)
    returns (groups: seq<Group>, findings: seq<Finding>, consumed: set<string>)
    requires FoldMap(env, lookup, avail)
    requires BucketMap(env, newRar, NewRar, avail) && BucketMap(env, sevenZ, SevenZPart, avail)
    requires BucketMap(env, oldRar, OldRarPart, avail) && BucketMap(env, splitZip, SplitZipPart, avail)
    ensures groups == GroupsOf(env, avail, stems) && findings == FindingsOf(env, avail, stems)
    ensures consumed == Consumed(env, avail, stems)
  {
    hide BucketMap, FoldMap, Decide, FamilyMembers, FamiliesOf;
    groups, findings, consumed := [], [], {};
    var i := 0;
    while i < |stems|
      invariant 0 <= i <= |stems|
      invariant groups + GroupsOf(env, avail, stems[i..]) == GroupsOf(env, avail, stems)
      invariant findings + FindingsOf(env, avail, stems[i..]) == FindingsOf(env, avail, stems)
      invariant consumed + Consumed(env, avail, stems[i..]) == Consumed(env, avail, stems)
    {
      assert stems[i..][0] == stems[i] && stems[i..][1..] == stems[i + 1..];
      var o, members := DecideStem(env, avail, stems[i], newRar, sevenZ, oldRar, splitZip, lookup);
      consumed := consumed + members;
      match o {
        case Grouped(g) =>
          assert groups + ([g] + GroupsOf(env, avail, stems[i + 1..]))
              == groups + [g] + GroupsOf(env, avail, stems[i + 1..]);
          groups := groups + [g];
        case Found(x) =>
          assert findings + ([x] + FindingsOf(env, avail, stems[i + 1..]))
              == findings + [x] + FindingsOf(env, avail, stems[i + 1..]);
          findings := findings + [x];
      }
      i := i + 1;
    }
    assert stems[i..] == [];
  }

  lemma StemsAreKeys(env: Env, avail: seq<string>, newRar: Buckets, sevenZ: Buckets, oldRar: Buckets, splitZip: Buckets)
    requires BucketMap(env, newRar, NewRar, avail) && BucketMap(env, sevenZ, SevenZPart, avail)
    requires BucketMap(env, oldRar, OldRarPart, avail) && BucketMap(env, splitZip, SplitZipPart, avail)
    ensures newRar.Keys + sevenZ.Keys + oldRar.Keys + splitZip.Keys == AllStems(env, avail)
  {
    hide Stems, Bucket;
  }

  lemma CollisionsAre(env: Env, names: seq<string>, byFold: Buckets)
    requires FoldMap(env, byFold, names)
    ensures (set f | f in byFold && |byFold[f]| > 1) == Collisions(env, names)
  {
  }

  /** `partition_archive_volume_names`; None where it raises. */
  method PartitionNames(env: Env, names: seq<string>) returns (r: Option<Partition>)
    ensures r == PartitionOf(env, names)
  {
    hide FoldMap, BucketMap, GroupsOf, FindingsOf, Consumed, SortGroups, SortFindings, Collisions, Available, Distinct,
         Flatten, AllStems;
    if !AllBasenames(env, names) {
      return None;
    }
    var byFold := CollectFolds(env, names);
    CollisionsAre(env, names, byFold);
    var collisions := set f | f in byFold && |byFold[f]| > 1;
    var avail := TakeAvailable(env, names, byFold);
    var lookup := CollectFolds(env, avail);
    var newRar, sevenZ, oldRar, splitZip := CollectBuckets(env, avail);
    StemsAreKeys(env, avail, newRar, sevenZ, oldRar, splitZip);
    LexIsTotalOrder();
    NameOrderIsTotal(env);
    var stems := SortedSet(newRar.Keys + sevenZ.Keys + oldRar.Keys + splitZip.Keys, Lex);
    var groups, findings, consumed := DecideStems(env, avail, stems, newRar, sevenZ, oldRar, splitZip, lookup);
    var leftover := SortedSet(Leftover(env, avail, consumed), NameOrder(env));
    groups := SortGroups(env, groups + Singles(leftover));
    findings := SortFindings(seq(|collisions|, _ => NameCollision) + findings);
    assert groups == AllGroups(env, names);
    assert seq(|collisions|, _ => NameCollision) == seq(|Collisions(env, names)|, _ => NameCollision);
    assert findings == AllFindings(env, names);
    return if Distinct(Flatten(groups)) then Some(Partition(groups, findings)) else None;
  }
}
