/** Two names that the partition cannot place: each is a complete set of its own kind, and one name belongs to both. */
module VolumeOverlap {
  import opened Prelude
  import opened Text
  import opened Sorting
  import opened Volumes
  import opened VolumePartition

  function Volume(): (s: string) { "x.part1.rar" }

  function OldPart(): (s: string) { "x.part1.r00" }

  lemma VolumeMatches()
    ensures Match(NewRar, Volume()) == Some(Part("x", "1")) && EndsIn(Volume(), ".rar") && !EndsIn(Volume(), ".zip")
  {
    var base := Volume()[..7];
    assert base == "x.part1";
    assert base[..6] == "x.part" && DigitRun(base[..6]) == 0 && DigitRun(base) == 1;
    assert base[..6][..1] == "x" && base[6..] == "1";
    assert EndsIn(base[..6], ".part");
    var v := Volume();
    var zip := ".zip";
    assert LowerAscii(v[|v| - |zip| + 3]) != zip[3];
  }

  lemma OldPartMatches()
    ensures Match(OldRarPart, OldPart()) == Some(Part("x.part1", "00"))
    ensures !EndsIn(OldPart(), ".rar") && !EndsIn(OldPart(), ".zip")
  {
    var name := OldPart();
    assert name[..9] == "x.part1.r" && DigitRun(name[..9]) == 0;
    assert name[..10][..9] == name[..9] && DigitRun(name[..10]) == 1;
    assert DigitRun(name) == 2;
    assert name[..9][..7] == "x.part1" && name[9..] == "00";
    assert EndsIn(name[..9], ".r");
    var rar, zip := ".rar", ".zip";
    assert LowerAscii(name[|name| - |rar| + 3]) != rar[3] && LowerAscii(name[|name| - |zip| + 3]) != zip[3];
  }

  lemma OnlyThese()
    ensures forall p :: Matches(p, Volume()) <==> p == NewRar
    ensures forall p :: Matches(p, OldPart()) <==> p == OldRarPart
  {
    hide Match;
    VolumeMatches();
    OldPartMatches();
    forall p | Matches(p, Volume()) ensures p == NewRar { PatternsExclude(p, NewRar, Volume()); }
    forall p | Matches(p, OldPart()) ensures p == OldRarPart { PatternsExclude(p, OldRarPart, OldPart()); }
  }

  lemma Numbers()
    ensures NumberOf(NewRar, Volume()) == 1 && NumberOf(OldRarPart, OldPart()) == 0
    ensures StemOf(NewRar, Volume()) == "x" && StemOf(OldRarPart, OldPart()) == "x.part1"
  {
    VolumeMatches();
    OldPartMatches();
    assert "1"[..0] == "" && "00"[..1] == "0" && "0"[..0] == "";
    assert DecimalValue("1") == 1 && DecimalValue("0") == 0 && DecimalValue("00") == 0;
  }

  lemma FilterOne<T>(a: T, p: T -> bool)
    ensures Filter([a], p) == if p(a) then [a] else []
  {
    assert [a][1..] == [];
  }

  lemma FilterPair<T>(a: T, b: T, p: T -> bool)
    ensures Filter([a, b], p) == (if p(a) then [a] else []) + (if p(b) then [b] else [])
  {
    assert [a, b][1..] == [b];
    FilterOne(b, p);
  }

  lemma SortOne<T>(a: T, key: T -> int)
    ensures SortBy([a], key) == [a]
  {
    assert [a][1..] == [];
  }

  /** Folding that leaves these names alone. */
  predicate Keeps(fold: string -> string) {
    fold("x") == "x" && fold("x.part1") == "x.part1" && fold(Volume()) == Volume() && fold(OldPart()) == OldPart()
  }

  lemma OneVolumeGroup(fold: string -> string)
    ensures GroupNames([Volume()], fold).status == Listed
  {
    hide Match, Volume;
    VolumeMatches();
    OnlyThese();
    Numbers();
    var v := Volume();
    FilterOne(v, name => EndsIn(name, ".rar"));
    FilterOne(v, name => !EndsIn(name, ".rar"));
    FilterOne(v, name => EndsIn(name, ".zip"));
    SortOne(v, name => NumberOf(NewRar, name));
    assert !AllMatch(SevenZPart, [v]) by { assert !Matches(SevenZPart, [v][0]); }
  }

  lemma EntryAndPartGroup()
    ensures var names := [Volume(), OldPart()];
            var g := GroupWithEntry(OldRarPart, ".rar", 0, names);
            && g.Some? && g.value.status == Listed
            && GroupNumbered(NewRar, names).None? && GroupNumbered(SevenZPart, names).None?
            && GroupWithEntry(SplitZipPart, ".zip", 1, names).None?
  {
    hide Match, Volume, OldPart;
    VolumeMatches();
    OldPartMatches();
    OnlyThese();
    Numbers();
    VolumeAndPart();
    var v, o := Volume(), OldPart();
    FilterPair(v, o, name => EndsIn(name, ".rar"));
    FilterPair(v, o, name => !EndsIn(name, ".rar"));
    FilterPair(v, o, name => EndsIn(name, ".zip"));
    SortOne(o, name => NumberOf(OldRarPart, name));
    assert !Matches(NewRar, [v, o][1]) && !Matches(SevenZPart, [v, o][0]);
  }

  lemma TheGroups(fold: string -> string)
    requires Keeps(fold)
    ensures GroupNames([Volume()], fold).status == Listed
    ensures GroupNames([Volume(), OldPart()], fold).status == Listed
  {
    hide GroupNumbered, GroupWithEntry;
    OneVolumeGroup(fold);
    EntryAndPartGroup();
    assert Volume()[9] != OldPart()[9];
  }

  lemma VolumeAndPart()
    ensures Volume() == "x.part1.rar" && Volume()[..7] == "x.part1" && OldPart() == "x.part1.r00"
  {
  }

  lemma BucketsOf(env: Env, stem: string, pattern: Pattern)
    requires Keeps(env.fold) && (stem == "x" || stem == "x.part1")
    ensures Bucket(env, [Volume(), OldPart()], pattern, stem)
         == if stem == "x" && pattern == NewRar then [Volume()]
            else if stem == "x.part1" && pattern == OldRarPart then [OldPart()] else []
  {
    hide Match, Volume, OldPart;
    OnlyThese();
    Numbers();
    FilterPair(Volume(), OldPart(), name => InBucket(env, pattern, stem, name));
    assert "x" != "x.part1" by { assert |"x"| != |"x.part1"|; }
  }

  lemma LookupOf(env: Env, folded: string)
    requires Keeps(env.fold)
    ensures Lookup(env, [Volume(), OldPart()], folded)
         == if folded == Volume() then [Volume()] else if folded == OldPart() then [OldPart()] else []
  {
    FilterPair(Volume(), OldPart(), name => env.fold(name) == folded);
    assert Volume()[9] != OldPart()[9];
  }

  /** The directory that holds just a one-volume RAR set and one old-style part named after it makes the partition
      raise. */
  lemma PartitionCanRaise(env: Env)
    requires CaseFolds(env.fold) && Keeps(env.fold) && AllBasenames(env, [Volume(), OldPart()])
    ensures PartitionOf(env, [Volume(), OldPart()]).None?
  {
    hide Match, Volume, OldPart, CaseFolds, GroupNames, Bucket, Lookup, PartitionOf;
    var names := [Volume(), OldPart()];
    TheGroups(env.fold);
    VolumeAndPart();
    OnlyThese();
    Numbers();
    forall p ensures Bucket(env, names, p, "x") == (if p == NewRar then [Volume()] else []) { BucketsOf(env, "x", p); }
    forall p ensures Bucket(env, names, p, "x.part1") == (if p == OldRarPart then [OldPart()] else []) {
      BucketsOf(env, "x.part1", p);
    }
    LookupOf(env, "x.part1" + ".rar");
    LookupOf(env, "x" + ".rar");
    assert "x.part1" + ".rar" == Volume() && "x" + ".rar" != Volume() && "x" + ".rar" != OldPart();
    NamesAreAvailable(env);
    assert SameFold(env, [Volume(), OldPart()], "x.part1" + ".rar") != [] by {
      FilterPair(Volume(), OldPart(), name => env.fold(name) == "x.part1" + ".rar");
    }
    assert Overlap(env, names, Volume(), "x", "x.part1");
    RaisesExactlyOnOverlap(env, names);
  }

  lemma NamesAreAvailable(env: Env)
    requires Keeps(env.fold)
    ensures Available(env, [Volume(), OldPart()]) == [Volume(), OldPart()]
  {
    var names := [Volume(), OldPart()];
    assert Volume()[9] != OldPart()[9];
    FilterPair(Volume(), OldPart(), name => env.fold(name) == Volume());
    FilterPair(Volume(), OldPart(), name => env.fold(name) == OldPart());
    FilterPair(Volume(), OldPart(), name => |SameFold(env, names, env.fold(name))| <= 1);
  }
}
