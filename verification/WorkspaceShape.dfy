/**
The shape an extraction workspace must have: the observed files are the listed files in order and spelling, the observed
directories are the listed directories and every ancestor, each under one spelling.
*/
module WorkspaceShape {
  import opened Prelude
  import opened Text
  import opened Locators

  datatype Kind = RegularFile | Directory | OtherKind

  /** A member of the handoff. */
  datatype Listed = Listed(locator: string, kind: Kind, ordinal: nat, size: nat, crc: Option<string>, identity: Sha256)

  /** A member of the workspace snapshot; its constructor admits only files and directories. */
  datatype Observed = Observed(locator: string, isDirectory: bool, size: nat)

  function Key(locator: string, fold: string -> string): (k: string) { Canonical(locator, fold) }

  /** `_parent_locators` */
  function ParentsOf(locator: string): (ps: seq<string>)
    ensures |ps| == |Split(locator, '/')| - 1
    ensures forall i :: 0 <= i < |ps| ==> ps[i] == Join(Split(locator, '/')[..i + 1], '/')
  {
    var parts := Split(locator, '/');
    seq(|parts| - 1, i requires 0 <= i < |parts| - 1 => Join(parts[..i + 1], '/'))
  }

  // ---------- the shape ----------

  /** The ancestors of some members, as spelled. */
  function Ancestors(ms: seq<Listed>): (ps: set<string>) {
    set i, j | 0 <= i < |ms| && 0 <= j < |ParentsOf(ms[i].locator)| :: ParentsOf(ms[i].locator)[j]
  }

  function ListedDirectories(ms: seq<Listed>): (ds: set<string>) {
    set i | 0 <= i < |ms| && ms[i].kind == Directory :: ms[i].locator
  }

  /** The directories a workspace must have. */
  function Directories(ms: seq<Listed>): (ds: set<string>) { Ancestors(ms) + ListedDirectories(ms) }

  /** No two spellings of one directory. */
  predicate OneSpelling(spellings: set<string>, fold: string -> string) {
    forall p, q :: p in spellings && q in spellings && Key(p, fold) == Key(q, fold) ==> p == q
  }

  predicate DistinctKeys(locators: seq<string>, fold: string -> string) {
    forall i, j :: 0 <= i < j < |locators| ==> Key(locators[i], fold) != Key(locators[j], fold)
  }

  function ListedLocators(ms: seq<Listed>): (r: seq<string>)
    ensures |r| == |ms| && forall i :: 0 <= i < |r| ==> r[i] == ms[i].locator
  {
    seq(|ms|, i requires 0 <= i < |ms| => ms[i].locator)
  }

  function ObservedLocators(obs: seq<Observed>): (r: seq<string>)
    ensures |r| == |obs| && forall i :: 0 <= i < |r| ==> r[i] == obs[i].locator
  {
    seq(|obs|, i requires 0 <= i < |obs| => obs[i].locator)
  }

  /** The regular files of the handoff, in order. */
  function ListedFiles(ms: seq<Listed>): (r: seq<Listed>) {
    if ms == [] then []
    else ListedFiles(ms[..|ms| - 1]) + (if ms[|ms| - 1].kind == RegularFile then [ms[|ms| - 1]] else [])
  }

  function ObservedFiles(obs: seq<Observed>): (r: seq<Observed>) {
    if obs == [] then []
    else ObservedFiles(obs[..|obs| - 1]) + (if obs[|obs| - 1].isDirectory then [] else [obs[|obs| - 1]])
  }

  function ObservedDirectories(obs: seq<Observed>): (ds: set<string>) {
    set i | 0 <= i < |obs| && obs[i].isDirectory :: obs[i].locator
  }

  predicate ShapeOk(ms: seq<Listed>, obs: seq<Observed>, maxCount: nat, fold: string -> string) {
    && |obs| <= maxCount
    && DistinctKeys(ListedLocators(ms), fold) && OneSpelling(Directories(ms), fold)
    && DistinctKeys(ObservedLocators(obs), fold)
    && ObservedLocators(ObservedFiles(obs)) == ListedLocators(ListedFiles(ms))
    && ObservedDirectories(obs) == Directories(ms)
  }

  // ---------- dictionaries of spellings ----------

  /** The map from keys to the spellings of a set that has one spelling for each. */
  predicate SpellingMap(m: map<string, string>, spellings: set<string>, fold: string -> string) {
    && (forall p :: p in spellings ==> Key(p, fold) in m && m[Key(p, fold)] == p)
    && (forall k :: k in m ==> m[k] in spellings && Key(m[k], fold) == k)
  }

  /** `setdefault(key, spelling)` and the comparison with what was there. */
  method AddSpelling(m: map<string, string>, ghost spellings: set<string>, p: string, fold: string -> string)
    returns (ok: bool, r: map<string, string>)
    requires SpellingMap(m, spellings, fold)
    ensures ok ==> SpellingMap(r, spellings + {p}, fold)
    ensures !ok ==> !OneSpelling(spellings + {p}, fold)
  {
    var key := Key(p, fold);
    r := if key in m then m else m[key := p];
    ok := r[key] == p;
    if !ok {
      assert r[key] in spellings + {p} && p in spellings + {p};
    }
  }

  lemma FewerSpellings(a: set<string>, b: set<string>, fold: string -> string)
    requires a <= b && !OneSpelling(a, fold)
    ensures !OneSpelling(b, fold)
  {
  }

  function Elements(s: seq<string>): (r: set<string>) { set p | p in s }

  lemma ElementsSnoc(base: set<string>, s: seq<string>, i: nat)
    requires i < |s|
    ensures base + Elements(s[..i + 1]) == base + Elements(s[..i]) + {s[i]}
    ensures base + Elements(s[..i + 1]) <= base + Elements(s)
  {
    assert s[..i + 1] == s[..i] + [s[i]];
  }

  method AddParents(m: map<string, string>, ghost spellings: set<string>, locator: string, fold: string -> string)
    returns (ok: bool, r: map<string, string>)
    requires SpellingMap(m, spellings, fold)
    ensures ok ==> SpellingMap(r, spellings + Elements(ParentsOf(locator)), fold)
    ensures !ok ==> !OneSpelling(spellings + Elements(ParentsOf(locator)), fold)
  {
    hide Key, OneSpelling, SpellingMap, Elements;
    var parents := ParentsOf(locator);
    r := m;
    var i := 0;
    assert parents[..0] == [];
    NoElements(spellings);
    while i < |parents|
      invariant 0 <= i <= |parents|
      invariant SpellingMap(r, spellings + Elements(parents[..i]), fold)
    {
      ElementsSnoc(spellings, parents, i);
      ok, r := AddSpelling(r, spellings + Elements(parents[..i]), parents[i], fold);
      if !ok {
        FewerSpellings(spellings + Elements(parents[..i + 1]), spellings + Elements(parents), fold);
        return;
      }
      i := i + 1;
    }
    assert parents[..i] == parents;
    ok := true;
  }

  lemma NoElements(base: set<string>)
    ensures base + Elements([]) == base
  {
  }

  lemma AncestorsSnoc(ms: seq<Listed>, m: Listed)
    ensures Ancestors(ms + [m]) == Ancestors(ms) + Elements(ParentsOf(m.locator))
    ensures Ancestors(ms) <= Ancestors(ms + [m])
  {
    hide ParentsOf;
    var all := ms + [m];
    forall p | p in Ancestors(ms) ensures p in Ancestors(all) {
      var i, j :| 0 <= i < |ms| && 0 <= j < |ParentsOf(ms[i].locator)| && ParentsOf(ms[i].locator)[j] == p;
      assert ParentsOf(all[i].locator)[j] == p;
    }
    forall p | p in ParentsOf(m.locator) ensures p in Ancestors(all) {
      var j :| 0 <= j < |ParentsOf(m.locator)| && ParentsOf(m.locator)[j] == p;
      assert ParentsOf(all[|ms|].locator)[j] == p;
    }
  }

  lemma AncestorsOfPart(ms: seq<Listed>, k: nat)
    requires k <= |ms|
    ensures Ancestors(ms[..k]) <= Ancestors(ms)
  {
    hide ParentsOf;
    forall p | p in Ancestors(ms[..k]) ensures p in Ancestors(ms) {
      var i, j :| 0 <= i < k && 0 <= j < |ParentsOf(ms[..k][i].locator)| && ParentsOf(ms[..k][i].locator)[j] == p;
      assert ParentsOf(ms[i].locator)[j] == p;
    }
  }

  /** The dictionary of expected members. */
  predicate ExpectedMap(m: map<string, (string, Kind)>, ms: seq<Listed>, fold: string -> string) {
    && (forall i :: 0 <= i < |ms| ==> Key(ms[i].locator, fold) in m
                                      && m[Key(ms[i].locator, fold)] == (ms[i].locator, ms[i].kind))
    && (forall k :: k in m ==> exists i :: 0 <= i < |ms| && Key(ms[i].locator, fold) == k)
  }

  /** The loop over the handoff. */
  method ExpectMembers(ms: seq<Listed>, fold: string -> string)
    returns (ok: bool, expected: map<string, (string, Kind)>, required: map<string, string>)
    ensures ok <==> DistinctKeys(ListedLocators(ms), fold) && OneSpelling(Ancestors(ms), fold)
    ensures ok ==> ExpectedMap(expected, ms, fold) && SpellingMap(required, Ancestors(ms), fold)
  {
    hide Key, ParentsOf, OneSpelling, SpellingMap, Ancestors, Elements;
    expected, required := map[], map[];
    var i := 0;
    NoAncestors(fold);
    assert ms[..0] == [];
    while i < |ms|
      invariant 0 <= i <= |ms|
      invariant DistinctKeys(ListedLocators(ms[..i]), fold) && ExpectedMap(expected, ms[..i], fold)
      invariant SpellingMap(required, Ancestors(ms[..i]), fold)
    {
      var m := ms[i];
      var key := Key(m.locator, fold);
      assert ms[..i + 1] == ms[..i] + [m];
      AncestorsSnoc(ms[..i], m);
      AncestorsOfPart(ms, i + 1);
      KeyIsTaken(ms, i, expected, fold);
      if key in expected {
        return false, expected, required;
      }
      ExpectedSnoc(ms[..i], m, expected, fold);
      expected := expected[key := (m.locator, m.kind)];
      ok, required := AddParents(required, Ancestors(ms[..i]), m.locator, fold);
      if !ok {
        FewerSpellings(Ancestors(ms[..i + 1]), Ancestors(ms), fold);
        return;
      }
      i := i + 1;
    }
    assert ms[..i] == ms;
    SpellingMapIsOne(required, Ancestors(ms), fold);
    ok := true;
  }

  lemma NoAncestors(fold: string -> string)
    ensures SpellingMap(map[], Ancestors([]), fold)
  {
  }

  lemma SpellingMapIsOne(m: map<string, string>, spellings: set<string>, fold: string -> string)
    requires SpellingMap(m, spellings, fold)
    ensures OneSpelling(spellings, fold)
  {
    hide Key;
  }

  lemma KeyIsTaken(ms: seq<Listed>, i: nat, expected: map<string, (string, Kind)>, fold: string -> string)
    requires i < |ms| && ExpectedMap(expected, ms[..i], fold)
    ensures Key(ms[i].locator, fold) in expected ==> !DistinctKeys(ListedLocators(ms), fold)
  {
    hide Key;
    if Key(ms[i].locator, fold) in expected {
      var j :| 0 <= j < i && Key(ms[..i][j].locator, fold) == Key(ms[i].locator, fold);
      assert ListedLocators(ms)[j] == ms[j].locator && ListedLocators(ms)[i] == ms[i].locator;
    }
  }

  lemma ExpectedSnoc(ms: seq<Listed>, m: Listed, expected: map<string, (string, Kind)>, fold: string -> string)
    requires ExpectedMap(expected, ms, fold) && DistinctKeys(ListedLocators(ms), fold)
             && Key(m.locator, fold) !in expected
    ensures ExpectedMap(expected[Key(m.locator, fold) := (m.locator, m.kind)], ms + [m], fold)
    ensures DistinctKeys(ListedLocators(ms + [m]), fold)
  {
    hide Key;
    var all, after := ms + [m], expected[Key(m.locator, fold) := (m.locator, m.kind)];
    forall k | k in after ensures exists i :: 0 <= i < |all| && Key(all[i].locator, fold) == k {
      if k in expected {
        var i :| 0 <= i < |ms| && Key(ms[i].locator, fold) == k;
        assert all[i] == ms[i];
      } else {
        assert all[|ms|] == m;
      }
    }
  }

  lemma ListedDirectoriesSnoc(ms: seq<Listed>, m: Listed)
    ensures ListedDirectories(ms + [m]) == ListedDirectories(ms) + (if m.kind == Directory then {m.locator} else {})
  {
    var all := ms + [m];
    forall d | d in ListedDirectories(ms) ensures d in ListedDirectories(all) {
      var i :| 0 <= i < |ms| && ms[i].kind == Directory && ms[i].locator == d;
      assert all[i] == ms[i];
    }
    if m.kind == Directory { assert all[|ms|] == m; }
  }

  lemma ListedDirectoriesOfPart(ms: seq<Listed>, k: nat)
    requires k <= |ms|
    ensures ListedDirectories(ms[..k]) <= ListedDirectories(ms)
  {
  }

  /** The loop that adds the listed directories to the required ones. */
  method AllowDirectories(ms: seq<Listed>, required: map<string, string>, fold: string -> string)
    returns (ok: bool, allowed: map<string, string>)
    requires SpellingMap(required, Ancestors(ms), fold)
    ensures ok <==> OneSpelling(Directories(ms), fold)
    ensures ok ==> SpellingMap(allowed, Directories(ms), fold)
  {
    hide Key, OneSpelling, SpellingMap, Ancestors, ListedDirectories;
    allowed := required;
    var i := 0;
    assert ms[..0] == [];
    NoListedDirectories(Ancestors(ms));
    while i < |ms|
      invariant 0 <= i <= |ms|
      invariant SpellingMap(allowed, Ancestors(ms) + ListedDirectories(ms[..i]), fold)
    {
      assert ms[..i + 1] == ms[..i] + [ms[i]];
      ListedDirectoriesSnoc(ms[..i], ms[i]);
      ListedDirectoriesOfPart(ms, i + 1);
      ghost var before := Ancestors(ms) + ListedDirectories(ms[..i]);
      assert Ancestors(ms) + ListedDirectories(ms[..i + 1])
          == before + (if ms[i].kind == Directory then {ms[i].locator} else {});
      if ms[i].kind == Directory {
        ok, allowed := AddSpelling(allowed, before, ms[i].locator, fold);
        if !ok {
          FewerSpellings(before + {ms[i].locator}, Directories(ms), fold);
          return;
        }
      } else {
        assert before + {} == before;
      }
      i := i + 1;
    }
    assert ms[..i] == ms;
    SpellingMapIsOne(allowed, Directories(ms), fold);
    ok := true;
  }

  lemma NoListedDirectories(base: set<string>)
    ensures base + ListedDirectories([]) == base
  {
  }

  // ---------- the snapshot ----------

  /** An observed member is where a listed file or an allowed directory is, under the very same spelling. */
  predicate Placed(o: Observed, expected: map<string, (string, Kind)>, allowed: map<string, string>,
                   fold: string -> string) {
    var key := Key(o.locator, fold);
    if o.isDirectory then key in allowed && allowed[key] == o.locator
    else key in expected && expected[key] == (o.locator, RegularFile)
  }

  predicate KeysOf(keys: set<string>, obs: seq<Observed>, fold: string -> string) {
    && (forall i :: 0 <= i < |obs| ==> Key(obs[i].locator, fold) in keys)
    && (forall k :: k in keys ==> exists i :: 0 <= i < |obs| && Key(obs[i].locator, fold) == k)
  }

  /** The loop over the snapshot. */
  method PlaceObserved(obs: seq<Observed>, expected: map<string, (string, Kind)>, allowed: map<string, string>,
                       fold: string -> string)
    returns (ok: bool)
    ensures ok <==> DistinctKeys(ObservedLocators(obs), fold)
                    && forall i :: 0 <= i < |obs| ==> Placed(obs[i], expected, allowed, fold)
  {
    hide Key, Placed;
    var keys: set<string> := {};
    var i := 0;
    while i < |obs|
      invariant 0 <= i <= |obs|
      invariant KeysOf(keys, obs[..i], fold) && DistinctKeys(ObservedLocators(obs[..i]), fold)
      invariant forall j :: 0 <= j < i ==> Placed(obs[j], expected, allowed, fold)
    {
      var key := Key(obs[i].locator, fold);
      if key in keys {
        var j :| 0 <= j < i && Key(obs[..i][j].locator, fold) == key;
        assert ObservedLocators(obs)[j] == obs[j].locator && ObservedLocators(obs)[i] == obs[i].locator;
        return false;
      }
      if !Placed(obs[i], expected, allowed, fold) {
        return false;
      }
      ObservedSnoc(obs, i, keys, fold);
      keys := keys + {key};
      i := i + 1;
    }
    assert obs[..i] == obs;
    ok := true;
  }

  lemma ObservedSnoc(obs: seq<Observed>, i: nat, keys: set<string>, fold: string -> string)
    requires i < |obs| && KeysOf(keys, obs[..i], fold) && DistinctKeys(ObservedLocators(obs[..i]), fold)
    requires Key(obs[i].locator, fold) !in keys
    ensures KeysOf(keys + {Key(obs[i].locator, fold)}, obs[..i + 1], fold)
    ensures DistinctKeys(ObservedLocators(obs[..i + 1]), fold)
  {
    hide Key;
    var all, k := obs[..i + 1], Key(obs[i].locator, fold);
    assert all[i] == obs[i];
    forall x | x in keys + {k} ensures exists j :: 0 <= j < |all| && Key(all[j].locator, fold) == x {
      if x in keys {
        var j :| 0 <= j < i && Key(obs[..i][j].locator, fold) == x;
        assert all[j] == obs[..i][j];
      } else {
        assert Key(all[i].locator, fold) == x;
      }
    }
    forall a, b | 0 <= a < b < |all|
      ensures Key(ObservedLocators(all)[a], fold) != Key(ObservedLocators(all)[b], fold)
    {
      assert all[a] == obs[..i][a];
      if b < i {
        assert all[b] == obs[..i][b];
        assert ObservedLocators(obs[..i])[a] == all[a].locator && ObservedLocators(obs[..i])[b] == all[b].locator;
      } else {
        assert Key(all[a].locator, fold) in keys;
      }
    }
  }

  function FileKeys(locators: seq<string>, fold: string -> string): (r: set<string>) {
    set i | 0 <= i < |locators| :: Key(locators[i], fold)
  }

  function DirectoryKeys(ds: set<string>, fold: string -> string): (r: set<string>) { set d | d in ds :: Key(d, fold) }

  /** `_validate_workspace_shape` */
  method ValidateShape(ms: seq<Listed>, obs: seq<Observed>, maxCount: nat, fold: string -> string) returns (ok: bool)
    ensures ok <==> ShapeOk(ms, obs, maxCount, fold)
  {
    hide Key, OneSpelling, DistinctKeys, Ancestors, ListedDirectories, Directories, SpellingMap, ExpectedMap, Placed,
         ObservedFiles, ListedFiles, ObservedDirectories, FileKeys, DirectoryKeys;
    if |obs| > maxCount {
      return false;
    }
    var expected, required, allowed;
    ok, expected, required := ExpectMembers(ms, fold);
    if !ok {
      AncestorsAreDirectories(ms, fold);
      return;
    }
    ok, allowed := AllowDirectories(ms, required, fold);
    if !ok {
      return;
    }
    ok := PlaceObserved(obs, expected, allowed, fold);
    ShapePlaces(ms, obs, expected, allowed, fold);
    if !ok {
      return;
    }
    var files := ObservedLocators(ObservedFiles(obs));
    SameFileKeys(ms, files, fold);
    PlacedAreAllowed(ms, obs, expected, allowed, fold);
    if FileKeys(files, fold) != FileKeys(ListedLocators(ListedFiles(ms)), fold)
       || DirectoryKeys(ObservedDirectories(obs), fold) != allowed.Keys {
      return false;
    }
    return files == ListedLocators(ListedFiles(ms));
  }

  lemma AncestorsAreDirectories(ms: seq<Listed>, fold: string -> string)
    ensures OneSpelling(Directories(ms), fold) ==> OneSpelling(Ancestors(ms), fold)
  {
    hide Key;
  }

  lemma SameFileKeys(ms: seq<Listed>, files: seq<string>, fold: string -> string)
    ensures files == ListedLocators(ListedFiles(ms)) ==>
              FileKeys(files, fold) == FileKeys(ListedLocators(ListedFiles(ms)), fold)
  {
  }

  lemma {:induction false} ListedFileIsMember(ms: seq<Listed>, i: nat) returns (j: nat)
    requires i < |ListedFiles(ms)|
    ensures j < |ms| && ms[j] == ListedFiles(ms)[i] && ms[j].kind == RegularFile
    decreases |ms|
  {
    var front := ms[..|ms| - 1];
    if i < |ListedFiles(front)| {
      j := ListedFileIsMember(front, i);
    } else {
      j := |ms| - 1;
    }
  }

  lemma {:induction false} ObservedFileIsMember(obs: seq<Observed>, i: nat) returns (j: nat)
    requires i < |ObservedFiles(obs)|
    ensures j < |obs| && obs[j] == ObservedFiles(obs)[i] && !obs[j].isDirectory
    decreases |obs|
  {
    var front := obs[..|obs| - 1];
    if i < |ObservedFiles(front)| {
      j := ObservedFileIsMember(front, i);
    } else {
      j := |obs| - 1;
    }
  }

  lemma {:induction false} ObservedFileIsThere(obs: seq<Observed>, j: nat) returns (i: nat)
    requires j < |obs| && !obs[j].isDirectory
    ensures i < |ObservedFiles(obs)| && ObservedFiles(obs)[i] == obs[j]
    decreases |obs|
  {
    var front := obs[..|obs| - 1];
    if j < |front| {
      i := ObservedFileIsThere(front, j);
    } else {
      i := |ObservedFiles(front)|;
    }
  }

  /** In a workspace of the right shape every observed member is placed. */
  lemma ShapePlaces(ms: seq<Listed>, obs: seq<Observed>, expected: map<string, (string, Kind)>,
                    allowed: map<string, string>,
                    fold: string -> string)
    requires ExpectedMap(expected, ms, fold) && SpellingMap(allowed, Directories(ms), fold)
    ensures ObservedLocators(ObservedFiles(obs)) == ListedLocators(ListedFiles(ms))
            && ObservedDirectories(obs) == Directories(ms)
            ==> forall j :: 0 <= j < |obs| ==> Placed(obs[j], expected, allowed, fold)
  {
    hide Key, Directories, ObservedFiles, ListedFiles;
    if ObservedLocators(ObservedFiles(obs)) == ListedLocators(ListedFiles(ms))
       && ObservedDirectories(obs) == Directories(ms) {
      forall j | 0 <= j < |obs| ensures Placed(obs[j], expected, allowed, fold) {
        if obs[j].isDirectory {
          assert obs[j].locator in ObservedDirectories(obs);
        } else {
          var i := ObservedFileIsThere(obs, j);
          assert ObservedLocators(ObservedFiles(obs))[i] == ListedLocators(ListedFiles(ms))[i];
          var k := ListedFileIsMember(ms, i);
        }
      }
    }
  }

  /** Among placed members the directory keys match exactly when the directories do. */
  lemma PlacedAreAllowed(ms: seq<Listed>, obs: seq<Observed>, expected: map<string, (string, Kind)>,
                         allowed: map<string, string>, fold: string -> string)
    requires SpellingMap(allowed, Directories(ms), fold)
    requires forall j :: 0 <= j < |obs| ==> Placed(obs[j], expected, allowed, fold)
    ensures DirectoryKeys(ObservedDirectories(obs), fold) == allowed.Keys
       <==> ObservedDirectories(obs) == Directories(ms)
  {
    hide Key, Directories;
    var seen := ObservedDirectories(obs);
    forall d | d in seen ensures Key(d, fold) in allowed && allowed[Key(d, fold)] == d {
      var i :| 0 <= i < |obs| && obs[i].isDirectory && obs[i].locator == d;
      assert Placed(obs[i], expected, allowed, fold);
    }
    if seen == Directories(ms) {
      forall k | k in allowed ensures k in DirectoryKeys(seen, fold) {
        assert allowed[k] in seen && Key(allowed[k], fold) == k;
      }
      assert DirectoryKeys(seen, fold) == allowed.Keys;
    }
    if DirectoryKeys(seen, fold) == allowed.Keys {
      forall p | p in Directories(ms) ensures p in seen {
        assert Key(p, fold) in DirectoryKeys(seen, fold);
        var d :| d in seen && Key(d, fold) == Key(p, fold);
      }
      assert seen == Directories(ms);
    }
  }
}
