/**
Member locators: which are safe, how they are made canonical, and when two of them cannot both exist because one is a
file and an ancestor of the other.
*/
module Locators {
  import opened Prelude
  import opened Text
  import opened Utf8

  const MAX_MEMBER_PATH_CODEPOINTS := 1_024
  const MAX_MEMBER_PATH_UTF8_BYTES := 4_096
  const MAX_MEMBER_PATH_SEGMENTS := 128

  predicate IsSegment(s: string) { s != "" && '/' !in s }

  /** NFC and case folding of one path segment: it keeps segments non-empty and slash-free. */
  type SegmentFold = f: string -> string | forall s :: IsSegment(s) ==> IsSegment(f(s))
    witness s => s

  const RESERVED_NAMES: set<string> := {
    "CON", "PRN", "AUX", "NUL", "CONIN$", "CONOUT$",
    "COM1", "COM2", "COM3", "COM4", "COM5", "COM6", "COM7", "COM8", "COM9",
    "LPT1", "LPT2", "LPT3", "LPT4", "LPT5", "LPT6", "LPT7", "LPT8", "LPT9"
  }

  predicate SafeSegment(segment: string, upper: string -> string) {
    && segment != "" && segment != "." && segment != ".."
    && segment[|segment| - 1] != '.' && segment[|segment| - 1] != ' '
    && upper(Split(segment, '.')[0]) !in RESERVED_NAMES
  }

  /** The v1 policy on an untrusted member locator. */
  predicate SafeLocator(locator: string, upper: string -> string) {
    && locator != "" && |locator| <= MAX_MEMBER_PATH_CODEPOINTS
    && (forall i :: 0 <= i < |locator| ==> locator[i] as int >= 32 && locator[i] as int != 0x7F)
    && |Encode(locator)| <= MAX_MEMBER_PATH_UTF8_BYTES
    && locator[0] != '/' && ':' !in locator && '\\' !in locator
    && var segments := Split(locator, '/');
       && |segments| <= MAX_MEMBER_PATH_SEGMENTS
       && forall i :: 0 <= i < |segments| ==> SafeSegment(segments[i], upper)
  }

  function MapSegments(parts: seq<string>, fold: string -> string): (r: seq<string>)
    ensures |r| == |parts| && forall i :: 0 <= i < |r| ==> r[i] == fold(parts[i])
  {
    seq(|parts|, i requires 0 <= i < |parts| => fold(parts[i]))
  }

  function Canonical(locator: string, fold: string -> string): (r: string) {
    Join(MapSegments(Split(locator, '/'), fold), '/')
  }

  /** a names a directory that b lies in. */
  predicate IsAncestor(a: string, b: string) {
    a + "/" <= b
  }

  /** One of the two is a file and an ancestor of the other. */
  predicate Clash(a: string, aDir: bool, b: string, bDir: bool) {
    (!aDir && IsAncestor(a, b)) || (!bDir && IsAncestor(b, a))
  }

  /** The check against the locators seen so far: a file among the ancestors, or a new file above an old entry. */
  predicate ParentChildConflict(key: string, isDir: bool, existing: map<string, bool>) {
    var parts := Split(key, '/');
    || (exists i :: 1 <= i < |parts| && Join(parts[..i], '/') in existing && !existing[Join(parts[..i], '/')])
    || (!isDir && exists other :: other in existing && key + "/" <= other)
  }

  lemma {:induction false} CutAtSlash(parts: seq<string>, i: nat)
    requires 1 <= i < |parts|
    ensures Join(parts, '/') == Join(parts[..i], '/') + "/" + Join(parts[i..], '/')
  {
    var p := parts[0];
    JoinCons(p, parts[1..], '/');
    assert parts == [p] + parts[1..];
    if i == 1 {
      assert parts[..1] == [p];
    } else {
      CutAtSlash(parts[1..], i - 1);
      JoinCons(p, parts[1..i], '/');
      assert parts[1..][..i - 1] == parts[1..i] && parts[1..][i - 1..] == parts[i..];
      assert parts[..i] == [p] + parts[1..i];
    }
  }

  lemma SplitAtSlash(a: string, rest: string)
    ensures Split(a + "/" + rest, '/') == Split(a, '/') + Split(rest, '/')
  {
    var parts := Split(a, '/') + Split(rest, '/');
    var n := |Split(a, '/')|;
    CutAtSlash(parts, n);
    assert parts[..n] == Split(a, '/') && parts[n..] == Split(rest, '/');
    JoinSplit(a, '/');
    JoinSplit(rest, '/');
    SplitJoin(parts, '/');
  }

  /** The ancestors of key are exactly the joins of its proper leading segments. */
  lemma AncestorsAreLeadingSegments(a: string, key: string)
    ensures IsAncestor(a, key) <==> exists i :: 1 <= i < |Split(key, '/')| && Join(Split(key, '/')[..i], '/') == a
  {
    var parts := Split(key, '/');
    JoinSplit(key, '/');
    forall i | 1 <= i < |parts|
      ensures IsAncestor(Join(parts[..i], '/'), key)
    {
      CutAtSlash(parts, i);
    }
    if IsAncestor(a, key) {
      var rest := key[|a| + 1..];
      assert key == a + "/" + rest;
      SplitAtSlash(a, rest);
      var i := |Split(a, '/')|;
      assert parts[..i] == Split(a, '/');
      JoinSplit(a, '/');
      assert Join(parts[..i], '/') == a;
    }
  }

  /** The one-sided map check is the symmetric clash with some entry of the map. */
  lemma ConflictIsSomeClash(key: string, isDir: bool, existing: map<string, bool>)
    ensures ParentChildConflict(key, isDir, existing)
       <==> exists other :: other in existing && Clash(key, isDir, other, existing[other])
  {
    forall other | other in existing
      ensures IsAncestor(other, key)
         <==> exists i :: 1 <= i < |Split(key, '/')| && Join(Split(key, '/')[..i], '/') == other
    {
      AncestorsAreLeadingSegments(other, key);
    }
    if ParentChildConflict(key, isDir, existing) {
      if !isDir && exists other :: other in existing && key + "/" <= other {
        var other :| other in existing && key + "/" <= other;
        assert Clash(key, isDir, other, existing[other]);
      } else {
        var parts := Split(key, '/');
        var i :| 1 <= i < |parts| && Join(parts[..i], '/') in existing && !existing[Join(parts[..i], '/')];
        assert Clash(key, isDir, Join(parts[..i], '/'), existing[Join(parts[..i], '/')]);
      }
    }
  }

  // ---------- whole lists ----------

  datatype Entry = Entry(key: string, isDir: bool)

  predicate Compatible(a: Entry, b: Entry) {
    a.key != b.key && !Clash(a.key, a.isDir, b.key, b.isDir)
  }

  /** Any two entries have different keys and do not clash; a symmetric rule, so order plays no part. */
  predicate ConflictFree(entries: seq<Entry>) {
    forall i, j :: 0 <= i < j < |entries| ==> Compatible(entries[i], entries[j])
  }

  /** The map after recording entries one by one, or None at the first collision or conflict. */
  function OnePass(entries: seq<Entry>): (r: Option<map<string, bool>>)
    decreases |entries|
  {
    if entries == [] then Some(map[])
    else
      var e := entries[|entries| - 1];
      match OnePass(entries[..|entries| - 1])
      case None => None
      case Some(existing) =>
        if e.key in existing || ParentChildConflict(e.key, e.isDir, existing) then None
        else Some(existing[e.key := e.isDir])
  }

  predicate MapOf(existing: map<string, bool>, entries: seq<Entry>) {
    && (forall i :: 0 <= i < |entries| ==> entries[i].key in existing && existing[entries[i].key] == entries[i].isDir)
    && (forall k :: k in existing ==> exists i :: 0 <= i < |entries| && entries[i].key == k)
  }

  /** One more entry passes the map check exactly when it keeps the list conflict-free. */
  lemma CheckIsPairwise(entries: seq<Entry>, e: Entry, existing: map<string, bool>)
    requires ConflictFree(entries) && MapOf(existing, entries)
    ensures e.key !in existing && !ParentChildConflict(e.key, e.isDir, existing) <==> ConflictFree(entries + [e])
    ensures MapOf(existing[e.key := e.isDir], entries + [e]) || e.key in existing
  {
    ConflictIsSomeClash(e.key, e.isDir, existing);
    var all := entries + [e];
    if e.key !in existing && !ParentChildConflict(e.key, e.isDir, existing) {
      forall i, j | 0 <= i < j < |all|
        ensures Compatible(all[i], all[j])
      {
        if j == |entries| {
          assert entries[i].key in existing;
        }
      }
    }
    if ConflictFree(all) {
      forall k | k in existing
        ensures k != e.key && !Clash(e.key, e.isDir, k, existing[k])
      {
        var i :| 0 <= i < |entries| && entries[i].key == k;
        assert all[i] == entries[i] && all[|entries|] == e;
        assert Compatible(all[i], all[|entries|]);
      }
    }
    if e.key !in existing {
      assert forall i :: 0 <= i < |entries| ==> all[i] == entries[i];
      assert all[|entries|] == e;
      var after := existing[e.key := e.isDir];
      forall k | k in after
        ensures exists i :: 0 <= i < |all| && all[i].key == k
      {
        if k in existing {
          var i :| 0 <= i < |entries| && entries[i].key == k;
          assert all[i].key == k;
        }
      }
    }
  }

  /** The incremental map check accepts a list exactly when the symmetric pairwise rule holds. */
  lemma {:induction false} OnePassIsPairwise(entries: seq<Entry>)
    ensures OnePass(entries).Some? <==> ConflictFree(entries)
    ensures OnePass(entries).Some? ==> MapOf(OnePass(entries).value, entries)
    decreases |entries|
  {
    if entries != [] {
      var front, e := entries[..|entries| - 1], entries[|entries| - 1];
      OnePassIsPairwise(front);
      assert entries == front + [e];
      if OnePass(front).Some? {
        CheckIsPairwise(front, e, OnePass(front).value);
      } else {
        var i, j :| 0 <= i < j < |front| && !Compatible(front[i], front[j]);
        assert entries[i] == front[i] && entries[j] == front[j];
      }
    }
  }

  // ---------- ancestors as segments ----------

  predicate ProperPrefix(a: seq<string>, b: seq<string>) {
    |a| < |b| && a == b[..|a|]
  }

  /** On canonical locators "a/ is a prefix of b" says that a's folded segments begin b's. */
  lemma AncestorIsSegmentPrefix(a: string, b: string, fold: SegmentFold)
    requires forall i :: 0 <= i < |Split(a, '/')| ==> Split(a, '/')[i] != ""
    requires forall i :: 0 <= i < |Split(b, '/')| ==> Split(b, '/')[i] != ""
    ensures IsAncestor(Canonical(a, fold), Canonical(b, fold))
       <==> ProperPrefix(MapSegments(Split(a, '/'), fold), MapSegments(Split(b, '/'), fold))
  {
    var x, y := MapSegments(Split(a, '/'), fold), MapSegments(Split(b, '/'), fold);
    forall i | 0 <= i < |x| ensures '/' !in x[i] { assert IsSegment(Split(a, '/')[i]); }
    forall i | 0 <= i < |y| ensures '/' !in y[i] { assert IsSegment(Split(b, '/')[i]); }
    SplitJoin(x, '/');
    SplitJoin(y, '/');
    AncestorsAreLeadingSegments(Canonical(a, fold), Canonical(b, fold));
    if IsAncestor(Canonical(a, fold), Canonical(b, fold)) {
      var i :| 1 <= i < |y| && Join(y[..i], '/') == Canonical(a, fold);
      SplitJoin(y[..i], '/');
      assert x == y[..i];
    }
    if ProperPrefix(x, y) {
      assert Join(y[..|x|], '/') == Canonical(a, fold);
    }
  }
}
