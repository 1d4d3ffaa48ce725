/**
What safety of a locator buys: followed segment by segment from any directory it goes one level down each time, under
the very names it spells, on systems that separate by slash and on those that also know backslashes and drives.
*/
module LocatorSafety {
  import opened Prelude
  import opened Text
  import opened Locators

  /** Following segments from a directory: nothing and "." stay, ".." goes up, None above the top. */
  function Follow(at: seq<string>, segments: seq<string>): (r: Option<seq<string>>)
    decreases |segments|
  {
    if segments == [] then Some(at)
    else if segments[0] == "" || segments[0] == "." then Follow(at, segments[1..])
    else if segments[0] == ".." then if at == [] then None else Follow(at[..|at| - 1], segments[1..])
    else Follow(at + [segments[0]], segments[1..])
  }

  predicate PlainSegments(segments: seq<string>) {
    forall i :: 0 <= i < |segments| ==> segments[i] != "" && segments[i] != "." && segments[i] != ".."
  }

  lemma {:induction false} FollowPlain(at: seq<string>, segments: seq<string>)
    requires PlainSegments(segments)
    ensures Follow(at, segments) == Some(at + segments)
    decreases |segments|
  {
    if segments == [] {
      assert at + segments == at;
    } else {
      FollowPlain(at + [segments[0]], segments[1..]);
      assert at + segments == at + [segments[0]] + segments[1..];
    }
  }

  /** Both separators at once. */
  predicate IsSeparator(c: char) { c == '/' || c == '\\' }

  lemma {:induction false} SegmentsAreDrawn(s: string, sep: char, i: nat, j: nat)
    requires i < |Split(s, sep)| && j < |Split(s, sep)[i]|
    ensures Split(s, sep)[i][j] in s
    decreases |s|
  {
    if s != "" {
      var rest := Split(s[1..], sep);
      if s[0] == sep {
        if i > 0 { SegmentsAreDrawn(s[1..], sep, i - 1, j); }
      } else if i > 0 {
        SegmentsAreDrawn(s[1..], sep, i, j);
      } else if j > 0 {
        SegmentsAreDrawn(s[1..], sep, 0, j - 1);
      }
    }
  }

  /** An accepted locator is relative, names no drive, and never climbs: after any number of its segments one is exactly
      that many levels below where one began, and the segments are the same whether or not a backslash separates. */
  lemma SafeLocatorsStayBelow(locator: string, upper: string -> string, at: seq<string>, k: nat)
    requires SafeLocator(locator, upper) && k <= |Split(locator, '/')|
    ensures var segments := Split(locator, '/');
            && Follow(at, segments[..k]) == Some(at + segments[..k]) && segments != []
            && (forall i :: 0 <= i < |segments| ==>
                  segments[i] != "" && forall j :: 0 <= j < |segments[i]| ==>
                    !IsSeparator(segments[i][j]) && segments[i][j] != ':')
            && (forall i :: 0 <= i < |segments| ==> segments[i][|segments[i]| - 1] !in {'.', ' '})
            && Join(segments, '/') == locator
  {
    var segments := Split(locator, '/');
    FollowPlain(at, segments[..k]);
    JoinSplit(locator, '/');
    forall i, j | 0 <= i < |segments| && 0 <= j < |segments[i]|
      ensures !IsSeparator(segments[i][j]) && segments[i][j] != ':'
    {
      SegmentsAreDrawn(locator, '/', i, j);
    }
  }
}
