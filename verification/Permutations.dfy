/** Lists with the same elements in another order. */
module Permutations {

  predicate SameElements<T(==)>(a: seq<T>, b: seq<T>) { multiset(a) == multiset(b) }

  function Without<T>(s: seq<T>, k: nat): (r: seq<T>)
    requires k < |s|
    ensures |r| == |s| - 1
  {
    s[..k] + s[k + 1..]
  }

  lemma WithoutElements<T>(s: seq<T>, k: nat)
    requires k < |s|
    ensures multiset(s) == multiset{s[k]} + multiset(Without(s, k))
  {
    assert s == s[..k] + [s[k]] + s[k + 1..];
  }

  /** The head of one list is found in the other, and taking it out of both leaves the same elements again. */
  lemma FindHead<T>(a: seq<T>, b: seq<T>) returns (k: nat)
    requires SameElements(a, b) && a != []
    ensures k < |b| && b[k] == a[0] && SameElements(a[1..], Without(b, k))
  {
    assert a[0] in multiset(b);
    k :| 0 <= k < |b| && b[k] == a[0];
    WithoutElements(a, 0);
    WithoutElements(b, k);
    assert Without(a, 0) == a[1..];
    assert multiset(a[1..]) == multiset(a) - multiset{a[0]};
    assert multiset(Without(b, k)) == multiset(b) - multiset{b[k]};
  }

  lemma SameLength<T>(a: seq<T>, b: seq<T>)
    requires SameElements(a, b)
    ensures |a| == |b|
  {
    assert |multiset(a)| == |a| && |multiset(b)| == |b|;
  }

  lemma SameMembers<T>(a: seq<T>, b: seq<T>)
    requires SameElements(a, b)
    ensures forall x :: x in a <==> x in b
  {
    assert forall x :: x in a <==> x in multiset(a);
    assert forall x :: x in b <==> x in multiset(b);
  }

  predicate Distinct<T(==)>(s: seq<T>) { forall i, j :: 0 <= i < j < |s| ==> s[i] != s[j] }

  lemma {:induction false} DistinctIgnoresOrder<T>(a: seq<T>, b: seq<T>)
    requires SameElements(a, b) && Distinct(a)
    ensures Distinct(b)
  {
    forall i, j | 0 <= i < j < |b| ensures b[i] != b[j] {
      if b[i] == b[j] {
        TwiceIn(b, i, j);
        AtMostOnce(a, b[i]);
      }
    }
  }

  lemma TwiceIn<T>(b: seq<T>, i: nat, j: nat)
    requires i < j < |b| && b[i] == b[j]
    ensures multiset(b)[b[i]] >= 2
  {
    assert b == b[..i] + [b[i]] + b[i + 1..j] + [b[j]] + b[j + 1..];
  }

  lemma OnceIn<T>(s: seq<T>, x: nat)
    requires x < |s| && forall y :: 0 <= y < |s| && s[y] == s[x] ==> y == x
    ensures multiset(s)[s[x]] == 1
  {
    assert s == s[..x] + [s[x]] + s[x + 1..];
    assert s[x] !in s[..x] && s[x] !in s[x + 1..];
    assert multiset(s[..x])[s[x]] == 0 && multiset(s[x + 1..])[s[x]] == 0;
  }

  lemma AtMostOnce<T>(a: seq<T>, x: T)
    requires Distinct(a)
    ensures multiset(a)[x] == if x in a then 1 else 0
  {
    if x in a {
      var i :| 0 <= i < |a| && a[i] == x;
      OnceIn(a, i);
    }
  }

  /** Lists without repetition and with the same members are the same but for the order. */
  lemma DistinctSameMembers<T>(a: seq<T>, b: seq<T>)
    requires Distinct(a) && Distinct(b) && forall x :: x in a <==> x in b
    ensures SameElements(a, b)
  {
    forall x ensures multiset(a)[x] == multiset(b)[x] {
      AtMostOnce(a, x);
      AtMostOnce(b, x);
    }
  }
}
