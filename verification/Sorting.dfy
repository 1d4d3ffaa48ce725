/** Sorting: a total order on strings, the sorted list of a set, and insertion sort by a key. */
module Sorting {
  import opened Permutations

  // ---------- orders ----------

  ghost predicate Total<T(!new)>(le: (T, T) -> bool) { forall a, b :: le(a, b) || le(b, a) }

  ghost predicate Antisymmetric<T(!new)>(le: (T, T) -> bool) { forall a, b :: le(a, b) && le(b, a) ==> a == b }

  ghost predicate Transitive<T(!new)>(le: (T, T) -> bool) { forall a, b, c :: le(a, b) && le(b, c) ==> le(a, c) }

  ghost predicate TotalOrder<T(!new)>(le: (T, T) -> bool) { Total(le) && Antisymmetric(le) && Transitive(le) }

  /** Code point order on strings. */
  predicate Lex(a: string, b: string) {
    a == "" || (b != "" && (a[0] < b[0] || (a[0] == b[0] && Lex(a[1..], b[1..]))))
  }

  lemma {:induction false} LexTotal(a: string, b: string)
    ensures Lex(a, b) || Lex(b, a)
  {
    if a != "" && b != "" { LexTotal(a[1..], b[1..]); }
  }

  lemma {:induction false} LexAntisymmetric(a: string, b: string)
    requires Lex(a, b) && Lex(b, a)
    ensures a == b
  {
    if a != "" {
      LexAntisymmetric(a[1..], b[1..]);
      assert a == [a[0]] + a[1..] && b == [b[0]] + b[1..];
    }
  }

  lemma {:induction false} LexTransitive(a: string, b: string, c: string)
    requires Lex(a, b) && Lex(b, c)
    ensures Lex(a, c)
  {
    if a != "" && a[0] == b[0] && b[0] == c[0] { LexTransitive(a[1..], b[1..], c[1..]); }
  }

  lemma LexIsTotalOrder()
    ensures TotalOrder(Lex)
  {
    forall a, b ensures Lex(a, b) || Lex(b, a) { LexTotal(a, b); }
    forall a, b | Lex(a, b) && Lex(b, a) ensures a == b { LexAntisymmetric(a, b); }
    forall a, b, c | Lex(a, b) && Lex(b, c) ensures Lex(a, c) { LexTransitive(a, b, c); }
  }

  // ---------- the sorted list of a set ----------

  predicate IsLeast<T(!new, ==)>(m: T, s: set<T>, le: (T, T) -> bool) { m in s && forall x :: x in s ==> le(m, x) }

  lemma LeastExists<T(!new)>(s: set<T>, le: (T, T) -> bool) returns (m: T)
    requires TotalOrder(le) && s != {}
    ensures IsLeast(m, s, le)
    decreases |s|
  {
    var x :| x in s;
    if s == {x} {
      m := x;
    } else {
      var rest := s - {x};
      assert s == rest + {x};
      var y := LeastExists(rest, le);
      m := if le(x, y) then x else y;
      forall z | z in s ensures le(m, z) {
        if z != x { assert z in rest; }
      }
    }
  }

  lemma OneLeast<T(!new)>(s: set<T>, le: (T, T) -> bool)
    requires TotalOrder(le) && s != {}
    ensures exists m :: IsLeast(m, s, le)
    ensures forall m, n :: IsLeast(m, s, le) && IsLeast(n, s, le) ==> m == n
  {
    var m := LeastExists(s, le);
    forall x, y | IsLeast(x, s, le) && IsLeast(y, s, le) ensures x == y {
      assert le(x, y) && le(y, x);
    }
  }

  /** The elements of s in ascending order. */
  function SortedSet<T(!new, ==)>(s: set<T>, le: (T, T) -> bool): (r: seq<T>)
    requires TotalOrder(le)
    decreases |s|
  {
    if s == {} then []
    else
      OneLeast(s, le);
      var m :| m in s && IsLeast(m, s, le);
      [m] + SortedSet(s - {m}, le)
  }

  ghost predicate Ascending<T(!new)>(r: seq<T>, le: (T, T) -> bool) {
    forall i, j :: 0 <= i < j < |r| ==> le(r[i], r[j]) && r[i] != r[j]
  }

  ghost predicate ElementsOf<T(!new)>(r: seq<T>, s: set<T>) { forall x :: x in r <==> x in s }

  lemma {:induction false} SortedSetIsSorted<T(!new)>(s: set<T>, le: (T, T) -> bool)
    requires TotalOrder(le)
    ensures ElementsOf(SortedSet(s, le), s) && Ascending(SortedSet(s, le), le)
    decreases |s|
  {
    var r := SortedSet(s, le);
    if s != {} {
      OneLeast(s, le);
      var m :| IsLeast(m, s, le) && r == [m] + SortedSet(s - {m}, le);
      SortedSetIsSorted(s - {m}, le);
      forall x ensures x in r <==> x in s {
      }
    }
  }

  lemma SomeElement<T>(a: seq<T>)
    requires a != []
    ensures exists x :: x in a
  {
    assert a[0] in a;
  }

  lemma SameFirst<T(!new)>(a: seq<T>, b: seq<T>, s: set<T>, le: (T, T) -> bool)
    requires TotalOrder(le) && ElementsOf(a, s) && ElementsOf(b, s) && Ascending(a, le) && Ascending(b, le)
    requires a != [] && b != []
    ensures a[0] == b[0]
  {
    assert a[0] in s && b[0] in s;
    var i :| 0 <= i < |b| && b[i] == a[0];
    var j :| 0 <= j < |a| && a[j] == b[0];
  }

  /** There is only one ascending list of a set's elements. */
  lemma {:induction false} AscendingIsUnique<T(!new)>(a: seq<T>, b: seq<T>, s: set<T>, le: (T, T) -> bool)
    requires TotalOrder(le) && ElementsOf(a, s) && ElementsOf(b, s) && Ascending(a, le) && Ascending(b, le)
    ensures a == b
    decreases |a| + |b|
  {
    hide TotalOrder;
    if a == [] {
      if b != [] { SomeElement(b); }
    } else if b == [] {
      SomeElement(a);
    } else {
      SameFirst(a, b, s, le);
      RestElements(a, s);
      RestElements(b, s);
      AscendingIsUnique(a[1..], b[1..], s - {a[0]}, le);
      assert a == [a[0]] + a[1..] && b == [b[0]] + b[1..];
    }
  }

  lemma RestElements<T(!new)>(a: seq<T>, s: set<T>)
    requires a != [] && ElementsOf(a, s) && forall i :: 0 < i < |a| ==> a[i] != a[0]
    ensures ElementsOf(a[1..], s - {a[0]})
  {
    forall x ensures x in a[1..] <==> x in s - {a[0]} {
      if x in a[1..] {
        var i :| 0 <= i < |a[1..]| && a[1..][i] == x;
        assert a[i + 1] == x;
      }
      if x in s && x != a[0] {
        var i :| 0 <= i < |a| && a[i] == x;
        assert a[1..][i - 1] == x;
      }
    }
  }

  // ---------- sorting lists by a number ----------

  function InsertBy<T>(x: T, s: seq<T>, key: T -> int): (r: seq<T>) {
    if s == [] then [x] else if key(x) <= key(s[0]) then [x] + s else [s[0]] + InsertBy(x, s[1..], key)
  }

  /** A stable sort by key. */
  function SortBy<T>(s: seq<T>, key: T -> int): (r: seq<T>) {
    if s == [] then [] else InsertBy(s[0], SortBy(s[1..], key), key)
  }

  predicate SortedBy<T>(s: seq<T>, key: T -> int) { forall i, j :: 0 <= i < j < |s| ==> key(s[i]) <= key(s[j]) }

  lemma {:induction false} InsertByKeeps<T>(x: T, s: seq<T>, key: T -> int)
    requires SortedBy(s, key)
    ensures multiset(InsertBy(x, s, key)) == multiset{x} + multiset(s) && SortedBy(InsertBy(x, s, key), key)
  {
    if s == [] {
    } else if key(x) <= key(s[0]) {
    } else {
      var r := InsertBy(x, s[1..], key);
      InsertByKeeps(x, s[1..], key);
      assert s == [s[0]] + s[1..];
      forall i | 0 <= i < |r| ensures key(s[0]) <= key(r[i]) {
        assert r[i] in multiset(r);
        assert r[i] in multiset{x} + multiset(s[1..]);
        if r[i] != x {
          var j :| 0 <= j < |s[1..]| && s[1..][j] == r[i];
          assert s[j + 1] == r[i];
        }
      }
    }
  }

  lemma {:induction false} SortBySorts<T>(s: seq<T>, key: T -> int)
    ensures SameElements(SortBy(s, key), s) && SortedBy(SortBy(s, key), key)
  {
    if s != [] {
      SortBySorts(s[1..], key);
      InsertByKeeps(s[0], SortBy(s[1..], key), key);
      assert s == [s[0]] + s[1..];
    }
  }

  lemma {:induction false} SortedStays<T>(s: seq<T>, key: T -> int)
    requires SortedBy(s, key)
    ensures SortBy(s, key) == s
  {
    if s != [] {
      SortedStays(s[1..], key);
      assert s == [s[0]] + s[1..];
      if |s| > 1 { assert key(s[0]) <= key(s[1]); }
    }
  }

  function InsertLe<T>(x: T, s: seq<T>, le: (T, T) -> bool): (r: seq<T>) {
    if s == [] then [x] else if le(x, s[0]) then [x] + s else [s[0]] + InsertLe(x, s[1..], le)
  }

  /** A stable sort by an order. */
  function SortLe<T>(s: seq<T>, le: (T, T) -> bool): (r: seq<T>) {
    if s == [] then [] else InsertLe(s[0], SortLe(s[1..], le), le)
  }

  lemma {:induction false} InsertLeKeeps<T>(x: T, s: seq<T>, le: (T, T) -> bool)
    ensures multiset(InsertLe(x, s, le)) == multiset{x} + multiset(s)
  {
    if s != [] && !le(x, s[0]) {
      InsertLeKeeps(x, s[1..], le);
      assert s == [s[0]] + s[1..];
    }
  }

  lemma {:induction false} SortLeKeeps<T>(s: seq<T>, le: (T, T) -> bool)
    ensures SameElements(SortLe(s, le), s)
  {
    if s != [] {
      SortLeKeeps(s[1..], le);
      InsertLeKeeps(s[0], SortLe(s[1..], le), le);
      assert s == [s[0]] + s[1..];
    }
  }

  predicate OrderedBy<T(!new, ==)>(s: seq<T>, le: (T, T) -> bool) { forall i, j :: 0 <= i < j < |s| ==> le(s[i], s[j]) }

  lemma {:induction false} InsertLeOrders<T(!new)>(x: T, s: seq<T>, le: (T, T) -> bool)
    requires Total(le) && Transitive(le) && OrderedBy(s, le)
    ensures OrderedBy(InsertLe(x, s, le), le)
  {
    if s == [] {
    } else if le(x, s[0]) {
      forall i | 0 <= i < |s| ensures le(x, s[i]) {
        if i > 0 { assert le(s[0], s[i]); }
      }
    } else {
      var r := InsertLe(x, s[1..], le);
      InsertLeOrders(x, s[1..], le);
      InsertLeKeeps(x, s[1..], le);
      assert le(s[0], x);
      forall i | 0 <= i < |r| ensures le(s[0], r[i]) {
        assert r[i] in multiset(r);
        assert r[i] in multiset{x} + multiset(s[1..]);
        if r[i] != x {
          var j :| 0 <= j < |s[1..]| && s[1..][j] == r[i];
          assert s[j + 1] == r[i];
        }
      }
    }
  }

  lemma {:induction false} SortLeOrders<T(!new)>(s: seq<T>, le: (T, T) -> bool)
    requires Total(le) && Transitive(le)
    ensures OrderedBy(SortLe(s, le), le)
  {
    if s != [] {
      SortLeOrders(s[1..], le);
      InsertLeOrders(s[0], SortLe(s[1..], le), le);
    }
  }

  // ---------- filtering ----------

  function Filter<T>(s: seq<T>, p: T -> bool): (r: seq<T>) {
    if s == [] then [] else if p(s[0]) then [s[0]] + Filter(s[1..], p) else Filter(s[1..], p)
  }

  lemma {:induction false} FilterMembers<T>(s: seq<T>, p: T -> bool)
    ensures forall x :: x in Filter(s, p) <==> x in s && p(x)
  {
    if s != [] {
      FilterMembers(s[1..], p);
      assert s == [s[0]] + s[1..];
    }
  }

  lemma {:induction false} FilterAppend<T>(a: seq<T>, b: seq<T>, p: T -> bool)
    ensures Filter(a + b, p) == Filter(a, p) + Filter(b, p)
  {
    if a == [] {
      assert a + b == b;
    } else {
      assert (a + b)[1..] == a[1..] + b;
      FilterAppend(a[1..], b, p);
    }
  }

  lemma {:induction false} FilterIgnoresOrder<T>(a: seq<T>, b: seq<T>, p: T -> bool)
    requires SameElements(a, b)
    ensures SameElements(Filter(a, p), Filter(b, p))
    decreases |a|
  {
    SameLength(a, b);
    if a != [] {
      var k := FindHead(a, b);
      FilterIgnoresOrder(a[1..], Without(b, k), p);
      assert b == b[..k] + ([b[k]] + b[k + 1..]);
      FilterAppend(b[..k], [b[k]] + b[k + 1..], p);
      FilterAppend([b[k]], b[k + 1..], p);
      FilterAppend(b[..k], b[k + 1..], p);
    }
  }

  lemma {:induction false} FilterCongruence<T>(s: seq<T>, p: T -> bool, q: T -> bool)
    requires forall x :: x in s ==> p(x) == q(x)
    ensures Filter(s, p) == Filter(s, q)
  {
    if s != [] {
      assert s[0] in s && forall x :: x in s[1..] ==> x in s;
      FilterCongruence(s[1..], p, q);
    }
  }

  lemma FilterNone<T>(s: seq<T>, p: T -> bool)
    requires forall x :: x in s ==> !p(x)
    ensures Filter(s, p) == []
  {
    FilterMembers(s, p);
    var r := Filter(s, p);
    assert forall i :: 0 <= i < |r| ==> r[i] in r;
  }

  lemma {:induction false} FilterAll<T>(s: seq<T>, p: T -> bool)
    requires forall x :: x in s ==> p(x)
    ensures Filter(s, p) == s
  {
    if s != [] {
      assert s[0] in s && forall x :: x in s[1..] ==> x in s;
      FilterAll(s[1..], p);
    }
  }
}
