/**
The projection of book classification assertions: per dimension the values of the highest tier present, a conflict when
they are too many, and a link for every assertion. What the reduction returns does not depend on the order of its input.
*/
module Projection {
  import opened Prelude
  import opened Permutations
  import opened Sorting

  datatype Dimension = Domain | Genre | Subgenre | Topic | Audience | Language | Form

  const DIMENSIONS: seq<Dimension> := [Domain, Genre, Subgenre, Topic, Audience, Language, Form]

  datatype Tier = Automated | UserConfirmed

  datatype TargetKind = Work | Edition | OtherEntity

  datatype Target = Target(kind: TargetKind, id: string)

  datatype AssertionData = AssertionData(id: string, key: Sha256, target: Target, currentProfile: bool,
                                         dimension: Dimension,
                                         tier: Tier, taxonomy: string, value: string)

  /** A constructed assertion has a taxonomy and a value. */
  type Assertion = a: AssertionData | a.taxonomy != "" && a.value != ""
    witness AssertionData("", seq(64, _ => '0'), Target(Work, ""), true, Domain, Automated, "x", "x")

  /** How many values a dimension may hold at once; the domain is exclusive. */
  function ValueLimit(d: Dimension): (n: nat) {
    match d case Domain => 1 case Genre => 8 case Subgenre => 16 case Topic => 32 case Audience => 8 case Language => 8
            case Form => 8
  }

  datatype FacetStatus = EmptyFacet | ProjectedFacet | ConflictFacet

  datatype ConflictCode = MultipleExclusiveValues | CardinalityExceeded | ConfirmedContradiction

  datatype Role = Selected | Considered | Conflicting

  datatype Value = Value(ordinal: nat, taxonomy: string, value: string) {
    predicate Constructible() { taxonomy != "" && value != "" }
    function Pair(): (p: (string, string)) { (taxonomy, value) }
  }

  type Pair = (string, string)

  /** Tuples compare by their first different component. */
  predicate PairLe(p: Pair, q: Pair) { if p.0 == q.0 then Lex(p.1, q.1) else Lex(p.0, q.0) }

  lemma PairOrder()
    ensures TotalOrder(PairLe)
  {
    LexIsTotalOrder();
    forall p: Pair, q: Pair ensures PairLe(p, q) || PairLe(q, p) { LexTotal(p.0, q.0); LexTotal(p.1, q.1); }
    forall p: Pair, q: Pair | PairLe(p, q) && PairLe(q, p) ensures p == q {
      if p.0 == q.0 { LexAntisymmetric(p.1, q.1); } else { LexAntisymmetric(p.0, q.0); }
    }
    forall p: Pair, q: Pair, r: Pair | PairLe(p, q) && PairLe(q, r) ensures PairLe(p, r) {
      if p.0 == q.0 && q.0 == r.0 {
        LexTransitive(p.1, q.1, r.1);
      } else if p.0 != q.0 && q.0 != r.0 {
        LexTransitive(p.0, q.0, r.0);
        if p.0 == r.0 { LexAntisymmetric(p.0, q.0); }
      }
    }
  }

  datatype Facet = Facet(dimension: Dimension, status: FacetStatus, values: seq<Value>,
                         conflict: Option<ConflictCode>) {
    /** What the facet type's own constructor insists on. */
    ghost predicate Constructible() {
      && (forall i :: 0 <= i < |values| ==> values[i].ordinal == i && values[i].Constructible())
      && (forall i, j :: 0 <= i < j < |values| ==> PairLe(values[i].Pair(), values[j].Pair())
                                                   && values[i].Pair() != values[j].Pair())
      && match status
         case EmptyFacet => values == [] && conflict.None?
         case ProjectedFacet => values != [] && conflict.None?
         case ConflictFacet => values == [] && conflict.Some?
    }
  }

  datatype Link = Link(id: string, key: Sha256, role: Role, conflict: Option<ConflictCode>) {
    predicate Constructible() { role == Conflicting <==> conflict.Some? }
  }

  // ---------- one facet ----------

  function Highest(items: seq<Assertion>): (t: Tier) {
    if exists i :: 0 <= i < |items| && items[i].tier == UserConfirmed then UserConfirmed else Automated
  }

  function InTier(items: seq<Assertion>, t: Tier): (r: seq<Assertion>) { Filter(items, (a: Assertion) => a.tier == t) }

  function OutOfTier(items: seq<Assertion>, t: Tier): (r: seq<Assertion>) {
    Filter(items, (a: Assertion) => a.tier != t)
  }

  /** The different values of the highest tier. */
  function DistinctPairs(items: seq<Assertion>): (ps: set<Pair>) {
    set a | a in items && a.tier == Highest(items) :: (a.taxonomy, a.value)
  }

  function SortedPairs(items: seq<Assertion>): (ps: seq<Pair>) {
    PairOrder();
    SortedSet(DistinctPairs(items), PairLe)
  }

  /** `_conflict_code` */
  function ConflictOf(d: Dimension, highest: Tier, count: nat): (c: Option<ConflictCode>) {
    if d == Domain && count > 1
    then Some(if highest == UserConfirmed then ConfirmedContradiction else MultipleExclusiveValues)
    else if d != Domain && count > ValueLimit(d) then Some(CardinalityExceeded)
    else None
  }

  function FacetConflict(d: Dimension, items: seq<Assertion>): (c: Option<ConflictCode>) {
    ConflictOf(d, Highest(items), |SortedPairs(items)|)
  }

  function ValuesOf(ps: seq<Pair>): (vs: seq<Value>)
    ensures |vs| == |ps| && forall i :: 0 <= i < |vs| ==> vs[i] == Value(i, ps[i].0, ps[i].1)
  {
    seq(|ps|, i requires 0 <= i < |ps| => Value(i, ps[i].0, ps[i].1))
  }

  function FacetOf(d: Dimension, items: seq<Assertion>): (f: Facet) {
    if items == [] then Facet(d, EmptyFacet, [], None)
    else if FacetConflict(d, items).Some? then Facet(d, ConflictFacet, [], FacetConflict(d, items))
    else Facet(d, ProjectedFacet, ValuesOf(SortedPairs(items)), None)
  }

  /** The link of one assertion, among the assertions of its dimension. */
  function LinkOf(d: Dimension, items: seq<Assertion>, a: Assertion): (l: Link) {
    var c := FacetConflict(d, items);
    if c.Some? then
      if d != Domain || a.tier == Highest(items) then Link(a.id, a.key, Conflicting, c)
      else Link(a.id, a.key, Considered, None)
    else Link(a.id, a.key, if a.tier == Highest(items) then Selected else Considered, None)
  }

  function LinksOf(d: Dimension, items: seq<Assertion>, of: seq<Assertion>): (ls: seq<Link>)
    ensures |ls| == |of| && forall i :: 0 <= i < |ls| ==> ls[i] == LinkOf(d, items, of[i])
  {
    seq(|of|, i requires 0 <= i < |of| => LinkOf(d, items, of[i]))
  }

  /** `_reduce_facet`: conflicts list the assertions as given, projections the selected ones first. */
  function ReduceFacet(d: Dimension, items: seq<Assertion>): (r: (Facet, seq<Link>)) {
    if items == [] then (FacetOf(d, items), [])
    else if FacetConflict(d, items).Some? then (FacetOf(d, items), LinksOf(d, items, items))
    else (FacetOf(d, items), LinksOf(d, items, InTier(items, Highest(items)) + OutOfTier(items, Highest(items))))
  }

  // ---------- the whole ----------

  /** Hashes the code takes from its libraries. */
  datatype Env = Env(fingerprint: (Target, seq<Sha256>) -> Sha256, identity: (Target, Sha256) -> string)

  datatype Status = EmptyProjection | Projected | ReviewRequired

  datatype Projection = Projection(id: string, target: Target, fingerprint: Sha256, status: Status, facets: seq<Facet>,
                                   links: seq<Link>)
  {
    predicate HasStatus(s: FacetStatus) { exists i :: 0 <= i < |facets| && facets[i].status == s }

    /** What the projection type's own constructor insists on. */
    ghost predicate Constructible(env: Env) {
      && target.kind != OtherEntity
      && |facets| == |DIMENSIONS| && (forall i :: 0 <= i < |facets| ==> facets[i].dimension == DIMENSIONS[i])
      && (forall i, j :: 0 <= i < j < |links| ==> Lex(links[i].key, links[j].key) && links[i].key != links[j].key)
      && (match status
          case EmptyProjection => !HasStatus(ProjectedFacet) && !HasStatus(ConflictFacet) && links == []
          case Projected => !HasStatus(ConflictFacet) && HasStatus(ProjectedFacet)
          case ReviewRequired => HasStatus(ConflictFacet))
      && id == env.identity(target, fingerprint)
    }
  }

  predicate KeyLe(a: AssertionData, b: AssertionData) { Lex(a.key, b.key) }

  function SortAssertions(items: seq<Assertion>): (r: seq<Assertion>) {
    SortLe(items, (a: Assertion, b: Assertion) => KeyLe(a, b))
  }

  predicate DistinctAssertionKeys(items: seq<Assertion>) {
    forall i, j :: 0 <= i < j < |items| ==> items[i].key != items[j].key
  }

  /** Inputs the reduction takes: of the requested book target and the current profile, no key twice. */
  predicate Valid(target: Target, items: seq<Assertion>) {
    && target.kind != OtherEntity
    && (forall i :: 0 <= i < |items| ==> items[i].target == target && items[i].currentProfile)
    && DistinctAssertionKeys(items)
  }

  function OfDimension(items: seq<Assertion>, d: Dimension): (r: seq<Assertion>) {
    Filter(items, (a: Assertion) => a.dimension == d)
  }

  function Facets(items: seq<Assertion>, ds: seq<Dimension>): (fs: seq<Facet>) {
    if ds == [] then [] else [ReduceFacet(ds[0], OfDimension(items, ds[0])).0] + Facets(items, ds[1..])
  }

  function Links(items: seq<Assertion>, ds: seq<Dimension>): (ls: seq<Link>) {
    if ds == [] then [] else ReduceFacet(ds[0], OfDimension(items, ds[0])).1 + Links(items, ds[1..])
  }

  function SortLinks(ls: seq<Link>): (r: seq<Link>) { SortLe(ls, (a: Link, b: Link) => Lex(a.key, b.key)) }

  function Keys(items: seq<Assertion>): (ks: seq<Sha256>)
    ensures |ks| == |items| && forall i :: 0 <= i < |ks| ==> ks[i] == items[i].key
  {
    seq(|items|, i requires 0 <= i < |items| => items[i].key)
  }

  function AnyConflict(fs: seq<Facet>): (b: bool) { exists i :: 0 <= i < |fs| && fs[i].status == ConflictFacet }

  function StatusOf(items: seq<Assertion>, fs: seq<Facet>): (s: Status) {
    if items == [] then EmptyProjection else if AnyConflict(fs) then ReviewRequired else Projected
  }

  /** The projection of checked assertions, which are sorted by key. */
  function ProjectChecked(env: Env, target: Target, checked: seq<Assertion>): (p: Projection) {
    var fingerprint := env.fingerprint(target, Keys(checked));
    var facets := Facets(checked, DIMENSIONS);
    Projection(env.identity(target, fingerprint), target, fingerprint, StatusOf(checked, facets), facets,
               SortLinks(Links(checked, DIMENSIONS)))
  }

  /** `reduce_book_classification_assertions`; None where it raises. */
  function Project(env: Env, target: Target, items: seq<Assertion>): (p: Option<Projection>) {
    if Valid(target, items) then Some(ProjectChecked(env, target, SortAssertions(items))) else None
  }

  /** The loop over the dimensions. */
  method ReduceDimensions(checked: seq<Assertion>, ds: seq<Dimension>) returns (facets: seq<Facet>, links: seq<Link>)
    ensures facets == Facets(checked, ds) && links == Links(checked, ds)
  {
    hide ReduceFacet, IsSha256;
    facets, links := [], [];
    var i := 0;
    while i < |ds|
      invariant 0 <= i <= |ds|
      invariant facets + Facets(checked, ds[i..]) == Facets(checked, ds)
      invariant links + Links(checked, ds[i..]) == Links(checked, ds)
    {
      assert ds[i..][0] == ds[i] && ds[i..][1..] == ds[i + 1..];
      var (facet, more) := ReduceFacet(ds[i], OfDimension(checked, ds[i]));
      assert facets + ([facet] + Facets(checked, ds[i + 1..])) == facets + [facet] + Facets(checked, ds[i + 1..]);
      assert links + (more + Links(checked, ds[i + 1..])) == links + more + Links(checked, ds[i + 1..]);
      facets, links := facets + [facet], links + more;
      i := i + 1;
    }
    assert ds[i..] == [] && facets + [] == facets && links + [] == links;
  }

  /** `reduce_book_classification_assertions` */
  method Reduce(env: Env, target: Target, items: seq<Assertion>) returns (p: Option<Projection>)
    ensures p == Project(env, target, items)
  {
    hide Facets, Links, SortLinks, StatusOf, IsSha256, SortAssertions, DIMENSIONS, Keys;
    if !Valid(target, items) {
      return None;
    }
    var checked := SortAssertions(items);
    var fingerprint := env.fingerprint(target, Keys(checked));
    var facets, links := ReduceDimensions(checked, DIMENSIONS);
    p := Some(Projection(env.identity(target, fingerprint), target, fingerprint, StatusOf(checked, facets), facets,
                         SortLinks(links)));
  }

  // ---------- order ----------

  lemma KeyOrder()
    ensures Total((a: Assertion, b: Assertion) => KeyLe(a, b))
            && Transitive((a: Assertion, b: Assertion) => KeyLe(a, b))
    ensures Total((a: Link, b: Link) => Lex(a.key, b.key)) && Transitive((a: Link, b: Link) => Lex(a.key, b.key))
  {
    LexIsTotalOrder();
  }

  lemma SortAssertionsSorts(items: seq<Assertion>)
    ensures SameElements(SortAssertions(items), items)
    ensures forall i, j :: 0 <= i < j < |SortAssertions(items)| ==>
              Lex(SortAssertions(items)[i].key, SortAssertions(items)[j].key)
  {
    KeyOrder();
    var le := (a: Assertion, b: Assertion) => KeyLe(a, b);
    SortLeKeeps(items, le);
    SortLeOrders(items, le);
  }

  /** Keys in ascending order, each once. */
  ghost predicate Ascends(ks: seq<string>) { forall i, j :: 0 <= i < j < |ks| ==> Lex(ks[i], ks[j]) && ks[i] != ks[j] }

  lemma SameKeyLists(a: seq<string>, b: seq<string>)
    requires Ascends(a) && Ascends(b) && forall k :: k in a <==> k in b
    ensures a == b
  {
    LexIsTotalOrder();
    var keys := set k | k in a;
    AscendingIsUnique(a, b, keys, Lex);
  }

  function KeyList<T>(s: seq<T>, key: T -> string): (ks: seq<string>)
    ensures |ks| == |s| && forall i :: 0 <= i < |ks| ==> ks[i] == key(s[i])
  {
    seq(|s|, i requires 0 <= i < |s| => key(s[i]))
  }

  function AssertionKeys(items: seq<Assertion>): (ks: seq<string>)
    ensures |ks| == |items| && forall i :: 0 <= i < |ks| ==> ks[i] == items[i].key
  {
    KeyList(items, (a: Assertion) => a.key)
  }

  lemma KeysAreThere<T>(a: seq<T>, b: seq<T>, key: T -> string, k: string)
    requires SameElements(a, b) && k in KeyList(a, key)
    ensures k in KeyList(b, key)
  {
    SameMembers(a, b);
    var i :| 0 <= i < |a| && KeyList(a, key)[i] == k;
    assert a[i] in b;
    var j :| 0 <= j < |b| && b[j] == a[i];
    assert KeyList(b, key)[j] == k;
  }

  /** Two lists of the same elements in ascending order of distinct keys are the same list. */
  lemma KeyedListIsUnique<T>(a: seq<T>, b: seq<T>, key: T -> string)
    requires SameElements(a, b) && Ascends(KeyList(a, key)) && Ascends(KeyList(b, key))
    ensures a == b
  {
    SameLength(a, b);
    SameMembers(a, b);
    var x, y := KeyList(a, key), KeyList(b, key);
    forall k ensures k in x <==> k in y {
      if k in x { KeysAreThere(a, b, key, k); }
      if k in y { KeysAreThere(b, a, key, k); }
    }
    SameKeyLists(x, y);
    forall i | 0 <= i < |a| ensures a[i] == b[i] {
      assert a[i] in b;
      var j :| 0 <= j < |b| && b[j] == a[i];
      assert y[j] == x[i] == y[i];
    }
  }

  lemma KeysDistinctIgnoresOrder(a: seq<Assertion>, b: seq<Assertion>)
    requires SameElements(a, b) && DistinctAssertionKeys(a)
    ensures DistinctAssertionKeys(b)
  {
    hide IsSha256;
    SameMembers(a, b);
    forall i, j | 0 <= i < j < |b| ensures b[i].key != b[j].key {
      if b[i].key == b[j].key {
        assert b[i] in a && b[j] in a;
        var x :| 0 <= x < |a| && a[x] == b[i];
        var y :| 0 <= y < |a| && a[y] == b[j];
        assert x == y;
        KeyTwice(a, b, i, j);
      }
    }
  }

  lemma KeyTwice(a: seq<Assertion>, b: seq<Assertion>, i: nat, j: nat)
    requires SameElements(a, b) && DistinctAssertionKeys(a) && i < j < |b|
    ensures b[i] != b[j]
  {
    hide IsSha256;
    assert b == b[..i] + [b[i]] + b[i + 1..j] + [b[j]] + b[j + 1..];
    if b[i] == b[j] {
      assert multiset(b)[b[i]] >= 2;
      OnceByKey(a, b[i]);
    }
  }

  lemma {:induction false} OnceByKey(a: seq<Assertion>, x: Assertion)
    requires DistinctAssertionKeys(a)
    ensures multiset(a)[x] <= 1
  {
    hide IsSha256;
    if a != [] {
      assert a == [a[0]] + a[1..];
      OnceByKey(a[1..], x);
      if a[0] == x {
        assert forall i :: 0 <= i < |a[1..]| ==> a[1..][i].key != x.key;
        assert x !in a[1..];
        assert multiset(a[1..])[x] == 0;
      }
    }
  }

  lemma SortedAscends(items: seq<Assertion>)
    requires DistinctAssertionKeys(items)
    ensures Ascends(AssertionKeys(SortAssertions(items))) && DistinctAssertionKeys(SortAssertions(items))
  {
    hide IsSha256, SortAssertions, Lex;
    SortAssertionsSorts(items);
    KeysDistinctIgnoresOrder(items, SortAssertions(items));
  }

  lemma SortIgnoresOrder(a: seq<Assertion>, b: seq<Assertion>)
    requires SameElements(a, b) && DistinctAssertionKeys(a)
    ensures SortAssertions(a) == SortAssertions(b)
  {
    hide IsSha256, SortAssertions, Lex, Ascends, DistinctAssertionKeys;
    KeysDistinctIgnoresOrder(a, b);
    SortAssertionsSorts(a);
    SortAssertionsSorts(b);
    SortedAscends(a);
    SortedAscends(b);
    KeyedListIsUnique(SortAssertions(a), SortAssertions(b), (x: Assertion) => x.key);
  }

  lemma ValidIgnoresOrder(target: Target, a: seq<Assertion>, b: seq<Assertion>)
    requires SameElements(a, b) && Valid(target, a)
    ensures Valid(target, b)
  {
    hide IsSha256, DistinctAssertionKeys;
    KeysDistinctIgnoresOrder(a, b);
    SameMembers(a, b);
    forall i | 0 <= i < |b| ensures b[i].target == target && b[i].currentProfile {
      assert b[i] in a;
    }
  }

  /** The projection, or the refusal, is the same for every order of the assertions. */
  lemma ProjectionIgnoresOrder(env: Env, target: Target, a: seq<Assertion>, b: seq<Assertion>)
    requires SameElements(a, b)
    ensures Project(env, target, a) == Project(env, target, b)
  {
    hide IsSha256, ProjectChecked, SortAssertions, Valid;
    if Valid(target, a) {
      ValidIgnoresOrder(target, a, b);
      ValidHasDistinctKeys(target, a);
      SortIgnoresOrder(a, b);
    } else if Valid(target, b) {
      ValidIgnoresOrder(target, b, a);
    }
  }

  lemma ValidHasDistinctKeys(target: Target, items: seq<Assertion>)
    requires Valid(target, items)
    ensures DistinctAssertionKeys(items) && target.kind != OtherEntity
  {
  }

  // ---------- what a facet says ----------

  lemma {:induction false} SortedSetSize<T(!new)>(s: set<T>, le: (T, T) -> bool)
    requires TotalOrder(le)
    ensures |SortedSet(s, le)| == |s|
    decreases |s|
  {
    if s != {} {
      OneLeast(s, le);
      var m :| m in s && IsLeast(m, s, le) && SortedSet(s, le) == [m] + SortedSet(s - {m}, le);
      SortedSetSize(s - {m}, le);
    }
  }

  lemma SomeoneIsHighest(items: seq<Assertion>)
    requires items != []
    ensures DistinctPairs(items) != {}
  {
    hide IsSha256;
    var i := 0;
    if Highest(items) == UserConfirmed {
      i :| 0 <= i < |items| && items[i].tier == UserConfirmed;
    }
    assert items[i] in items && items[i].tier == Highest(items);
    assert (items[i].taxonomy, items[i].value) in DistinctPairs(items);
  }

  /** The pairs of a facet's values, in order. */
  predicate Holds(values: seq<Value>, ps: set<Pair>) {
    |values| == |ps| && forall i :: 0 <= i < |values| ==> values[i].Pair() in ps
  }

  lemma PairsAreNonEmpty(items: seq<Assertion>)
    ensures forall p :: p in DistinctPairs(items) ==> p.0 != "" && p.1 != ""
  {
    hide IsSha256, Highest;
  }

  lemma SortedPairsAre(items: seq<Assertion>)
    ensures ElementsOf(SortedPairs(items), DistinctPairs(items)) && Ascending(SortedPairs(items), PairLe)
    ensures |SortedPairs(items)| == |DistinctPairs(items)|
  {
    hide IsSha256, DistinctPairs, PairLe;
    PairOrder();
    SortedSetIsSorted(DistinctPairs(items), PairLe);
    SortedSetSize(DistinctPairs(items), PairLe);
  }

  lemma ValuesHold(sorted: seq<Pair>, ps: set<Pair>)
    requires ElementsOf(sorted, ps) && Ascending(sorted, PairLe) && |sorted| == |ps|
    requires forall p :: p in ps ==> p.0 != "" && p.1 != ""
    ensures var vs := ValuesOf(sorted);
            && Holds(vs, ps) && (forall p :: p in ps ==> exists i :: 0 <= i < |vs| && vs[i].Pair() == p)
            && (forall i :: 0 <= i < |vs| ==> vs[i].ordinal == i && vs[i].Constructible())
            && (forall i, j :: 0 <= i < j < |vs| ==> PairLe(vs[i].Pair(), vs[j].Pair()) && vs[i].Pair() != vs[j].Pair())
  {
    hide PairLe;
    var vs := ValuesOf(sorted);
    forall i | 0 <= i < |vs| ensures vs[i].Pair() == sorted[i] && sorted[i] in ps {
      assert sorted[i] in sorted;
    }
    forall p | p in ps ensures exists i :: 0 <= i < |vs| && vs[i].Pair() == p {
      var i :| 0 <= i < |sorted| && sorted[i] == p;
      assert vs[i].Pair() == p;
    }
  }

  /** A facet is empty without assertions, otherwise holds exactly the different values of the highest tier when they
      are within the limit, otherwise a conflict; it is always one its constructor takes. */
  lemma FacetSaysTheHighestTier(d: Dimension, items: seq<Assertion>)
    ensures var f, ps := FacetOf(d, items), DistinctPairs(items);
            && f.Constructible() && f.dimension == d
            && (f.status == EmptyFacet <==> items == [])
            && (f.status == ProjectedFacet <==> items != [] && |ps| <= ValueLimit(d))
            && (f.status == ProjectedFacet ==> Holds(f.values, ps) && forall p :: p in ps ==> exists i ::
                  0 <= i < |f.values| && f.values[i].Pair() == p)
  {
    hide IsSha256, PairLe, DistinctPairs, SortedPairs, Highest, Holds, Ascending, ElementsOf;
    SortedPairsAre(items);
    PairsAreNonEmpty(items);
    ValuesHold(SortedPairs(items), DistinctPairs(items));
    if items != [] { SomeoneIsHighest(items); }
  }

  lemma SameHighestSameFacet(d: Dimension, a: seq<Assertion>, b: seq<Assertion>)
    requires (a == [] <==> b == []) && Highest(a) == Highest(b) && DistinctPairs(a) == DistinctPairs(b)
    ensures FacetOf(d, a) == FacetOf(d, b)
  {
    hide IsSha256, PairLe, Highest, DistinctPairs;
  }

  /** With a confirmed assertion present, the automated ones do not matter to the facet at all. */
  lemma ConfirmedDecides(d: Dimension, a: seq<Assertion>, b: seq<Assertion>)
    requires exists x :: x in a && x.tier == UserConfirmed
    requires forall x: Assertion :: x.tier == UserConfirmed ==> (x in a <==> x in b)
    ensures FacetOf(d, a) == FacetOf(d, b)
  {
    hide IsSha256, FacetOf;
    var x :| x in a && x.tier == UserConfirmed;
    var i :| 0 <= i < |a| && a[i] == x;
    var j :| 0 <= j < |b| && b[j] == x;
    forall p ensures p in DistinctPairs(a) <==> p in DistinctPairs(b) {
    }
    assert DistinctPairs(a) == DistinctPairs(b);
    SameHighestSameFacet(d, a, b);
  }

  lemma {:induction false} FacetAt(items: seq<Assertion>, ds: seq<Dimension>, k: nat)
    requires k < |ds|
    ensures |Facets(items, ds)| == |ds| && Facets(items, ds)[k] == FacetOf(ds[k], OfDimension(items, ds[k]))
    decreases |ds|
  {
    hide IsSha256, FacetOf, LinkOf, FacetConflict, Highest;
    if k > 0 {
      FacetAt(items, ds[1..], k - 1);
    } else if |ds| > 1 {
      FacetAt(items, ds[1..], 0);
    }
  }

  lemma DimensionMembers(items: seq<Assertion>, d: Dimension, x: Assertion)
    ensures x in OfDimension(SortAssertions(items), d) <==> x in items && x.dimension == d
  {
    hide IsSha256, SortAssertions, Lex;
    SortAssertionsSorts(items);
    SameMembers(SortAssertions(items), items);
    FilterMembers(SortAssertions(items), (a: Assertion) => a.dimension == d);
  }

  /** A facet with a confirmed assertion stays as it is when automated assertions join, wherever they come in. */
  lemma AutomatedLeaveConfirmedAlone(env: Env, target: Target, items: seq<Assertion>, all: seq<Assertion>, k: nat)
    requires Valid(target, items) && Valid(target, all) && k < |DIMENSIONS|
    requires exists x :: x in items && x.dimension == DIMENSIONS[k] && x.tier == UserConfirmed
    requires forall x: Assertion :: x.tier == UserConfirmed ==> (x in items <==> x in all)
    ensures var p, q := Project(env, target, items).value, Project(env, target, all).value;
            |p.facets| == |q.facets| == |DIMENSIONS| && p.facets[k] == q.facets[k]
  {
    hide IsSha256, SortAssertions, OfDimension, FacetOf, DIMENSIONS, Valid, Facets, Links, SortLinks, StatusOf, Keys;
    var d := DIMENSIONS[k];
    var a, b := OfDimension(SortAssertions(items), d), OfDimension(SortAssertions(all), d);
    var x :| x in items && x.dimension == d && x.tier == UserConfirmed;
    DimensionMembers(items, d, x);
    forall y: Assertion | y.tier == UserConfirmed ensures y in a <==> y in b {
      DimensionMembers(items, d, y);
      DimensionMembers(all, d, y);
    }
    ConfirmedDecides(d, a, b);
    FacetAt(SortAssertions(items), DIMENSIONS, k);
    FacetAt(SortAssertions(all), DIMENSIONS, k);
  }

  // ---------- every assertion is linked once ----------

  /** The link of an assertion among all checked ones. */
  function LinkFor(all: seq<Assertion>, a: Assertion): (l: Link) {
    LinkOf(a.dimension, OfDimension(all, a.dimension), a)
  }

  function LinksFor(all: seq<Assertion>, of: seq<Assertion>): (ls: seq<Link>)
    ensures |ls| == |of| && forall i :: 0 <= i < |ls| ==> ls[i] == LinkFor(all, of[i])
  {
    seq(|of|, i requires 0 <= i < |of| => LinkFor(all, of[i]))
  }

  lemma {:induction false} LinksForIgnoresOrder(all: seq<Assertion>, a: seq<Assertion>, b: seq<Assertion>)
    requires SameElements(a, b)
    ensures SameElements(LinksFor(all, a), LinksFor(all, b))
    decreases |a|
  {
    hide IsSha256, LinkFor;
    SameLength(a, b);
    if a != [] {
      var k := FindHead(a, b);
      LinksForIgnoresOrder(all, a[1..], Without(b, k));
      assert LinksFor(all, a) == [LinkFor(all, a[0])] + LinksFor(all, a[1..]);
      WithoutElements(LinksFor(all, b), k);
      assert Without(LinksFor(all, b), k) == LinksFor(all, Without(b, k));
    }
  }

  lemma LinksForAppend(all: seq<Assertion>, a: seq<Assertion>, b: seq<Assertion>)
    ensures LinksFor(all, a + b) == LinksFor(all, a) + LinksFor(all, b)
  {
    hide IsSha256, LinkFor;
  }

  lemma {:induction false} TiersPartition(items: seq<Assertion>, t: Tier)
    ensures SameElements(InTier(items, t) + OutOfTier(items, t), items)
  {
    hide IsSha256;
    if items != [] {
      TiersPartition(items[1..], t);
      assert items == [items[0]] + items[1..];
    }
  }

  lemma ReduceLinks(all: seq<Assertion>, d: Dimension)
    ensures SameElements(ReduceFacet(d, OfDimension(all, d)).1, LinksFor(all, OfDimension(all, d)))
  {
    hide IsSha256, LinkOf, FacetConflict, Highest, FacetOf;
    var items := OfDimension(all, d);
    FilterMembers(all, (a: Assertion) => a.dimension == d);
    assert forall i :: 0 <= i < |items| ==> items[i] in items;
    if items != [] {
      var t := Highest(items);
      var order := if FacetConflict(d, items).Some? then items else InTier(items, t) + OutOfTier(items, t);
      TiersPartition(items, t);
      SameMembers(order, items);
      assert forall i :: 0 <= i < |order| ==> order[i] in order;
      assert LinksOf(d, items, order) == LinksFor(all, order);
      LinksForIgnoresOrder(all, order, items);
    }
  }

  function Grouped(all: seq<Assertion>, ds: seq<Dimension>): (r: seq<Assertion>) {
    if ds == [] then [] else OfDimension(all, ds[0]) + Grouped(all, ds[1..])
  }

  lemma {:induction false} LinksAreGrouped(all: seq<Assertion>, ds: seq<Dimension>)
    ensures SameElements(Links(all, ds), LinksFor(all, Grouped(all, ds)))
    decreases |ds|
  {
    hide IsSha256, LinkFor, ReduceFacet, OfDimension;
    if ds != [] {
      ReduceLinks(all, ds[0]);
      LinksAreGrouped(all, ds[1..]);
      LinksForAppend(all, OfDimension(all, ds[0]), Grouped(all, ds[1..]));
    }
  }

  lemma {:induction false} GroupedHead(a: Assertion, rest: seq<Assertion>, ds: seq<Dimension>)
    requires forall i, j :: 0 <= i < j < |ds| ==> ds[i] != ds[j]
    ensures multiset(Grouped([a] + rest, ds)) == multiset(Grouped(rest, ds))
            + (if a.dimension in ds then multiset{a} else multiset{})
    decreases |ds|
  {
    hide IsSha256;
    if ds != [] {
      assert ([a] + rest)[1..] == rest && ds == [ds[0]] + ds[1..];
      GroupedHead(a, rest, ds[1..]);
      assert ds[0] !in ds[1..];
    }
  }

  lemma {:induction false} GroupedNothing(ds: seq<Dimension>)
    ensures Grouped([], ds) == []
  {
    if ds != [] { GroupedNothing(ds[1..]); }
  }

  lemma {:induction false} GroupedIsAll(all: seq<Assertion>, ds: seq<Dimension>)
    requires (forall i, j :: 0 <= i < j < |ds| ==> ds[i] != ds[j]) && forall d: Dimension :: d in ds
    ensures SameElements(Grouped(all, ds), all)
    decreases |all|
  {
    hide IsSha256, Grouped;
    if all == [] {
      GroupedNothing(ds);
    } else {
      assert all == [all[0]] + all[1..];
      GroupedHead(all[0], all[1..], ds);
      GroupedIsAll(all[1..], ds);
    }
  }

  lemma DimensionsAreAll()
    ensures (forall i, j :: 0 <= i < j < |DIMENSIONS| ==> DIMENSIONS[i] != DIMENSIONS[j])
            && forall d: Dimension :: d in DIMENSIONS
  {
    forall d: Dimension ensures d in DIMENSIONS {
      match d
      case Domain => assert DIMENSIONS[0] == d;
      case Genre => assert DIMENSIONS[1] == d;
      case Subgenre => assert DIMENSIONS[2] == d;
      case Topic => assert DIMENSIONS[3] == d;
      case Audience => assert DIMENSIONS[4] == d;
      case Language => assert DIMENSIONS[5] == d;
      case Form => assert DIMENSIONS[6] == d;
    }
  }

  lemma SortLinksSorts(ls: seq<Link>)
    ensures SameElements(SortLinks(ls), ls)
    ensures forall i, j :: 0 <= i < j < |SortLinks(ls)| ==> Lex(SortLinks(ls)[i].key, SortLinks(ls)[j].key)
  {
    KeyOrder();
    var le := (a: Link, b: Link) => Lex(a.key, b.key);
    SortLeKeeps(ls, le);
    SortLeOrders(ls, le);
  }

  lemma LinkKey(all: seq<Assertion>, a: Assertion)
    ensures LinkFor(all, a).key == a.key && LinkFor(all, a).id == a.id && LinkFor(all, a).Constructible()
  {
    hide IsSha256, OfDimension, FacetConflict, Highest;
  }

  /** The links of a projection are exactly the links of its assertions, one each, in key order. */
  lemma EveryAssertionIsLinkedOnce(checked: seq<Assertion>)
    requires Ascends(AssertionKeys(checked))
    ensures SortLinks(Links(checked, DIMENSIONS)) == LinksFor(checked, checked)
  {
    hide IsSha256, LinkFor, Lex, SortLinks, Links, DIMENSIONS, Grouped;
    var links, wanted := SortLinks(Links(checked, DIMENSIONS)), LinksFor(checked, checked);
    SortLinksSorts(Links(checked, DIMENSIONS));
    LinksAreGrouped(checked, DIMENSIONS);
    DimensionsAreAll();
    GroupedIsAll(checked, DIMENSIONS);
    LinksForIgnoresOrder(checked, Grouped(checked, DIMENSIONS), checked);
    assert SameElements(links, wanted);
    forall i | 0 <= i < |wanted| ensures wanted[i].key == checked[i].key { LinkKey(checked, checked[i]); }
    WantedAscends(checked, wanted);
    SortedLinksAscend(links, wanted);
    KeyedListIsUnique(links, wanted, (l: Link) => l.key);
  }

  lemma WantedAscends(checked: seq<Assertion>, wanted: seq<Link>)
    requires |wanted| == |checked| && forall i :: 0 <= i < |wanted| ==> wanted[i].key == checked[i].key
    requires Ascends(AssertionKeys(checked))
    ensures Ascends(KeyList(wanted, (l: Link) => l.key))
  {
    hide IsSha256, Lex;
    assert KeyList(wanted, (l: Link) => l.key) == AssertionKeys(checked);
  }

  lemma SortedLinksAscend(links: seq<Link>, wanted: seq<Link>)
    requires SameElements(links, wanted) && Ascends(KeyList(wanted, (l: Link) => l.key))
    requires forall i, j :: 0 <= i < j < |links| ==> Lex(links[i].key, links[j].key)
    ensures Ascends(KeyList(links, (l: Link) => l.key))
  {
    hide IsSha256, Lex;
    SameMembers(links, wanted);
    var ks := KeyList(wanted, (l: Link) => l.key);
    forall i, j | 0 <= i < j < |links| ensures links[i].key != links[j].key {
      assert links[i] in wanted && links[j] in wanted;
      var x :| 0 <= x < |wanted| && wanted[x] == links[i];
      var y :| 0 <= y < |wanted| && wanted[y] == links[j];
      if links[i].key == links[j].key {
        assert ks[x] == ks[y];
        assert x == y;
        LinkTwice(links, wanted, i, j, x);
      }
    }
  }

  lemma LinkTwice(links: seq<Link>, wanted: seq<Link>, i: nat, j: nat, x: nat)
    requires SameElements(links, wanted) && i < j < |links| && x < |wanted|
    requires forall y :: 0 <= y < |wanted| && wanted[y] == wanted[x] ==> y == x
    ensures !(links[i] == links[j] == wanted[x])
  {
    hide IsSha256;
    if links[i] == links[j] {
      TwiceIn(links, i, j);
    }
    OnceIn(wanted, x);
  }

  // ---------- the constructors ----------

  lemma CheckedAscends(target: Target, items: seq<Assertion>)
    requires Valid(target, items)
    ensures Ascends(AssertionKeys(SortAssertions(items))) && SameElements(SortAssertions(items), items)
  {
    hide IsSha256, SortAssertions, DistinctAssertionKeys, Ascends, Lex;
    SortedAscends(items);
    SortAssertionsSorts(items);
  }

  lemma AnyFacet(checked: seq<Assertion>, fs: seq<Facet>)
    requires fs == Facets(checked, DIMENSIONS)
    ensures |fs| == |DIMENSIONS|
    ensures forall k :: 0 <= k < |fs| ==> fs[k] == FacetOf(DIMENSIONS[k], OfDimension(checked, DIMENSIONS[k]))
                                          && fs[k].dimension == DIMENSIONS[k] && fs[k].Constructible()
  {
    hide IsSha256, FacetOf, OfDimension, DIMENSIONS, Facets;
    SomeDimension();
    FacetAt(checked, DIMENSIONS, 0);
    forall k | 0 <= k < |DIMENSIONS|
      ensures |fs| == |DIMENSIONS| && fs[k] == FacetOf(DIMENSIONS[k], OfDimension(checked, DIMENSIONS[k]))
      ensures fs[k].dimension == DIMENSIONS[k] && fs[k].Constructible()
    {
      FacetAt(checked, DIMENSIONS, k);
      FacetSaysTheHighestTier(DIMENSIONS[k], OfDimension(checked, DIMENSIONS[k]));
    }
  }

  lemma SomeDimension()
    ensures DIMENSIONS != []
  {
  }

  lemma NonEmptyFacet(checked: seq<Assertion>, fs: seq<Facet>, k: nat)
    requires fs == Facets(checked, DIMENSIONS) && k < |DIMENSIONS|
    ensures |fs| == |DIMENSIONS|
    ensures fs[k].status == EmptyFacet <==> OfDimension(checked, DIMENSIONS[k]) == []
  {
    hide IsSha256, FacetOf, OfDimension, DIMENSIONS, Facets;
    AnyFacet(checked, fs);
    FacetSaysTheHighestTier(DIMENSIONS[k], OfDimension(checked, DIMENSIONS[k]));
  }

  /** The status of the whole fits the facets, as its constructor demands. */
  lemma StatusFits(checked: seq<Assertion>, fs: seq<Facet>)
    requires fs == Facets(checked, DIMENSIONS)
    ensures checked == [] ==> forall k :: 0 <= k < |fs| ==> fs[k].status == EmptyFacet
    ensures checked != [] ==> exists k :: 0 <= k < |fs| && fs[k].status != EmptyFacet
  {
    hide IsSha256, FacetOf, DIMENSIONS, Facets, OfDimension;
    AnyFacet(checked, fs);
    if checked == [] {
      forall k | 0 <= k < |fs| ensures fs[k].status == EmptyFacet {
        NonEmptyFacet(checked, fs, k);
        NothingOfDimension(DIMENSIONS[k]);
      }
    } else {
      DimensionsAreAll();
      assert checked[0].dimension in DIMENSIONS;
      var k :| 0 <= k < |DIMENSIONS| && DIMENSIONS[k] == checked[0].dimension;
      NonEmptyFacet(checked, fs, k);
      SomethingOfDimension(checked, DIMENSIONS[k]);
    }
  }

  lemma NothingOfDimension(d: Dimension)
    ensures OfDimension([], d) == []
  {
  }

  lemma SomethingOfDimension(checked: seq<Assertion>, d: Dimension)
    requires checked != [] && checked[0].dimension == d
    ensures OfDimension(checked, d) != []
  {
    hide IsSha256;
  }

  /** Whatever the reduction returns, its own constructor takes; and every assertion has its one link. */
  lemma ProjectionIsConstructible(env: Env, target: Target, items: seq<Assertion>)
    requires Valid(target, items)
    ensures var p := Project(env, target, items).value;
            && p.Constructible(env)
            && (forall k :: 0 <= k < |p.facets| ==> p.facets[k].Constructible())
            && p.links == LinksFor(SortAssertions(items), SortAssertions(items))
            && SameElements(SortAssertions(items), items)
            && (forall i :: 0 <= i < |p.links| ==> p.links[i].Constructible())
  {
    hide IsSha256, SortAssertions, Lex, Facets, Links, SortLinks, DIMENSIONS, Keys, LinkFor, Valid;
    var checked := SortAssertions(items);
    var p := Project(env, target, items).value;
    CheckedAscends(target, items);
    EveryAssertionIsLinkedOnce(checked);
    AnyFacet(checked, p.facets);
    StatusFits(checked, p.facets);
    ValidHasDistinctKeys(target, items);
    forall i | 0 <= i < |p.links| ensures p.links[i].Constructible() && p.links[i].key == checked[i].key {
      LinkKey(checked, checked[i]);
    }
    forall i, j | 0 <= i < j < |p.links| ensures Lex(p.links[i].key, p.links[j].key)
                  && p.links[i].key != p.links[j].key {
      assert AssertionKeys(checked)[i] == checked[i].key && AssertionKeys(checked)[j] == checked[j].key;
    }
  }
}
