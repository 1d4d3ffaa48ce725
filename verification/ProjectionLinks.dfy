/**
What a projection says of each assertion and each dimension, in terms of the tiers and values present alone.
*/
module ProjectionLinks {
  import opened Prelude
  import opened Permutations
  import opened Sorting
  import opened Projection

  /** A higher tier is present among the assertions of its dimension. */
  predicate Outranked(items: seq<Assertion>, a: Assertion) { a.tier == Automated && Confirmed(items, a.dimension) }

  predicate Confirmed(items: seq<Assertion>, d: Dimension) {
    exists b :: b in items && b.dimension == d && b.tier == UserConfirmed
  }

  /** The values of a dimension that nothing outranks. */
  function TopPairs(items: seq<Assertion>, d: Dimension): (ps: set<Pair>) {
    set a | a in items && a.dimension == d && !Outranked(items, a) :: (a.taxonomy, a.value)
  }

  /** The code of a facet in conflict. */
  function CodeOf(items: seq<Assertion>, d: Dimension): (c: ConflictCode) {
    if d != Domain then CardinalityExceeded
    else if Confirmed(items, d) then ConfirmedContradiction else MultipleExclusiveValues
  }

  /** The link fits the assertion and the facet of its dimension. */
  predicate LinkFits(items: seq<Assertion>, a: Assertion, f: Facet, l: Link) {
    && f.dimension == a.dimension && l.id == a.id && l.key == a.key
    && match f.status
       case EmptyFacet => false
       case ProjectedFacet => l.conflict == None && l.role == (if Outranked(items, a) then Considered else Selected)
       case ConflictFacet =>
         && f.conflict == Some(CodeOf(items, a.dimension))
         && (if a.dimension == Domain && Outranked(items, a) then l.role == Considered && l.conflict == None
             else l.role == Conflicting && l.conflict == f.conflict)
  }

  lemma HighestIsConfirmed(items: seq<Assertion>, d: Dimension)
    ensures Highest(OfDimension(SortAssertions(items), d)) == if Confirmed(items, d) then UserConfirmed else Automated
  {
    hide IsSha256, SortAssertions, OfDimension;
    var of := OfDimension(SortAssertions(items), d);
    forall x ensures x in of <==> x in items && x.dimension == d {
      DimensionMembers(items, d, x);
    }
    if Confirmed(items, d) {
      var b :| b in items && b.dimension == d && b.tier == UserConfirmed;
      assert b in of;
    }
    if i :| 0 <= i < |of| && of[i].tier == UserConfirmed {
      assert of[i] in of;
    }
  }

  lemma PairsAreTop(items: seq<Assertion>, d: Dimension)
    ensures DistinctPairs(OfDimension(SortAssertions(items), d)) == TopPairs(items, d)
  {
    hide IsSha256, SortAssertions, OfDimension, Highest, Confirmed;
    var of := OfDimension(SortAssertions(items), d);
    HighestIsConfirmed(items, d);
    forall x ensures x in of <==> x in items && x.dimension == d {
      DimensionMembers(items, d, x);
    }
    forall x | x in of ensures x.tier == Highest(of) <==> !Outranked(items, x) {
      if x.tier == UserConfirmed { ConfirmedBy(items, x); }
    }
  }

  lemma ConfirmedBy(items: seq<Assertion>, a: Assertion)
    requires a in items && a.tier == UserConfirmed
    ensures Confirmed(items, a.dimension)
  {
  }

  /** The dimension's facet among the seven, and the link of its assertion. */
  lemma FitsItsFacet(items: seq<Assertion>, a: Assertion)
    requires a in items
    ensures LinkFits(items, a, FacetOf(a.dimension, OfDimension(SortAssertions(items), a.dimension)),
                     LinkFor(SortAssertions(items), a))
  {
    hide IsSha256, SortAssertions, OfDimension, Highest, Confirmed, SortedPairs;
    var d := a.dimension;
    HighestIsConfirmed(items, d);
    DimensionMembers(items, d, a);
    if a.tier == UserConfirmed { ConfirmedBy(items, a); }
  }

  /** Every assertion of a projection has its one link, and that link fits the facet of its dimension: SELECTED or, when
      outranked, CONSIDERED under a projected facet; CONFLICTING with the code of the facet under a conflict, except
      for the outranked of the domain. */
  lemma LinkSaysItsFacet(env: Env, target: Target, items: seq<Assertion>, a: Assertion) returns (i: nat, k: nat)
    requires Valid(target, items) && a in items
    ensures var p := Project(env, target, items).value;
            && |p.links| == |items| && i < |p.links| && k < |p.facets|
            && LinkFits(items, a, p.facets[k], p.links[i])
            && forall j :: 0 <= j < |p.links| && p.links[j].key == a.key ==> j == i
  {
    hide IsSha256, SortAssertions, Lex, Facets, Links, SortLinks, DIMENSIONS, Keys, LinkFor, Valid, LinkFits, FacetOf,
         OfDimension, StatusOf;
    var checked := SortAssertions(items);
    var p := Project(env, target, items).value;
    ProjectionIsConstructible(env, target, items);
    SameLength(checked, items);
    SameMembers(checked, items);
    i :| 0 <= i < |checked| && checked[i] == a;
    DimensionsAreAll();
    assert a.dimension in DIMENSIONS;
    k :| 0 <= k < |DIMENSIONS| && DIMENSIONS[k] == a.dimension;
    AnyFacet(checked, p.facets);
    FitsItsFacet(items, a);
    LinkKey(checked, a);
    LinkKeysDiffer(env, p);
  }

  lemma LinkKeysDiffer(env: Env, p: Projection)
    requires p.Constructible(env)
    ensures forall i, j :: 0 <= i < |p.links| && 0 <= j < |p.links| && p.links[i].key == p.links[j].key ==> i == j
  {
    hide IsSha256, Lex;
    forall i, j | 0 <= i < |p.links| && 0 <= j < |p.links| && i != j ensures p.links[i].key != p.links[j].key {
      if j < i { assert p.links[j].key != p.links[i].key; }
    }
  }

  /** The facet of a dimension is empty without assertions of it; projects, in order and each once, exactly the values
      nothing outranks when they are within the limit; and is in conflict otherwise. */
  lemma FacetSaysItsValues(env: Env, target: Target, items: seq<Assertion>, k: nat)
    requires Valid(target, items) && k < |DIMENSIONS|
    ensures var p, d := Project(env, target, items).value, DIMENSIONS[k];
            |p.facets| == |DIMENSIONS|
            && var f, ps := p.facets[k], TopPairs(items, d);
               && f.dimension == d && f.Constructible()
               && (f.status == EmptyFacet <==> forall a :: a in items ==> a.dimension != d)
               && (f.status == ProjectedFacet <==> ps != {} && |ps| <= ValueLimit(d))
               && (f.status == ProjectedFacet ==> ps == set i | 0 <= i < |f.values| :: f.values[i].Pair())
               && (f.status == ConflictFacet ==> f.conflict == Some(CodeOf(items, d)))
  {
    hide IsSha256, SortAssertions, Facets, Links, SortLinks, Keys, FacetOf, OfDimension, StatusOf, DIMENSIONS, Valid,
         TopPairs, DistinctPairs, CodeOf, PairLe;
    var checked := SortAssertions(items);
    var p, d := Project(env, target, items).value, DIMENSIONS[k];
    var of := OfDimension(checked, d);
    AnyFacet(checked, p.facets);
    FacetSaysTheHighestTier(d, of);
    PairsAreTop(items, d);
    CodeIs(items, d);
    EmptyIffNone(items, d);
    SomePair(of);
    ValuesAreExactly(p.facets[k], DistinctPairs(of));
  }

  lemma SomePair(of: seq<Assertion>)
    ensures of != [] <==> DistinctPairs(of) != {}
  {
    hide IsSha256, Highest;
    if of != [] { SomeoneIsHighest(of); }
  }

  lemma EmptyIffNone(items: seq<Assertion>, d: Dimension)
    ensures OfDimension(SortAssertions(items), d) == [] <==> forall a :: a in items ==> a.dimension != d
  {
    hide IsSha256, SortAssertions, OfDimension;
    var of := OfDimension(SortAssertions(items), d);
    forall x ensures x in of <==> x in items && x.dimension == d {
      DimensionMembers(items, d, x);
    }
    if of != [] { assert of[0] in of; }
  }

  lemma CodeIs(items: seq<Assertion>, d: Dimension)
    ensures var f := FacetOf(d, OfDimension(SortAssertions(items), d));
            f.status == ConflictFacet ==> f.conflict == Some(CodeOf(items, d))
  {
    hide IsSha256, SortAssertions, OfDimension, Highest, Confirmed, SortedPairs;
    HighestIsConfirmed(items, d);
  }

  lemma ValuesAreExactly(f: Facet, ps: set<Pair>)
    requires f.status == ProjectedFacet ==> Holds(f.values, ps) && forall p :: p in ps ==> exists i ::
                 0 <= i < |f.values| && f.values[i].Pair() == p
    ensures f.status == ProjectedFacet ==> ps == set i | 0 <= i < |f.values| :: f.values[i].Pair()
  {
  }

  /** The identity of a projection is made of its target and the fingerprint of target and keys, the keys of exactly the
      given assertions in ascending order. */
  lemma IdentitySaysTheKeys(env: Env, target: Target, items: seq<Assertion>) returns (ks: seq<Sha256>)
    requires Valid(target, items)
    ensures var p := Project(env, target, items).value;
            && p.target == target && p.fingerprint == env.fingerprint(target, ks)
            && p.id == env.identity(target, p.fingerprint)
    ensures |ks| == |items| && (forall i, j :: 0 <= i < j < |ks| ==> Lex(ks[i], ks[j]) && ks[i] != ks[j])
    ensures forall k :: k in ks <==> exists a :: a in items && a.key == k
  {
    hide IsSha256, SortAssertions, Lex, Facets, Links, SortLinks, StatusOf, Valid;
    var checked := SortAssertions(items);
    ks := Keys(checked);
    CheckedAscends(target, items);
    SameLength(checked, items);
    SameMembers(checked, items);
    assert forall i :: 0 <= i < |ks| ==> ks[i] == AssertionKeys(checked)[i];
    forall k | k in ks ensures exists a :: a in items && a.key == k {
      var i :| 0 <= i < |ks| && ks[i] == k;
      assert checked[i] in items;
    }
    forall a | a in items ensures a.key in ks {
      var i :| 0 <= i < |checked| && checked[i] == a;
      assert ks[i] == a.key;
    }
  }
}
