/** TriangleGraph: the currency triangles of an instrument catalog.

    Generation walks every ordered triple of distinct traded currencies and
    keeps those whose cycle closes through listed, non-fiat pairs and ends on
    a default currency; each leg is oriented the way the catalog lists it.
    Filtering then applies the eligibility rule over the six leg currencies. */
module TriangleGraph {
  import opened Instruments
  import opened Seqs

  datatype Triangle = Triangle(leg1: Pair, leg2: Pair, leg3: Pair)

  predicate Eligible(p: Pair) {
    !TouchesExcluded(p)
  }

  /** `p` joins `x` and `y`, in either orientation. */
  predicate Connects(p: Pair, x: Currency, y: Currency) {
    (p.base == x && p.quote == y) || (p.base == y && p.quote == x)
  }

  /** `y` is in the adjacency list of `x`: some eligible pair joins them. */
  predicate Linked(catalog: seq<Pair>, x: Currency, y: Currency) {
    exists p :: p in catalog && Eligible(p) && Connects(p, x, y)
  }

  /** `c` belongs to the traded-currency set: some eligible pair involves it. */
  predicate Traded(catalog: seq<Pair>, c: Currency) {
    exists p :: p in catalog && Eligible(p) && Involves(p, c)
  }

  /** `cs` lists the traded-currency set once each, in some order. */
  ghost predicate Enumerates(catalog: seq<Pair>, cs: seq<Currency>) {
    Distinct(cs) && forall c :: c in cs <==> Traded(catalog, c)
  }

  function AddNew(cs: seq<Currency>, c: Currency): seq<Currency> {
    if c in cs then cs else cs + [c]
  }

  lemma TradedSplit(catalog: seq<Pair>, c: Currency)
    requires |catalog| > 0
    ensures Traded(catalog, c) <==>
              Traded(catalog[..|catalog| - 1], c)
              || (Eligible(catalog[|catalog| - 1]) && Involves(catalog[|catalog| - 1], c))
  {
    var init := catalog[..|catalog| - 1];
    var last := catalog[|catalog| - 1];
    assert catalog == init + [last];
    if Traded(catalog, c) {
      var p :| p in catalog && Eligible(p) && Involves(p, c);
      if p != last {
        assert p in init;
      }
    }
    if Traded(init, c) {
      var p :| p in init && Eligible(p) && Involves(p, c);
      assert p in catalog;
    }
  }

  /** The traded currencies in order of first appearance: one enumeration of the
      set the source builds while scanning the catalog. */
  function CurrenciesOf(catalog: seq<Pair>): (cs: seq<Currency>)
    ensures Enumerates(catalog, cs)
  {
    if |catalog| == 0 then []
    else
      var prev := CurrenciesOf(catalog[..|catalog| - 1]);
      var p := catalog[|catalog| - 1];
      var cs := if TouchesExcluded(p) then prev else AddNew(AddNew(prev, p.base), p.quote);
      assert forall c :: c in cs <==> Traded(catalog, c) by {
        forall c ensures c in cs <==> Traded(catalog, c) {
          TradedSplit(catalog, c);
        }
      }
      cs
  }

  /** The pair joining `x` and `y` as the catalog lists it: `x-y` if present,
      otherwise `y-x`. */
  function Orient(catalog: seq<Pair>, x: Currency, y: Currency): Pair {
    if Pair(x, y) in catalog then Pair(x, y) else Pair(y, x)
  }

  function Resolve(catalog: seq<Pair>, a: Currency, b: Currency, c: Currency): Triangle {
    Triangle(Orient(catalog, a, b), Orient(catalog, b, c), Orient(catalog, c, a))
  }

  predicate LegsListed(catalog: seq<Pair>, t: Triangle) {
    t.leg1 in catalog && t.leg2 in catalog && t.leg3 in catalog
  }

  /** The test applied to one permutation `(a, b, c)`. */
  predicate Closes(catalog: seq<Pair>, a: Currency, b: Currency, c: Currency) {
    && Linked(catalog, a, b)
    && Linked(catalog, b, c)
    && Linked(catalog, c, a)
    && c in DefaultCurrencies
    && LegsListed(catalog, Resolve(catalog, a, b, c))
  }

  /** The ordered triple `(a, b, c)` of distinct currencies produces `t`. */
  predicate Emits(catalog: seq<Pair>, a: Currency, b: Currency, c: Currency, t: Triangle) {
    a != b && b != c && a != c && Closes(catalog, a, b, c) && t == Resolve(catalog, a, b, c)
  }

  /** `t` is a triangle of the catalog. */
  ghost predicate IsTriangleOf(catalog: seq<Pair>, t: Triangle) {
    exists a, b, c :: Emits(catalog, a, b, c, t)
  }

  /** What every triangle of the catalog looks like, stated without the
      generation procedure. */
  ghost predicate ValidTriangle(catalog: seq<Pair>, t: Triangle) {
    && LegsListed(catalog, t)
    && Eligible(t.leg1) && Eligible(t.leg2) && Eligible(t.leg3)
    && exists a, b, c ::
         && a != b && b != c && a != c
         && Connects(t.leg1, a, b) && Connects(t.leg2, b, c) && Connects(t.leg3, c, a)
         && c in DefaultCurrencies
  }

  // ---------------------------------------------------------------------------
  // Generation: `permutations(currencies, 3)`, three nested scans.

  function ThirdLegs(catalog: seq<Pair>, a: Currency, b: Currency, cands: seq<Currency>): seq<Triangle>
    decreases |cands|
  {
    if |cands| == 0 then []
    else
      var c := cands[0];
      (if a != b && b != c && a != c && Closes(catalog, a, b, c) then [Resolve(catalog, a, b, c)] else [])
      + ThirdLegs(catalog, a, b, cands[1..])
  }

  function SecondLegs(catalog: seq<Pair>, cs: seq<Currency>, a: Currency, bs: seq<Currency>): seq<Triangle>
    decreases |bs|
  {
    if |bs| == 0 then []
    else ThirdLegs(catalog, a, bs[0], cs) + SecondLegs(catalog, cs, a, bs[1..])
  }

  function FirstLegs(catalog: seq<Pair>, cs: seq<Currency>, starts: seq<Currency>): seq<Triangle>
    decreases |starts|
  {
    if |starts| == 0 then []
    else SecondLegs(catalog, cs, starts[0], cs) + FirstLegs(catalog, cs, starts[1..])
  }

  /** `find_triangular_arbitrage`, with `cs` the iteration order of the currency set. */
  function Generate(catalog: seq<Pair>, cs: seq<Currency>): (r: seq<Triangle>)
    requires Enumerates(catalog, cs)
    ensures forall t :: t in r <==> IsTriangleOf(catalog, t)
    ensures forall t :: t in r ==> ValidTriangle(catalog, t)
    ensures Distinct(r)
  {
    GenerateFacts(catalog, cs);
    FirstLegs(catalog, cs, cs)
  }

  lemma {:induction false} ThirdLegsMembers(catalog: seq<Pair>, a: Currency, b: Currency, cands: seq<Currency>, t: Triangle)
    ensures t in ThirdLegs(catalog, a, b, cands) <==> exists c :: c in cands && Emits(catalog, a, b, c, t)
    decreases |cands|
  {
    if |cands| > 0 {
      var c0 := cands[0];
      var rest := cands[1..];
      ThirdLegsMembers(catalog, a, b, rest, t);
      var head := if a != b && b != c0 && a != c0 && Closes(catalog, a, b, c0) then [Resolve(catalog, a, b, c0)] else [];
      assert ThirdLegs(catalog, a, b, cands) == head + ThirdLegs(catalog, a, b, rest);
      if t in ThirdLegs(catalog, a, b, cands) {
        if t in head {
          assert Emits(catalog, a, b, c0, t);
        } else {
          var c :| c in rest && Emits(catalog, a, b, c, t);
          assert c in cands;
        }
      }
      if exists c :: c in cands && Emits(catalog, a, b, c, t) {
        var c :| c in cands && Emits(catalog, a, b, c, t);
        if c == c0 {
          assert t in head;
        } else {
          assert c in rest;
        }
      }
    }
  }

  lemma {:induction false} SecondLegsMembers(catalog: seq<Pair>, cs: seq<Currency>, a: Currency, bs: seq<Currency>, t: Triangle)
    ensures t in SecondLegs(catalog, cs, a, bs) <==>
              exists b, c :: b in bs && c in cs && Emits(catalog, a, b, c, t)
    decreases |bs|
  {
    if |bs| > 0 {
      var b0 := bs[0];
      var rest := bs[1..];
      SecondLegsMembers(catalog, cs, a, rest, t);
      ThirdLegsMembers(catalog, a, b0, cs, t);
      if t in SecondLegs(catalog, cs, a, bs) {
        if t in ThirdLegs(catalog, a, b0, cs) {
          var c :| c in cs && Emits(catalog, a, b0, c, t);
          assert b0 in bs;
        } else {
          var b, c :| b in rest && c in cs && Emits(catalog, a, b, c, t);
          assert b in bs;
        }
      }
      if exists b, c :: b in bs && c in cs && Emits(catalog, a, b, c, t) {
        var b, c :| b in bs && c in cs && Emits(catalog, a, b, c, t);
        if b == b0 {
          assert t in ThirdLegs(catalog, a, b0, cs);
        } else {
          assert b in rest;
        }
      }
    }
  }

  lemma {:induction false} FirstLegsMembers(catalog: seq<Pair>, cs: seq<Currency>, starts: seq<Currency>, t: Triangle)
    ensures t in FirstLegs(catalog, cs, starts) <==>
              exists a, b, c :: a in starts && b in cs && c in cs && Emits(catalog, a, b, c, t)
    decreases |starts|
  {
    if |starts| > 0 {
      var a0 := starts[0];
      var rest := starts[1..];
      FirstLegsMembers(catalog, cs, rest, t);
      SecondLegsMembers(catalog, cs, a0, cs, t);
      if t in FirstLegs(catalog, cs, starts) {
        if t in SecondLegs(catalog, cs, a0, cs) {
          var b, c :| b in cs && c in cs && Emits(catalog, a0, b, c, t);
          assert a0 in starts;
        } else {
          var a, b, c :| a in rest && b in cs && c in cs && Emits(catalog, a, b, c, t);
          assert a in starts;
        }
      }
      if exists a, b, c :: a in starts && b in cs && c in cs && Emits(catalog, a, b, c, t) {
        var a, b, c :| a in starts && b in cs && c in cs && Emits(catalog, a, b, c, t);
        if a == a0 {
          assert t in SecondLegs(catalog, cs, a0, cs);
        } else {
          assert a in rest;
        }
      }
    }
  }

  /** The resolved legs join exactly the permuted currencies. */
  lemma EmitsShape(catalog: seq<Pair>, a: Currency, b: Currency, c: Currency, t: Triangle)
    requires Emits(catalog, a, b, c, t)
    ensures Connects(t.leg1, a, b) && Connects(t.leg2, b, c) && Connects(t.leg3, c, a)
    ensures Traded(catalog, a) && Traded(catalog, b) && Traded(catalog, c)
    ensures ValidTriangle(catalog, t)
  {
    var p :| p in catalog && Eligible(p) && Connects(p, a, b);
    var q :| q in catalog && Eligible(q) && Connects(q, b, c);
    assert Involves(p, a) && Involves(p, b) && Involves(q, c);
    assert a !in ExcludedCurrencies && b !in ExcludedCurrencies && c !in ExcludedCurrencies;
  }

  /** Distinct triples yield distinct triangles: the triple is recovered from
      the legs (`b` is the currency shared by legs 1 and 2, and so on). */
  lemma EmitsInjective(catalog: seq<Pair>, a: Currency, b: Currency, c: Currency,
                       a': Currency, b': Currency, c': Currency, t: Triangle)
    requires Emits(catalog, a, b, c, t) && Emits(catalog, a', b', c', t)
    ensures a == a' && b == b' && c == c'
  {
    EmitsShape(catalog, a, b, c, t);
    EmitsShape(catalog, a', b', c', t);
  }

  lemma {:induction false} ThirdLegsDistinct(catalog: seq<Pair>, a: Currency, b: Currency, cands: seq<Currency>)
    requires Distinct(cands)
    ensures Distinct(ThirdLegs(catalog, a, b, cands))
    decreases |cands|
  {
    if |cands| > 0 {
      var c0 := cands[0];
      var rest := cands[1..];
      DistinctTail(cands);
      ThirdLegsDistinct(catalog, a, b, rest);
      var head := if a != b && b != c0 && a != c0 && Closes(catalog, a, b, c0) then [Resolve(catalog, a, b, c0)] else [];
      forall t | t in head ensures t !in ThirdLegs(catalog, a, b, rest) {
        assert Emits(catalog, a, b, c0, t);
        ThirdLegsMembers(catalog, a, b, rest, t);
        if t in ThirdLegs(catalog, a, b, rest) {
          var c :| c in rest && Emits(catalog, a, b, c, t);
          EmitsInjective(catalog, a, b, c0, a, b, c, t);
          assert false;
        }
      }
      DistinctConcat(head, ThirdLegs(catalog, a, b, rest));
    }
  }

  lemma {:induction false} SecondLegsDistinct(catalog: seq<Pair>, cs: seq<Currency>, a: Currency, bs: seq<Currency>)
    requires Distinct(cs) && Distinct(bs)
    ensures Distinct(SecondLegs(catalog, cs, a, bs))
    decreases |bs|
  {
    if |bs| > 0 {
      var b0 := bs[0];
      var rest := bs[1..];
      DistinctTail(bs);
      SecondLegsDistinct(catalog, cs, a, rest);
      ThirdLegsDistinct(catalog, a, b0, cs);
      forall t | t in ThirdLegs(catalog, a, b0, cs) ensures t !in SecondLegs(catalog, cs, a, rest) {
        ThirdLegsMembers(catalog, a, b0, cs, t);
        SecondLegsMembers(catalog, cs, a, rest, t);
        var c0 :| c0 in cs && Emits(catalog, a, b0, c0, t);
        if t in SecondLegs(catalog, cs, a, rest) {
          var b, c :| b in rest && c in cs && Emits(catalog, a, b, c, t);
          EmitsInjective(catalog, a, b0, c0, a, b, c, t);
          assert false;
        }
      }
      DistinctConcat(ThirdLegs(catalog, a, b0, cs), SecondLegs(catalog, cs, a, rest));
    }
  }

  lemma {:induction false} FirstLegsDistinct(catalog: seq<Pair>, cs: seq<Currency>, starts: seq<Currency>)
    requires Distinct(cs) && Distinct(starts)
    ensures Distinct(FirstLegs(catalog, cs, starts))
    decreases |starts|
  {
    if |starts| > 0 {
      var a0 := starts[0];
      var rest := starts[1..];
      DistinctTail(starts);
      FirstLegsDistinct(catalog, cs, rest);
      SecondLegsDistinct(catalog, cs, a0, cs);
      forall t | t in SecondLegs(catalog, cs, a0, cs) ensures t !in FirstLegs(catalog, cs, rest) {
        SecondLegsMembers(catalog, cs, a0, cs, t);
        FirstLegsMembers(catalog, cs, rest, t);
        var b0, c0 :| b0 in cs && c0 in cs && Emits(catalog, a0, b0, c0, t);
        if t in FirstLegs(catalog, cs, rest) {
          var a, b, c :| a in rest && b in cs && c in cs && Emits(catalog, a, b, c, t);
          EmitsInjective(catalog, a0, b0, c0, a, b, c, t);
          assert false;
        }
      }
      DistinctConcat(SecondLegs(catalog, cs, a0, cs), FirstLegs(catalog, cs, rest));
    }
  }

  lemma GenerateFacts(catalog: seq<Pair>, cs: seq<Currency>)
    requires Enumerates(catalog, cs)
    ensures forall t :: t in FirstLegs(catalog, cs, cs) <==> IsTriangleOf(catalog, t)
    ensures forall t :: t in FirstLegs(catalog, cs, cs) ==> ValidTriangle(catalog, t)
    ensures Distinct(FirstLegs(catalog, cs, cs))
  {
    FirstLegsDistinct(catalog, cs, cs);
    forall t ensures t in FirstLegs(catalog, cs, cs) <==> IsTriangleOf(catalog, t) {
      FirstLegsMembers(catalog, cs, cs, t);
      if IsTriangleOf(catalog, t) {
        var a, b, c :| Emits(catalog, a, b, c, t);
        EmitsShape(catalog, a, b, c, t);
        assert a in cs && b in cs && c in cs;
      }
    }
    forall t | t in FirstLegs(catalog, cs, cs) ensures ValidTriangle(catalog, t) {
      var a, b, c :| Emits(catalog, a, b, c, t);
      EmitsShape(catalog, a, b, c, t);
    }
  }

  /** The triangles found do not depend on the iteration order of the currency set. */
  lemma GenerateOrderIndependent(catalog: seq<Pair>, cs1: seq<Currency>, cs2: seq<Currency>)
    requires Enumerates(catalog, cs1) && Enumerates(catalog, cs2)
    ensures forall t :: t in Generate(catalog, cs1) <==> t in Generate(catalog, cs2)
    ensures |Generate(catalog, cs1)| == |Generate(catalog, cs2)|
  {
    var g1 := Generate(catalog, cs1);
    var g2 := Generate(catalog, cs2);
    DistinctCardinality(g1, g2);
  }

  lemma DistinctCardinality<T>(xs: seq<T>, ys: seq<T>)
    requires Distinct(xs) && Distinct(ys)
    requires forall e :: e in xs <==> e in ys
    ensures |xs| == |ys|
  {
    DistinctSetSize(xs);
    DistinctSetSize(ys);
    assert (set e | e in xs) == (set e | e in ys);
  }

  lemma {:induction false} DistinctSetSize<T>(xs: seq<T>)
    requires Distinct(xs)
    ensures |set e | e in xs| == |xs|
  {
    if |xs| > 0 {
      var rest := xs[1..];
      DistinctTail(xs);
      DistinctSetSize(rest);
      assert (set e | e in xs) == (set e | e in rest) + {xs[0]} by {
        assert xs == [xs[0]] + rest;
      }
    }
  }

  /** The "all three legs listed" re-check of the source never rejects a
      permutation whose currencies are linked: the oriented legs always exist. */
  lemma ListingCheckRedundant(catalog: seq<Pair>, a: Currency, b: Currency, c: Currency)
    ensures Closes(catalog, a, b, c) <==>
              Linked(catalog, a, b) && Linked(catalog, b, c) && Linked(catalog, c, a) && c in DefaultCurrencies
  {
    if Linked(catalog, a, b) && Linked(catalog, b, c) && Linked(catalog, c, a) {
      OrientListed(catalog, a, b);
      OrientListed(catalog, b, c);
      OrientListed(catalog, c, a);
    }
  }

  lemma OrientListed(catalog: seq<Pair>, x: Currency, y: Currency)
    requires Linked(catalog, x, y)
    ensures Orient(catalog, x, y) in catalog
  {
    var p :| p in catalog && Eligible(p) && Connects(p, x, y);
  }

  // ---------------------------------------------------------------------------
  // Filtering: `filter_triangles`.

  /** The six leg currencies, in the source's order. */
  function LegCurrencies(t: Triangle): seq<Currency> {
    [t.leg1.base, t.leg1.quote, t.leg2.base, t.leg2.quote, t.leg3.base, t.leg3.quote]
  }

  /** The eligibility rule for one triangle. */
  predicate Keeps(t: Triangle) {
    var cs := LegCurrencies(t);
    var containsConversion := exists c :: c in cs && c in TargetCurrencies;
    var lastPairValid := t.leg3.base in TargetCurrencies && t.leg3.quote in TargetCurrencies;
    var secondPairValid := t.leg2.base in BridgeCurrencies && t.leg2.quote in BridgeCurrencies;
    && (forall c :: c in cs ==> c !in ExcludedCurrencies)
    && ((containsConversion && lastPairValid) || secondPairValid)
  }

  /** The rule in plain terms: no fiat on any leg, and either the third leg is
      made of settlement currencies or the second leg of bridge currencies.
      (The "some leg has a settlement currency" condition is implied by the
      third-leg condition.) */
  lemma KeepsCharacterized(t: Triangle)
    ensures Keeps(t) <==>
              && !TouchesExcluded(t.leg1) && !TouchesExcluded(t.leg2) && !TouchesExcluded(t.leg3)
              && ((t.leg3.base in TargetCurrencies && t.leg3.quote in TargetCurrencies)
                  || (t.leg2.base in BridgeCurrencies && t.leg2.quote in BridgeCurrencies))
  {
    var cs := LegCurrencies(t);
    assert cs[4] == t.leg3.base;
    assert forall i :: 0 <= i < 6 ==> cs[i] in cs;
  }

  function FilterTriangles(ts: seq<Triangle>): (r: seq<Triangle>)
    ensures forall t :: t in r <==> t in ts && Keeps(t)
    ensures |r| <= |ts|
  {
    if |ts| == 0 then []
    else (if Keeps(ts[0]) then [ts[0]] else []) + FilterTriangles(ts[1..])
  }

  /** Filtering keeps the input order: it distributes over concatenation. */
  lemma {:induction false} FilterConcat(xs: seq<Triangle>, ys: seq<Triangle>)
    ensures FilterTriangles(xs + ys) == FilterTriangles(xs) + FilterTriangles(ys)
  {
    if |xs| > 0 {
      assert (xs + ys)[0] == xs[0];
      assert (xs + ys)[1..] == xs[1..] + ys;
      FilterConcat(xs[1..], ys);
    } else {
      assert xs + ys == ys;
    }
  }

  /** A sequence of kept triangles passes through unchanged. */
  lemma {:induction false} FilterKeepsAllKept(ts: seq<Triangle>)
    requires forall t :: t in ts ==> Keeps(t)
    ensures FilterTriangles(ts) == ts
  {
    if |ts| > 0 {
      assert forall t :: t in ts[1..] ==> t in ts;
      FilterKeepsAllKept(ts[1..]);
      assert Keeps(ts[0]);
      assert ts == [ts[0]] + ts[1..];
    }
  }

  /** Filtering twice is filtering once. */
  lemma FilterIdempotent(ts: seq<Triangle>)
    ensures FilterTriangles(FilterTriangles(ts)) == FilterTriangles(ts)
  {
    FilterKeepsAllKept(FilterTriangles(ts));
  }

  lemma {:induction false} FilterDistinct(ts: seq<Triangle>)
    requires Distinct(ts)
    ensures Distinct(FilterTriangles(ts))
  {
    if |ts| > 0 {
      var rest := ts[1..];
      DistinctTail(ts);
      FilterDistinct(rest);
      var head := if Keeps(ts[0]) then [ts[0]] else [];
      DistinctConcat(head, FilterTriangles(rest));
    }
  }

  /** Startup: generate over the catalog, then filter. The result lists every
      eligible triangle of the catalog exactly once. */
  function BuildTriangles(catalog: seq<Pair>): (r: seq<Triangle>)
    ensures Distinct(r)
    ensures forall t :: t in r <==> IsTriangleOf(catalog, t) && Keeps(t)
    ensures forall t :: t in r ==> ValidTriangle(catalog, t) && Keeps(t)
  {
    var g := Generate(catalog, CurrenciesOf(catalog));
    FilterDistinct(g);
    FilterTriangles(g)
  }
}
