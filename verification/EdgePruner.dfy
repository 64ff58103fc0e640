/** Normalising, deduplicating and degree-bounding a page-space edge set
    (`vector_lake/indexer.py`, `dedupe_and_prune_edges`). */
module EdgePruner {
  import opened Ordering

  // The pruner is a greedy b-matching: its result is maximal, canonical, idempotent, and worth at
  // least half of any other edge set under the same degree cap.

  /** An input row; a missing endpoint is the empty string, a missing weight is None. */
  datatype Edge = Edge(source: string, target: string, weight: Option<real>)
  datatype Pair = Pair(lo: string, hi: string)
  datatype Scored = Scored(pair: Pair, weight: real)

  const MAX_EDGES_PER_NODE := 15

  predicate Usable(e: Edge) { e.source != "" && e.target != "" && e.source != e.target }

  function PairOf(e: Edge): Pair {
    if LexLe(e.source, e.target) then Pair(e.source, e.target) else Pair(e.target, e.source)
  }

  /** `float(edge.get("weight") or 1.0)`: a zero weight counts as missing. */
  function WeightOf(e: Edge): real {
    if e.weight.None? || e.weight.value == 0.0 then 1.0 else e.weight.value
  }

  ghost predicate Offers(edges: seq<Edge>, p: Pair, w: real) {
    exists e :: e in edges && Offered(e, p, w)
  }

  predicate Offered(e: Edge, p: Pair, w: real) { Usable(e) && PairOf(e) == p && WeightOf(e) == w }

  lemma OffersSnoc(edges: seq<Edge>, e: Edge, p: Pair, w: real)
    ensures Offers(edges + [e], p, w) <==> Offers(edges, p, w) || Offered(e, p, w)
  {
    assert forall x :: x in edges + [e] <==> x in edges || x == e;
    if Offered(e, p, w) { assert e in edges + [e]; }
  }

  /** The row joins the two ends of `p`, in either direction, at weight `w`; no weight and a zero weight count as 1.0. */
  predicate Joins(e: Edge, p: Pair, w: real) {
    && e.source != "" && e.target != "" && p.lo != p.hi && LexLe(p.lo, p.hi)
    && ((e.source == p.lo && e.target == p.hi) || (e.source == p.hi && e.target == p.lo))
    && (e.weight == Some(w) || (w == 1.0 && e.weight.None?) || (w == 1.0 && e.weight == Some(0.0)))
    && w != 0.0
  }

  lemma OffersIff(edges: seq<Edge>, p: Pair, w: real)
    ensures Offers(edges, p, w) <==> exists e :: e in edges && Joins(e, p, w)
  {
    forall e: Edge ensures Offered(e, p, w) <==> Joins(e, p, w) {
      LexLeTotal(e.source, e.target);
      if LexLe(e.source, e.target) && LexLe(e.target, e.source) { LexLeAntisymmetric(e.source, e.target); }
    }
  }

  /** `best` maps every unordered pair of the rows to its largest weight. */
  ghost predicate IsBest(edges: seq<Edge>, best: map<Pair, real>) {
    && (forall p :: p in best ==> Offers(edges, p, best[p]))
    && (forall p, w :: Offers(edges, p, w) ==> p in best && w <= best[p])
  }

  predicate PairLe(p: Pair, q: Pair) {
    if p.lo == q.lo then LexLe(p.hi, q.hi) else LexLe(p.lo, q.lo)
  }

  /** Weight descending, then key ascending. */
  predicate RankLe(a: Scored, b: Scored) {
    a.weight > b.weight || (a.weight == b.weight && PairLe(a.pair, b.pair))
  }

  lemma RankLeIsTotalOrder()
    ensures TotalOrder(RankLe)
  {
    LexLeIsTotalOrder();
    assert forall p: Pair, q: Pair :: PairLe(p, q) || PairLe(q, p);
    assert forall p: Pair, q: Pair :: PairLe(p, q) && PairLe(q, p) ==> p == q;
    assert forall p: Pair, q: Pair, r: Pair :: PairLe(p, q) && PairLe(q, r) ==> PairLe(p, r);
  }

  /** `ranked` lists the entries of `best` once each, in rank order. */
  ghost predicate IsRanking(best: map<Pair, real>, ranked: seq<Scored>) {
    && SortedBy(ranked, RankLe) && Distinct(ranked)
    && (forall x :: x in ranked <==> x.pair in best && best[x.pair] == x.weight)
  }

  function Count(counts: map<string, nat>, v: string): nat { if v in counts then counts[v] else 0 }

  function Bump(counts: map<string, nat>, v: string): map<string, nat> { counts[v := Count(counts, v) + 1] }

  predicate Blocked(counts: map<string, nat>, p: Pair, cap: int) { Count(counts, p.lo) >= cap || Count(counts, p.hi) >= cap }

  function Greedy(s: seq<Scored>, counts: map<string, nat>, cap: int): seq<Scored>
    decreases s
  {
    if s == [] then []
    else if Blocked(counts, s[0].pair, cap) then Greedy(s[1..], counts, cap)
    else [s[0]] + Greedy(s[1..], Bump(Bump(counts, s[0].pair.lo), s[0].pair.hi), cap)
  }

  ghost predicate IsPruning(edges: seq<Edge>, cap: int, pruned: seq<Scored>) {
    exists best: map<Pair, real>, ranked: seq<Scored> ::
      IsBest(edges, best) && IsRanking(best, ranked) && pruned == Greedy(ranked, map[], cap)
  }

  // ---------------------------------------------------------------- the algorithm

  function WithRow(best: map<Pair, real>, e: Edge): map<Pair, real> {
    if Usable(e) && (PairOf(e) !in best || WeightOf(e) > best[PairOf(e)]) then best[PairOf(e) := WeightOf(e)] else best
  }

  lemma WithRowIsBest(edges: seq<Edge>, e: Edge, best: map<Pair, real>)
    requires IsBest(edges, best)
    ensures IsBest(edges + [e], WithRow(best, e))
  {
    forall p, w ensures Offers(edges + [e], p, w) <==> Offers(edges, p, w) || Offered(e, p, w) { OffersSnoc(edges, e, p, w); }
    var best' := WithRow(best, e);
    forall p | p in best' ensures Offers(edges + [e], p, best'[p]) {
      assert Offered(e, p, best'[p]) || Offers(edges, p, best[p]);
    }
  }

  method BestWeights(edges: seq<Edge>) returns (best: map<Pair, real>)
    ensures IsBest(edges, best)
  {
    best := map[];
    for i := 0 to |edges|
      invariant IsBest(edges[..i], best)
    {
      var e := edges[i];
      WithRowIsBest(edges[..i], e, best);
      assert edges[..i + 1] == edges[..i] + [e];
      if e.source == "" || e.target == "" || e.source == e.target { continue; }
      var key := if LexLe(e.source, e.target) then Pair(e.source, e.target) else Pair(e.target, e.source);
      var weight := if e.weight.None? || e.weight.value == 0.0 then 1.0 else e.weight.value;
      if key !in best || weight > best[key] {
        best := best[key := weight];
      }
    }
    assert edges[..|edges|] == edges;
  }

  method Rank(best: map<Pair, real>) returns (ranked: seq<Scored>)
    ensures IsRanking(best, ranked)
  {
    var items: seq<Scored> := [];
    var rest := best.Keys;
    while rest != {}
      invariant rest <= best.Keys && Distinct(items)
      invariant forall x :: x in items <==> x.pair in best && x.pair !in rest && best[x.pair] == x.weight
    {
      var p :| p in rest;
      items := items + [Scored(p, best[p])];
      rest := rest - {p};
    }
    RankLeIsTotalOrder();
    SortedKeepsDistinct(items, RankLe);
    ranked := Sorted(items, RankLe);
  }

  method DedupeAndPrune(edges: seq<Edge>, maxEdgesPerNode: int) returns (pruned: seq<Scored>)
    ensures IsPruning(edges, maxEdgesPerNode, pruned)
  {
    var best := BestWeights(edges);
    var ordered := Rank(best);
    var counts: map<string, nat> := map[];
    pruned := [];
    assert ordered[0..] == ordered;
    for i := 0 to |ordered|
      invariant Greedy(ordered, map[], maxEdgesPerNode) == pruned + Greedy(ordered[i..], counts, maxEdgesPerNode)
    {
      assert ordered[i..][0] == ordered[i] && ordered[i..][1..] == ordered[i + 1..];
      var p := ordered[i].pair;
      if Count(counts, p.lo) >= maxEdgesPerNode { continue; }
      if Count(counts, p.hi) >= maxEdgesPerNode { continue; }
      counts := Bump(counts, p.lo);
      counts := Bump(counts, p.hi);
      pruned := pruned + [ordered[i]];
    }
    assert ordered[|ordered|..] == [];
    assert pruned + [] == pruned;
  }

  // ---------------------------------------------------------------- canonical

  lemma BestIsUnique(edges: seq<Edge>, a: map<Pair, real>, b: map<Pair, real>)
    requires IsBest(edges, a) && IsBest(edges, b)
    ensures a == b
  {
    assert forall p :: p in a ==> Offers(edges, p, a[p]);
    assert forall p :: p in b ==> Offers(edges, p, b[p]);
  }

  lemma RankingIsUnique(best: map<Pair, real>, s: seq<Scored>, t: seq<Scored>)
    requires IsRanking(best, s) && IsRanking(best, t)
    ensures s == t
  {
    RankLeIsTotalOrder();
    DistinctSameElements(s, t);
    SortedIsUnique(s, t, RankLe);
  }

  lemma DistinctSameElements<T>(s: seq<T>, t: seq<T>)
    requires Distinct(s) && Distinct(t) && forall x :: x in s <==> x in t
    ensures multiset(s) == multiset(t)
  {
    forall x ensures multiset(s)[x] == multiset(t)[x] {
      DistinctCount(s, x);
      DistinctCount(t, x);
      assert x in s <==> x in multiset(s);
      assert x in t <==> x in multiset(t);
    }
  }

  /** Rows that offer the same weighted pairs, in whatever order, orientation and multiplicity,
      are pruned to the same list. */
  lemma PruningIsCanonical(edges: seq<Edge>, edges': seq<Edge>, cap: int, a: seq<Scored>, b: seq<Scored>)
    requires IsPruning(edges, cap, a) && IsPruning(edges', cap, b)
    requires forall p, w :: Offers(edges, p, w) <==> Offers(edges', p, w)
    ensures a == b
  {
    var best, ranked :| IsBest(edges, best) && IsRanking(best, ranked) && a == Greedy(ranked, map[], cap);
    var best', ranked' :| IsBest(edges', best') && IsRanking(best', ranked') && b == Greedy(ranked', map[], cap);
    assert IsBest(edges', best);
    BestIsUnique(edges', best, best');
    RankingIsUnique(best, ranked, ranked');
  }

  /** The weighted pairs of the rows are blind to the orientation of a row. */
  lemma FlipOffersTheSame(e: Edge)
    ensures Usable(e) <==> Usable(Edge(e.target, e.source, e.weight))
    ensures PairOf(e) == PairOf(Edge(e.target, e.source, e.weight))
  {
    LexLeTotal(e.source, e.target);
    if LexLe(e.source, e.target) && LexLe(e.target, e.source) { LexLeAntisymmetric(e.source, e.target); }
  }

  // ---------------------------------------------------------------- degree cap and maximality

  predicate Touches(x: Scored, v: string) { x.pair.lo == v || x.pair.hi == v }

  function Degree(s: seq<Scored>, v: string): nat {
    if s == [] then 0 else (if Touches(s[0], v) then 1 else 0) + Degree(s[1..], v)
  }

  /** Kept edges at `v` that weigh at least `w`. */
  function DegreeAbove(s: seq<Scored>, v: string, w: real): nat {
    if s == [] then 0 else (if Touches(s[0], v) && s[0].weight >= w then 1 else 0) + DegreeAbove(s[1..], v, w)
  }

  /** No self-loops: every pair has two distinct endpoints. */
  predicate Proper(s: seq<Scored>) { forall i :: 0 <= i < |s| ==> s[i].pair.lo != s[i].pair.hi }

  lemma {:induction false} GreedyKeepsCap(s: seq<Scored>, counts: map<string, nat>, cap: int, v: string)
    requires Proper(s)
    ensures Degree(Greedy(s, counts, cap), v) > 0 ==> Count(counts, v) + Degree(Greedy(s, counts, cap), v) <= cap
    decreases s
  {
    if s != [] {
      if Blocked(counts, s[0].pair, cap) {
        GreedyKeepsCap(s[1..], counts, cap, v);
      } else {
        var counts' := Bump(Bump(counts, s[0].pair.lo), s[0].pair.hi);
        GreedyKeepsCap(s[1..], counts', cap, v);
        assert Greedy(s, counts, cap)[1..] == Greedy(s[1..], counts', cap);
      }
    }
  }

  lemma {:induction false} GreedyIsSubsequence(s: seq<Scored>, counts: map<string, nat>, cap: int)
    ensures forall x :: x in Greedy(s, counts, cap) ==> x in s
    ensures SortedBy(s, RankLe) ==> SortedBy(Greedy(s, counts, cap), RankLe)
    ensures Distinct(s) ==> Distinct(Greedy(s, counts, cap))
    decreases s
  {
    if s != [] {
      var counts' := if Blocked(counts, s[0].pair, cap) then counts else Bump(Bump(counts, s[0].pair.lo), s[0].pair.hi);
      GreedyIsSubsequence(s[1..], counts', cap);
      var rest := Greedy(s[1..], counts', cap);
      forall x | x in rest ensures x in s && (SortedBy(s, RankLe) ==> RankLe(s[0], x)) && (Distinct(s) ==> x != s[0]) {
        var i :| 0 <= i < |s[1..]| && s[1..][i] == x;
        assert s[i + 1] == x;
      }
      assert forall j :: 0 <= j < |rest| ==> rest[j] in rest;
    }
  }

  /** A rejected pair has an endpoint that is filled with kept edges at least as heavy; the counts
      stand for edges kept before, all at least as heavy as what is left. */
  lemma {:induction false} GreedyIsMaximal(s: seq<Scored>, counts: map<string, nat>, cap: int, x: Scored)
    requires SortedBy(s, RankLe) && Proper(s) && x in s && x !in Greedy(s, counts, cap)
    ensures var g := Greedy(s, counts, cap);
            || Count(counts, x.pair.lo) + DegreeAbove(g, x.pair.lo, x.weight) >= cap
            || Count(counts, x.pair.hi) + DegreeAbove(g, x.pair.hi, x.weight) >= cap
    decreases s
  {
    if Blocked(counts, s[0].pair, cap) {
      if x in s[1..] { GreedyIsMaximal(s[1..], counts, cap, x); }
    } else {
      var counts' := Bump(Bump(counts, s[0].pair.lo), s[0].pair.hi);
      var g := Greedy(s, counts, cap);
      assert g[0] == s[0] && g[1..] == Greedy(s[1..], counts', cap);
      assert x in s[1..];
      var i :| 0 <= i < |s| && s[i] == x;
      assert RankLe(s[0], s[i]) && s[0].weight >= x.weight;
      GreedyIsMaximal(s[1..], counts', cap, x);
      assert forall v :: Count(counts', v) == Count(counts, v) + (if Touches(s[0], v) then 1 else 0);
    }
  }

  // ---------------------------------------------------------------- half of the optimum

  function Weight(s: seq<Scored>): real { if s == [] then 0.0 else s[0].weight + Weight(s[1..]) }

  function Without(s: seq<Scored>, i: nat): seq<Scored>
    requires i < |s|
  {
    s[..i] + s[i + 1..]
  }

  lemma {:induction false} WithoutSums(s: seq<Scored>, i: nat, v: string)
    requires i < |s|
    ensures Weight(s) == s[i].weight + Weight(Without(s, i))
    ensures Degree(s, v) == (if Touches(s[i], v) then 1 else 0) + Degree(Without(s, i), v)
    decreases s
  {
    if i == 0 {
      assert Without(s, 0) == s[1..];
    } else {
      WithoutSums(s[1..], i - 1, v);
      assert Without(s, i) == [s[0]] + Without(s[1..], i - 1);
    }
  }

  lemma {:induction false} TouchingIndex(s: seq<Scored>, v: string) returns (i: nat)
    requires Degree(s, v) > 0
    ensures i < |s| && Touches(s[i], v)
  {
    if Touches(s[0], v) {
      i := 0;
    } else {
      i := TouchingIndex(s[1..], v);
      i := i + 1;
    }
  }

  lemma {:induction false} DegreePositive(s: seq<Scored>, i: nat, v: string)
    requires i < |s| && Touches(s[i], v)
    ensures Degree(s, v) > 0
  {
    if i > 0 { DegreePositive(s[1..], i - 1, v); }
  }

  /** `other` selects from `s` within the capacity that `counts` leaves. */
  ghost predicate Feasible(other: seq<Scored>, s: seq<Scored>, counts: map<string, nat>, cap: int) {
    && Distinct(other) && (forall x :: x in other ==> x in s)
    && (forall v :: Degree(other, v) > 0 ==> Degree(other, v) + Count(counts, v) <= cap)
  }

  /** Drops one edge at `v` from `other`, if it has any; what is lost weighs at most `w`. */
  lemma DropAt(other: seq<Scored>, v: string, w: real) returns (rest: seq<Scored>)
    requires Distinct(other) && w >= 0.0 && forall x :: x in other ==> x.weight <= w
    ensures Distinct(rest) && (forall x :: x in rest ==> x in other)
    ensures forall u :: Degree(rest, u) <= Degree(other, u)
    ensures Degree(other, v) > 0 ==> Degree(rest, v) < Degree(other, v)
    ensures Weight(other) <= w + Weight(rest)
  {
    if Degree(other, v) == 0 {
      rest := other;
    } else {
      var i := TouchingIndex(other, v);
      rest := Without(other, i);
      forall u ensures Degree(rest, u) <= Degree(other, u) && (u == v ==> Degree(rest, u) < Degree(other, u)) {
        WithoutSums(other, i, u);
      }
      WithoutSums(other, i, v);
      assert other[i] in other;
    }
  }

  /** Making room for a kept edge costs any other selection at most two edges no heavier. */
  lemma MakeRoom(other: seq<Scored>, s: seq<Scored>, counts: map<string, nat>, cap: int) returns (rest: seq<Scored>)
    requires s != [] && SortedBy(s, RankLe) && Distinct(s) && Proper(s) && s[0].weight >= 0.0
    requires Feasible(other, s, counts, cap)
    ensures Feasible(rest, s[1..], Bump(Bump(counts, s[0].pair.lo), s[0].pair.hi), cap)
    ensures Weight(other) <= 2.0 * s[0].weight + Weight(rest)
  {
    var e, p := s[0], s[0].pair;
    var counts' := Bump(Bump(counts, p.lo), p.hi);
    forall x | x in other ensures x.weight <= e.weight {
      var i :| 0 <= i < |s| && s[i] == x;
      assert i > 0 ==> RankLe(s[0], s[i]);
    }
    if e in other {
      var i :| 0 <= i < |other| && other[i] == e;
      rest := Without(other, i);
      forall u ensures Degree(other, u) == (if Touches(e, u) then 1 else 0) + Degree(rest, u) { WithoutSums(other, i, u); }
      WithoutSums(other, i, p.lo);
      assert e !in rest;
    } else {
      var r1 := DropAt(other, p.lo, e.weight);
      rest := DropAt(r1, p.hi, e.weight);
    }
    forall x | x in rest ensures x in s[1..] {
      assert x in s && x != e;
    }
    forall v | Degree(rest, v) > 0 ensures Degree(rest, v) + Count(counts', v) <= cap {
      assert Degree(other, v) > 0;
      assert Count(counts', v) == Count(counts, v) + (if Touches(e, v) then 1 else 0);
    }
  }

  /** The greedy selection is worth at least half of any selection under the same capacities. */
  lemma {:induction false} GreedyIsHalfOptimal(s: seq<Scored>, counts: map<string, nat>, cap: int, other: seq<Scored>)
    requires SortedBy(s, RankLe) && Distinct(s) && Proper(s) && (forall x :: x in s ==> x.weight >= 0.0)
    requires Feasible(other, s, counts, cap)
    ensures Weight(other) <= 2.0 * Weight(Greedy(s, counts, cap))
    decreases s
  {
    assert other != [] ==> other[0] in other;
    if s == [] {
    } else if Blocked(counts, s[0].pair, cap) {
      if i :| 0 <= i < |other| && other[i] == s[0] {
        DegreePositive(other, i, s[0].pair.lo);
        DegreePositive(other, i, s[0].pair.hi);
      }
      assert s[0] !in other;
      assert forall x :: x in other ==> x in s[1..];
      GreedyIsHalfOptimal(s[1..], counts, cap, other);
    } else {
      var counts' := Bump(Bump(counts, s[0].pair.lo), s[0].pair.hi);
      var rest := MakeRoom(other, s, counts, cap);
      GreedyIsHalfOptimal(s[1..], counts', cap, rest);
      assert Greedy(s, counts, cap)[1..] == Greedy(s[1..], counts', cap);
    }
  }

  // ---------------------------------------------------------------- main results

  lemma PairIsProper(e: Edge)
    requires Usable(e)
    ensures PairOf(e).lo != PairOf(e).hi && LexLe(PairOf(e).lo, PairOf(e).hi)
  {
    LexLeTotal(e.source, e.target);
  }

  lemma OfferIsProper(edges: seq<Edge>, p: Pair, w: real)
    requires Offers(edges, p, w)
    ensures p.lo != p.hi && LexLe(p.lo, p.hi) && p.lo != "" && p.hi != "" && w != 0.0
  {
    var e :| e in edges && Offered(e, p, w);
    PairIsProper(e);
  }

  lemma RankingIsProper(edges: seq<Edge>, best: map<Pair, real>, ranked: seq<Scored>)
    requires IsBest(edges, best) && IsRanking(best, ranked)
    ensures Proper(ranked)
    ensures forall x :: x in ranked ==> Offers(edges, x.pair, x.weight) && LexLe(x.pair.lo, x.pair.hi)
  {
    forall x | x in ranked ensures Offers(edges, x.pair, x.weight) && LexLe(x.pair.lo, x.pair.hi) && x.pair.lo != x.pair.hi {
      OfferIsProper(edges, x.pair, x.weight);
    }
    assert forall i :: 0 <= i < |ranked| ==> ranked[i] in ranked;
  }

  /** Each pair once in min/max order at its largest offered weight; no node above the cap. */
  lemma PruningIsNormalised(edges: seq<Edge>, cap: int, pruned: seq<Scored>)
    requires IsPruning(edges, cap, pruned)
    ensures forall i, j :: 0 <= i < j < |pruned| ==> pruned[i].pair != pruned[j].pair
    ensures forall x :: x in pruned ==> x.pair.lo != x.pair.hi && LexLe(x.pair.lo, x.pair.hi)
    ensures forall x :: x in pruned ==> Offers(edges, x.pair, x.weight) && forall w :: Offers(edges, x.pair, w) ==> w <= x.weight
    ensures forall v :: Degree(pruned, v) > 0 ==> Degree(pruned, v) <= cap
  {
    var best, ranked :| IsBest(edges, best) && IsRanking(best, ranked) && pruned == Greedy(ranked, map[], cap);
    RankingIsProper(edges, best, ranked);
    GreedyIsSubsequence(ranked, map[], cap);
    assert forall i :: 0 <= i < |ranked| ==> ranked[i] in ranked;
    forall i, j | 0 <= i < j < |pruned| ensures pruned[i].pair != pruned[j].pair {
      assert pruned[i] in ranked && pruned[j] in ranked;
    }
    forall v ensures Degree(pruned, v) > 0 ==> Degree(pruned, v) <= cap { GreedyKeepsCap(ranked, map[], cap, v); }
  }

  /** Every offered pair that was not kept has an endpoint filled with kept edges at least as
      heavy as its best offer, so no rejected edge can be added back. */
  lemma PruningIsMaximal(edges: seq<Edge>, cap: int, pruned: seq<Scored>, p: Pair, w: real)
    requires IsPruning(edges, cap, pruned) && Offers(edges, p, w) && forall x :: x in pruned ==> x.pair != p
    ensures DegreeAbove(pruned, p.lo, w) >= cap || DegreeAbove(pruned, p.hi, w) >= cap
  {
    var best, ranked :| IsBest(edges, best) && IsRanking(best, ranked) && pruned == Greedy(ranked, map[], cap);
    var x := Scored(p, best[p]);
    assert x in ranked;
    GreedyIsMaximal(ranked, map[], cap, x);
    DegreeAboveMonotone(pruned, p.lo, w, x.weight);
    DegreeAboveMonotone(pruned, p.hi, w, x.weight);
  }

  lemma {:induction false} DegreeAboveMonotone(s: seq<Scored>, v: string, w: real, u: real)
    requires w <= u
    ensures DegreeAbove(s, v, w) >= DegreeAbove(s, v, u)
  {
    if s != [] { DegreeAboveMonotone(s[1..], v, w, u); }
  }

  /** For non-negative weights the kept edges are worth at least half of any other set of offered
      pairs at their best weights that obeys the same cap. */
  lemma PruningIsHalfOptimal(edges: seq<Edge>, cap: int, pruned: seq<Scored>, best: map<Pair, real>, other: seq<Scored>)
    requires IsPruning(edges, cap, pruned) && IsBest(edges, best) && forall p :: p in best ==> best[p] >= 0.0
    requires Distinct(other) && forall x :: x in other ==> x.pair in best && best[x.pair] == x.weight
    requires forall v :: Degree(other, v) > 0 ==> Degree(other, v) <= cap
    ensures Weight(other) <= 2.0 * Weight(pruned)
  {
    var best', ranked :| IsBest(edges, best') && IsRanking(best', ranked) && pruned == Greedy(ranked, map[], cap);
    BestIsUnique(edges, best, best');
    RankingIsProper(edges, best, ranked);
    GreedyIsHalfOptimal(ranked, map[], cap, other);
  }

  // ---------------------------------------------------------------- the stable selection

  /** Entries of `s` at `v` that rank before `x`. */
  function Rivals(s: seq<Scored>, v: string, x: Scored): (n: nat)
    ensures n <= |s|
  {
    if s == [] then 0 else (if Touches(s[0], v) && RankLe(s[0], x) && s[0] != x then 1 else 0) + Rivals(s[1..], v, x)
  }

  /** One end of `x` is full of entries that rank before it. */
  predicate Outranked(s: seq<Scored>, x: Scored, counts: map<string, nat>, cap: int) {
    || Count(counts, x.pair.lo) + Rivals(s, x.pair.lo, x) >= cap
    || Count(counts, x.pair.hi) + Rivals(s, x.pair.hi, x) >= cap
  }

  /** `kept` lists, in rank order, exactly those entries of `s` that the kept ones do not outrank. */
  ghost predicate IsStable(s: seq<Scored>, counts: map<string, nat>, cap: int, kept: seq<Scored>) {
    && SortedBy(kept, RankLe) && Distinct(kept)
    && (forall x :: x in kept ==> x in s)
    && (forall x :: x in s ==> (x in kept <==> !Outranked(kept, x, counts, cap)))
  }

  lemma RanksAgree(x: Scored, y: Scored)
    requires RankLe(x, y) && RankLe(y, x)
    ensures x == y
  {
    RankLeIsTotalOrder();
  }

  /** What ranks no earlier than `x` is no rival of it. */
  lemma {:induction false} NoRivals(s: seq<Scored>, v: string, x: Scored)
    requires forall y :: y in s ==> RankLe(x, y)
    ensures Rivals(s, v, x) == 0
  {
    if s != [] {
      if RankLe(s[0], x) { RanksAgree(x, s[0]); }
      assert forall y :: y in s[1..] ==> y in s;
      NoRivals(s[1..], v, x);
    }
  }

  lemma HeadRanksFirst(s: seq<Scored>)
    requires s != [] && SortedBy(s, RankLe) && Distinct(s)
    ensures s[0] !in s[1..] && forall x :: x in s ==> RankLe(s[0], x)
  {
    RankLeIsTotalOrder();
    forall x | x in s ensures RankLe(s[0], x) {
      var i :| 0 <= i < |s| && s[i] == x;
      if i == 0 { assert RankLe(x, x) || RankLe(x, x); }
    }
  }

  lemma {:induction false} GreedyIsStable(s: seq<Scored>, counts: map<string, nat>, cap: int)
    requires SortedBy(s, RankLe) && Distinct(s) && Proper(s)
    ensures IsStable(s, counts, cap, Greedy(s, counts, cap))
    decreases s
  {
    var g := Greedy(s, counts, cap);
    GreedyIsSubsequence(s, counts, cap);
    if s != [] {
      HeadRanksFirst(s);
      NoRivals(g, s[0].pair.lo, s[0]);
      NoRivals(g, s[0].pair.hi, s[0]);
      if Blocked(counts, s[0].pair, cap) {
        GreedyIsStable(s[1..], counts, cap);
        GreedyIsSubsequence(s[1..], counts, cap);
      } else {
        var counts' := Bump(Bump(counts, s[0].pair.lo), s[0].pair.hi);
        GreedyIsStable(s[1..], counts', cap);
        assert g[0] == s[0] && g[1..] == Greedy(s[1..], counts', cap);
        forall x | x in s[1..] ensures Outranked(g, x, counts, cap) <==> Outranked(g[1..], x, counts', cap) {
          OutrankedFromHead(g, x, counts, cap);
        }
      }
      forall x | x in s ensures x in g <==> !Outranked(g, x, counts, cap) {
        assert x == s[0] || x in s[1..];
      }
    }
  }

  /** Taking the first entry out of the list and into the counts changes nothing for what ranks after it. */
  lemma OutrankedFromHead(g: seq<Scored>, x: Scored, counts: map<string, nat>, cap: int)
    requires g != [] && g[0].pair.lo != g[0].pair.hi && RankLe(g[0], x) && g[0] != x
    ensures Outranked(g, x, counts, cap) <==> Outranked(g[1..], x, Bump(Bump(counts, g[0].pair.lo), g[0].pair.hi), cap)
  {
    var counts' := Bump(Bump(counts, g[0].pair.lo), g[0].pair.hi);
    assert forall v :: Count(counts', v) == Count(counts, v) + (if Touches(g[0], v) then 1 else 0);
  }

  lemma HasEntry(s: seq<Scored>)
    requires |s| > 0
    ensures exists x :: x in s
  {
    assert s[0] in s;
  }

  lemma {:induction false} StableIsGreedy(s: seq<Scored>, counts: map<string, nat>, cap: int, kept: seq<Scored>)
    requires SortedBy(s, RankLe) && Distinct(s) && Proper(s) && IsStable(s, counts, cap, kept)
    ensures kept == Greedy(s, counts, cap)
    decreases s
  {
    if s == [] {
      if |kept| > 0 { HasEntry(kept); }
    } else {
      HeadRanksFirst(s);
      NoRivals(kept, s[0].pair.lo, s[0]);
      NoRivals(kept, s[0].pair.hi, s[0]);
      if Blocked(counts, s[0].pair, cap) {
        StableIsGreedy(s[1..], counts, cap, kept);
      } else {
        StableHead(s, kept);
        var counts' := Bump(Bump(counts, s[0].pair.lo), s[0].pair.hi);
        forall x | x in s[1..] ensures x in kept[1..] <==> !Outranked(kept[1..], x, counts', cap) {
          OutrankedFromHead(kept, x, counts, cap);
          assert x in kept <==> x in kept[1..];
        }
        forall x | x in kept[1..] ensures x in s[1..] { assert x in kept && x != s[0]; }
        StableIsGreedy(s[1..], counts', cap, kept[1..]);
        assert kept == [kept[0]] + kept[1..];
      }
    }
  }

  lemma StableHead(s: seq<Scored>, kept: seq<Scored>)
    requires s != [] && s[0] in kept && SortedBy(kept, RankLe) && Distinct(kept)
    requires forall x :: x in s ==> RankLe(s[0], x)
    requires forall x :: x in kept ==> x in s
    ensures kept[0] == s[0] && s[0] !in kept[1..]
  {
    HeadRanksFirst(kept);
    assert kept[0] in kept;
    RanksAgree(kept[0], s[0]);
  }

  /** The pruned list is the one stable selection: an offered pair is kept, at its best weight, exactly
      when fewer than `cap` kept pairs rank before it at each end. */
  lemma PruningIffStable(edges: seq<Edge>, cap: int, best: map<Pair, real>, ranked: seq<Scored>, kept: seq<Scored>)
    requires IsBest(edges, best) && IsRanking(best, ranked)
    ensures IsPruning(edges, cap, kept) <==> IsStable(ranked, map[], cap, kept)
  {
    RankingIsProper(edges, best, ranked);
    GreedyIsStable(ranked, map[], cap);
    if IsPruning(edges, cap, kept) {
      var best', ranked' :| IsBest(edges, best') && IsRanking(best', ranked') && kept == Greedy(ranked', map[], cap);
      BestIsUnique(edges, best, best');
      RankingIsUnique(best, ranked, ranked');
    }
    if IsStable(ranked, map[], cap, kept) { StableIsGreedy(ranked, map[], cap, kept); }
  }

  /** Heavier, or equally heavy under a smaller key. */
  predicate Ahead(y: Scored, p: Pair, w: real) {
    || y.weight > w
    || (y.weight == w && y.pair != p
        && ((y.pair.lo != p.lo && LexLe(y.pair.lo, p.lo)) || (y.pair.lo == p.lo && LexLe(y.pair.hi, p.hi))))
  }

  /** The kept entries at `v` that are ahead of the pair. */
  function AheadAt(s: seq<Scored>, v: string, p: Pair, w: real): nat {
    if |s| == 0 then 0 else (if (s[0].pair.lo == v || s[0].pair.hi == v) && Ahead(s[0], p, w) then 1 else 0) + AheadAt(s[1..], v, p, w)
  }

  lemma AheadIsRank(y: Scored, x: Scored)
    ensures Ahead(y, x.pair, x.weight) <==> RankLe(y, x) && y != x
  {
    LexLeTotal(x.pair.lo, x.pair.lo);
  }

  lemma {:induction false} AheadAreRivals(s: seq<Scored>, v: string, x: Scored)
    ensures AheadAt(s, v, x.pair, x.weight) == Rivals(s, v, x)
  {
    if |s| > 0 {
      AheadIsRank(s[0], x);
      AheadAreRivals(s[1..], v, x);
    }
  }

  /** A pair is kept exactly when at each end fewer than `cap` kept pairs are heavier, or equally heavy under a smaller key. */
  lemma KeptIffRoomAtBothEnds(edges: seq<Edge>, cap: int, best: map<Pair, real>, pruned: seq<Scored>, p: Pair)
    requires IsPruning(edges, cap, pruned) && IsBest(edges, best) && p in best
    ensures Scored(p, best[p]) in pruned <==> AheadAt(pruned, p.lo, p, best[p]) < cap && AheadAt(pruned, p.hi, p, best[p]) < cap
  {
    var best', ranked :| IsBest(edges, best') && IsRanking(best', ranked) && pruned == Greedy(ranked, map[], cap);
    BestIsUnique(edges, best, best');
    PruningIffStable(edges, cap, best, ranked, pruned);
    var x := Scored(p, best[p]);
    assert x in ranked;
    AheadAreRivals(pruned, p.lo, x);
    AheadAreRivals(pruned, p.hi, x);
  }

  /** The list comes heaviest first, equal weights by key. */
  lemma PruningIsOrdered(edges: seq<Edge>, cap: int, pruned: seq<Scored>)
    requires IsPruning(edges, cap, pruned)
    ensures forall i, j :: 0 <= i < j < |pruned| ==> Ahead(pruned[i], pruned[j].pair, pruned[j].weight)
  {
    var best, ranked :| IsBest(edges, best) && IsRanking(best, ranked) && pruned == Greedy(ranked, map[], cap);
    GreedyIsSubsequence(ranked, map[], cap);
    forall i, j | 0 <= i < j < |pruned| ensures Ahead(pruned[i], pruned[j].pair, pruned[j].weight) {
      AheadIsRank(pruned[i], pruned[j]);
    }
  }

  function AsRows(s: seq<Scored>): seq<Edge> {
    seq(|s|, i requires 0 <= i < |s| => Edge(s[i].pair.lo, s[i].pair.hi, Some(s[i].weight)))
  }

  lemma {:induction false} GreedyKeepsAll(s: seq<Scored>, counts: map<string, nat>, cap: int)
    requires Proper(s) && forall v :: Degree(s, v) > 0 ==> Degree(s, v) + Count(counts, v) <= cap
    ensures Greedy(s, counts, cap) == s
    decreases s
  {
    if s != [] {
      var p := s[0].pair;
      assert Degree(s, p.lo) > 0 && Degree(s, p.hi) > 0;
      var counts' := Bump(Bump(counts, p.lo), p.hi);
      forall v | Degree(s[1..], v) > 0 ensures Degree(s[1..], v) + Count(counts', v) <= cap {
        assert Degree(s, v) > 0;
        assert Count(counts', v) == Count(counts, v) + (if Touches(s[0], v) then 1 else 0);
      }
      GreedyKeepsAll(s[1..], counts', cap);
    }
  }

  lemma RowsOffer(s: seq<Scored>, p: Pair, w: real)
    requires forall x :: x in s ==> x.weight != 0.0 && x.pair.lo != "" && x.pair.hi != "" && x.pair.lo != x.pair.hi && LexLe(x.pair.lo, x.pair.hi)
    ensures Offers(AsRows(s), p, w) <==> Scored(p, w) in s
  {
    var rows := AsRows(s);
    if Scored(p, w) in s {
      var i :| 0 <= i < |s| && s[i] == Scored(p, w);
      assert rows[i] in rows && Offered(rows[i], p, w);
    }
    if Offers(rows, p, w) {
      var e :| e in rows && Offered(e, p, w);
      var i :| 0 <= i < |rows| && rows[i] == e;
      assert s[i] in s;
    }
  }

  /** Pruning the pruned edges again changes nothing. */
  lemma PruningIsIdempotent(edges: seq<Edge>, cap: int, pruned: seq<Scored>)
    requires IsPruning(edges, cap, pruned)
    ensures IsPruning(AsRows(pruned), cap, pruned)
  {
    var best, ranked :| IsBest(edges, best) && IsRanking(best, ranked) && pruned == Greedy(ranked, map[], cap);
    RankingIsProper(edges, best, ranked);
    GreedyIsSubsequence(ranked, map[], cap);
    PruningIsNormalised(edges, cap, pruned);
    forall x | x in pruned ensures x.weight != 0.0 && x.pair.lo != "" && x.pair.hi != "" && best[x.pair] == x.weight {
      OfferIsProper(edges, x.pair, x.weight);
    }
    forall p, w ensures Offers(AsRows(pruned), p, w) <==> Scored(p, w) in pruned { RowsOffer(pruned, p, w); }
    KeptIsRanking(AsRows(pruned), best, pruned);
    assert Proper(pruned) by { assert forall i :: 0 <= i < |pruned| ==> pruned[i] in pruned; }
    GreedyKeepsAll(pruned, map[], cap);
  }

  /** A sorted part of a ranking is the ranking of the rows it offers. */
  lemma KeptIsRanking(rows: seq<Edge>, best: map<Pair, real>, pruned: seq<Scored>)
    requires SortedBy(pruned, RankLe) && Distinct(pruned)
    requires forall x :: x in pruned ==> x.pair in best && best[x.pair] == x.weight
    requires forall p, w :: Offers(rows, p, w) <==> Scored(p, w) in pruned
    ensures exists kept: map<Pair, real> :: IsBest(rows, kept) && IsRanking(kept, pruned)
  {
    var kept := map p | p in best && Scored(p, best[p]) in pruned :: best[p];
    assert forall p, w :: Scored(p, w) in pruned ==> p in kept && kept[p] == w;
    assert IsBest(rows, kept);
    assert forall x: Scored :: x == Scored(x.pair, x.weight);
    assert IsRanking(kept, pruned);
  }
}
