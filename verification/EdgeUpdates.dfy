/** One-page updates of the published edge set (`vector_lake/indexer.py`, `update_index_items`)
    against a full build of the same pages. */
module EdgeUpdates {
  import opened Ordering
  import opened EdgePruner
  import opened EdgeBuilder

  predicate Incident(e: Edge, key: string) { e.source == key || e.target == key }

  function AwayFrom(edges: seq<Edge>, key: string): (r: seq<Edge>)
    ensures forall e :: e in r <==> e in edges && !Incident(e, key)
  {
    if edges == [] then []
    else
      assert edges == [edges[0]] + edges[1..];
      (if Incident(edges[0], key) then [] else [edges[0]]) + AwayFrom(edges[1..], key)
  }

  /** A page is rewritten, or dropped when its canonical row is gone. */
  function Updated(pages: map<string, Page>, key: string, page: Option<Page>): map<string, Page> {
    if page.Some? then pages[key := page.value] else pages - {key}
  }

  /** The published list of a full build of the pages. */
  ghost predicate IsBuild(sc: Scorer, pages: map<string, Page>, published: seq<Scored>) {
    exists edges :: (forall e :: e in edges <==> IsEdge(sc, pages, e)) && IsPruning(edges, MAX_EDGES_PER_NODE, published)
  }

  /** The published list of an update of `key`, `pages` being the new pages and `held` the rows before it. */
  ghost predicate IsUpdate(sc: Scorer, pages: map<string, Page>, held: seq<Edge>, key: string, published: seq<Scored>) {
    exists derived: seq<Edge> ::
      && (forall e :: e in derived <==> Incident(e, key) && IsEdge(sc, pages, e))
      && IsPruning(AwayFrom(held, key) + derived, MAX_EDGES_PER_NODE, published)
  }

  method Rebuild(sc: Scorer, pages: map<string, Page>) returns (published: seq<Scored>)
    requires WellFormed(sc, pages)
    ensures IsBuild(sc, pages, published)
  {
    var edges := CalculateWeightedEdges(sc, pages);
    published := DedupeAndPrune(edges, MAX_EDGES_PER_NODE);
  }

  class PageIndex {
    var pages: map<string, Page>
    var edges: seq<Edge>

    /** The index as it is loaded, with its published edges. */
    constructor (pages: map<string, Page>, published: seq<Scored>)
      ensures this.pages == pages && edges == AsRows(published)
    {
      this.pages, edges := pages, AsRows(published);
    }

    /** Removes the edges of the touched page and derives them again; every other row is kept. */
    method Rederive(sc: Scorer, key: string, page: Option<Page>) returns (ghost derived: seq<Edge>)
      requires WellFormed(sc, Updated(pages, key, page))
      modifies this
      ensures pages == Updated(old(pages), key, page)
      ensures edges == AwayFrom(old(edges), key) + derived && Distinct(derived)
      ensures forall e :: e in derived <==> Incident(e, key) && IsEdge(sc, pages, e)
    {
      if page.None? {
        pages := pages - {key};
        edges := AwayFrom(edges, key);
        return [];
      }
      pages := pages[key := page.value];
      var kept := AwayFrom(edges, key);
      var found := IncidentEdges(sc, pages, key);
      edges := kept + found;
      derived := found;
    }

    /** The batch step for one page: derive, then restore the normal form and the degree cap. */
    method UpdateItem(sc: Scorer, key: string, page: Option<Page>)
      returns (ghost published: seq<Scored>)
      requires WellFormed(sc, Updated(pages, key, page))
      modifies this
      ensures pages == Updated(old(pages), key, page)
      ensures IsUpdate(sc, pages, old(edges), key, published) && edges == AsRows(published)
    {
      ghost var derived := Rederive(sc, key, page);
      var pruned := DedupeAndPrune(edges, MAX_EDGES_PER_NODE);
      published := pruned;
      edges := AsRows(pruned);
    }
  }

  /** Scores the touched page against every other page, in the orientation of the full build. */
  method IncidentEdges(sc: Scorer, pages: map<string, Page>, key: string) returns (found: seq<Edge>)
    requires WellFormed(sc, pages) && key in pages
    ensures Distinct(found) && forall e :: e in found <==> Incident(e, key) && IsEdge(sc, pages, e)
  {
    found := [];
    var rest := pages.Keys - {key};
    while rest != {}
      invariant rest <= pages.Keys - {key} && Distinct(found)
      invariant forall e :: e in found <==> IsEdge(sc, pages, e) && OtherEnd(e, key, pages.Keys - {key} - rest)
    {
      var other :| other in rest;
      rest := rest - {other};
      LexLeTotal(key, other);
      if Lt(key, other) {
        found := WithPair(sc, pages, key, other, found);
      } else {
        found := WithPair(sc, pages, other, key, found);
      }
      if LexLe(key, other) && LexLe(other, key) { LexLeAntisymmetric(key, other); }
    }
  }

  predicate OtherEnd(e: Edge, key: string, others: set<string>) {
    (e.source == key && e.target in others) || (e.target == key && e.source in others)
  }

  method WithPair(sc: Scorer, pages: map<string, Page>, first: string, second: string, before: seq<Edge>)
    returns (found: seq<Edge>)
    requires WellFormed(sc, pages) && first in pages && second in pages && Lt(first, second)
    requires Distinct(before) && forall e | e in before :: e.source != first || e.target != second
    ensures Distinct(found)
    ensures forall e :: e in found <==> e in before || (e.source == first && e.target == second && IsEdge(sc, pages, e))
  {
    found := before;
    if !Related(sc, pages[first], pages[second], first, second) { return; }
    var relevance := CalculateRelevance(sc, pages, first, second);
    if relevance >= MIN_RELEVANCE {
      found := before + [Edge(first, second, Some(relevance))];
    }
  }

  // ---------------------------------------------------------------- what an update leaves stale

  lemma NeighborSumMoves(sc: Scorer, before: map<string, Page>, after: map<string, Page>, key: string, neighbors: set<string>)
    requires forall k | k != key :: NeighborWeight(sc, after, k) == NeighborWeight(sc, before, k)
    ensures NeighborSum(sc, after, neighbors) - NeighborSum(sc, before, neighbors)
      == if key in neighbors then NeighborWeight(sc, after, key) - NeighborWeight(sc, before, key) else 0.0
    decreases neighbors
  {
    if n :| n in neighbors {
      NeighborSumSplits(sc, before, neighbors, n);
      NeighborSumSplits(sc, after, neighbors, n);
      NeighborSumMoves(sc, before, after, key, neighbors - {n});
    }
  }

  /** A pair away from the touched page keeps its evidence exactly when the page is not one of its
      common neighbours, or its weight as a neighbour is unchanged. */
  lemma UntouchedEvidenceStaysIff(sc: Scorer, pages: map<string, Page>, key: string, page: Option<Page>, a: string, b: string)
    requires a in pages && b in pages && a != key && b != key
    ensures var after := Updated(pages, key, page);
      Evidence(sc, after, a, b) == Evidence(sc, pages, a, b) <==>
        (key in Links(sc, pages[a]) * Links(sc, pages[b]) ==> NeighborWeight(sc, after, key) == NeighborWeight(sc, pages, key))
  {
    NeighborSumMoves(sc, pages, Updated(pages, key, page), key, Links(sc, pages[a]) * Links(sc, pages[b]));
  }

  /** A pair away from the page whose published score, or its absence, the rewrite makes out of date. */
  ghost predicate Outdated(sc: Scorer, pages: map<string, Page>, key: string, page: Option<Page>, a: string, b: string)
    requires a in pages && b in pages && a != key && b != key
  {
    var before, after := Round3(Score(sc, pages, a, b)), Round3(Score(sc, Updated(pages, key, page), a, b));
    && key in Links(sc, pages[a]) * Links(sc, pages[b])
    && before != after && (before >= MIN_RELEVANCE || after >= MIN_RELEVANCE)
  }

  ghost predicate NothingStale(sc: Scorer, pages: map<string, Page>, key: string, page: Option<Page>) {
    forall a, b | a in pages && b in pages && Lt(a, b) && a != key && b != key :: !Outdated(sc, pages, key, page, a, b)
  }

  lemma UntouchedEdgeStaysIff(sc: Scorer, pages: map<string, Page>, key: string, page: Option<Page>, a: string, b: string)
    requires a in pages && b in pages && a != key && b != key && Lt(a, b)
    ensures (forall w :: IsEdge(sc, pages, Edge(a, b, w)) <==> IsEdge(sc, Updated(pages, key, page), Edge(a, b, w)))
      <==> !Outdated(sc, pages, key, page, a, b)
  {
    var after := Updated(pages, key, page);
    UntouchedEvidenceStaysIff(sc, pages, key, page, a, b);
    if Outdated(sc, pages, key, page, a, b) {
      var w, w' := Some(Round3(Score(sc, pages, a, b))), Some(Round3(Score(sc, after, a, b)));
      assert IsEdge(sc, pages, Edge(a, b, w)) != IsEdge(sc, after, Edge(a, b, w))
        || IsEdge(sc, pages, Edge(a, b, w')) != IsEdge(sc, after, Edge(a, b, w'));
    }
  }

  /** Before pruning, an update brings an up-to-date edge set up to date if and only if no untouched
      pair is outdated by the rewrite. */
  lemma UpdateEqualsRebuildIff(sc: Scorer, pages: map<string, Page>, key: string, page: Option<Page>,
                               edges: seq<Edge>, derived: seq<Edge>)
    requires forall e :: e in edges <==> IsEdge(sc, pages, e)
    requires forall e :: e in derived <==> Incident(e, key) && IsEdge(sc, Updated(pages, key, page), e)
    ensures (forall e :: e in AwayFrom(edges, key) + derived <==> IsEdge(sc, Updated(pages, key, page), e))
      <==> NothingStale(sc, pages, key, page)
  {
    var after := Updated(pages, key, page);
    assert forall e :: e in AwayFrom(edges, key) + derived <==>
      (if Incident(e, key) then IsEdge(sc, after, e) else IsEdge(sc, pages, e));
    if NothingStale(sc, pages, key, page) {
      UntouchedEdgesStay(sc, pages, key, page);
    } else {
      var a, b :| a in pages && b in pages && Lt(a, b) && a != key && b != key && Outdated(sc, pages, key, page, a, b);
      UntouchedEdgeStaysIff(sc, pages, key, page, a, b);
      var w :| IsEdge(sc, pages, Edge(a, b, w)) != IsEdge(sc, after, Edge(a, b, w));
      assert !Incident(Edge(a, b, w), key);
    }
  }

  lemma UntouchedEdgesStay(sc: Scorer, pages: map<string, Page>, key: string, page: Option<Page>)
    requires NothingStale(sc, pages, key, page)
    ensures forall e | !Incident(e, key) :: IsEdge(sc, pages, e) <==> IsEdge(sc, Updated(pages, key, page), e)
  {
    forall e: Edge | !Incident(e, key) ensures IsEdge(sc, pages, e) <==> IsEdge(sc, Updated(pages, key, page), e) {
      if e.source in pages && e.target in pages && Lt(e.source, e.target) {
        UntouchedEdgeStaysIff(sc, pages, key, page, e.source, e.target);
        assert e == Edge(e.source, e.target, e.weight);
      }
    }
  }

  /** The published list depends on the pages alone: any two derivations of the same edges agree. */
  lemma PublishedListIsDetermined(sc: Scorer, pages: map<string, Page>, edges: seq<Edge>, edges': seq<Edge>,
                                  cap: int, a: seq<Scored>, b: seq<Scored>)
    requires forall e :: e in edges <==> IsEdge(sc, pages, e)
    requires forall e :: e in edges' <==> IsEdge(sc, pages, e)
    requires IsPruning(edges, cap, a) && IsPruning(edges', cap, b)
    ensures a == b
  {
    assert forall e :: e in edges <==> e in edges';
    forall p, w ensures Offers(edges, p, w) <==> Offers(edges', p, w) {
      assert Offers(edges, p, w) ==> exists e :: e in edges' && Offered(e, p, w);
      assert Offers(edges', p, w) ==> exists e :: e in edges && Offered(e, p, w);
    }
    PruningIsCanonical(edges, edges', cap, a, b);
  }

  // ---------------------------------------------------------------- update against rebuild, after pruning

  /** The entry is an edge of the pages, with its current score. */
  ghost predicate Scores(sc: Scorer, pages: map<string, Page>, x: Scored) {
    x.pair.lo != "" && IsEdge(sc, pages, Edge(x.pair.lo, x.pair.hi, Some(x.weight)))
  }

  lemma EdgesOffer(sc: Scorer, pages: map<string, Page>, edges: seq<Edge>, p: Pair, w: real)
    requires forall e :: e in edges <==> IsEdge(sc, pages, e)
    ensures Offers(edges, p, w) <==> Scores(sc, pages, Scored(p, w))
  {
    if Scores(sc, pages, Scored(p, w)) {
      EdgeOffersItself(sc, pages, Edge(p.lo, p.hi, Some(w)));
    }
    if Offers(edges, p, w) {
      var e :| e in edges && Offered(e, p, w);
      assert PairOf(e) == Pair(e.source, e.target) && e.weight == Some(w);
    }
  }

  lemma EdgeOffersItself(sc: Scorer, pages: map<string, Page>, e: Edge)
    requires IsEdge(sc, pages, e) && e.source != ""
    ensures Offered(e, Pair(e.source, e.target), e.weight.value)
  {
    assert e.target != "" by { if e.target == "" { LexLeAntisymmetric(e.source, e.target); } }
  }

  /** What an update ranks: held entries away from the page and current entries of the page. */
  ghost predicate Ranked(sc: Scorer, pages: map<string, Page>, before: seq<Scored>, key: string, x: Scored) {
    if Touches(x, key) then Scores(sc, pages, x) else x in before
  }

  ghost predicate IsPublished(before: seq<Scored>) { exists edges :: IsPruning(edges, MAX_EDGES_PER_NODE, before) }

  lemma PublishedRows(before: seq<Scored>, p: Pair, w: real)
    requires IsPublished(before)
    ensures Offers(AsRows(before), p, w) <==> Scored(p, w) in before
    ensures forall x, y | x in before && y in before && x.pair == y.pair :: x == y
  {
    var edges :| IsPruning(edges, MAX_EDGES_PER_NODE, before);
    PruningIsNormalised(edges, MAX_EDGES_PER_NODE, before);
    forall x | x in before ensures x.weight != 0.0 && x.pair.lo != "" && x.pair.hi != "" {
      OfferIsProper(edges, x.pair, x.weight);
    }
    RowsOffer(before, p, w);
  }

  lemma UpdateOffers(sc: Scorer, pages: map<string, Page>, before: seq<Scored>, key: string, derived: seq<Edge>, p: Pair, w: real)
    requires IsPublished(before) && forall e :: e in derived <==> Incident(e, key) && IsEdge(sc, pages, e)
    ensures Offers(AwayFrom(AsRows(before), key) + derived, p, w) <==> Ranked(sc, pages, before, key, Scored(p, w))
  {
    var rows, x := AsRows(before), Scored(p, w);
    PublishedRows(before, p, w);
    var row := Edge(p.lo, p.hi, Some(w));
    if Ranked(sc, pages, before, key, x) {
      if Touches(x, key) {
        EdgeOffersItself(sc, pages, row);
        assert row in derived;
      } else {
        var e :| e in rows && Offered(e, p, w);
        assert e in AwayFrom(rows, key);
      }
    }
    if Offers(AwayFrom(rows, key) + derived, p, w) {
      var e :| e in AwayFrom(rows, key) + derived && Offered(e, p, w);
      if e in derived {
        assert PairOf(e) == Pair(e.source, e.target) && e == row;
      } else {
        assert e in rows && !Incident(e, key);
      }
    }
  }

  /** Where every pair is offered at one weight, the ranking lists the offers. */
  lemma RankingListsOffers(edges: seq<Edge>, best: map<Pair, real>, ranked: seq<Scored>, p: Pair, w: real)
    requires IsBest(edges, best) && IsRanking(best, ranked)
    requires forall u, v | Offers(edges, p, u) && Offers(edges, p, v) :: u == v
    ensures Scored(p, w) in ranked <==> Offers(edges, p, w)
  {
    if Offers(edges, p, w) { assert Offers(edges, p, best[p]); }
    assert Scored(p, w) in ranked <==> p in best && best[p] == w;
  }

  /** Pruning an update's rows is selecting, stably, from the entries it ranks. */
  lemma UpdateSelects(sc: Scorer, pages: map<string, Page>, before: seq<Scored>, key: string, updated: seq<Scored>)
    returns (ranked: seq<Scored>)
    requires IsPublished(before) && IsUpdate(sc, pages, AsRows(before), key, updated)
    ensures IsStable(ranked, map[], MAX_EDGES_PER_NODE, updated)
    ensures forall x :: x in ranked <==> Ranked(sc, pages, before, key, x)
  {
    var derived: seq<Edge> :|
      && (forall e :: e in derived <==> Incident(e, key) && IsEdge(sc, pages, e))
      && IsPruning(AwayFrom(AsRows(before), key) + derived, MAX_EDGES_PER_NODE, updated);
    var rows := AwayFrom(AsRows(before), key) + derived;
    var best: map<Pair, real>;
    best, ranked := StableRanking(rows, updated);
    forall x: Scored ensures x in ranked <==> Ranked(sc, pages, before, key, x) {
      var p := x.pair;
      forall v ensures Offers(rows, p, v) <==> Ranked(sc, pages, before, key, Scored(p, v)) {
        UpdateOffers(sc, pages, before, key, derived, p, v);
      }
      PublishedRows(before, p, x.weight);
      RankingListsOffers(rows, best, ranked, p, x.weight);
      assert Scored(p, x.weight) == x;
    }
  }

  lemma StableRanking(edges: seq<Edge>, kept: seq<Scored>) returns (best: map<Pair, real>, ranked: seq<Scored>)
    requires IsPruning(edges, MAX_EDGES_PER_NODE, kept)
    ensures IsBest(edges, best) && IsRanking(best, ranked) && IsStable(ranked, map[], MAX_EDGES_PER_NODE, kept)
  {
    best, ranked :| IsBest(edges, best) && IsRanking(best, ranked) && kept == Greedy(ranked, map[], MAX_EDGES_PER_NODE);
    PruningIffStable(edges, MAX_EDGES_PER_NODE, best, ranked, kept);
  }

  /** Likewise a full build selects from the current entries, and is the only stable selection from them. */
  lemma BuildSelects(sc: Scorer, pages: map<string, Page>, rebuilt: seq<Scored>) returns (ranked: seq<Scored>)
    requires IsBuild(sc, pages, rebuilt)
    ensures forall kept :: IsStable(ranked, map[], MAX_EDGES_PER_NODE, kept) <==> kept == rebuilt
    ensures forall x :: x in ranked <==> Scores(sc, pages, x)
  {
    var edges :| (forall e :: e in edges <==> IsEdge(sc, pages, e)) && IsPruning(edges, MAX_EDGES_PER_NODE, rebuilt);
    var best: map<Pair, real>;
    best, ranked := StableRanking(edges, rebuilt);
    forall kept | IsStable(ranked, map[], MAX_EDGES_PER_NODE, kept) ensures kept == rebuilt {
      PruningIffStable(edges, MAX_EDGES_PER_NODE, best, ranked, kept);
      PruningIsCanonical(edges, edges, MAX_EDGES_PER_NODE, kept, rebuilt);
    }
    forall x: Scored ensures x in ranked <==> Scores(sc, pages, x) {
      forall v ensures Offers(edges, x.pair, v) <==> Scores(sc, pages, Scored(x.pair, v)) { EdgesOffer(sc, pages, edges, x.pair, v); }
      RankingListsOffers(edges, best, ranked, x.pair, x.weight);
      assert Scored(x.pair, x.weight) == x;
    }
  }

  /** An edge of the new pages, away from the touched one, that the rows held before do not have at its
      current score: pruned earlier, or out of date. */
  ghost predicate Missing(sc: Scorer, pages: map<string, Page>, before: seq<Scored>, key: string, x: Scored) {
    Scores(sc, pages, x) && !Touches(x, key) && x !in before
  }

  predicate Crowded(published: seq<Scored>, x: Scored) { Outranked(published, x, map[], MAX_EDGES_PER_NODE) }

  /** The stable selection from one list is that from another exactly when it stays inside it and
      crowds out what only the other list has. */
  lemma SelectionsMeetIff(mine: seq<Scored>, all: seq<Scored>, updated: seq<Scored>, rebuilt: seq<Scored>)
    requires IsStable(mine, map[], MAX_EDGES_PER_NODE, updated)
    requires forall kept :: IsStable(all, map[], MAX_EDGES_PER_NODE, kept) <==> kept == rebuilt
    ensures updated == rebuilt <==> (forall x | x in updated :: x in all) && (forall x | x in all && x !in mine :: Crowded(updated, x))
  {
    assert IsStable(all, map[], MAX_EDGES_PER_NODE, rebuilt);
    if (forall x | x in updated :: x in all) && (forall x | x in all && x !in mine :: Crowded(updated, x)) {
      forall x | x in all ensures x in updated <==> !Outranked(updated, x, map[], MAX_EDGES_PER_NODE) {
        assert x !in mine ==> Crowded(updated, x);
      }
      assert IsStable(all, map[], MAX_EDGES_PER_NODE, updated);
    }
  }

  /** An update publishes what a full build of the same pages would if and only if every row it
      publishes carries its current score and every missing edge is crowded out, at one end, by
      published rows that rank before it. */
  lemma UpdateMeetsRebuildIff(sc: Scorer, pages: map<string, Page>, key: string, before: seq<Scored>,
                              updated: seq<Scored>, rebuilt: seq<Scored>)
    requires IsPublished(before) && IsUpdate(sc, pages, AsRows(before), key, updated) && IsBuild(sc, pages, rebuilt)
    ensures updated == rebuilt <==>
      && (forall x | x in updated :: Scores(sc, pages, x))
      && (forall x | Missing(sc, pages, before, key, x) :: Crowded(updated, x))
  {
    var mine := UpdateSelects(sc, pages, before, key, updated);
    var all := BuildSelects(sc, pages, rebuilt);
    SelectionsMeetIff(mine, all, updated, rebuilt);
    forall x: Scored ensures Missing(sc, pages, before, key, x) <==> x in all && x !in mine {
    }
  }

  /** Without stale pairs an update of a full build's list meets the next full build if and only if
      every edge that was pruned before is still crowded out afterwards. */
  lemma FreshUpdateMeetsRebuildIff(sc: Scorer, pages: map<string, Page>, key: string, page: Option<Page>, before: seq<Scored>,
                                   updated: seq<Scored>, rebuilt: seq<Scored>)
    requires IsBuild(sc, pages, before) && IsUpdate(sc, Updated(pages, key, page), AsRows(before), key, updated)
    requires IsBuild(sc, Updated(pages, key, page), rebuilt) && NothingStale(sc, pages, key, page)
    ensures updated == rebuilt <==> forall x | Missing(sc, pages, before, key, x) :: Crowded(updated, x)
  {
    var after := Updated(pages, key, page);
    var ranked := BuildSelects(sc, pages, before);
    assert IsStable(ranked, map[], MAX_EDGES_PER_NODE, before);
    assert IsPublished(before);
    UpdateMeetsRebuildIff(sc, after, key, before, updated, rebuilt);
    UntouchedEdgesStay(sc, pages, key, page);
    forall x: Scored | !Touches(x, key) ensures Scores(sc, pages, x) <==> Scores(sc, after, x) {
      assert !Incident(Edge(x.pair.lo, x.pair.hi, Some(x.weight)), key);
    }
    var mine := UpdateSelects(sc, after, before, key, updated);
    forall x | x in updated ensures Scores(sc, after, x) {
      assert Ranked(sc, after, before, key, x);
      assert x in before ==> x in ranked;
    }
    assert forall x :: Missing(sc, pages, before, key, x) <==> Missing(sc, after, before, key, x);
  }
}
