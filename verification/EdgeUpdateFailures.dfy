/** Two runs of the page index after which an update does not publish what a rebuild would
    (`vector_lake/indexer.py`, `update_index_items`): an edge pruned earlier that nothing brings back,
    and an edge that keeps a weight its pages no longer have. */
module EdgeUpdateFailures {
  import opened Ordering
  import opened EdgePruner
  import opened EdgeBuilder
  import opened EdgeUpdates

  /** A concept page without sources, typed links or damping. */
  function PlainPage(links: seq<string>): Page { Page(links, {}, "concept", seq(0, _ => Triple("", "")), 1.0, 100.0) }

  /** Links name their targets. */
  ghost predicate LinksAreKeys(sc: Scorer) { IsSquareRoot(sc.sqrt) && forall l: string :: sc.resolve(l) == l }

  lemma PlainLinks(sc: Scorer, links: seq<string>)
    requires LinksAreKeys(sc)
    ensures Links(sc, PlainPage(links)) == set l | l in links
  {
  }

  /** Plain pages are not damped, so their evidence and affinity are the score. */
  lemma PlainScore(sc: Scorer, pages: map<string, Page>, a: string, b: string)
    requires LinksAreKeys(sc) && a in pages && b in pages
    requires exists l, m :: pages[a] == PlainPage(l) && pages[b] == PlainPage(m)
    ensures Score(sc, pages, a, b) == Evidence(sc, pages, a, b) + Affinity(sc, "concept", "concept")
  {
    UndampedScore(sc, pages, a, b);
  }

  // ---------------------------------------------------------------- counting published pairs

  lemma {:induction false} FewPairs(s: seq<Scored>, pairs: set<Pair>)
    requires forall i, j :: 0 <= i < j < |s| ==> s[i].pair != s[j].pair
    requires forall x :: x in s ==> x.pair in pairs
    ensures |s| <= |pairs|
  {
    if |s| > 0 {
      var n := |s| - 1;
      assert s[n] in s;
      FewPairs(s[..n], pairs - {s[n].pair});
    }
  }

  lemma BuildPairs(sc: Scorer, pages: map<string, Page>, published: seq<Scored>, pairs: set<Pair>)
    requires IsBuild(sc, pages, published) && forall x | Scores(sc, pages, x) :: x.pair in pairs
    ensures |published| <= |pairs| && forall x | x in published :: Scores(sc, pages, x)
  {
    var ranked := BuildSelects(sc, pages, published);
    assert IsStable(ranked, map[], MAX_EDGES_PER_NODE, published);
    PublishedPairsDiffer(published);
    FewPairs(published, pairs);
  }

  lemma PublishedPairsDiffer(published: seq<Scored>)
    requires IsPublished(published)
    ensures forall i, j :: 0 <= i < j < |published| ==> published[i].pair != published[j].pair
  {
    var edges :| IsPruning(edges, MAX_EDGES_PER_NODE, published);
    PruningIsNormalised(edges, MAX_EDGES_PER_NODE, published);
  }

  /** A list below the cap crowds nothing out, so a build with few pairs publishes them all. */
  lemma SmallBuildKeeps(sc: Scorer, pages: map<string, Page>, published: seq<Scored>, x: Scored)
    requires IsBuild(sc, pages, published) && Scores(sc, pages, x) && |published| < MAX_EDGES_PER_NODE
    ensures x in published
  {
    var ranked := BuildSelects(sc, pages, published);
    assert IsStable(ranked, map[], MAX_EDGES_PER_NODE, published);
  }

  // ---------------------------------------------------------------- a forgotten pair

  /** A hub that links to every spoke; its links may name pages that are gone. */
  function Star(spokes: set<string>, hub: string, links: seq<string>): map<string, Page> {
    map k | k in spokes + {hub} :: PlainPage(if k == hub then links else links[..0])
  }

  /** The hub's spokes are other pages than itself, named, linked, and worth an edge. */
  ghost predicate IsStar(sc: Scorer, spokes: set<string>, hub: string, links: seq<string>) {
    && LinksAreKeys(sc) && hub != "" && hub !in links && "" !in links && (forall k :: k in spokes ==> k in links)
    && SpokeWeight(sc) >= MIN_RELEVANCE
  }

  function SpokeWeight(sc: Scorer): real { Round3(sc.relationWeight("mentions") + Affinity(sc, "concept", "concept")) }

  function SpokePair(spoke: string, hub: string): Pair { if LexLe(spoke, hub) then Pair(spoke, hub) else Pair(hub, spoke) }

  function Spoke(sc: Scorer, spoke: string, hub: string): Scored { Scored(SpokePair(spoke, hub), SpokeWeight(sc)) }

  /** The edges of a star are its spokes. */
  lemma StarEdges(sc: Scorer, spokes: set<string>, hub: string, links: seq<string>, x: Scored)
    requires IsStar(sc, spokes, hub, links)
    ensures Scores(sc, Star(spokes, hub, links), x) <==> exists k :: k in spokes && x == Spoke(sc, k, hub)
  {
    if Scores(sc, Star(spokes, hub, links), x) { var k := EdgeIsSpoke(sc, spokes, hub, links, x); }
    if k :| k in spokes && x == Spoke(sc, k, hub) { SpokeIsEdge(sc, spokes, hub, links, k); }
  }

  lemma EdgeIsSpoke(sc: Scorer, spokes: set<string>, hub: string, links: seq<string>, x: Scored) returns (k: string)
    requires IsStar(sc, spokes, hub, links) && Scores(sc, Star(spokes, hub, links), x)
    ensures k in spokes && x == Spoke(sc, k, hub)
  {
    var a, b := x.pair.lo, x.pair.hi;
    StarIsBipartite(sc, spokes, hub, links, a, b);
    k := if a == hub then b else a;
    if a == hub && LexLe(b, hub) { LexLeAntisymmetric(a, b); }
    StarScore(sc, spokes, hub, links, a, b);
  }

  lemma SpokeIsEdge(sc: Scorer, spokes: set<string>, hub: string, links: seq<string>, k: string)
    requires IsStar(sc, spokes, hub, links) && k in spokes
    ensures Scores(sc, Star(spokes, hub, links), Spoke(sc, k, hub))
  {
    LexLeTotal(k, hub);
    StarScore(sc, spokes, hub, links, SpokePair(k, hub).lo, SpokePair(k, hub).hi);
  }

  lemma StarIsBipartite(sc: Scorer, spokes: set<string>, hub: string, links: seq<string>, a: string, b: string)
    requires IsStar(sc, spokes, hub, links) && a in spokes + {hub} && b in spokes + {hub} && a != b
    requires Related(sc, Star(spokes, hub, links)[a], Star(spokes, hub, links)[b], a, b)
    ensures a == hub || b == hub
  {
    PlainLinks(sc, links[..0]);
  }

  lemma StarScore(sc: Scorer, spokes: set<string>, hub: string, links: seq<string>, a: string, b: string)
    requires IsStar(sc, spokes, hub, links) && ((a == hub && b in spokes) || (b == hub && a in spokes))
    ensures var pages := Star(spokes, hub, links);
      && a in pages && b in pages && Related(sc, pages[a], pages[b], a, b)
      && Score(sc, pages, a, b) == sc.relationWeight("mentions") + Affinity(sc, "concept", "concept")
  {
    var pages := Star(spokes, hub, links);
    PlainLinks(sc, links);
    PlainLinks(sc, links[..0]);
    assert Links(sc, pages[a]) * Links(sc, pages[b]) == {};
    assert pages[a].sources * pages[b].sources == {};
    assert Evidence(sc, pages, a, b) == sc.relationWeight("mentions");
    PlainScore(sc, pages, a, b);
  }

  lemma {:induction false} SpokePairs(spokes: set<string>, hub: string) returns (pairs: set<Pair>)
    ensures |pairs| <= |spokes| && forall k :: k in spokes ==> SpokePair(k, hub) in pairs
    decreases spokes
  {
    if k :| k in spokes {
      var rest := SpokePairs(spokes - {k}, hub);
      pairs := rest + {SpokePair(k, hub)};
    } else {
      pairs := {};
    }
  }

  lemma {:induction false} AllAtHub(s: seq<Scored>, hub: string)
    requires forall x :: x in s ==> Touches(x, hub)
    ensures Degree(s, hub) == |s|
  {
    if |s| > 0 {
      assert s[0] in s && forall x :: x in s[1..] ==> x in s;
      AllAtHub(s[1..], hub);
    }
  }

  /** A star publishes spokes only, no more than the cap. */
  lemma StarBuild(sc: Scorer, spokes: set<string>, hub: string, links: seq<string>, published: seq<Scored>)
    requires IsStar(sc, spokes, hub, links) && IsBuild(sc, Star(spokes, hub, links), published)
    ensures |published| <= MAX_EDGES_PER_NODE && forall x | x in published :: exists k :: k in spokes && x == Spoke(sc, k, hub)
  {
    var ranked := BuildSelects(sc, Star(spokes, hub, links), published);
    assert IsStable(ranked, map[], MAX_EDGES_PER_NODE, published);
    forall x | x in published ensures Touches(x, hub) && exists k :: k in spokes && x == Spoke(sc, k, hub) {
      StarEdges(sc, spokes, hub, links, x);
    }
    AllAtHub(published, hub);
    var edges :| IsPruning(edges, MAX_EDGES_PER_NODE, published);
    PruningIsNormalised(edges, MAX_EDGES_PER_NODE, published);
  }

  /** With room for every spoke, every spoke is published. */
  lemma SpokeIsPublished(sc: Scorer, spokes: set<string>, hub: string, links: seq<string>, published: seq<Scored>, k: string)
    requires IsStar(sc, spokes, hub, links) && IsBuild(sc, Star(spokes, hub, links), published)
    requires k in spokes && |spokes| <= MAX_EDGES_PER_NODE
    ensures Spoke(sc, k, hub) in published
  {
    StarBuild(sc, spokes, hub, links, published);
    if Spoke(sc, k, hub) !in published {
      var pairs := SpokePairs(spokes - {k}, hub);
      PublishedPairsDiffer(published);
      forall x | x in published ensures x.pair in pairs {
        var l :| l in spokes && x == Spoke(sc, l, hub);
        assert l in spokes - {k};
      }
      FewPairs(published, pairs);
      StarEdges(sc, spokes, hub, links, Spoke(sc, k, hub));
      SmallBuildKeeps(sc, Star(spokes, hub, links), published, Spoke(sc, k, hub));
    }
  }

  lemma WithoutHas(s: seq<Scored>, i: nat, x: Scored)
    requires i < |s|
    ensures x in s ==> x == s[i] || x in Without(s, i)
  {
  }

  lemma {:induction false} SomeSpokeMissing(sc: Scorer, spokes: set<string>, hub: string, s: seq<Scored>) returns (m: string)
    requires |s| < |spokes| && hub !in spokes
    ensures m in spokes && Spoke(sc, m, hub) !in s
    decreases spokes
  {
    m :| m in spokes;
    if i :| 0 <= i < |s| && s[i] == Spoke(sc, m, hub) {
      var k := m;
      m := SomeSpokeMissing(sc, spokes - {k}, hub, Without(s, i));
      WithoutHas(s, i, Spoke(sc, m, hub));
    }
  }

  /** The published list of a hub with one spoke too many forgets one of them: when a published spoke's
      page is deleted, the update has room for it, but only a rebuild brings it back. */
  lemma PrunedPairsAreForgotten(sc: Scorer, spokes: set<string>, hub: string, links: seq<string>, d: string,
                                before: seq<Scored>, updated: seq<Scored>, rebuilt: seq<Scored>) returns (lost: string)
    requires IsStar(sc, spokes, hub, links) && |spokes| == MAX_EDGES_PER_NODE + 1 && d in spokes
    requires IsBuild(sc, Star(spokes, hub, links), before) && Spoke(sc, d, hub) in before
    requires IsUpdate(sc, Updated(Star(spokes, hub, links), d, None), AsRows(before), d, updated)
    requires IsBuild(sc, Updated(Star(spokes, hub, links), d, None), rebuilt)
    ensures lost in spokes && Spoke(sc, lost, hub) in rebuilt && Spoke(sc, lost, hub) !in updated
  {
    StarWithout(spokes, hub, links, d);
    StarBuild(sc, spokes, hub, links, before);
    lost := SomeSpokeMissing(sc, spokes, hub, before);
    SpokeIsPublished(sc, spokes - {d}, hub, links, rebuilt, lost);
    NothingRevives(sc, Updated(Star(spokes, hub, links), d, None), before, d, updated, Spoke(sc, lost, hub));
  }

  lemma StarWithout(spokes: set<string>, hub: string, links: seq<string>, d: string)
    requires d in spokes && d != hub
    ensures Updated(Star(spokes, hub, links), d, None) == Star(spokes - {d}, hub, links)
  {
  }

  /** An update publishes away from the page only what was published before. */
  lemma NothingRevives(sc: Scorer, pages: map<string, Page>, before: seq<Scored>, key: string, updated: seq<Scored>, x: Scored)
    requires IsPublished(before) && IsUpdate(sc, pages, AsRows(before), key, updated) && !Touches(x, key) && x !in before
    ensures x !in updated
  {
    var ranked := UpdateSelects(sc, pages, before, key, updated);
    assert !Ranked(sc, pages, before, key, x);
  }

  lemma RowOf(s: seq<Scored>, x: Scored)
    ensures Edge(x.pair.lo, x.pair.hi, Some(x.weight)) in AsRows(s) <==> x in s
  {
    var row := Edge(x.pair.lo, x.pair.hi, Some(x.weight));
    if x in s {
      var i :| 0 <= i < |s| && s[i] == x;
      assert AsRows(s)[i] == row;
    }
    if row in AsRows(s) {
      var i :| 0 <= i < |AsRows(s)| && AsRows(s)[i] == row;
      assert s[i] == x;
    }
  }

  lemma BeforeIsNotEmpty(sc: Scorer, spokes: set<string>, hub: string, links: seq<string>, before: seq<Scored>)
    requires IsStar(sc, spokes, hub, links) && |spokes| > MAX_EDGES_PER_NODE && IsBuild(sc, Star(spokes, hub, links), before)
    ensures |before| > 0
  {
    if |before| == 0 {
      var k := SomeSpokeMissing(sc, spokes, hub, before);
      StarEdges(sc, spokes, hub, links, Spoke(sc, k, hub));
      SmallBuildKeeps(sc, Star(spokes, hub, links), before, Spoke(sc, k, hub));
    }
  }

  /** That run of the index: build, delete the page of the heaviest edge, compare with a rebuild. */
  method ForgetAPair(sc: Scorer, spokes: set<string>, hub: string, links: seq<string>)
    returns (updated: seq<Edge>, rebuilt: seq<Edge>)
    requires IsStar(sc, spokes, hub, links) && |spokes| == MAX_EDGES_PER_NODE + 1
    ensures exists e :: e in rebuilt && e !in updated
  {
    var before := Rebuild(sc, Star(spokes, hub, links));
    var index := new PageIndex(Star(spokes, hub, links), before);
    BeforeIsNotEmpty(sc, spokes, hub, links, before);
    StarBuild(sc, spokes, hub, links, before);
    assert before[0] in before;
    var d := if before[0].pair.lo == hub then before[0].pair.hi else before[0].pair.lo;
    ghost var published := index.UpdateItem(sc, d, None);
    updated := index.edges;
    var again := Rebuild(sc, index.pages);
    rebuilt := AsRows(again);
    ghost var lost := PrunedPairsAreForgotten(sc, spokes, hub, links, d, before, published, again);
    RowOf(again, Spoke(sc, lost, hub));
    RowOf(published, Spoke(sc, lost, hub));
  }

  // ---------------------------------------------------------------- a stale weight

  /** Two pages that both link to a third. */
  function Triangle(links: seq<string>): map<string, Page> {
    map["a" := PlainPage(["c"]), "b" := PlainPage(["c"]), "c" := PlainPage(links)]
  }

  /** The weight of the pair `a`, `b`, whose only evidence is the common neighbour. */
  function SharedWeight(sc: Scorer, degree: nat): real {
    Round3((if degree > 1 then sc.invLog(degree) * COMMON_NEIGHBOR else 0.0) + Affinity(sc, "concept", "concept"))
  }

  lemma TriangleScores(sc: Scorer, links: seq<string>) returns (pairs: set<Pair>)
    requires LinksAreKeys(sc)
    ensures pairs == {Pair("a", "b"), Pair("a", "c"), Pair("b", "c")} && |pairs| <= 3
    ensures forall x | Scores(sc, Triangle(links), x) :: x.pair in pairs
  {
    pairs := {Pair("a", "b"), Pair("a", "c"), Pair("b", "c")};
    forall x | Scores(sc, Triangle(links), x) ensures x.pair in pairs {
      ScoresAreOrdered(sc, Triangle(links), x);
      LettersInOrder(x.pair.lo, x.pair.hi);
    }
  }

  lemma ScoresAreOrdered(sc: Scorer, pages: map<string, Page>, x: Scored)
    requires Scores(sc, pages, x)
    ensures x.pair.lo in pages.Keys && x.pair.hi in pages.Keys && Lt(x.pair.lo, x.pair.hi) && x.pair == Pair(x.pair.lo, x.pair.hi)
  {
  }

  lemma LettersInOrder(lo: string, hi: string)
    requires lo in {"a", "b", "c"} && hi in {"a", "b", "c"} && Lt(lo, hi)
    ensures Pair(lo, hi) in {Pair("a", "b"), Pair("a", "c"), Pair("b", "c")}
  {
    assert !LexLe("b", "a") && !LexLe("c", "a") && !LexLe("c", "b");
  }

  lemma SharedPair(sc: Scorer, links: seq<string>, w: real)
    requires LinksAreKeys(sc)
    ensures Scores(sc, Triangle(links), Scored(Pair("a", "b"), w)) <==> w == SharedWeight(sc, |links|) && w >= MIN_RELEVANCE
  {
    var pages := Triangle(links);
    PlainLinks(sc, ["c"]);
    assert Links(sc, pages["a"]) == {"c"} == Links(sc, pages["b"]) && {"c"} * {"c"} == {"c"} && "c" in {"c"};
    PlainScore(sc, pages, "a", "b");
    NeighborSumSplits(sc, pages, {"c"}, "c");
    assert {"c"} - {"c"} == {};
    assert pages["a"].sources * pages["b"].sources == {};
    assert LexLe("a", "b");
  }

  /** When the common neighbour gains a link, the update leaves the pair at the weight it had. */
  lemma WeightsGoStale(sc: Scorer, links: seq<string>, more: seq<string>, before: seq<Scored>, updated: seq<Scored>, rebuilt: seq<Scored>)
    requires LinksAreKeys(sc) && SharedWeight(sc, |links|) >= MIN_RELEVANCE && SharedWeight(sc, |links|) != SharedWeight(sc, |more|)
    requires IsBuild(sc, Triangle(links), before)
    requires IsUpdate(sc, Updated(Triangle(links), "c", Some(PlainPage(more))), AsRows(before), "c", updated)
    requires IsBuild(sc, Updated(Triangle(links), "c", Some(PlainPage(more))), rebuilt)
    ensures Scored(Pair("a", "b"), SharedWeight(sc, |links|)) in updated
    ensures Scored(Pair("a", "b"), SharedWeight(sc, |links|)) !in rebuilt
  {
    var x := Scored(Pair("a", "b"), SharedWeight(sc, |links|));
    TriangleUpdated(links, more);
    SharedPair(sc, links, x.weight);
    SharedPair(sc, more, x.weight);
    var pairs := TriangleScores(sc, links);
    var _ := TriangleScores(sc, more);
    StaleEntryStays(sc, Triangle(links), Triangle(more), "c", pairs, x, before, updated, rebuilt);
  }

  /** An entry away from the touched page that is no longer current outlives the update when few pairs compete. */
  lemma StaleEntryStays(sc: Scorer, pages: map<string, Page>, after: map<string, Page>, key: string, pairs: set<Pair>, x: Scored,
                        before: seq<Scored>, updated: seq<Scored>, rebuilt: seq<Scored>)
    requires IsBuild(sc, pages, before) && IsUpdate(sc, after, AsRows(before), key, updated) && IsBuild(sc, after, rebuilt)
    requires Scores(sc, pages, x) && !Scores(sc, after, x) && !Touches(x, key) && |pairs| < MAX_EDGES_PER_NODE
    requires forall y | Scores(sc, pages, y) || Scores(sc, after, y) :: y.pair in pairs
    ensures x in updated && x !in rebuilt
  {
    BuildPairs(sc, pages, before, pairs);
    BuildPairs(sc, after, rebuilt, pairs);
    SmallBuildKeeps(sc, pages, before, x);
    SmallUpdateKeeps(sc, after, key, before, updated, pairs, x);
  }

  lemma TriangleUpdated(links: seq<string>, more: seq<string>)
    ensures Updated(Triangle(links), "c", Some(PlainPage(more))) == Triangle(more)
  {
  }

  lemma SmallUpdateKeeps(sc: Scorer, pages: map<string, Page>, key: string, before: seq<Scored>, updated: seq<Scored>,
                         pairs: set<Pair>, x: Scored)
    requires IsPublished(before) && IsUpdate(sc, pages, AsRows(before), key, updated) && |pairs| < MAX_EDGES_PER_NODE
    requires (forall y | Scores(sc, pages, y) :: y.pair in pairs) && forall y | y in before :: y.pair in pairs
    requires x in before && !Touches(x, key)
    ensures x in updated
  {
    var ranked := UpdateSelects(sc, pages, before, key, updated);
    assert IsPublished(updated);
    PublishedPairsDiffer(updated);
    forall y | y in updated ensures y.pair in pairs { assert Ranked(sc, pages, before, key, y); }
    FewPairs(updated, pairs);
  }

  /** That run of the index: two pages share a neighbour, which is rewritten with one link more. */
  method KeepAStaleWeight(sc: Scorer, links: seq<string>, more: seq<string>) returns (updated: seq<Edge>, rebuilt: seq<Edge>)
    requires LinksAreKeys(sc) && SharedWeight(sc, |links|) >= MIN_RELEVANCE && SharedWeight(sc, |links|) != SharedWeight(sc, |more|)
    ensures Edge("a", "b", Some(SharedWeight(sc, |links|))) in updated
    ensures Edge("a", "b", Some(SharedWeight(sc, |links|))) !in rebuilt
  {
    var before := Rebuild(sc, Triangle(links));
    var index := new PageIndex(Triangle(links), before);
    ghost var published := index.UpdateItem(sc, "c", Some(PlainPage(more)));
    updated := index.edges;
    var again := Rebuild(sc, index.pages);
    rebuilt := AsRows(again);
    WeightsGoStale(sc, links, more, before, published, again);
    RowOf(published, Scored(Pair("a", "b"), SharedWeight(sc, |links|)));
    RowOf(again, Scored(Pair("a", "b"), SharedWeight(sc, |links|)));
  }
}
