/** Deriving page-space edges (`vector_lake/indexer.py`).

    `CalculateRelevance` scores one pair. `CalculateWeightedEdges` finds the pairs and the scores
    with inverted indexes, and `PageIndex.Rederive` repeats the work for one touched page.
    All three are proved against one definition of an edge, `IsEdge`. */
module EdgeBuilder {
  import opened Ordering
  import opened EdgePruner

  datatype Triple = Triple(target: string, relation: string)
  datatype Page = Page(
    links: seq<string>, sources: set<string>, kind: string, triples: seq<Triple>, decay: real, alignment: real)

  /** What the derivation takes from elsewhere: link resolution (`resolve_link_target(..) or name`),
      predicate weights, the type-affinity table, `1 / log(n)`, and the square root. */
  datatype Scorer = Scorer(
    resolve: string -> string, relationWeight: string -> real, affinity: map<string, map<string, real>>,
    invLog: nat -> real, sqrt: real -> real)

  const SOURCE_OVERLAP := 4.0
  const COMMON_NEIGHBOR := 1.5
  const DEFAULT_AFFINITY := 0.5
  const MIN_RELEVANCE := 1.5

  predicate Lt(a: string, b: string) { LexLe(a, b) && a != b }

  // ---------------------------------------------------------------- rounding and square roots

  /** `round(x, 3)`: to the nearest thousandth, ties to the even one. */
  function Round3(x: real): real {
    var y := x * 1000.0;
    var n := y.Floor;
    var d := y - n as real;
    (if d > 0.5 || (d == 0.5 && n % 2 != 0) then n + 1 else n) as real / 1000.0
  }

  lemma Round3IsMonotone(x: real, y: real)
    requires x <= y
    ensures Round3(x) <= Round3(y)
  {
    var m, n := (x * 1000.0).Floor, (y * 1000.0).Floor;
    assert m <= n;
  }

  /** The result is a thousandth, none is nearer, and of two equally near ones it is the even one. */
  lemma Round3IsNearest(x: real)
    ensures var n := (Round3(x) * 1000.0).Floor;
            && Round3(x) == n as real / 1000.0
            && x - 0.0005 <= Round3(x) <= x + 0.0005
            && (Round3(x) == x - 0.0005 || Round3(x) == x + 0.0005 ==> n % 2 == 0)
  {
    var y := x * 1000.0;
    var n := if y - y.Floor as real > 0.5 || (y - y.Floor as real == 0.5 && y.Floor % 2 != 0) then y.Floor + 1 else y.Floor;
    assert Round3(x) * 1000.0 == n as real;
    assert (n as real).Floor == n;
  }

  ghost predicate IsSquareRoot(sqrt: real -> real) {
    forall x :: x >= 0.0 ==> RootAt(sqrt, x)
  }

  predicate RootAt(sqrt: real -> real, x: real) { sqrt(x) >= 0.0 && sqrt(x) * sqrt(x) == x }

  lemma RootIsUnique(p: real, q: real)
    requires p >= 0.0 && q >= 0.0 && p * p == q * q
    ensures p == q
  {
    assert (p - q) * (p + q) == 0.0;
    if p + q > 0.0 {
      assert p - q == 0.0;
    }
  }

  function RootOf(sqrt: real -> real, x: real, y: real): real { sqrt(x * y) }

  lemma RootOfProduct(sqrt: real -> real, x: real, y: real)
    requires IsSquareRoot(sqrt) && x >= 0.0 && y >= 0.0
    ensures 0.0 <= RootOf(sqrt, x, y) == sqrt(x) * sqrt(y)
  {
    var p, q, z := sqrt(x), sqrt(y), x * y;
    assert z >= 0.0;
    assert RootAt(sqrt, x) && RootAt(sqrt, y) && RootAt(sqrt, z);
    assert (p * q) * (p * q) == (p * p) * (q * q) == z;
    assert p * q >= 0.0;
    RootIsUnique(p * q, sqrt(z));
  }

  // ---------------------------------------------------------------- the pairwise score

  function Links(sc: Scorer, p: Page): set<string> { set l | l in p.links :: sc.resolve(l) }

  /** The relation of each resolved triple target; a later triple wins, an empty target is ignored. */
  function Relations(sc: Scorer, triples: seq<Triple>): map<string, string> {
    if triples == [] then map[]
    else
      var before := Relations(sc, triples[..|triples| - 1]);
      var t := triples[|triples| - 1];
      if t.target == "" then before else before[sc.resolve(t.target) := t.relation]
  }

  function LinkWeight(sc: Scorer, p: Page, target: string): real {
    var relations := Relations(sc, p.triples);
    sc.relationWeight(if target in relations then relations[target] else "mentions")
  }

  function NeighborWeight(sc: Scorer, pages: map<string, Page>, key: string): real {
    if key in pages && |pages[key].links| > 1 then sc.invLog(|pages[key].links|) * COMMON_NEIGHBOR else 0.0
  }

  ghost function NeighborSum(sc: Scorer, pages: map<string, Page>, neighbors: set<string>): real {
    if neighbors == {} then 0.0
    else
      var n :| n in neighbors;
      NeighborWeight(sc, pages, n) + NeighborSum(sc, pages, neighbors - {n})
  }

  /** The sum does not depend on the order in which the neighbours are visited. */
  lemma {:induction false} NeighborSumSplits(sc: Scorer, pages: map<string, Page>, neighbors: set<string>, n: string)
    requires n in neighbors
    ensures NeighborSum(sc, pages, neighbors) == NeighborWeight(sc, pages, n) + NeighborSum(sc, pages, neighbors - {n})
    decreases neighbors
  {
    var m :| m in neighbors && NeighborSum(sc, pages, neighbors)
      == NeighborWeight(sc, pages, m) + NeighborSum(sc, pages, neighbors - {m});
    if m != n {
      NeighborSumSplits(sc, pages, neighbors - {m}, n);
      NeighborSumSplits(sc, pages, neighbors - {n}, m);
      assert neighbors - {m} - {n} == neighbors - {n} - {m};
    }
  }

  lemma {:induction false} NeighborSumOfZeros(sc: Scorer, pages: map<string, Page>, neighbors: set<string>)
    requires forall n | n in neighbors :: NeighborWeight(sc, pages, n) == 0.0
    ensures NeighborSum(sc, pages, neighbors) == 0.0
    decreases neighbors
  {
    if n :| n in neighbors {
      NeighborSumSplits(sc, pages, neighbors, n);
      NeighborSumOfZeros(sc, pages, neighbors - {n});
    }
  }

  function Affinity(sc: Scorer, a: string, b: string): real {
    if a in sc.affinity && b in sc.affinity[a] then sc.affinity[a][b] else DEFAULT_AFFINITY
  }

  function Align(p: Page): real { if p.alignment / 100.0 < 0.1 then 0.1 else p.alignment / 100.0 }

  /** The pairwise scorer's damping: roots of products. */
  function Damped(sc: Scorer, p: Page, q: Page, score: real): real {
    score * RootOf(sc.sqrt, p.decay, q.decay) * RootOf(sc.sqrt, Align(p), Align(q))
  }

  ghost function Evidence(sc: Scorer, pages: map<string, Page>, a: string, b: string): real
    requires a in pages && b in pages
  {
    var la, lb := Links(sc, pages[a]), Links(sc, pages[b]);
    (if b in la then LinkWeight(sc, pages[a], b) else 0.0)
    + (if a in lb then LinkWeight(sc, pages[b], a) else 0.0)
    + |pages[a].sources * pages[b].sources| as real * SOURCE_OVERLAP
    + NeighborSum(sc, pages, la * lb)
  }

  /** The unrounded score of a pair, `a` being the smaller key. */
  ghost function Score(sc: Scorer, pages: map<string, Page>, a: string, b: string): real
    requires a in pages && b in pages
  {
    Damped(sc, pages[a], pages[b], Evidence(sc, pages, a, b) + Affinity(sc, pages[a].kind, pages[b].kind))
  }

  predicate Related(sc: Scorer, p: Page, q: Page, a: string, b: string) {
    || b in Links(sc, p) || a in Links(sc, q)
    || p.sources * q.sources != {}
    || Links(sc, p) * Links(sc, q) != {}
  }

  /** The edges a page set has: related pairs, smaller key first, whose rounded score reaches 1.5. */
  ghost predicate IsEdge(sc: Scorer, pages: map<string, Page>, e: Edge) {
    && e.source in pages && e.target in pages && Lt(e.source, e.target)
    && Related(sc, pages[e.source], pages[e.target], e.source, e.target)
    && e.weight == Some(Round3(Score(sc, pages, e.source, e.target)))
    && e.weight.value >= MIN_RELEVANCE
  }

  ghost predicate WellFormed(sc: Scorer, pages: map<string, Page>) {
    IsSquareRoot(sc.sqrt) && forall k | k in pages :: pages[k].decay >= 0.0
  }

  // ---------------------------------------------------------------- what each kind of evidence is worth

  predicate Undamped(p: Page) { p.decay == 1.0 && p.alignment == 100.0 }

  function Undamp(p: Page): Page { p.(decay := 1.0, alignment := 100.0) }

  predicate LinksTo(sc: Scorer, p: Page, target: string) { exists i :: 0 <= i < |p.links| && sc.resolve(p.links[i]) == target }

  lemma LinksToIsLinks(sc: Scorer, p: Page)
    ensures forall target :: LinksTo(sc, p, target) <==> target in Links(sc, p)
  {
    forall target | target in Links(sc, p) ensures LinksTo(sc, p, target) {
      var l :| l in p.links && sc.resolve(l) == target;
      var i :| 0 <= i < |p.links| && p.links[i] == l;
      assert sc.resolve(p.links[i]) == target;
    }
  }

  lemma UndampedScore(sc: Scorer, pages: map<string, Page>, a: string, b: string)
    requires IsSquareRoot(sc.sqrt) && a in pages && b in pages && Undamped(pages[a]) && Undamped(pages[b])
    ensures Score(sc, pages, a, b) == Evidence(sc, pages, a, b) + Affinity(sc, pages[a].kind, pages[b].kind)
  {
    assert RootAt(sc.sqrt, 1.0);
    RootIsUnique(sc.sqrt(1.0), 1.0);
    assert Align(pages[a]) == 1.0 && Align(pages[b]) == 1.0;
    assert RootOf(sc.sqrt, 1.0, 1.0) == 1.0;
  }

  /** `t` and `u` are the roots of the decays and of the alignments, an alignment below ten counting as ten. */
  predicate AreRoots(p: Page, q: Page, t: real, u: real) {
    && t >= 0.0 && t * t == p.decay * q.decay
    && u >= 0.0 && u * u == (if p.alignment < 10.0 then 0.1 else p.alignment / 100.0) * (if q.alignment < 10.0 then 0.1 else q.alignment / 100.0)
  }

  lemma DampedBy(sc: Scorer, p: Page, q: Page, x: real, t: real, u: real)
    requires IsSquareRoot(sc.sqrt) && AreRoots(p, q, t, u)
    ensures Damped(sc, p, q, x) == x * t * u
  {
    assert Align(p) == if p.alignment < 10.0 then 0.1 else p.alignment / 100.0;
    assert Align(q) == if q.alignment < 10.0 then 0.1 else q.alignment / 100.0;
    RootsAre(sc.sqrt, p.decay, q.decay, t);
    RootsAre(sc.sqrt, Align(p), Align(q), u);
  }

  lemma ScoreDampedBy(sc: Scorer, pages: map<string, Page>, a: string, b: string, x: real, t: real, u: real)
    requires IsSquareRoot(sc.sqrt) && a in pages && b in pages && AreRoots(pages[a], pages[b], t, u)
    requires x == Evidence(sc, pages, a, b) + Affinity(sc, pages[a].kind, pages[b].kind)
    ensures Score(sc, pages, a, b) == x * t * u
  {
    DampedBy(sc, pages[a], pages[b], x, t, u);
  }

  lemma UndampedIsEvidence(sc: Scorer, pages: map<string, Page>, plain: map<string, Page>, a: string, b: string) returns (x: real)
    requires IsSquareRoot(sc.sqrt) && a in pages && b in pages && a != b
    requires plain == pages[a := Undamp(pages[a])][b := Undamp(pages[b])]
    ensures x == Score(sc, plain, a, b) == Evidence(sc, pages, a, b) + Affinity(sc, pages[a].kind, pages[b].kind)
  {
    UndampedScore(sc, plain, a, b);
    SameEvidence(sc, pages, plain, a, b);
    x := Score(sc, plain, a, b);
  }

  /** Damping multiplies the score of the undamped pages by both roots. */
  lemma DampingMultiplies(sc: Scorer, pages: map<string, Page>, plain: map<string, Page>, a: string, b: string, t: real, u: real)
    returns (x: real)
    requires WellFormed(sc, pages) && a in pages && b in pages && a != b && AreRoots(pages[a], pages[b], t, u)
    requires plain == pages[a := Undamp(pages[a])][b := Undamp(pages[b])]
    ensures x == Score(sc, plain, a, b) && Score(sc, pages, a, b) == x * t * u
  {
    x := UndampedIsEvidence(sc, pages, plain, a, b);
    ScoreDampedBy(sc, pages, a, b, x, t, u);
  }

  lemma RootsAre(sqrt: real -> real, x: real, y: real, t: real)
    requires IsSquareRoot(sqrt) && t >= 0.0 && t * t == x * y
    ensures RootOf(sqrt, x, y) == t
  {
    var z := x * y;
    assert z >= 0.0 && RootAt(sqrt, z);
    RootIsUnique(sqrt(z), t);
  }

  lemma {:induction false} SameNeighborSum(sc: Scorer, pages: map<string, Page>, pages': map<string, Page>, neighbors: set<string>)
    requires forall n :: n in neighbors ==> NeighborWeight(sc, pages, n) == NeighborWeight(sc, pages', n)
    ensures NeighborSum(sc, pages, neighbors) == NeighborSum(sc, pages', neighbors)
    decreases neighbors
  {
    if n :| n in neighbors {
      NeighborSumSplits(sc, pages, neighbors, n);
      NeighborSumSplits(sc, pages', neighbors, n);
      SameNeighborSum(sc, pages, pages', neighbors - {n});
    }
  }

  /** Links, triples and shared sources make the evidence; decay, alignment and kind do not. */
  lemma SameEvidence(sc: Scorer, pages: map<string, Page>, pages': map<string, Page>, a: string, b: string)
    requires a in pages && b in pages && pages.Keys == pages'.Keys
    requires forall k :: k in pages ==> pages'[k].links == pages[k].links && pages'[k].triples == pages[k].triples
    requires |pages'[a].sources * pages'[b].sources| == |pages[a].sources * pages[b].sources|
    ensures Evidence(sc, pages', a, b) == Evidence(sc, pages, a, b)
  {
    SameNeighborSum(sc, pages, pages', Links(sc, pages[a]) * Links(sc, pages[b]));
  }

  /** One more shared source adds exactly 4.0 before damping. */
  lemma OneSourceMore(sc: Scorer, pages: map<string, Page>, a: string, b: string, x: string)
    requires IsSquareRoot(sc.sqrt) && a in pages && b in pages && a != b && Undamped(pages[a]) && Undamped(pages[b])
    requires x in pages[a].sources && x !in pages[b].sources
    ensures Score(sc, pages[b := pages[b].(sources := pages[b].sources + {x})], a, b) == Score(sc, pages, a, b) + 4.0
  {
    var pages' := pages[b := pages[b].(sources := pages[b].sources + {x})];
    UndampedScore(sc, pages, a, b);
    UndampedScore(sc, pages', a, b);
    assert pages[a].sources * pages'[b].sources == pages[a].sources * pages[b].sources + {x};
    SameNeighborSum(sc, pages, pages', Links(sc, pages[a]) * Links(sc, pages[b]));
  }

  // The relation of a link is that of the last triple with its target, or a mention.

  lemma {:induction false} LastTripleCounts(sc: Scorer, triples: seq<Triple>, target: string, i: nat)
    requires i < |triples| && triples[i].target != "" && sc.resolve(triples[i].target) == target
    requires forall j :: i < j < |triples| && triples[j].target != "" ==> sc.resolve(triples[j].target) != target
    ensures target in Relations(sc, triples) && Relations(sc, triples)[target] == triples[i].relation
  {
    if i < |triples| - 1 {
      LastTripleCounts(sc, triples[..|triples| - 1], target, i);
    }
  }

  lemma {:induction false} NoTripleNoRelation(sc: Scorer, triples: seq<Triple>, target: string)
    requires forall j :: 0 <= j < |triples| && triples[j].target != "" ==> sc.resolve(triples[j].target) != target
    ensures target !in Relations(sc, triples)
  {
    if |triples| > 0 { NoTripleNoRelation(sc, triples[..|triples| - 1], target); }
  }

  /** `w` is what a link of `p` to `target` weighs: its last triple's relation, or a mention. */
  ghost predicate Weighs(sc: Scorer, p: Page, target: string, w: real) {
    if exists i :: 0 <= i < |p.triples| && IsLastTriple(sc, p, target, i) then
      exists i :: 0 <= i < |p.triples| && IsLastTriple(sc, p, target, i) && w == sc.relationWeight(p.triples[i].relation)
    else w == sc.relationWeight("mentions")
  }

  predicate IsLastTriple(sc: Scorer, p: Page, target: string, i: nat)
    requires i < |p.triples|
  {
    && p.triples[i].target != "" && sc.resolve(p.triples[i].target) == target
    && forall j :: i < j < |p.triples| && p.triples[j].target != "" ==> sc.resolve(p.triples[j].target) != target
  }

  lemma {:induction false} FindLastTriple(sc: Scorer, p: Page, target: string, n: nat) returns (i: nat)
    requires n < |p.triples| && p.triples[n].target != "" && sc.resolve(p.triples[n].target) == target
    ensures i < |p.triples| && IsLastTriple(sc, p, target, i)
    decreases |p.triples| - n
  {
    if j :| n < j < |p.triples| && p.triples[j].target != "" && sc.resolve(p.triples[j].target) == target {
      i := FindLastTriple(sc, p, target, j);
    } else {
      i := n;
    }
  }

  lemma LinkWeighs(sc: Scorer, p: Page, target: string)
    ensures Weighs(sc, p, target, LinkWeight(sc, p, target))
  {
    if n :| 0 <= n < |p.triples| && p.triples[n].target != "" && sc.resolve(p.triples[n].target) == target {
      var i := FindLastTriple(sc, p, target, n);
      LastTripleCounts(sc, p.triples, target, i);
    } else {
      NoTripleNoRelation(sc, p.triples, target);
    }
  }

  /** Undamped, the score is the sum of the links in both directions, 4.0 for each shared source, the evidence of the
      common neighbours, and the affinity of the smaller key's kind to the other's. */
  lemma ScoreIsTheSum(sc: Scorer, pages: map<string, Page>, a: string, b: string) returns (forth: real, back: real)
    requires IsSquareRoot(sc.sqrt) && a in pages && b in pages && Undamped(pages[a]) && Undamped(pages[b])
    ensures Weighs(sc, pages[a], b, forth) && Weighs(sc, pages[b], a, back)
    ensures Score(sc, pages, a, b)
      == (if LinksTo(sc, pages[a], b) then forth else 0.0) + (if LinksTo(sc, pages[b], a) then back else 0.0)
         + 4.0 * |pages[a].sources * pages[b].sources| as real
         + NeighborSum(sc, pages, Links(sc, pages[a]) * Links(sc, pages[b]))
         + if pages[a].kind in sc.affinity && pages[b].kind in sc.affinity[pages[a].kind]
           then sc.affinity[pages[a].kind][pages[b].kind] else 0.5
  {
    LinksToIsLinks(sc, pages[a]);
    LinksToIsLinks(sc, pages[b]);
    LinkWeighs(sc, pages[a], b);
    LinkWeighs(sc, pages[b], a);
    UndampedScore(sc, pages, a, b);
    forth, back := LinkWeight(sc, pages[a], b), LinkWeight(sc, pages[b], a);
  }

  /** A page that both link to adds 1.5 times the inverse logarithm of its degree, or nothing if it has fewer than two links. */
  lemma OneNeighborMore(sc: Scorer, pages: map<string, Page>, common: set<string>, c: string)
    requires c !in common
    ensures NeighborSum(sc, pages, {}) == 0.0
    ensures NeighborSum(sc, pages, common + {c})
      == NeighborSum(sc, pages, common) + if c in pages && |pages[c].links| >= 2 then 1.5 * sc.invLog(|pages[c].links|) else 0.0
  {
    NeighborSumSplits(sc, pages, common + {c}, c);
    assert common + {c} - {c} == common;
  }

  /** The pages link one to the other, share a source, or link to the same page. */
  predicate IsRelated(sc: Scorer, p: Page, q: Page, a: string, b: string) {
    || LinksTo(sc, p, b) || LinksTo(sc, q, a)
    || (exists x :: x in p.sources && x in q.sources)
    || (exists i :: 0 <= i < |p.links| && LinksTo(sc, q, sc.resolve(p.links[i])))
  }

  /** An edge joins two related pages, smaller key first, at their rounded score if that reaches 1.5. */
  lemma EdgeIff(sc: Scorer, pages: map<string, Page>, a: string, b: string, w: Option<real>)
    ensures IsEdge(sc, pages, Edge(a, b, w)) <==>
              && a in pages && b in pages && LexLe(a, b) && a != b && IsRelated(sc, pages[a], pages[b], a, b)
              && w == Some(Round3(Score(sc, pages, a, b))) && w.value >= 1.5
  {
    if a in pages && b in pages { RelatedIff(sc, pages[a], pages[b], a, b); }
  }

  lemma RelatedIff(sc: Scorer, p: Page, q: Page, a: string, b: string)
    ensures Related(sc, p, q, a, b) <==> IsRelated(sc, p, q, a, b)
  {
    LinksToIsLinks(sc, p);
    LinksToIsLinks(sc, q);
    if c :| c in Links(sc, p) * Links(sc, q) {
      var i :| 0 <= i < |p.links| && sc.resolve(p.links[i]) == c;
      assert LinksTo(sc, q, sc.resolve(p.links[i]));
    }
    if i :| 0 <= i < |p.links| && LinksTo(sc, q, sc.resolve(p.links[i])) {
      assert LinksTo(sc, p, sc.resolve(p.links[i]));
      assert sc.resolve(p.links[i]) in Links(sc, p) * Links(sc, q);
    }
    if x :| x in p.sources && x in q.sources { assert x in p.sources * q.sources; }
    if x :| x in p.sources * q.sources { assert x in p.sources && x in q.sources; }
  }

  /** The undamped pages share sources and nothing else. */
  predicate SharesOnlySources(sc: Scorer, p: Page, q: Page, a: string, b: string) {
    && Undamped(p) && Undamped(q) && !LinksTo(sc, p, b) && !LinksTo(sc, q, a)
    && forall i, j :: 0 <= i < |p.links| && 0 <= j < |q.links| ==> sc.resolve(p.links[i]) != sc.resolve(q.links[j])
  }

  lemma NoCommonLinks(sc: Scorer, p: Page, q: Page)
    requires forall i, j :: 0 <= i < |p.links| && 0 <= j < |q.links| ==> sc.resolve(p.links[i]) != sc.resolve(q.links[j])
    ensures Links(sc, p) * Links(sc, q) == {}
  {
    forall l, m | l in p.links && m in q.links ensures sc.resolve(l) != sc.resolve(m) {
      var i :| 0 <= i < |p.links| && p.links[i] == l;
      var j :| 0 <= j < |q.links| && q.links[j] == m;
    }
  }

  /** Shared sources alone score 4.0 each, and the affinity of the smaller key's kind to the other's. */
  lemma SourcesAlone(sc: Scorer, pages: map<string, Page>, a: string, b: string)
    requires IsSquareRoot(sc.sqrt) && a in pages && b in pages && SharesOnlySources(sc, pages[a], pages[b], a, b)
    ensures Score(sc, pages, a, b) == 4.0 * |pages[a].sources * pages[b].sources| as real
              + if pages[a].kind in sc.affinity && pages[b].kind in sc.affinity[pages[a].kind]
                then sc.affinity[pages[a].kind][pages[b].kind] else 0.5
    ensures Related(sc, pages[a], pages[b], a, b) <==> pages[a].sources * pages[b].sources != {}
  {
    var forth, back := ScoreIsTheSum(sc, pages, a, b);
    NoCommonLinks(sc, pages[a], pages[b]);
    LinksToIsLinks(sc, pages[a]);
    LinksToIsLinks(sc, pages[b]);
  }

  /** So the build publishes such a pair exactly at that weight, rounded, if a source is shared and it reaches 1.5. */
  lemma SourcesAloneArePublished(sc: Scorer, pages: map<string, Page>, edges: seq<Edge>, a: string, b: string, w: real)
    requires WellFormed(sc, pages) && forall e :: e in edges <==> IsEdge(sc, pages, e)
    requires a in pages && b in pages && Lt(a, b) && SharesOnlySources(sc, pages[a], pages[b], a, b)
    ensures Edge(a, b, Some(w)) in edges <==>
              && pages[a].sources * pages[b].sources != {} && w >= 1.5
              && w == Round3(4.0 * |pages[a].sources * pages[b].sources| as real
                             + if pages[a].kind in sc.affinity && pages[b].kind in sc.affinity[pages[a].kind]
                               then sc.affinity[pages[a].kind][pages[b].kind] else 0.5)
  {
    SourcesAlone(sc, pages, a, b);
  }

  method PairEvidence(sc: Scorer, pages: map<string, Page>, a: string, b: string) returns (score: real)
    requires a in pages && b in pages
    ensures score == Evidence(sc, pages, a, b)
  {
    var la, lb := Links(sc, pages[a]), Links(sc, pages[b]);
    score := 0.0;
    if b in la { score := score + LinkWeight(sc, pages[a], b); }
    if a in lb { score := score + LinkWeight(sc, pages[b], a); }
    if pages[a].sources * pages[b].sources != {} {
      score := score + |pages[a].sources * pages[b].sources| as real * SOURCE_OVERLAP;
    }
    ghost var direct := score;
    var rest := la * lb;
    while rest != {}
      invariant rest <= la * lb
      invariant score + NeighborSum(sc, pages, rest) == direct + NeighborSum(sc, pages, la * lb)
    {
      var n :| n in rest;
      NeighborSumSplits(sc, pages, rest, n);
      if n in pages && |pages[n].links| > 1 {
        score := score + sc.invLog(|pages[n].links|) * COMMON_NEIGHBOR;
      }
      rest := rest - {n};
    }
  }

  method CalculateRelevance(sc: Scorer, pages: map<string, Page>, a: string, b: string) returns (relevance: real)
    requires a in pages && b in pages
    ensures relevance == Round3(Score(sc, pages, a, b))
    ensures IsSquareRoot(sc.sqrt) && SharesOnlySources(sc, pages[a], pages[b], a, b) ==>
              relevance == Round3(4.0 * |pages[a].sources * pages[b].sources| as real
                                  + if pages[a].kind in sc.affinity && pages[b].kind in sc.affinity[pages[a].kind]
                                    then sc.affinity[pages[a].kind][pages[b].kind] else 0.5)
  {
    var score := PairEvidence(sc, pages, a, b);
    score := score + Affinity(sc, pages[a].kind, pages[b].kind);
    relevance := Round3(Damped(sc, pages[a], pages[b], score));
    if IsSquareRoot(sc.sqrt) && SharesOnlySources(sc, pages[a], pages[b], a, b) { SourcesAlone(sc, pages, a, b); }
  }

  // ---------------------------------------------------------------- the zero-evidence skip

  function Multiplier(sc: Scorer, p: Page): real { RootOf(sc.sqrt, p.decay, Align(p)) }

  /** The full build's damping: one root per page. */
  function Scaled(score: real, m: real, n: real): real { score * (m * n) }

  lemma MultipliersAgree(sc: Scorer, p: Page, q: Page, x: real)
    requires IsSquareRoot(sc.sqrt) && p.decay >= 0.0 && q.decay >= 0.0
    ensures Damped(sc, p, q, x) == Scaled(x, Multiplier(sc, p), Multiplier(sc, q))
  {
    RootOfProduct(sc.sqrt, p.decay, q.decay);
    RootOfProduct(sc.sqrt, Align(p), Align(q));
    RootOfProduct(sc.sqrt, p.decay, Align(p));
    RootOfProduct(sc.sqrt, q.decay, Align(q));
    Regroup(sc.sqrt(p.decay), sc.sqrt(q.decay), sc.sqrt(Align(p)), sc.sqrt(Align(q)),
            RootOf(sc.sqrt, p.decay, q.decay), RootOf(sc.sqrt, Align(p), Align(q)), Multiplier(sc, p), Multiplier(sc, q), x);
  }

  lemma Regroup(dp: real, dq: real, ap: real, aq: real, d: real, a: real, mp: real, mq: real, x: real)
    requires d == dp * dq && a == ap * aq && mp == dp * ap && mq == dq * aq
    ensures x * d * a == x * (mp * mq)
  {
    assert d * a == mp * mq;
    assert x * d * a == x * (d * a);
  }

  lemma MultiplierIsNonNegative(sc: Scorer, p: Page)
    requires IsSquareRoot(sc.sqrt) && p.decay >= 0.0
    ensures Multiplier(sc, p) >= 0.0
  {
    RootOfProduct(sc.sqrt, p.decay, Align(p));
  }

  lemma TimesIsMonotone(x: real, y: real, c: real)
    requires x <= y && c >= 0.0
    ensures x * c <= y * c && c * x <= c * y
  {
  }

  function ZeroEvidenceBelowThreshold(maxAffinity: Option<real>, multiplier: real, maxMultiplier: Option<real>, minRelevance: real): bool {
    && maxAffinity.Some? && maxMultiplier.Some?
    && maxAffinity.value >= 0.0 && multiplier >= 0.0 && maxMultiplier.value >= 0.0
    && Round3(Scaled(maxAffinity.value, multiplier, maxMultiplier.value)) < minRelevance
  }

  /** A pair without evidence that is skipped would not have reached the threshold. */
  lemma SkippedPairsLose(maxAffinity: real, multiplier: real, maxMultiplier: real, affinity: real, other: real)
    requires ZeroEvidenceBelowThreshold(Some(maxAffinity), multiplier, Some(maxMultiplier), MIN_RELEVANCE)
    requires affinity <= maxAffinity && 0.0 <= other <= maxMultiplier
    ensures Round3(Scaled(affinity, multiplier, other)) < MIN_RELEVANCE
  {
    ScaledIsMonotone(affinity, maxAffinity, multiplier, other, maxMultiplier);
    Round3IsMonotone(Scaled(affinity, multiplier, other), Scaled(maxAffinity, multiplier, maxMultiplier));
  }

  lemma ScaledIsMonotone(x: real, y: real, m: real, n: real, most: real)
    requires x <= y && y >= 0.0 && m >= 0.0 && 0.0 <= n <= most
    ensures Scaled(x, m, n) <= Scaled(y, m, most)
  {
    var mn, mm := m * n, m * most;
    assert 0.0 <= mn <= mm by { TimesIsMonotone(n, most, m); TimesIsMonotone(0.0, n, m); }
    TimesIsMonotone(x, y, mn);
    TimesIsMonotone(mn, mm, y);
  }

  method MaxAffinity(sc: Scorer, kinds: set<string>) returns (most: real)
    ensures most >= DEFAULT_AFFINITY
    ensures forall a, b | a in kinds && b in kinds :: Affinity(sc, a, b) <= most
    ensures most == DEFAULT_AFFINITY || exists a, b :: a in kinds && b in kinds && Affinity(sc, a, b) == most
  {
    most := DEFAULT_AFFINITY;
    var rows := kinds;
    while rows != {}
      invariant rows <= kinds && most >= DEFAULT_AFFINITY
      invariant forall a, b | a in kinds - rows && b in kinds :: Affinity(sc, a, b) <= most
      invariant most == DEFAULT_AFFINITY || exists a, b :: a in kinds && b in kinds && Affinity(sc, a, b) == most
    {
      var a :| a in rows;
      var columns := kinds;
      while columns != {}
        invariant columns <= kinds && most >= DEFAULT_AFFINITY
        invariant forall x, b | x in kinds - rows && b in kinds :: Affinity(sc, x, b) <= most
        invariant forall b | b in kinds - columns :: Affinity(sc, a, b) <= most
        invariant most == DEFAULT_AFFINITY || exists x, b :: x in kinds && b in kinds && Affinity(sc, x, b) == most
      {
        var b :| b in columns;
        if Affinity(sc, a, b) > most { most := Affinity(sc, a, b); }
        columns := columns - {b};
      }
      rows := rows - {a};
    }
  }

  method MaxMultiplier(sc: Scorer, pages: map<string, Page>) returns (most: real)
    requires WellFormed(sc, pages)
    ensures most >= 0.0 && forall k | k in pages :: 0.0 <= Multiplier(sc, pages[k]) <= most
    ensures most == 0.0 || exists k :: k in pages && Multiplier(sc, pages[k]) == most
  {
    most := 0.0;
    var rest := pages.Keys;
    while rest != {}
      invariant rest <= pages.Keys && most >= 0.0
      invariant forall k | k in pages && k !in rest :: 0.0 <= Multiplier(sc, pages[k]) <= most
      invariant most == 0.0 || exists k :: k in pages && Multiplier(sc, pages[k]) == most
    {
      var k :| k in rest;
      MultiplierIsNonNegative(sc, pages[k]);
      if Multiplier(sc, pages[k]) > most { most := Multiplier(sc, pages[k]); }
      rest := rest - {k};
    }
  }

  // ---------------------------------------------------------------- the inverted indexes

  /** `postings[x]` holds exactly the keys whose set contains `x`. */
  ghost predicate IsPostings(sets: map<string, set<string>>, postings: map<string, set<string>>) {
    forall x, k :: Posted(postings, x, k) <==> k in sets && x in sets[k]
  }

  predicate Posted(postings: map<string, set<string>>, x: string, k: string) { x in postings && k in postings[x] }

  method Postings(sets: map<string, set<string>>) returns (postings: map<string, set<string>>)
    ensures IsPostings(sets, postings)
  {
    postings := map[];
    var keys := sets.Keys;
    while keys != {}
      invariant keys <= sets.Keys
      invariant forall x, k :: Posted(postings, x, k) <==> k in sets && k !in keys && x in sets[k]
    {
      var key :| key in keys;
      var rest := sets[key];
      while rest != {}
        invariant rest <= sets[key]
        invariant forall x, k :: Posted(postings, x, k) <==>
          (k in sets && k !in keys && x in sets[k]) || (k == key && x in sets[key] && x !in rest)
      {
        var x :| x in rest;
        ghost var before := postings;
        postings := postings[x := (if x in postings then postings[x] else {}) + {key}];
        assert forall y, k :: Posted(postings, y, k) <==> Posted(before, y, k) || (y == x && k == key);
        rest := rest - {x};
      }
      keys := keys - {key};
    }
  }

  /** How many elements `a` shares with each later key, counted posting by posting. */
  method CountShared(sets: map<string, set<string>>, postings: map<string, set<string>>, a: string)
    returns (counts: map<string, nat>)
    requires a in sets && IsPostings(sets, postings)
    ensures forall b :: b in counts <==> b in sets && Lt(a, b) && sets[a] * sets[b] != {}
    ensures forall b | b in counts :: counts[b] == |sets[a] * sets[b]|
  {
    counts := map[];
    var rest, seen := sets[a], {};
    while rest != {}
      invariant seen + rest == sets[a] && seen !! rest
      invariant forall b :: b in counts <==> b in sets && Lt(a, b) && seen * sets[b] != {}
      invariant forall b | b in counts :: counts[b] == |seen * sets[b]|
    {
      var x :| x in rest;
      counts := CountPosting(sets, postings, a, x, counts);
      forall b | b in sets && Lt(a, b)
        ensures b in counts <==> (seen + {x}) * sets[b] != {}
        ensures b in counts ==> counts[b] == |(seen + {x}) * sets[b]|
      {
        SharedStep(seen, x, sets[b]);
      }
      rest, seen := rest - {x}, seen + {x};
    }
    assert seen == sets[a];
  }

  method CountPosting(sets: map<string, set<string>>, postings: map<string, set<string>>, a: string, x: string,
                      before: map<string, nat>)
    returns (counts: map<string, nat>)
    requires IsPostings(sets, postings)
    ensures forall b :: b in counts <==> b in before || (b in sets && x in sets[b] && Lt(a, b))
    ensures forall b | b in counts ::
      counts[b] == (if b in before then before[b] else 0) + if b in sets && x in sets[b] && Lt(a, b) then 1 else 0
  {
    counts := before;
    var keys := if x in postings then postings[x] else {};
    assert forall k :: k in keys <==> Posted(postings, x, k);
    ghost var all := keys;
    while keys != {}
      invariant keys <= all
      invariant forall b :: b in counts <==> b in before || (b in all && b !in keys && Lt(a, b))
      invariant forall b | b in counts ::
        counts[b] == (if b in before then before[b] else 0) + if b in all && b !in keys && Lt(a, b) then 1 else 0
    {
      var b :| b in keys;
      if Lt(a, b) {
        counts := counts[b := (if b in counts then counts[b] else 0) + 1];
      }
      keys := keys - {b};
    }
  }

  lemma SharedStep(seen: set<string>, x: string, other: set<string>)
    requires x !in seen
    ensures |(seen + {x}) * other| == |seen * other| + if x in other then 1 else 0
    ensures (seen + {x}) * other != {} <==> seen * other != {} || x in other
  {
    if x in other {
      assert (seen + {x}) * other == seen * other + {x};
    } else {
      assert (seen + {x}) * other == seen * other;
    }
  }

  /** The common-neighbour evidence `a` shares with each later key. With `skip`, postings of weight
      zero are not read, so a key may be missing when all its evidence is zero. */
  method SumShared(sc: Scorer, pages: map<string, Page>, links: map<string, set<string>>,
                   reverse: map<string, set<string>>, a: string, skip: bool)
    returns (scores: map<string, real>)
    requires a in links && IsPostings(links, reverse)
    ensures forall b | b in scores :: b in links && Lt(a, b)
    ensures forall b | b in links && Lt(a, b) :: Summed(sc, pages, links[a] * links[b], skip, b, scores)
  {
    scores := map[];
    var rest, seen := links[a], {};
    while rest != {}
      invariant seen + rest == links[a] && seen !! rest
      invariant forall b | b in scores :: b in links && Lt(a, b)
      invariant forall b | b in links && Lt(a, b) :: Summed(sc, pages, seen * links[b], skip, b, scores)
    {
      var n :| n in rest;
      var weight := NeighborWeight(sc, pages, n);
      ghost var before := scores;
      if !(weight == 0.0 && skip) {
        scores := AddPosting(links, reverse, a, n, weight, scores);
      }
      forall b | b in links && Lt(a, b) ensures Summed(sc, pages, (seen + {n}) * links[b], skip, b, scores) {
        SumStep(sc, pages, seen, n, links[b]);
        assert Summed(sc, pages, seen * links[b], skip, b, before);
      }
      rest, seen := rest - {n}, seen + {n};
    }
    assert seen == links[a];
  }

  /** `scores` holds the evidence of `b` from these common neighbours, or nothing when it is zero and skipped. */
  ghost predicate Summed(sc: Scorer, pages: map<string, Page>, shared: set<string>, skip: bool, b: string, scores: map<string, real>) {
    if b in scores then shared != {} && scores[b] == NeighborSum(sc, pages, shared)
    else (skip || shared == {}) && NeighborSum(sc, pages, shared) == 0.0
  }

  lemma SumStep(sc: Scorer, pages: map<string, Page>, seen: set<string>, n: string, other: set<string>)
    requires n !in seen
    ensures NeighborSum(sc, pages, (seen + {n}) * other)
      == NeighborSum(sc, pages, seen * other) + if n in other then NeighborWeight(sc, pages, n) else 0.0
    ensures (seen + {n}) * other != {} <==> seen * other != {} || n in other
  {
    if n in other {
      NeighborSumSplits(sc, pages, (seen + {n}) * other, n);
      assert (seen + {n}) * other - {n} == seen * other;
    } else {
      assert (seen + {n}) * other == seen * other;
    }
  }

  method AddPosting(links: map<string, set<string>>, reverse: map<string, set<string>>, a: string, n: string,
                    weight: real, before: map<string, real>)
    returns (scores: map<string, real>)
    requires IsPostings(links, reverse)
    ensures forall b :: b in scores <==> b in before || (b in links && n in links[b] && Lt(a, b))
    ensures forall b | b in scores ::
      scores[b] == (if b in before then before[b] else 0.0) + if b in links && n in links[b] && Lt(a, b) then weight else 0.0
  {
    scores := before;
    var keys := if n in reverse then reverse[n] else {};
    assert forall k :: k in keys <==> Posted(reverse, n, k);
    ghost var all := keys;
    while keys != {}
      invariant keys <= all
      invariant forall b :: b in scores <==> b in before || (b in all && b !in keys && Lt(a, b))
      invariant forall b | b in scores ::
        scores[b] == (if b in before then before[b] else 0.0) + if b in all && b !in keys && Lt(a, b) then weight else 0.0
    {
      var b :| b in keys;
      if Lt(a, b) {
        scores := scores[b := (if b in scores then scores[b] else 0.0) + weight];
      }
      keys := keys - {b};
    }
  }

  // ---------------------------------------------------------------- the full build

  /** The weight of every link of a page, plain mentions first, typed links over them. */
  method TripleWeights(sc: Scorer, p: Page) returns (weights: map<string, real>)
    ensures forall k | k in Links(sc, p) :: k in weights && weights[k] == LinkWeight(sc, p, k)
  {
    var mention := sc.relationWeight("mentions");
    weights := map k | k in Links(sc, p) :: mention;
    for i := 0 to |p.triples|
      invariant forall k | k in Links(sc, p) || k in Relations(sc, p.triples[..i]) :: k in weights
      invariant forall k | k in weights :: weights[k] == sc.relationWeight(
        if k in Relations(sc, p.triples[..i]) then Relations(sc, p.triples[..i])[k] else "mentions")
    {
      assert p.triples[..i + 1][..i] == p.triples[..i];
      var t := p.triples[i];
      if t.target != "" {
        weights := weights[sc.resolve(t.target) := sc.relationWeight(t.relation)];
      }
    }
    assert p.triples[..|p.triples|] == p.triples;
  }

  ghost predicate Indexed(sc: Scorer, pages: map<string, Page>, links: map<string, set<string>>,
                          weights: map<string, map<string, real>>, bySource: map<string, set<string>>,
                          reverse: map<string, set<string>>) {
    && links.Keys == pages.Keys == weights.Keys
    && (forall k | k in pages :: links[k] == Links(sc, pages[k]))
    && (forall k | k in pages :: forall l | l in links[k] :: l in weights[k] && weights[k][l] == LinkWeight(sc, pages[k], l))
    && IsPostings(map k | k in pages :: pages[k].sources, bySource)
    && IsPostings(links, reverse)
  }

  /** Every pair that a zero-evidence skip may lose is below the threshold. */
  ghost predicate SkipIsSafe(sc: Scorer, pages: map<string, Page>, a: string)
    requires a in pages
  {
    forall b | b in pages ::
      Round3(Scaled(Affinity(sc, pages[a].kind, pages[b].kind), Multiplier(sc, pages[a]), Multiplier(sc, pages[b]))) < MIN_RELEVANCE
  }

  lemma ScoreWithoutEvidence(sc: Scorer, pages: map<string, Page>, a: string, b: string)
    requires WellFormed(sc, pages) && a in pages && b in pages
    requires b !in Links(sc, pages[a]) && a !in Links(sc, pages[b]) && pages[a].sources * pages[b].sources == {}
    requires NeighborSum(sc, pages, Links(sc, pages[a]) * Links(sc, pages[b])) == 0.0
    ensures Score(sc, pages, a, b)
      == Scaled(Affinity(sc, pages[a].kind, pages[b].kind), Multiplier(sc, pages[a]), Multiplier(sc, pages[b]))
  {
    assert Evidence(sc, pages, a, b) == 0.0;
    MultipliersAgree(sc, pages[a], pages[b], Affinity(sc, pages[a].kind, pages[b].kind));
  }

  /** Whether `b` is one of the keys the scan of `a` scores: evidence not read because of a skip may hide it. */
  ghost predicate Covered(sc: Scorer, pages: map<string, Page>, a: string, skip: bool, b: string,
                          overlaps: map<string, nat>, shared: map<string, real>, candidates: set<string>)
    requires a in pages && b in pages
  {
    var both := Links(sc, pages[a]) * Links(sc, pages[b]);
    && (b in candidates ==> Lt(a, b) && Related(sc, pages[a], pages[b], a, b))
    && (Lt(a, b) && b !in candidates && Related(sc, pages[a], pages[b], a, b) ==>
      skip && b !in Links(sc, pages[a]) && a !in Links(sc, pages[b]) && pages[a].sources * pages[b].sources == {}
      && NeighborSum(sc, pages, both) == 0.0)
    && (Lt(a, b) ==>
      && (if b in overlaps then overlaps[b] else 0) == |pages[a].sources * pages[b].sources|
      && (if b in shared then shared[b] else 0.0) == NeighborSum(sc, pages, both))
  }

  method Candidates(sc: Scorer, pages: map<string, Page>, links: map<string, set<string>>,
                    bySource: map<string, set<string>>, reverse: map<string, set<string>>, a: string, skip: bool,
                    ghost weights: map<string, map<string, real>>)
    returns (overlaps: map<string, nat>, shared: map<string, real>, candidates: set<string>)
    requires Indexed(sc, pages, links, weights, bySource, reverse) && a in pages
    ensures forall b | b in pages :: Covered(sc, pages, a, skip, b, overlaps, shared, candidates)
  {
    var sources := map k | k in pages :: pages[k].sources;
    overlaps := map[];
    if SOURCE_OVERLAP != 0.0 || !skip {
      overlaps := CountShared(sources, bySource, a);
    }
    shared := SumShared(sc, pages, links, reverse, a, skip);
    var linking := if a in reverse then reverse[a] else {};
    assert forall k :: k in linking <==> Posted(reverse, a, k);
    candidates := overlaps.Keys + shared.Keys + (set b | b in links[a] && Lt(a, b)) + (set b | b in linking && Lt(a, b));
    forall b | b in pages ensures Covered(sc, pages, a, skip, b, overlaps, shared, candidates) {
      if Lt(a, b) { assert Summed(sc, pages, links[a] * links[b], skip, b, shared); }
      assert sources[b] == pages[b].sources && links[b] == Links(sc, pages[b]) && links[a] == Links(sc, pages[a]);
      assert b in linking <==> a in links[b];
    }
  }

  method EdgesFrom(sc: Scorer, pages: map<string, Page>, links: map<string, set<string>>,
                   weights: map<string, map<string, real>>, bySource: map<string, set<string>>,
                   reverse: map<string, set<string>>, a: string, skip: bool)
    returns (edges: seq<Edge>)
    requires WellFormed(sc, pages) && Indexed(sc, pages, links, weights, bySource, reverse) && a in pages
    requires skip ==> SkipIsSafe(sc, pages, a)
    ensures Distinct(edges) && forall e :: e in edges <==> e.source == a && IsEdge(sc, pages, e)
  {
    var overlaps, shared, candidates := Candidates(sc, pages, links, bySource, reverse, a, skip, weights);
    forall e: Edge | e.source == a && IsEdge(sc, pages, e) ensures e.target in candidates {
      var b := e.target;
      assert Covered(sc, pages, a, skip, b, overlaps, shared, candidates);
      if b !in candidates { ScoreWithoutEvidence(sc, pages, a, b); }
    }
    var linking := if a in reverse then reverse[a] else {};
    assert forall k :: k in linking <==> Posted(reverse, a, k);
    edges := [];
    var rest := candidates;
    ghost var done := {};
    while rest != {}
      invariant rest <= candidates && candidates <= done + rest + (candidates - pages.Keys) && done !! rest && Distinct(edges)
      invariant forall e :: e in edges <==> e.source == a && e.target in done && IsEdge(sc, pages, e)
    {
      var b :| b in rest;
      rest := rest - {b};
      if b !in links { continue; }
      assert Covered(sc, pages, a, skip, b, overlaps, shared, candidates);
      ghost var before := edges;
      var relevance := ScoreCandidate(sc, pages, links, weights, linking, overlaps, shared, a, b, candidates, skip);
      if relevance >= MIN_RELEVANCE {
        edges := edges + [Edge(a, b, Some(relevance))];
      }
      Extended(sc, pages, before, done, a, b, edges);
      done := done + {b};
    }
  }

  /** One candidate more: its edge is added exactly when it is one. */
  lemma Extended(sc: Scorer, pages: map<string, Page>, before: seq<Edge>, done: set<string>, a: string, b: string, after: seq<Edge>)
    requires Distinct(before) && forall e :: e in before <==> e.source == a && e.target in done && IsEdge(sc, pages, e)
    requires a in pages && b in pages && b !in done && Lt(a, b) && Related(sc, pages[a], pages[b], a, b)
    requires var relevance := Round3(Score(sc, pages, a, b));
      after == if relevance >= MIN_RELEVANCE then before + [Edge(a, b, Some(relevance))] else before
    ensures Distinct(after) && forall e :: e in after <==> e.source == a && e.target in done + {b} && IsEdge(sc, pages, e)
  {
    forall i | 0 <= i < |before| ensures before[i].target != b {
      assert before[i] in before;
    }
  }

  method GatherEvidence(sc: Scorer, pages: map<string, Page>, links: map<string, set<string>>,
                        weights: map<string, map<string, real>>, linking: set<string>,
                        overlaps: map<string, nat>, shared: map<string, real>, a: string, b: string,
                        ghost candidates: set<string>, ghost skip: bool)
    returns (score: real)
    requires a in pages && b in pages && Lt(a, b)
    requires links.Keys == weights.Keys == pages.Keys
    requires forall k | k in pages :: links[k] == Links(sc, pages[k])
    requires forall k | k in pages :: forall l | l in links[k] :: l in weights[k] && weights[k][l] == LinkWeight(sc, pages[k], l)
    requires b in linking <==> a in links[b]
    requires Covered(sc, pages, a, skip, b, overlaps, shared, candidates)
    ensures score == Evidence(sc, pages, a, b)
  {
    score := 0.0;
    if b in links[a] { score := score + weights[a][b]; }
    if b in linking { score := score + weights[b][a]; }
    if b in overlaps { score := score + overlaps[b] as real * SOURCE_OVERLAP; }
    if b in shared { score := score + shared[b]; }
  }

  method ScoreCandidate(sc: Scorer, pages: map<string, Page>, links: map<string, set<string>>,
                        weights: map<string, map<string, real>>, linking: set<string>,
                        overlaps: map<string, nat>, shared: map<string, real>, a: string, b: string,
                        ghost candidates: set<string>, ghost skip: bool)
    returns (relevance: real)
    requires WellFormed(sc, pages) && a in pages && b in pages && Lt(a, b)
    requires links.Keys == weights.Keys == pages.Keys
    requires forall k | k in pages :: links[k] == Links(sc, pages[k])
    requires forall k | k in pages :: forall l | l in links[k] :: l in weights[k] && weights[k][l] == LinkWeight(sc, pages[k], l)
    requires b in linking <==> a in links[b]
    requires Covered(sc, pages, a, skip, b, overlaps, shared, candidates)
    ensures relevance == Round3(Score(sc, pages, a, b))
  {
    var score := GatherEvidence(sc, pages, links, weights, linking, overlaps, shared, a, b, candidates, skip);
    score := score + Affinity(sc, pages[a].kind, pages[b].kind);
    MultipliersAgree(sc, pages[a], pages[b], score);
    relevance := Round3(Scaled(score, Multiplier(sc, pages[a]), Multiplier(sc, pages[b])));
  }

  ghost predicate Bounds(sc: Scorer, pages: map<string, Page>, maxAffinity: real, maxMultiplier: real) {
    && (forall a, b | a in pages && b in pages :: Affinity(sc, pages[a].kind, pages[b].kind) <= maxAffinity)
    && (forall b | b in pages :: 0.0 <= Multiplier(sc, pages[b]) <= maxMultiplier)
  }

  method SkipFor(sc: Scorer, pages: map<string, Page>, a: string, maxAffinity: real, maxMultiplier: real) returns (skip: bool)
    requires a in pages && Bounds(sc, pages, maxAffinity, maxMultiplier)
    ensures skip == ZeroEvidenceBelowThreshold(Some(maxAffinity), Multiplier(sc, pages[a]), Some(maxMultiplier), MIN_RELEVANCE)
    ensures skip ==> SkipIsSafe(sc, pages, a)
  {
    skip := ZeroEvidenceBelowThreshold(Some(maxAffinity), Multiplier(sc, pages[a]), Some(maxMultiplier), MIN_RELEVANCE);
    if skip {
      forall b | b in pages
        ensures Round3(Scaled(Affinity(sc, pages[a].kind, pages[b].kind), Multiplier(sc, pages[a]), Multiplier(sc, pages[b]))) < MIN_RELEVANCE
      {
        SkippedPairsLose(maxAffinity, Multiplier(sc, pages[a]), maxMultiplier,
                         Affinity(sc, pages[a].kind, pages[b].kind), Multiplier(sc, pages[b]));
      }
    }
  }

  method AllTripleWeights(sc: Scorer, pages: map<string, Page>) returns (weights: map<string, map<string, real>>)
    ensures weights.Keys == pages.Keys
    ensures forall k | k in pages ::
      forall l | l in Links(sc, pages[k]) :: l in weights[k] && weights[k][l] == LinkWeight(sc, pages[k], l)
  {
    weights := map[];
    var keys := pages.Keys;
    while keys != {}
      invariant keys <= pages.Keys && weights.Keys == pages.Keys - keys
      invariant forall k | k in weights ::
        forall l | l in Links(sc, pages[k]) :: l in weights[k] && weights[k][l] == LinkWeight(sc, pages[k], l)
    {
      var k :| k in keys;
      var row := TripleWeights(sc, pages[k]);
      weights := weights[k := row];
      keys := keys - {k};
    }
  }

  lemma Gathered(sc: Scorer, pages: map<string, Page>, edges: seq<Edge>, done: set<string>, found: seq<Edge>, a: string)
    requires Distinct(edges) && forall e :: e in edges <==> e.source in done && IsEdge(sc, pages, e)
    requires Distinct(found) && forall e :: e in found <==> e.source == a && IsEdge(sc, pages, e)
    requires a !in done
    ensures Distinct(edges + found)
    ensures forall e :: e in edges + found <==> e.source in done + {a} && IsEdge(sc, pages, e)
  {
    forall i, j | 0 <= i < j < |edges + found| ensures (edges + found)[i] != (edges + found)[j] {
      assert i < |edges| ==> edges[i] in edges && edges[i].source in done;
      assert j >= |edges| ==> found[j - |edges|] in found && found[j - |edges|].source == a;
    }
  }

  method BuildIndexes(sc: Scorer, pages: map<string, Page>)
    returns (links: map<string, set<string>>, weights: map<string, map<string, real>>,
             bySource: map<string, set<string>>, reverse: map<string, set<string>>)
    ensures Indexed(sc, pages, links, weights, bySource, reverse)
  {
    links := map k | k in pages :: Links(sc, pages[k]);
    weights := AllTripleWeights(sc, pages);
    bySource := Postings(map k | k in pages :: pages[k].sources);
    reverse := Postings(links);
  }

  method FindBounds(sc: Scorer, pages: map<string, Page>) returns (maxAffinity: real, maxMultiplier: real)
    requires WellFormed(sc, pages)
    ensures Bounds(sc, pages, maxAffinity, maxMultiplier)
  {
    var kinds := (set k | k in pages :: pages[k].kind) + sc.affinity.Keys;
    assert forall k | k in pages :: pages[k].kind in kinds;
    maxAffinity := MaxAffinity(sc, kinds);
    maxMultiplier := MaxMultiplier(sc, pages);
  }

  method ScanPage(sc: Scorer, pages: map<string, Page>, links: map<string, set<string>>,
                  weights: map<string, map<string, real>>, bySource: map<string, set<string>>,
                  reverse: map<string, set<string>>, maxAffinity: real, maxMultiplier: real, a: string)
    returns (found: seq<Edge>)
    requires WellFormed(sc, pages) && Indexed(sc, pages, links, weights, bySource, reverse)
    requires Bounds(sc, pages, maxAffinity, maxMultiplier) && a in pages
    ensures Distinct(found) && forall e :: e in found <==> e.source == a && IsEdge(sc, pages, e)
  {
    var skip := SkipFor(sc, pages, a, maxAffinity, maxMultiplier);
    found := EdgesFrom(sc, pages, links, weights, bySource, reverse, a, skip);
  }

  /** The full build: exactly the edges of the page set, each once. */
  method CalculateWeightedEdges(sc: Scorer, pages: map<string, Page>) returns (edges: seq<Edge>)
    requires WellFormed(sc, pages)
    ensures Distinct(edges) && forall e :: e in edges <==> IsEdge(sc, pages, e)
  {
    var links, weights, bySource, reverse := BuildIndexes(sc, pages);
    var maxAffinity, maxMultiplier := FindBounds(sc, pages);
    edges := [];
    var rest := pages.Keys;
    ghost var done := {};
    while rest != {}
      invariant done + rest == pages.Keys && done !! rest && Distinct(edges)
      invariant forall e :: e in edges <==> e.source in done && IsEdge(sc, pages, e)
    {
      var a :| a in rest;
      var found := ScanPage(sc, pages, links, weights, bySource, reverse, maxAffinity, maxMultiplier, a);
      Gathered(sc, pages, edges, done, found, a);
      edges := edges + found;
      rest := rest - {a};
      done := done + {a};
    }
  }
}
