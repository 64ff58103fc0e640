/** Pairs of entities that may be one (`vector_lake/governance_metrics.py`, `find_merge_candidates`).

    An inverted index proposes pairs; the score decides. Name normalisation, tokenisation and the
    names of the decision ledger are parameters. */
module MergeCandidates {
  import opened Ordering

  datatype Entity = Entity(id: string, pageKey: string, canonicalName: Option<string>, aliases: set<string>,
                           status: string, kind: string, domain: string, cluster: string, created: string)

  /** Text handling from elsewhere, and the ledger of pairs already decided to be distinct. */
  datatype Context = Context(normalize: string -> string, tokens: string -> set<string>,
                             ledgerName: string -> string, decided: set<set<string>>)

  /** `left` survives. */
  datatype Candidate = Candidate(left: Entity, right: Entity, score: nat, domain: string, hazards: set<string>)

  // ---------------------------------------------------------------- names and score

  function NameOf(e: Entity): string { if e.canonicalName.Some? then e.canonicalName.value else "" }

  /** The names a pair is compared by; the empty name may be among them. */
  function NamesOf(e: Entity): set<string> { {NameOf(e)} + e.aliases }

  function NormsOf(cx: Context, e: Entity): set<string> {
    (set n | n in NamesOf(e) && n != "" :: cx.normalize(n)) - {""}
  }

  function TokensOf(cx: Context, e: Entity): set<string> { set n, t | n in NamesOf(e) && t in cx.tokens(n) :: t }

  predicate StartsWith(s: string, prefix: string) { prefix <= s }

  predicate IsValid(e: Entity) { e.status != "Merged" && !StartsWith(NameOf(e), "Comm ") && e.kind != "system" }

  /** The page key, or the canonical name, or the id when the entity has no canonical name. */
  function PageName(e: Entity): string {
    if e.pageKey != "" then e.pageKey else if e.canonicalName.Some? then e.canonicalName.value else e.id
  }

  function Score(cx: Context, a: Entity, b: Entity): nat {
    (if NamesOf(a) * NamesOf(b) - {""} != {} then 3 else 0)
    + (if NormsOf(cx, a) * NormsOf(cx, b) != {} then 3 else 0)
    + (if |TokensOf(cx, a) * TokensOf(cx, b)| >= 2 then 1 else 0)
    + (if a.domain == b.domain && a.cluster == b.cluster then 1 else 0)
  }

  /** The argument for the index: tokens and domain alone never reach the threshold. */
  lemma ThreePointsNeedASharedName(cx: Context, a: Entity, b: Entity)
    ensures Score(cx, a, b) >= 3 <==> NamesOf(a) * NamesOf(b) - {""} != {} || NormsOf(cx, a) * NormsOf(cx, b) != {}
  {
  }

  /** A `Source_` page beside the page it fed is not a duplicate, and a decided pair is not offered again. */
  predicate SetAside(cx: Context, a: Entity, b: Entity) {
    || StartsWith(PageName(a), "Source_") != StartsWith(PageName(b), "Source_")
    || {cx.ledgerName(PageName(a)), cx.ledgerName(PageName(b))} in cx.decided
  }

  predicate Qualifies(cx: Context, a: Entity, b: Entity) {
    a.id != b.id && Score(cx, a, b) >= 3 && !SetAside(cx, a, b)
  }

  // ---------------------------------------------------------------- the survivor

  /** Oldest first, no date last, then by id. */
  function EstablishmentKey(e: Entity): (string, string) { (if e.created == "" then "\U{FFFF}" else e.created, e.id) }

  predicate KeyLess(p: (string, string), q: (string, string)) {
    if p.0 != q.0 then LexLe(p.0, q.0) else LexLe(p.1, q.1) && p.1 != q.1
  }

  predicate Older(a: Entity, b: Entity) { KeyLess(EstablishmentKey(a), EstablishmentKey(b)) }

  function Owners(entities: seq<Entity>, name: string): set<string> {
    set e | e in entities && name in NamesOf(e) :: e.id
  }

  /** Shared names that three or more distinct entities answer to. */
  function Hazards(entities: seq<Entity>, a: Entity, b: Entity): set<string> {
    set name | name in NamesOf(a) * NamesOf(b) && name != "" && |Owners(entities, name)| >= 3
  }

  /** The candidate of a pair met as `a`, `b`. */
  function CandidateOf(cx: Context, entities: seq<Entity>, a: Entity, b: Entity): Candidate {
    var domain := if a.domain != "" then a.domain else if b.domain != "" then b.domain else "General";
    var (left, right) := if Older(b, a) then (b, a) else (a, b);
    Candidate(left, right, Score(cx, a, b), domain, Hazards(entities, a, b))
  }

  function PairKey(c: Candidate): string {
    if LexLe(c.left.id, c.right.id) then c.left.id + "::" + c.right.id else c.right.id + "::" + c.left.id
  }

  /** Score descending, then pair key. */
  predicate Before(c: Candidate, d: Candidate) {
    c.score > d.score || (c.score == d.score && LexLe(PairKey(c), PairKey(d)))
  }

  lemma BeforeIsTotalPreorder()
    ensures TotalPreorder(Before)
  {
    LexLeIsTotalOrder();
  }

  /** `s[:limit]` */
  function Take<T>(s: seq<T>, limit: int): (r: seq<T>)
    ensures |r| <= |s| && r == s[..|r|]
    ensures limit >= 0 ==> |r| <= limit && (|r| < limit ==> r == s)
  {
    if limit >= 0 then s[..if limit <= |s| then limit else |s|]
    else s[..if |s| + limit >= 0 then |s| + limit else 0]
  }

  // ---------------------------------------------------------------- the inverted index

  /** The places, in order, of the entries that hold `key`. */
  ghost predicate IsPosting(sets: seq<set<string>>, upTo: nat, key: string, places: seq<nat>)
    requires upTo <= |sets|
  {
    && (forall i, j | 0 <= i < j < |places| :: places[i] < places[j])
    && (forall p: nat :: p in places <==> p < upTo && key in sets[p])
  }

  function At(index: map<string, seq<nat>>, key: string): seq<nat> { if key in index then index[key] else [] }

  method BuildIndex(sets: seq<set<string>>) returns (index: map<string, seq<nat>>)
    ensures forall key :: IsPosting(sets, |sets|, key, At(index, key))
  {
    index := map[];
    for p := 0 to |sets|
      invariant forall key :: IsPosting(sets, p, key, At(index, key))
    {
      ghost var before := index;
      index := AddPlace(index, sets[p], p);
      forall key ensures IsPosting(sets, p + 1, key, At(index, key)) {
        PostingGrows(sets, p, key, At(before, key));
      }
    }
  }

  method AddPlace(before: map<string, seq<nat>>, keys: set<string>, p: nat) returns (index: map<string, seq<nat>>)
    ensures forall key :: At(index, key) == At(before, key) + if key in keys then [p] else []
  {
    index := before;
    var rest := keys;
    while rest != {}
      invariant rest <= keys
      invariant forall key :: At(index, key) == if key in keys && key !in rest then At(before, key) + [p] else At(before, key)
    {
      var key :| key in rest;
      index := index[key := At(index, key) + [p]];
      rest := rest - {key};
    }
    assert forall key :: At(before, key) + [] == At(before, key);
  }

  lemma PostingGrows(sets: seq<set<string>>, p: nat, key: string, places: seq<nat>)
    requires p < |sets| && IsPosting(sets, p, key, places)
    ensures IsPosting(sets, p + 1, key, places + if key in sets[p] then [p] else [])
  {
    forall i | 0 <= i < |places| ensures places[i] < p { assert places[i] in places; }
    assert places + [] == places;
  }

  predicate Shares(sets: seq<set<string>>, i: nat, j: nat) { i < j < |sets| && sets[i] * sets[j] != {} }

  /** All pairs of places that share a key, each as (earlier, later). */
  method PairsSharing(sets: seq<set<string>>) returns (pairs: set<(nat, nat)>)
    ensures forall i: nat, j: nat :: (i, j) in pairs <==> Shares(sets, i, j)
  {
    var index := BuildIndex(sets);
    pairs := {};
    var rest := index.Keys;
    while rest != {}
      invariant rest <= index.Keys
      invariant forall i: nat, j: nat :: (i, j) in pairs ==> Shares(sets, i, j)
      invariant forall key, i: nat, j: nat | key in index && key !in rest && i < j < |sets| && key in sets[i] && key in sets[j] ::
        (i, j) in pairs
    {
      var key :| key in rest;
      rest := rest - {key};
      assert IsPosting(sets, |sets|, key, At(index, key));
      var found := PairsIn(index[key]);
      forall i: nat, j: nat | (i, j) in found ensures Shares(sets, i, j) { assert key in sets[i] * sets[j]; }
      pairs := pairs + found;
    }
    forall i: nat, j: nat | Shares(sets, i, j) ensures (i, j) in pairs {
      var key :| key in sets[i] * sets[j];
      assert IsPosting(sets, |sets|, key, At(index, key));
      assert i in At(index, key);
    }
  }

  method PairsIn(places: seq<nat>) returns (pairs: set<(nat, nat)>)
    requires forall i, j | 0 <= i < j < |places| :: places[i] < places[j]
    ensures forall p: nat, q: nat :: (p, q) in pairs <==> p in places && q in places && p < q
  {
    pairs := {};
    for i := 0 to |places|
      invariant forall p: nat, q: nat :: (p, q) in pairs <==> p in places[..i] && q in places && p < q
    {
      ghost var before := pairs;
      for j := i + 1 to |places|
        invariant forall p: nat, q: nat :: (p, q) in pairs <==> (p, q) in before || (p == places[i] && q in places[i + 1..j])
      {
        pairs := pairs + {(places[i], places[j])};
        assert places[i + 1..j + 1] == places[i + 1..j] + [places[j]];
      }
      assert places[..i + 1] == places[..i] + [places[i]];
      forall q ensures q in places[i + 1..] <==> q in places && places[i] < q { LaterPlaces(places, i, q); }
    }
    assert places[..|places|] == places;
  }

  lemma LaterPlaces(places: seq<nat>, i: nat, q: nat)
    requires i < |places| && forall k, l | 0 <= k < l < |places| :: places[k] < places[l]
    ensures q in places[i + 1..] <==> q in places && places[i] < q
  {
    if q in places && places[i] < q {
      var k :| 0 <= k < |places| && places[k] == q;
      assert k > i && places[i + 1..][k - i - 1] == q;
    }
  }

  // ---------------------------------------------------------------- the candidates

  function OwnersIn(owners: map<string, set<string>>, name: string): set<string> { if name in owners then owners[name] else {} }

  /** Names and the entities that answer to them. */
  method NameOwners(entities: seq<Entity>) returns (owners: map<string, set<string>>)
    ensures forall name | name != "" :: OwnersIn(owners, name) == Owners(entities, name)
  {
    owners := map[];
    for i := 0 to |entities|
      invariant forall name | name != "" :: OwnersIn(owners, name) == Owners(entities[..i], name)
    {
      var e := entities[i];
      ghost var before := owners;
      var rest := NamesOf(e) - {""};
      while rest != {}
        invariant rest <= NamesOf(e) - {""}
        invariant forall name | name != "" ::
          OwnersIn(owners, name) == OwnersIn(before, name) + if name in NamesOf(e) && name !in rest then {e.id} else {}
      {
        var name :| name in rest;
        owners := owners[name := OwnersIn(owners, name) + {e.id}];
        rest := rest - {name};
      }
      forall name | name != "" ensures OwnersIn(owners, name) == Owners(entities[..i + 1], name) {
        OwnersSnoc(entities, i, name);
      }
    }
    assert entities[..|entities|] == entities;
  }

  lemma OwnersSnoc(entities: seq<Entity>, i: nat, name: string)
    requires i < |entities|
    ensures Owners(entities[..i + 1], name)
      == Owners(entities[..i], name) + if name in NamesOf(entities[i]) then {entities[i].id} else {}
  {
    assert entities[..i + 1] == entities[..i] + [entities[i]];
    assert forall e :: e in entities[..i + 1] <==> e in entities[..i] || e == entities[i];
  }

  method ValidEntities(entities: seq<Entity>) returns (valid: seq<Entity>)
    ensures valid == Valid(entities)
  {
    valid := [];
    for i := 0 to |entities|
      invariant valid == Valid(entities[..i])
    {
      assert entities[..i + 1][..i] == entities[..i];
      if IsValid(entities[i]) { valid := valid + [entities[i]]; }
    }
    assert entities[..|entities|] == entities;
  }

  function Valid(entities: seq<Entity>): seq<Entity> {
    if entities == [] then []
    else Valid(entities[..|entities| - 1]) + if IsValid(entities[|entities| - 1]) then [entities[|entities| - 1]] else []
  }

  /** The places of every pair that qualifies, each as (earlier, later). */
  ghost function GoodPairs(cx: Context, valid: seq<Entity>): set<(nat, nat)> {
    set j: nat, i: nat | j < |valid| && i < j && Qualifies(cx, valid[i], valid[j]) :: (i, j)
  }

  predicate InRange(pairs: seq<(nat, nat)>, n: nat) { forall p | p in pairs :: p.0 < n && p.1 < n }

  function CandidatesAt(cx: Context, valid: seq<Entity>, pairs: seq<(nat, nat)>): seq<Candidate>
    requires InRange(pairs, |valid|)
  {
    if pairs == [] then []
    else
      var p := pairs[|pairs| - 1];
      CandidatesAt(cx, valid, pairs[..|pairs| - 1]) + [CandidateOf(cx, valid, valid[p.0], valid[p.1])]
  }

  /** `pairs` lists, once each, the members of `good` seen so far. */
  ghost predicate Lists(pairs: seq<(nat, nat)>, seen: set<(nat, nat)>, good: set<(nat, nat)>) {
    Distinct(pairs) && forall p :: p in pairs <==> p in seen && p in good
  }

  method ProposedPairs(cx: Context, valid: seq<Entity>) returns (proposed: set<(nat, nat)>)
    ensures forall i: nat, j: nat | (i, j) in proposed :: i < j < |valid|
    ensures forall i: nat, j: nat | i < j < |valid| && Score(cx, valid[i], valid[j]) >= 3 :: (i, j) in proposed
  {
    var norms := seq(|valid|, i requires 0 <= i < |valid| => NormsOf(cx, valid[i]));
    var names := seq(|valid|, i requires 0 <= i < |valid| => NamesOf(valid[i]));
    var byNorm := PairsSharing(norms);
    var byName := PairsSharing(names);
    proposed := byNorm + byName;
    forall i: nat, j: nat | i < j < |valid| && Score(cx, valid[i], valid[j]) >= 3 ensures (i, j) in proposed {
      ThreePointsNeedASharedName(cx, valid[i], valid[j]);
      assert Shares(norms, i, j) || Shares(names, i, j);
    }
  }

  /** `all` are the candidates of these pairs, which are exactly the good ones, each once. */
  ghost predicate AreCandidates(cx: Context, valid: seq<Entity>, pairs: seq<(nat, nat)>, all: seq<Candidate>) {
    && Lists(pairs, GoodPairs(cx, valid), GoodPairs(cx, valid))
    && InRange(pairs, |valid|) && all == CandidatesAt(cx, valid, pairs)
  }

  /** Every qualifying pair of valid entities gives one candidate, nothing else does, and the best
      `limit` of them come back in order. */
  method FindMergeCandidates(cx: Context, entities: seq<Entity>, limit: int) returns (result: seq<Candidate>)
    ensures exists pairs, all :: AreCandidates(cx, Valid(entities), pairs, all) && result == Ranked(all, limit)
  {
    var valid := ValidEntities(entities);
    var owners := NameOwners(valid);
    var candidates, pairs := AllCandidates(cx, valid, owners);
    BeforeIsTotalPreorder();
    result := Take(Sorted(candidates, Before), limit);
    assert AreCandidates(cx, Valid(entities), pairs, candidates);
  }

  function Ranked(all: seq<Candidate>, limit: int): seq<Candidate> {
    BeforeIsTotalPreorder();
    Take(Sorted(all, Before), limit)
  }

  /** The list comes back in rank order, nothing is lost but what the limit cuts off, and that ranks
      no higher than what is kept. */
  lemma RankedIsTheBest(all: seq<Candidate>, limit: int) returns (cut: seq<Candidate>)
    ensures multiset(all) == multiset(Ranked(all, limit)) + multiset(cut)
    ensures forall i, j | 0 <= i < j < |Ranked(all, limit)| :: RanksBefore(Ranked(all, limit)[i], Ranked(all, limit)[j])
    ensures forall i, j | 0 <= i < |Ranked(all, limit)| && 0 <= j < |cut| :: RanksBefore(Ranked(all, limit)[i], cut[j])
    ensures limit >= 0 ==> |Ranked(all, limit)| == Min(limit, |all|)
  {
    BeforeIsTotalPreorder();
    cut := SortedSplit(Sorted(all, Before), |Ranked(all, limit)|, Before);
    forall c, d ensures Before(c, d) <==> RanksBefore(c, d) { BeforeMeans(c, d); }
  }

  lemma BeforeMeans(c: Candidate, d: Candidate)
    ensures Before(c, d) <==> RanksBefore(c, d)
  {
  }

  /** More points, or as many and a pair key, the smaller id first, that does not come later. */
  predicate RanksBefore(c: Candidate, d: Candidate) {
    || c.score > d.score
    || (c.score == d.score
        && LexLe(if LexLe(c.left.id, c.right.id) then c.left.id + "::" + c.right.id else c.right.id + "::" + c.left.id,
                 if LexLe(d.left.id, d.right.id) then d.left.id + "::" + d.right.id else d.right.id + "::" + d.left.id))
  }

  method AllCandidates(cx: Context, valid: seq<Entity>, owners: map<string, set<string>>)
    returns (candidates: seq<Candidate>, ghost pairs: seq<(nat, nat)>)
    requires forall name | name != "" :: OwnersIn(owners, name) == Owners(valid, name)
    ensures AreCandidates(cx, valid, pairs, candidates)
  {
    var proposed := ProposedPairs(cx, valid);
    candidates, pairs := Collect(cx, valid, owners, proposed);
    GoodArePresent(cx, valid, proposed);
  }

  lemma GoodArePresent(cx: Context, valid: seq<Entity>, proposed: set<(nat, nat)>)
    requires forall i: nat, j: nat | i < j < |valid| && Score(cx, valid[i], valid[j]) >= 3 :: (i, j) in proposed
    ensures forall p | p in GoodPairs(cx, valid) :: p in proposed
  {
  }

  method Collect(cx: Context, valid: seq<Entity>, owners: map<string, set<string>>, proposed: set<(nat, nat)>)
    returns (candidates: seq<Candidate>, ghost pairs: seq<(nat, nat)>)
    requires forall i: nat, j: nat | (i, j) in proposed :: i < j < |valid|
    requires forall name | name != "" :: OwnersIn(owners, name) == Owners(valid, name)
    ensures Lists(pairs, proposed, GoodPairs(cx, valid))
    ensures InRange(pairs, |valid|) && candidates == CandidatesAt(cx, valid, pairs)
  {
    candidates, pairs := [], [];
    var rest, seen := proposed, {};
    ghost var good := GoodPairs(cx, valid);
    while rest != {}
      invariant seen + rest == proposed && seen !! rest && Lists(pairs, seen, good)
      invariant InRange(pairs, |valid|) && candidates == CandidatesAt(cx, valid, pairs)
    {
      var pair :| pair in rest;
      assert (pair.0, pair.1) in proposed;
      var found := Consider(cx, valid, owners, valid[pair.0], valid[pair.1]);
      IsGoodPair(cx, valid, pair);
      ListsGrow(pairs, seen, good, pair);
      if found.Some? {
        CandidatesSnoc(cx, valid, pairs, pair);
        candidates := candidates + [found.value];
        pairs := pairs + [pair];
      }
      rest, seen := rest - {pair}, seen + {pair};
    }
    assert seen == proposed;
  }

  lemma IsGoodPair(cx: Context, valid: seq<Entity>, p: (nat, nat))
    requires p.0 < p.1 < |valid|
    ensures p in GoodPairs(cx, valid) <==> Qualifies(cx, valid[p.0], valid[p.1])
  {
    assert p == (p.0, p.1);
  }

  lemma CandidatesSnoc(cx: Context, valid: seq<Entity>, pairs: seq<(nat, nat)>, p: (nat, nat))
    requires InRange(pairs, |valid|) && p.0 < |valid| && p.1 < |valid|
    ensures InRange(pairs + [p], |valid|)
    ensures CandidatesAt(cx, valid, pairs + [p]) == CandidatesAt(cx, valid, pairs) + [CandidateOf(cx, valid, valid[p.0], valid[p.1])]
  {
    assert (pairs + [p])[..|pairs|] == pairs;
  }

  lemma ListsGrow(pairs: seq<(nat, nat)>, seen: set<(nat, nat)>, good: set<(nat, nat)>, p: (nat, nat))
    requires Lists(pairs, seen, good) && p !in seen
    ensures Lists(if p in good then pairs + [p] else pairs, seen + {p}, good)
  {
    assert p !in pairs;
    assert forall q :: q in pairs + [p] <==> q in pairs || q == p;
  }

  /** The body of the pair loop: the candidate, unless one of the tests drops the pair. */
  method Consider(cx: Context, valid: seq<Entity>, owners: map<string, set<string>>, left: Entity, right: Entity)
    returns (found: Option<Candidate>)
    requires forall name | name != "" :: OwnersIn(owners, name) == Owners(valid, name)
    ensures found == if Qualifies(cx, left, right) then Some(CandidateOf(cx, valid, left, right)) else None
  {
    if left.id == right.id { return None; }
    var score := Points(cx, left, right);
    if score < 3 || SetAside(cx, left, right) { return None; }
    var candidate := Build(cx, valid, owners, left, right, score);
    found := Some(candidate);
  }

  method Points(cx: Context, left: Entity, right: Entity) returns (score: nat)
    ensures score == Score(cx, left, right)
  {
    score := 0;
    if NamesOf(left) * NamesOf(right) != {} {
      var overlap := NamesOf(left) * NamesOf(right) - {""};
      if overlap != {} { score := score + 3; }
    }
    if NormsOf(cx, left) * NormsOf(cx, right) != {} { score := score + 3; }
    if |TokensOf(cx, left) * TokensOf(cx, right)| >= 2 { score := score + 1; }
    if left.domain == right.domain && left.cluster == right.cluster { score := score + 1; }
  }

  method Build(cx: Context, valid: seq<Entity>, owners: map<string, set<string>>, first: Entity, second: Entity, score: nat)
    returns (c: Candidate)
    requires score == Score(cx, first, second)
    requires forall name | name != "" :: OwnersIn(owners, name) == Owners(valid, name)
    ensures c == CandidateOf(cx, valid, first, second)
  {
    var domain := if first.domain != "" then first.domain else if second.domain != "" then second.domain else "General";
    var hazards: set<string> := {};
    var rest := NamesOf(first) * NamesOf(second) - {""};
    while rest != {}
      invariant rest <= NamesOf(first) * NamesOf(second) - {""}
      invariant hazards == set name | name in NamesOf(first) * NamesOf(second) - {""} - rest && |Owners(valid, name)| >= 3
    {
      var name :| name in rest;
      rest := rest - {name};
      var claimants := OwnersIn(owners, name);
      if |claimants| >= 3 { hazards := hazards + {name}; }
    }
    var left, right := first, second;
    if Older(right, left) { left, right := right, left; }
    c := Candidate(left, right, score, domain, hazards);
  }

  // ---------------------------------------------------------------- what a reader can rely on

  /** The older side survives: ties are impossible between different ids, so the answer is the same
      whichever side the pair is met from. */
  lemma SurvivorDependsOnlyOnThePair(cx: Context, entities: seq<Entity>, a: Entity, b: Entity)
    requires a.id != b.id
    ensures var c, d := CandidateOf(cx, entities, a, b), CandidateOf(cx, entities, b, a);
      c.left == d.left && c.right == d.right && c.score == d.score && c.hazards == d.hazards && Older(c.left, c.right)
    ensures Qualifies(cx, a, b) <==> Qualifies(cx, b, a)
  {
    OlderIsDecisive(a, b);
    ScoreIsSymmetric(cx, a, b);
    assert NamesOf(a) * NamesOf(b) == NamesOf(b) * NamesOf(a);
    assert Hazards(entities, a, b) == Hazards(entities, b, a);
    assert {cx.ledgerName(PageName(a)), cx.ledgerName(PageName(b))} == {cx.ledgerName(PageName(b)), cx.ledgerName(PageName(a))};
  }

  lemma ScoreIsSymmetric(cx: Context, a: Entity, b: Entity)
    ensures Score(cx, a, b) == Score(cx, b, a)
  {
    assert NamesOf(a) * NamesOf(b) == NamesOf(b) * NamesOf(a);
    assert NormsOf(cx, a) * NormsOf(cx, b) == NormsOf(cx, b) * NormsOf(cx, a);
    assert TokensOf(cx, a) * TokensOf(cx, b) == TokensOf(cx, b) * TokensOf(cx, a);
  }

  lemma OlderIsDecisive(a: Entity, b: Entity)
    requires a.id != b.id
    ensures Older(a, b) <==> !Older(b, a)
  {
    LexLeIsTotalOrder();
  }

  /** A dated entity survives an undated one; between two dated ones the earlier date survives. */
  lemma UndatedNeverSurvivesDated(cx: Context, entities: seq<Entity>, a: Entity, b: Entity)
    requires a.id != b.id && a.created != "" && a.created[0] < '\U{FFFF}'
    requires b.created == "" || (LexLe(a.created, b.created) && a.created != b.created)
    ensures CandidateOf(cx, entities, a, b).left == a && CandidateOf(cx, entities, b, a).left == a
  {
    OlderIsDecisive(a, b);
  }

  lemma OwnersOfSameEntities(s: seq<Entity>, t: seq<Entity>, name: string)
    requires forall e :: e in s <==> e in t
    ensures Owners(s, name) == Owners(t, name)
  {
  }

  /** Listing the same entities in another order offers the same survivors over the same pairs, with
      the same scores and hazards. Only the reported domain follows the listing order. */
  lemma ListingOrderDoesNotMatter(cx: Context, s: seq<Entity>, t: seq<Entity>, p: (nat, nat)) returns (q: (nat, nat))
    requires forall e :: e in s <==> e in t
    requires p in GoodPairs(cx, s)
    ensures q in GoodPairs(cx, t)
    ensures p.0 < |s| && p.1 < |s| && q.0 < |t| && q.1 < |t|
    ensures var c, d := CandidateOf(cx, s, s[p.0], s[p.1]), CandidateOf(cx, t, t[q.0], t[q.1]);
      c.left == d.left && c.right == d.right && c.score == d.score && c.hazards == d.hazards
  {
    var a, b := s[p.0], s[p.1];
    assert a in s && b in s;
    var i :| 0 <= i < |t| && t[i] == a;
    var j :| 0 <= j < |t| && t[j] == b;
    q := if i < j then (i, j) else (j, i);
    SurvivorDependsOnlyOnThePair(cx, s, a, b);
    HazardsOfSameEntities(s, t, a, b);
    HazardsOfSameEntities(s, t, b, a);
    IsGoodPair(cx, t, q);
  }

  lemma HazardsOfSameEntities(s: seq<Entity>, t: seq<Entity>, a: Entity, b: Entity)
    requires forall e :: e in s <==> e in t
    ensures Hazards(s, a, b) == Hazards(t, a, b)
  {
    forall name ensures Owners(s, name) == Owners(t, name) { OwnersOfSameEntities(s, t, name); }
  }

  /** Between entities of one date the smaller id survives. */
  lemma SameDateSmallerIdSurvives(cx: Context, entities: seq<Entity>, a: Entity, b: Entity)
    requires a.id != b.id && a.created == b.created && LexLe(a.id, b.id)
    ensures CandidateOf(cx, entities, a, b).left == a && CandidateOf(cx, entities, b, a).left == a
  {
    OlderIsDecisive(a, b);
  }

  predicate AnswersTo(e: Entity, name: string) { name != "" && (e.canonicalName == Some(name) || name in e.aliases) }

  predicate SharesName(a: Entity, b: Entity, name: string) { AnswersTo(a, name) && AnswersTo(b, name) }

  predicate SharesNorm(cx: Context, a: Entity, b: Entity, m: string, n: string) {
    AnswersTo(a, m) && AnswersTo(b, n) && cx.normalize(m) == cx.normalize(n) != ""
  }

  lemma SharedNameIff(a: Entity, b: Entity)
    ensures NamesOf(a) * NamesOf(b) - {""} != {} <==> exists name :: SharesName(a, b, name)
  {
    if name :| SharesName(a, b, name) { assert name in NamesOf(a) * NamesOf(b) - {""}; }
    if name :| name in NamesOf(a) * NamesOf(b) - {""} { assert SharesName(a, b, name); }
  }

  lemma SharedNormIff(cx: Context, a: Entity, b: Entity)
    ensures NormsOf(cx, a) * NormsOf(cx, b) != {} <==> exists m, n :: SharesNorm(cx, a, b, m, n)
  {
    if m, n :| SharesNorm(cx, a, b, m, n) {
      assert m in NamesOf(a) && n in NamesOf(b);
      assert cx.normalize(m) in NormsOf(cx, a) * NormsOf(cx, b);
    }
    if x :| x in NormsOf(cx, a) * NormsOf(cx, b) {
      var m :| m in NamesOf(a) && m != "" && cx.normalize(m) == x;
      var n :| n in NamesOf(b) && n != "" && cx.normalize(n) == x;
      assert SharesNorm(cx, a, b, m, n);
    }
  }

  lemma TwoElements<T>(s: set<T>)
    ensures |s| >= 2 <==> exists x, y :: x in s && y in s && x != y
  {
    if |s| >= 2 {
      var x :| x in s;
      assert |s - {x}| >= 1;
      var y :| y in s - {x};
    }
    if x, y :| x in s && y in s && x != y {
      assert {x, y} <= s;
      SubsetSize({x, y}, s);
    }
  }

  lemma {:induction false} SubsetSize<T>(a: set<T>, b: set<T>)
    requires a <= b
    ensures |a| <= |b|
  {
    if x :| x in a { SubsetSize(a - {x}, b - {x}); }
  }

  /** The points: three for a shared name, three for a shared normalized name, one for two shared tokens, one for the
      same domain and cluster. */
  lemma PointsAddUp(cx: Context, a: Entity, b: Entity)
    ensures Score(cx, a, b)
      == (if exists name :: SharesName(a, b, name) then 3 else 0)
         + (if exists m, n :: SharesNorm(cx, a, b, m, n) then 3 else 0)
         + (if exists t, u :: t in TokensOf(cx, a) * TokensOf(cx, b) && u in TokensOf(cx, a) * TokensOf(cx, b) && t != u then 1 else 0)
         + (if a.domain == b.domain && a.cluster == b.cluster then 1 else 0)
  {
    SharedNameIff(a, b);
    SharedNormIff(cx, a, b);
    TwoElements(TokensOf(cx, a) * TokensOf(cx, b));
  }

  /** A pair is offered exactly when its entities differ, share a name or a normalized one, and are not set aside. */
  lemma OfferedIff(cx: Context, valid: seq<Entity>, i: nat, j: nat)
    requires i < j < |valid|
    ensures (i, j) in GoodPairs(cx, valid) <==>
              && valid[i].id != valid[j].id
              && ((exists name :: SharesName(valid[i], valid[j], name)) || (exists m, n :: SharesNorm(cx, valid[i], valid[j], m, n)))
              && StartsWith(PageName(valid[i]), "Source_") == StartsWith(PageName(valid[j]), "Source_")
              && {cx.ledgerName(PageName(valid[i])), cx.ledgerName(PageName(valid[j]))} !in cx.decided
  {
    IsGoodPair(cx, valid, (i, j));
    ThreePointsNeedASharedName(cx, valid[i], valid[j]);
    SharedNameIff(valid[i], valid[j]);
    SharedNormIff(cx, valid[i], valid[j]);
  }

  lemma ThreeElements<T>(s: set<T>)
    ensures |s| >= 3 <==> exists x, y, z :: x in s && y in s && z in s && x != y && y != z && x != z
  {
    if |s| >= 3 {
      var x :| x in s;
      TwoElements(s - {x});
      var y, z :| y in s - {x} && z in s - {x} && y != z;
    }
    if x, y, z :| x in s && y in s && z in s && x != y && y != z && x != z {
      SubsetSize({x, y, z}, s);
    }
  }

  /** An entity of this id answers to the name. */
  predicate OwnedBy(entities: seq<Entity>, name: string, id: string) {
    exists k :: 0 <= k < |entities| && entities[k].id == id && AnswersTo(entities[k], name)
  }

  /** Entities of three different ids answer to the name. */
  ghost predicate ThreeOwners(entities: seq<Entity>, name: string) {
    exists x, y, z :: OwnedBy(entities, name, x) && OwnedBy(entities, name, y) && OwnedBy(entities, name, z) && x != y && y != z && x != z
  }

  lemma OwnersMean(entities: seq<Entity>, name: string, id: string)
    requires name != ""
    ensures id in Owners(entities, name) <==> OwnedBy(entities, name, id)
  {
    if id in Owners(entities, name) {
      var e :| e in entities && name in NamesOf(e) && e.id == id;
      var k :| 0 <= k < |entities| && entities[k] == e;
      assert entities[k].id == id && AnswersTo(entities[k], name);
    }
    if k :| 0 <= k < |entities| && entities[k].id == id && AnswersTo(entities[k], name) {
      assert entities[k] in entities && name in NamesOf(entities[k]);
    }
  }

  lemma ThreeOwnersIff(entities: seq<Entity>, name: string)
    requires name != ""
    ensures |Owners(entities, name)| >= 3 <==> ThreeOwners(entities, name)
  {
    ThreeElements(Owners(entities, name));
    forall id ensures id in Owners(entities, name) <==> OwnedBy(entities, name, id) { OwnersMean(entities, name, id); }
  }

  /** The hazards of a pair are the names it shares that at least three different entities answer to. */
  lemma HazardIff(entities: seq<Entity>, a: Entity, b: Entity, name: string)
    ensures name in Hazards(entities, a, b) <==> SharesName(a, b, name) && ThreeOwners(entities, name)
  {
    if name != "" { ThreeOwnersIff(entities, name); }
  }

  /** Merged entities, community pages and system rows are never paired; everything else is, in listing order. */
  lemma {:induction false} ValidIff(entities: seq<Entity>, e: Entity)
    ensures e in Valid(entities) <==>
              e in entities && e.status != "Merged" && e.kind != "system" && !(e.canonicalName.Some? && "Comm " <= e.canonicalName.value)
  {
    if |entities| > 0 {
      var n := |entities| - 1;
      ValidIff(entities[..n], e);
      assert e in entities <==> e in entities[..n] || e == entities[n];
    }
  }
}
