/** Keeping community ids stable between clustering runs
    (`scripts/community_clustering_daemon.py`, `_stabilize_community_ids`).

    A run-local community is named by the `str` of its label, the key the source sorts by. */
module Communities {
  import opened Ordering

  type Partition = map<string, string>

  datatype Diff = Diff(ratio: real, added: set<string>)
  datatype Rank = Rank(overlap: nat, name: string)

  function Members(partition: Partition, id: string): set<string> { set n | n in partition && partition[n] == id }

  function Shared(nodes: set<string>, prior: Partition, id: string): set<string> { nodes * Members(prior, id) }

  /** `id` has the largest overlap with the nodes; ties go to the larger id; the empty id never counts. */
  ghost predicate Prefers(nodes: set<string>, prior: Partition, id: string) {
    && id != "" && Shared(nodes, prior, id) != {}
    && forall other :: other != "" ==>
      |Shared(nodes, prior, other)| < |Shared(nodes, prior, id)|
      || (|Shared(nodes, prior, other)| == |Shared(nodes, prior, id)| && LexLe(other, id))
  }

  /** Larger overlap first, then smaller name. */
  predicate RankLe(a: Rank, b: Rank) { a.overlap > b.overlap || (a.overlap == b.overlap && LexLe(a.name, b.name)) }

  lemma RankLeIsTotalOrder()
    ensures TotalOrder(RankLe)
  {
    LexLeIsTotalOrder();
  }

  lemma RankLeReflexive(r: Rank)
    ensures RankLe(r, r)
  {
    LexLeTotal(r.name, r.name);
  }

  function RankOf(now: Partition, prior: Partition, name: string, id: string): Rank {
    Rank(|Shared(Members(now, name), prior, id)|, name)
  }

  /** The community prefers `id`, and comes first among those that do. */
  ghost predicate Wins(now: Partition, prior: Partition, name: string, id: string) {
    && Prefers(Members(now, name), prior, id)
    && forall other | other in now.Values && Prefers(Members(now, other), prior, id) ::
      RankLe(RankOf(now, prior, name, id), RankOf(now, prior, other, id))
  }

  /** What the renaming is for: one id per community, an old id exactly for its winner, and ids
      outside the old partition for everyone else. */
  ghost predicate IsStable(now: Partition, prior: Partition, stable: map<string, string>) {
    && stable.Keys == now.Values
    && (forall a, b | a in stable && b in stable && a != b :: stable[a] != stable[b])
    && (forall c | c in stable :: stable[c] != "")
    && (forall c, id | c in stable && Wins(now, prior, c, id) :: stable[c] == id)
    && (forall c | c in stable && stable[c] in prior.Values :: Wins(now, prior, c, stable[c]))
  }

  /** What is reported for an id: the symmetric difference to its old community, relative to that
      community, and the nodes that joined; a new id is all change. */
  function DiffOf(now: Partition, prior: Partition, name: string, id: string): Diff {
    var nodes, before := Members(now, name), Members(prior, id);
    if before == {} then Diff(1.0, nodes * prior.Keys)
    else Diff(Ratio(|nodes - before + (before - nodes)|, |before|), nodes - before)
  }

  function Ratio(changed: nat, total: nat): real
    requires total > 0
  {
    changed as real / total as real
  }

  // ---------------------------------------------------------------- the algorithm

  method GroupByCommunity(now: Partition) returns (members: map<string, set<string>>)
    ensures members.Keys == now.Values && forall c | c in members :: members[c] == Members(now, c)
  {
    members := map[];
    var rest := now.Keys;
    while rest != {}
      invariant rest <= now.Keys
      invariant forall c :: c in members <==> exists n :: n in now && n !in rest && now[n] == c
      invariant forall c | c in members :: members[c] == Members(now, c) - rest
    {
      var n :| n in rest;
      var c := now[n];
      members := members[c := (if c in members then members[c] else {}) + {n}];
      rest := rest - {n};
    }
    forall c ensures c in members <==> c in now.Values {
      if c in now.Values { var n :| n in now && now[n] == c; }
    }
  }

  predicate CountedAt(counts: map<string, nat>, nodes: set<string>, prior: Partition, id: string) {
    && (id in counts <==> id != "" && Shared(nodes, prior, id) != {})
    && (id in counts ==> counts[id] == |Shared(nodes, prior, id)|)
  }

  method CountOverlaps(nodes: set<string>, prior: Partition) returns (counts: map<string, nat>)
    ensures forall id :: CountedAt(counts, nodes, prior, id)
  {
    counts := map[];
    var rest, seen := nodes, {};
    while rest != {}
      invariant seen + rest == nodes && seen !! rest
      invariant forall id :: CountedAt(counts, seen, prior, id)
    {
      var n :| n in rest;
      ghost var before := counts;
      if n in prior && prior[n] != "" {
        counts := counts[prior[n] := (if prior[n] in counts then counts[prior[n]] else 0) + 1];
      }
      forall id ensures CountedAt(counts, seen + {n}, prior, id) {
        assert CountedAt(before, seen, prior, id);
        SharedStep(seen, n, prior, id);
      }
      rest, seen := rest - {n}, seen + {n};
    }
    assert seen == nodes;
  }

  lemma SharedStep(seen: set<string>, n: string, prior: Partition, id: string)
    requires n !in seen
    ensures |Shared(seen + {n}, prior, id)| == |Shared(seen, prior, id)| + if n in prior && prior[n] == id then 1 else 0
    ensures Shared(seen + {n}, prior, id) != {} <==> Shared(seen, prior, id) != {} || (n in prior && prior[n] == id)
  {
    if n in prior && prior[n] == id {
      assert Shared(seen + {n}, prior, id) == Shared(seen, prior, id) + {n};
    } else {
      assert Shared(seen + {n}, prior, id) == Shared(seen, prior, id);
    }
  }

  method BestOverlap(counts: map<string, nat>) returns (best: Option<string>, overlap: nat)
    ensures best.None? <==> counts == map[]
    ensures best.None? ==> overlap == 0
    ensures best.Some? ==> best.value in counts && counts[best.value] == overlap
    ensures best.Some? ==> forall id | id in counts ::
      counts[id] < overlap || (counts[id] == overlap && LexLe(id, best.value))
  {
    best, overlap := None, 0;
    var rest := counts.Keys;
    LexLeIsTotalOrder();
    while rest != {}
      invariant rest <= counts.Keys
      invariant best.None? ==> rest == counts.Keys && overlap == 0
      invariant best.Some? ==> best.value in counts && counts[best.value] == overlap
      invariant best.Some? ==> forall id | id in counts && id !in rest ::
        counts[id] < overlap || (counts[id] == overlap && LexLe(id, best.value))
    {
      var id :| id in rest;
      if best.None? || counts[id] > overlap || (counts[id] == overlap && LexLe(best.value, id)) {
        best, overlap := Some(id), counts[id];
      }
      rest := rest - {id};
    }
  }

  /** The candidate that the source builds for one community. */
  ghost predicate IsChoice(nodes: set<string>, prior: Partition, best: Option<string>, overlap: nat) {
    && (best.Some? ==> Prefers(nodes, prior, best.value) && overlap == |Shared(nodes, prior, best.value)|)
    && (best.None? ==> overlap == 0 && forall id :: !Prefers(nodes, prior, id))
  }

  method Choose(nodes: set<string>, prior: Partition) returns (best: Option<string>, overlap: nat)
    ensures IsChoice(nodes, prior, best, overlap)
  {
    var counts := CountOverlaps(nodes, prior);
    best, overlap := BestOverlap(counts);
    if best.Some? {
      assert CountedAt(counts, nodes, prior, best.value);
      forall other | other != ""
        ensures |Shared(nodes, prior, other)| < overlap || (|Shared(nodes, prior, other)| == overlap && LexLe(other, best.value))
      {
        assert CountedAt(counts, nodes, prior, other);
      }
    } else {
      forall id ensures !Prefers(nodes, prior, id) { assert CountedAt(counts, nodes, prior, id); }
    }
  }

  lemma PreferredIsUnique(nodes: set<string>, prior: Partition, a: string, b: string)
    requires Prefers(nodes, prior, a) && Prefers(nodes, prior, b)
    ensures a == b
  {
    LexLeAntisymmetric(a, b);
  }

  // ---------------------------------------------------------------- claiming in rank order

  function OverlapOf(nodes: set<string>, prior: Partition, best: Option<string>): nat {
    if best.Some? then |Shared(nodes, prior, best.value)| else 0
  }

  /** Every community with its choice, and all of them in claiming order. */
  ghost predicate IsQueue(now: Partition, prior: Partition, best: map<string, Option<string>>, ranked: seq<Rank>) {
    && best.Keys == now.Values
    && (forall c | c in best :: IsChoice(Members(now, c), prior, best[c], OverlapOf(Members(now, c), prior, best[c])))
    && SortedBy(ranked, RankLe) && Distinct(ranked)
    && (forall r :: r in ranked <==> r.name in best && r.overlap == OverlapOf(Members(now, r.name), prior, best[r.name]))
  }

  method Queue(now: Partition, prior: Partition, members: map<string, set<string>>)
    returns (best: map<string, Option<string>>, ranked: seq<Rank>)
    requires members.Keys == now.Values && forall c | c in members :: members[c] == Members(now, c)
    ensures IsQueue(now, prior, best, ranked)
  {
    best := map[];
    var items: seq<Rank> := [];
    var rest := members.Keys;
    while rest != {}
      invariant rest <= members.Keys && best.Keys == members.Keys - rest && Distinct(items)
      invariant forall c | c in best :: IsChoice(Members(now, c), prior, best[c], OverlapOf(Members(now, c), prior, best[c]))
      invariant forall r :: r in items <==> r.name in best && r.overlap == OverlapOf(Members(now, r.name), prior, best[r.name])
    {
      var c :| c in rest;
      var choice, overlap := Choose(members[c], prior);
      best := best[c := choice];
      items := items + [Rank(overlap, c)];
      rest := rest - {c};
    }
    RankLeIsTotalOrder();
    SortedKeepsDistinct(items, RankLe);
    ranked := Sorted(items, RankLe);
  }

  /** Fresh ids: an endless supply of different non-empty strings. */
  ghost predicate IsMint(mint: nat -> string) {
    && (forall i :: mint(i) != "")
    && (forall i, j :: i != j ==> mint(i) != mint(j))
  }

  method MintUnused(mint: nat -> string, start: nat, taken: set<string>) returns (id: string, next: nat)
    requires IsMint(mint)
    ensures id !in taken && id != "" && next > start
  {
    next := start;
    id := mint(next);
    ghost var left := taken;
    while id in taken
      invariant next >= start && id == mint(next)
      invariant left <= taken && forall x | x in taken && x !in left :: exists k :: start <= k < next && x == mint(k)
      decreases left
    {
      ghost var was := left;
      left := left - {id};
      assert mint(next) == id;
      next := next + 1;
      id := mint(next);
    }
    next := next + 1;
  }

  function Names(done: seq<Rank>): set<string> { set r | r in done :: r.name }

  /** The claims after the candidates of `done`: one id per name, an old id only for those that prefer
      it, and every preferred id taken by its candidate or by an earlier one. */
  ghost predicate Claims(prior: Partition, best: map<string, Option<string>>, done: seq<Rank>, stable: map<string, string>) {
    && stable.Keys == Names(done) && stable.Keys <= best.Keys
    && Injective(stable)
    && (forall c | c in stable :: ClaimOk(prior, best, stable, c))
    && (forall i | 0 <= i < |done| && best[done[i].name].Some? :: TakenBy(done, stable, i, best[done[i].name].value))
  }

  ghost predicate Injective(stable: map<string, string>) {
    forall a, b | a in stable && b in stable && a != b :: stable[a] != stable[b]
  }

  predicate ClaimOk(prior: Partition, best: map<string, Option<string>>, stable: map<string, string>, c: string)
    requires c in stable && c in best
  {
    stable[c] != "" && (stable[c] in prior.Values ==> best[c] == Some(stable[c]))
  }

  predicate Took(done: seq<Rank>, stable: map<string, string>, k: int, id: string)
    requires 0 <= k < |done|
  {
    done[k].name in stable && stable[done[k].name] == id
  }

  ghost predicate TakenBy(done: seq<Rank>, stable: map<string, string>, i: int, id: string)
    requires i < |done|
  {
    exists k | 0 <= k <= i :: Took(done, stable, k, id)
  }

  lemma NamesSnoc(done: seq<Rank>, r: Rank)
    ensures Names(done + [r]) == Names(done) + {r.name}
  {
    assert forall x :: x in done + [r] <==> x in done || x == r;
  }

  lemma ClaimKeeps(prior: Partition, best: map<string, Option<string>>, done: seq<Rank>, stable: map<string, string>, r: Rank, id: string)
    requires Claims(prior, best, done, stable) && r.name in best && r.name !in stable
    requires id !in stable.Values && id != ""
    requires best[r.name] == Some(id) || (id !in prior.Values && (best[r.name].Some? ==> best[r.name].value in stable.Values))
    ensures Claims(prior, best, done + [r], stable[r.name := id])
  {
    var done', stable', n := done + [r], stable[r.name := id], |done|;
    NamesSnoc(done, r);
    assert forall c | c in stable :: stable[c] in stable.Values;
    assert Injective(stable');
    forall c | c in stable' ensures ClaimOk(prior, best, stable', c) {
      assert c in stable ==> ClaimOk(prior, best, stable, c);
    }
    forall i | 0 <= i <= n && best[done'[i].name].Some? ensures TakenBy(done', stable', i, best[done'[i].name].value) {
      TakenStays(prior, best, done, stable, r, id, i);
    }
  }

  lemma TakenStays(prior: Partition, best: map<string, Option<string>>, done: seq<Rank>, stable: map<string, string>, r: Rank, id: string, i: nat)
    requires Claims(prior, best, done, stable) && r.name in best && r.name !in stable && i <= |done|
    requires best[r.name].Some? ==> best[r.name] == Some(id) || best[r.name].value in stable.Values
    requires best[(done + [r])[i].name].Some?
    ensures TakenBy(done + [r], stable[r.name := id], i, best[(done + [r])[i].name].value)
  {
    var done', stable', n := done + [r], stable[r.name := id], |done|;
    if i < n {
      var u := best[done[i].name].value;
      assert TakenBy(done, stable, i, u);
      var k :| 0 <= k <= i && Took(done, stable, k, u);
      assert Took(done', stable', k, u);
    } else if best[r.name] == Some(id) {
      assert Took(done', stable', n, id);
    } else {
      var u := best[r.name].value;
      var c :| c in stable && stable[c] == u;
      assert c in Names(done);
      var x :| x in done && x.name == c;
      var k :| 0 <= k < n && done[k] == x;
      assert Took(done', stable', k, u);
    }
  }

  /** The claims of the whole queue give every old id to its winner. */
  lemma ClaimsAreStable(now: Partition, prior: Partition, best: map<string, Option<string>>, ranked: seq<Rank>, stable: map<string, string>)
    requires IsQueue(now, prior, best, ranked) && Claims(prior, best, ranked, stable)
    ensures IsStable(now, prior, stable)
  {
    forall c ensures c in stable <==> c in now.Values {
      if c in now.Values { assert Rank(OverlapOf(Members(now, c), prior, best[c]), c) in ranked; }
    }
    forall c | c in stable ensures stable[c] != "" { assert ClaimOk(prior, best, stable, c); }
    forall c, id | c in stable && Wins(now, prior, c, id) ensures stable[c] == id {
      WinnerClaims(now, prior, best, ranked, stable, c, id);
    }
    forall c | c in stable && stable[c] in prior.Values ensures Wins(now, prior, c, stable[c]) {
      ClaimantWins(now, prior, best, ranked, stable, c);
    }
  }

  lemma Position(ranked: seq<Rank>, now: Partition, prior: Partition, best: map<string, Option<string>>, c: string) returns (i: nat)
    requires IsQueue(now, prior, best, ranked) && c in best
    ensures i < |ranked| && ranked[i] == Rank(OverlapOf(Members(now, c), prior, best[c]), c)
  {
    assert Rank(OverlapOf(Members(now, c), prior, best[c]), c) in ranked;
    i :| 0 <= i < |ranked| && ranked[i] == Rank(OverlapOf(Members(now, c), prior, best[c]), c);
  }

  lemma PreferredIsBest(now: Partition, prior: Partition, best: map<string, Option<string>>, ranked: seq<Rank>, c: string, id: string)
    requires IsQueue(now, prior, best, ranked) && c in best && Prefers(Members(now, c), prior, id)
    ensures best[c] == Some(id)
  {
    if best[c].Some? { PreferredIsUnique(Members(now, c), prior, best[c].value, id); }
  }

  lemma WinnerClaims(now: Partition, prior: Partition, best: map<string, Option<string>>, ranked: seq<Rank>,
                     stable: map<string, string>, c: string, id: string)
    requires IsQueue(now, prior, best, ranked) && Claims(prior, best, ranked, stable) && c in stable
    ensures Wins(now, prior, c, id) ==> stable[c] == id
  {
    if Wins(now, prior, c, id) {
      var i := Position(ranked, now, prior, best, c);
      PreferredIsBest(now, prior, best, ranked, c, id);
      assert TakenBy(ranked, stable, i, id);
      var k :| 0 <= k <= i && Took(ranked, stable, k, id);
      var d := ranked[k].name;
      var n :| n in Shared(Members(now, c), prior, id);
      assert prior[n] in prior.Values && ClaimOk(prior, best, stable, d);
      assert ranked[k] in ranked;
      RankLeReflexive(ranked[i]);
      assert RankLe(ranked[k], ranked[i]) && RankLe(ranked[i], ranked[k]);
      LexLeAntisymmetric(c, d);
    }
  }

  lemma ClaimantWins(now: Partition, prior: Partition, best: map<string, Option<string>>, ranked: seq<Rank>,
                     stable: map<string, string>, c: string)
    requires IsQueue(now, prior, best, ranked) && Claims(prior, best, ranked, stable)
    requires c in stable && stable[c] in prior.Values
    ensures Wins(now, prior, c, stable[c])
  {
    var id := stable[c];
    assert ClaimOk(prior, best, stable, c);
    forall d | d in now.Values && Prefers(Members(now, d), prior, id)
      ensures RankLe(RankOf(now, prior, c, id), RankOf(now, prior, d, id))
    {
      OthersRankLater(now, prior, best, ranked, stable, c, d);
    }
  }

  lemma OthersRankLater(now: Partition, prior: Partition, best: map<string, Option<string>>, ranked: seq<Rank>,
                        stable: map<string, string>, c: string, d: string)
    requires IsQueue(now, prior, best, ranked) && Claims(prior, best, ranked, stable)
    requires c in stable && best[c] == Some(stable[c]) && d in best && Prefers(Members(now, d), prior, stable[c])
    ensures RankLe(RankOf(now, prior, c, stable[c]), RankOf(now, prior, d, stable[c]))
  {
    var id := stable[c];
    PreferredIsBest(now, prior, best, ranked, d, id);
    var i := Position(ranked, now, prior, best, c);
    var j := Position(ranked, now, prior, best, d);
    assert TakenBy(ranked, stable, j, id);
    var k :| 0 <= k <= j && Took(ranked, stable, k, id);
    assert ranked[k].name == c && ranked[k] in ranked;
    assert ranked[k] == ranked[i];
    RankLeReflexive(ranked[j]);
    assert RankLe(ranked[k], ranked[j]);
  }

  /** What the source computes from the counts is the symmetric difference. */
  lemma RatioIsSymmetricDifference(nodes: set<string>, before: set<string>)
    requires before != {}
    ensures |before| > 0
    ensures |nodes - before + (before - nodes)| == |nodes - before| + (|before| - |nodes * before|)
  {
    assert before == (before - nodes) + nodes * before;
  }

  method Diffed(now: Partition, prior: Partition, name: string, nodes: set<string>, id: string, claimsOld: bool) returns (d: Diff)
    requires nodes == Members(now, name)
    requires claimsOld <==> Members(prior, id) != {}
    ensures d == DiffOf(now, prior, name, id)
  {
    if !claimsOld {
      return Diff(1.0, set n | n in nodes && n in prior);
    }
    var added, changed, total := CountChanges(nodes, prior, id);
    d := Diff(Ratio(changed, total), added);
  }

  method CountChanges(nodes: set<string>, prior: Partition, id: string) returns (added: set<string>, changed: nat, total: nat)
    requires Members(prior, id) != {}
    ensures added == nodes - Members(prior, id) && total == |Members(prior, id)| > 0
    ensures changed == |nodes - Members(prior, id) + (Members(prior, id) - nodes)|
  {
    var oldNodes := set n | n in prior && prior[n] == id;
    assert oldNodes == Members(prior, id);
    added := set n | n in nodes && !(n in prior && prior[n] == id);
    assert added == nodes - oldNodes;
    RatioIsSymmetricDifference(nodes, oldNodes);
    total := |oldNodes|;
    var removed := total - |Shared(nodes, prior, id)|;
    changed := |added| + removed;
  }

  method StabilizeCommunityIds(now: Partition, prior: Partition, mint: nat -> string)
    returns (final: Partition, diffs: map<string, Diff>, stable: map<string, string>)
    requires IsMint(mint)
    ensures IsStable(now, prior, stable)
    ensures final == map n | n in now :: stable[now[n]]
    ensures Reported(now, prior, stable, diffs)
  {
    var members := GroupByCommunity(now);
    var best, ranked := Queue(now, prior, members);
    var claimed: set<string>, next := {}, 0;
    stable, diffs := map[], map[];
    for i := 0 to |ranked|
      invariant Claims(prior, best, ranked[..i], stable) && claimed == stable.Values
      invariant Reported(now, prior, stable, diffs)
    {
      var r := ranked[i];
      assert r in ranked && ranked[..i + 1] == ranked[..i] + [r];
      NamesDiffer(now, prior, best, ranked);
      var id, claimsOld;
      id, claimsOld, next := Claim(mint, next, best[r.name], claimed, prior);
      ClaimKeeps(prior, best, ranked[..i], stable, r, id);
      var d := Diffed(now, prior, r.name, members[r.name], id, claimsOld);
      ReportKeeps(now, prior, stable, diffs, r.name, id);
      claimed := claimed + {id};
      stable := stable[r.name := id];
      diffs := diffs[id := d];
    }
    assert ranked[..|ranked|] == ranked;
    ClaimsAreStable(now, prior, best, ranked, stable);
    final := map n | n in now :: stable[now[n]];
  }

  /** The preferred id if nobody took it yet, a minted one otherwise. */
  method Claim(mint: nat -> string, start: nat, best: Option<string>, claimed: set<string>, prior: Partition)
    returns (id: string, claimsOld: bool, next: nat)
    requires IsMint(mint)
    requires best.Some? ==> best.value != "" && Members(prior, best.value) != {}
    ensures id !in claimed && id != ""
    ensures claimsOld <==> Members(prior, id) != {}
    ensures best == Some(id) || (id !in prior.Values && (best.Some? ==> best.value in claimed))
  {
    if best.Some? && best.value !in claimed {
      return best.value, true, start;
    }
    claimsOld := false;
    id, next := MintUnused(mint, start, claimed + prior.Values);
    assert forall n | n in prior :: prior[n] in prior.Values;
  }

  ghost predicate Reported(now: Partition, prior: Partition, stable: map<string, string>, diffs: map<string, Diff>) {
    diffs.Keys == stable.Values && forall c | c in stable :: diffs[stable[c]] == DiffOf(now, prior, c, stable[c])
  }

  lemma ReportKeeps(now: Partition, prior: Partition, stable: map<string, string>, diffs: map<string, Diff>, c: string, id: string)
    requires Reported(now, prior, stable, diffs) && c !in stable && id !in stable.Values
    ensures stable[c := id].Values == stable.Values + {id}
    ensures Reported(now, prior, stable[c := id], diffs[id := DiffOf(now, prior, c, id)])
  {
    ValuesSnoc(stable, c, id);
    assert forall k | k in stable :: stable[k] in stable.Values;
  }

  lemma ValuesSnoc(stable: map<string, string>, c: string, id: string)
    requires c !in stable
    ensures stable[c := id].Values == stable.Values + {id}
  {
    var stable' := stable[c := id];
    forall x ensures x in stable'.Values <==> x in stable.Values || x == id {
      if x in stable.Values { var k :| k in stable && stable[k] == x; assert stable'[k] == x; }
      assert stable'[c] == id;
    }
  }

  lemma DifferentNames(ranked: seq<Rank>, now: Partition, prior: Partition, best: map<string, Option<string>>, r: Rank, q: Rank)
    requires IsQueue(now, prior, best, ranked) && r in ranked && q in ranked && r != q
    ensures r.name != q.name
  {
  }

  lemma NamesDiffer(now: Partition, prior: Partition, best: map<string, Option<string>>, ranked: seq<Rank>)
    requires IsQueue(now, prior, best, ranked)
    ensures forall i, j | 0 <= i < j < |ranked| :: ranked[i].name != ranked[j].name
  {
    forall i, j | 0 <= i < j < |ranked| ensures ranked[i].name != ranked[j].name {
      DifferentNames(ranked, now, prior, best, ranked[i], ranked[j]);
    }
  }

  // ---------------------------------------------------------------- what the renaming guarantees

  /** The renamed partition groups the nodes exactly as the new one does. */
  lemma RenamingKeepsGroups(now: Partition, prior: Partition, stable: map<string, string>, final: Partition, m: string, n: string)
    requires IsStable(now, prior, stable) && final == map n | n in now :: stable[now[n]]
    requires m in now && n in now
    ensures final[m] == final[n] <==> now[m] == now[n]
  {
    assert now[m] in now.Values && now[n] in now.Values;
  }

  /** Which old ids survive, and where, does not depend on the minted ids. */
  lemma SurvivorsAreDetermined(now: Partition, prior: Partition, s: map<string, string>, t: map<string, string>, c: string)
    requires IsStable(now, prior, s) && IsStable(now, prior, t) && c in s && s[c] in prior.Values
    ensures t[c] == s[c]
  {
  }

  /** An old id goes to a community that shares most with it of all old ids, ties going to the larger id; and of those
      communities to the one that shares the most nodes, the smaller name among equals. */
  lemma LargestContenderClaims(now: Partition, prior: Partition, stable: map<string, string>, c: string, d: string, id: string)
    requires IsStable(now, prior, stable) && c in stable && stable[c] == id && id in prior.Values
    requires d in now.Values && Prefers(Members(now, d), prior, id)
    ensures Shared(Members(now, c), prior, id) != {}
    ensures forall other :: other != "" ==>
              |Shared(Members(now, c), prior, other)| < |Shared(Members(now, c), prior, id)|
              || (|Shared(Members(now, c), prior, other)| == |Shared(Members(now, c), prior, id)| && LexLe(other, id))
    ensures |Shared(Members(now, d), prior, id)| <= |Shared(Members(now, c), prior, id)|
    ensures |Shared(Members(now, d), prior, id)| == |Shared(Members(now, c), prior, id)| ==> LexLe(c, d)
  {
  }

  lemma FindWinner(now: Partition, prior: Partition, id: string, among: set<string>, d: string) returns (c: string)
    requires d in among && Prefers(Members(now, d), prior, id)
    ensures c in among && Prefers(Members(now, c), prior, id)
    ensures forall other | other in among && Prefers(Members(now, other), prior, id) ::
              RankLe(RankOf(now, prior, c, id), RankOf(now, prior, other, id))
    decreases among
  {
    RankLeIsTotalOrder();
    if other :| other in among && other != d && Prefers(Members(now, other), prior, id) {
      c := FindWinner(now, prior, id, among - {d}, other);
      if !RankLe(RankOf(now, prior, c, id), RankOf(now, prior, d, id)) { c := d; }
    } else {
      c := d;
    }
  }

  /** An old id survives exactly when some community prefers it. */
  lemma SurvivesIff(now: Partition, prior: Partition, stable: map<string, string>, id: string)
    requires IsStable(now, prior, stable) && id in prior.Values
    ensures (exists c :: c in stable && stable[c] == id) <==> exists d :: d in now.Values && Prefers(Members(now, d), prior, id)
  {
    if d :| d in now.Values && Prefers(Members(now, d), prior, id) {
      var c := FindWinner(now, prior, id, now.Values, d);
      assert Wins(now, prior, c, id);
      assert c in stable && stable[c] == id;
    }
    if c :| c in stable && stable[c] == id {
      assert Wins(now, prior, c, id);
    }
  }

  /** The reported ratio counts the nodes that joined or left against the old community; it is zero only without a change. */
  lemma RatioMeasuresChange(now: Partition, prior: Partition, name: string, id: string)
    requires Members(prior, id) != {}
    ensures var nodes, before, d := Members(now, name), Members(prior, id), DiffOf(now, prior, name, id);
            && d.ratio * |before| as real == |nodes - before| as real + |before - nodes| as real
            && d.added == nodes - before
            && (d.ratio == 0.0 <==> nodes == before)
  {
    var nodes, before := Members(now, name), Members(prior, id);
    ChangedNodes(nodes, before);
    RatioTimesTotal(|nodes - before + (before - nodes)|, |before|);
  }

  lemma ChangedNodes(nodes: set<string>, before: set<string>)
    ensures |nodes - before + (before - nodes)| == |nodes - before| + |before - nodes|
    ensures nodes - before + (before - nodes) == {} <==> nodes == before
  {
  }

  lemma RatioTimesTotal(changed: nat, total: nat)
    requires total > 0
    ensures Ratio(changed, total) * total as real == changed as real && (Ratio(changed, total) == 0.0 <==> changed == 0)
  {
  }

  /** Running again on the result, with the communities in whatever run-local naming, gives every
      node its id back and reports no change. */
  lemma RerunChangesNothing(now: Partition, prior: Partition, stable: map<string, string>, final: Partition,
                            again: Partition, stable': map<string, string>, n: string)
    requires IsStable(now, prior, stable) && final == map n | n in now :: stable[now[n]]
    requires again.Keys == now.Keys && forall a, b | a in now && b in now :: again[a] == again[b] <==> now[a] == now[b]
    requires IsStable(again, final, stable') && n in again
    ensures stable'[again[n]] == final[n]
    ensures DiffOf(again, final, again[n], final[n]) == Diff(0.0, {})
  {
    var c, id := again[n], final[n];
    assert now[n] in now.Values && c in again.Values;
    forall m ensures m in Members(again, c) <==> m in Members(final, id) {
      if m in now { RenamingKeepsGroups(now, prior, stable, final, m, n); }
    }
    var nodes := Members(again, c);
    assert nodes == Members(final, id) && n in nodes;
    assert Shared(nodes, final, id) == nodes;
    forall other | other != id ensures Shared(nodes, final, other) == {} {}
    LexLeTotal(id, id);
    assert Prefers(nodes, final, id);
    forall d | d in again.Values && Prefers(Members(again, d), final, id) ensures d == c {
      var m :| m in Shared(Members(again, d), final, id);
      assert m in Members(final, id);
    }
    RankLeReflexive(RankOf(again, final, c, id));
    assert Wins(again, final, c, id);
    UnchangedReportsNothing(again, final, c, id);
  }

  lemma UnchangedReportsNothing(now: Partition, prior: Partition, name: string, id: string)
    requires Members(now, name) == Members(prior, id) != {}
    ensures DiffOf(now, prior, name, id) == Diff(0.0, {})
  {
    var nodes := Members(now, name);
    assert nodes - nodes + (nodes - nodes) == {};
  }
}
