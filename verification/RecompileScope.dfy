/** What one pass over a recompile scope does, in terms of the scope, the table before and the table after
    (`vector_lake/controlled_recompile.py`): who is handed off, who is passed over and why a pass is refused. */
module RecompileScope {
  import opened Ordering
  import opened JobStore
  import opened JobRuns

  // ---------------------------------------------------------------- the attempts spent on one content

  /** The sum counts the retries of the recompile jobs of exactly this file and hash, whatever their request or status. */
  lemma SpentCounts(rows: map<nat, Job>, i: nat, j: Job, filepath: string, hash: string)
    ensures Spent(map[], filepath, hash) == 0
    ensures Spent(rows[i := j], filepath, hash) == Spent(rows - {i}, filepath, hash)
              + if j.kind == Recompile && j.payload.filepath == filepath && j.payload.hash == hash then j.retries else 0
  {
    SpentWithout(rows[i := j], i, filepath, hash);
    assert rows[i := j] - {i} == rows - {i};
  }

  lemma {:induction false} SpentAgrees(a: map<nat, Job>, b: map<nat, Job>, filepath: string, hash: string)
    requires a.Keys <= b.Keys
    requires forall i :: i in b ==> SpentBy(b[i], filepath, hash) == if i in a then SpentBy(a[i], filepath, hash) else 0
    ensures Spent(a, filepath, hash) == Spent(b, filepath, hash)
    decreases b.Keys
  {
    if b.Keys == {} {
      assert a == b;
    } else {
      var i :| i in b;
      SpentWithout(b, i, filepath, hash);
      if i in a {
        SpentWithout(a, i, filepath, hash);
        SpentAgrees(a - {i}, b - {i}, filepath, hash);
      } else {
        SpentAgrees(a, b - {i}, filepath, hash);
      }
    }
  }

  // ---------------------------------------------------------------- what a pass may do to one source

  /** Row `id` is the hand-off of `src`: a new row, or the request's own failed one, due and with its attempts kept. */
  ghost predicate Given(s: Jobs, s': Jobs, d: Desk, src: Source, id: nat) {
    && src.filepath !in d.deferred && d.accepts(src) && Members(d.scope, src.filepath) == 1
    && Spent(s.rows, src.filepath, src.hash) < 3
    && id in s'.rows
    && (var j := s'.rows[id];
        && j.kind == Recompile && j.status == Awaiting && j.key == Some(Controlled(d.request, src.filepath))
        && j.payload == Payload(src.filepath, src.hash, d.name(src), d.build(src)) && j.updatedAt == d.now
        && j.leaseUntil.None? && j.owner.None? && j.token.None?
        && (if id in s.rows then
              && s.rows[id].kind == Recompile && s.rows[id].key == j.key && s.rows[id].retries == j.retries < 3
              && (s.rows[id].status == Failed || s.rows[id].status == Queued) && s.rows[id].availableAt <= d.now
              && s.rows[id].payload.filepath == src.filepath && s.rows[id].payload.hash == src.hash
            else
              j.retries == 0 && forall i :: i in s.rows ==> s.rows[i].key != j.key))
  }

  /** The request's job for the source is no retry that is due, or the content has no attempt left. */
  ghost predicate PassedOver(s: Jobs, d: Desk, src: Source) {
    || Spent(s.rows, src.filepath, src.hash) >= 3
    || exists i :: i in s.rows && NotDue(s.rows[i], d, src)
  }

  predicate NotDue(j: Job, d: Desk, src: Source) {
    && j.key == Some(Controlled(d.request, src.filepath))
    && ((j.status != Failed && j.status != Queued) || j.retries >= 3 || j.availableAt > d.now)
  }

  /** Other work on the file is under way or still to be retried. */
  predicate Competes(j: Job, d: Desk, src: Source) {
    && j.key != Some(Controlled(d.request, src.filepath)) && (j.kind == Ingest || j.kind == Recompile)
    && j.payload.filepath == src.filepath
    && (j.status == Dispatched || j.status == Awaiting || j.status == Working || ((j.status == Queued || j.status == Failed) && j.retries < 3))
  }

  ghost predicate Refused(s: Jobs, d: Desk, src: Source, e: Error) {
    && src.filepath !in d.deferred
    && match e
       case ActiveWork => exists i :: i in s.rows && Competes(s.rows[i], d, src)
       case SourceRefused => !d.accepts(src) || Members(d.scope, src.filepath) != 1
       case _ => false
  }

  ghost predicate Increasing(at: seq<nat>, n: nat) {
    (forall k :: 0 <= k < |at| ==> at[k] < n) && forall j, k :: 0 <= j < k < |at| ==> at[j] < at[k]
  }

  /** The sources at `at` were handed off as the jobs `made`; no other row changed, and no request. */
  ghost predicate HandsOffAt(s: Jobs, s': Jobs, d: Desk, made: seq<nat>, at: seq<nat>) {
    && |made| == |at| && Distinct(made) && Increasing(at, |d.scope|)
    && (forall k :: 0 <= k < |at| ==> Given(s, s', d, d.scope[at[k]], made[k]))
    && s.rows.Keys <= s'.rows.Keys && s'.requests == s.requests
    && (forall i :: i in s'.rows && i !in made ==> i in s.rows && s'.rows[i] == s.rows[i])
  }

  /** Every source before `n` that was neither handed off nor deferred was passed over. */
  ghost predicate Covered(s: Jobs, d: Desk, n: nat, at: seq<nat>)
    requires n <= |d.scope|
  {
    forall p: nat | p < n && p !in at && d.scope[p].filepath !in d.deferred :: PassedOver(s, d, d.scope[p])
  }

  // ---------------------------------------------------------------- one step of the pass

  lemma {:induction false} OnePosition(scope: seq<Source>, filepath: string, p: nat, q: nat)
    requires p < q < |scope| && scope[p].filepath == filepath && scope[q].filepath == filepath
    ensures Members(scope, filepath) > 1
  {
    if p == 0 {
      assert scope[1..][q - 1] in scope[1..];
      MembersAtLeast(scope[1..], scope[q]);
    } else {
      OnePosition(scope[1..], filepath, p - 1, q - 1);
    }
  }

  /** The rows of a source not reached yet are as they were before the pass. */
  lemma LaterRowsUntouched(s0: Jobs, s: Jobs, d: Desk, n: nat, made: seq<nat>, at: seq<nat>, i: nat)
    requires n < |d.scope| && HandsOffAt(s0, s, d, made, at) && Increasing(at, n) && i in s.rows
    requires s.rows[i].payload.filepath == d.scope[n].filepath || s.rows[i].key == Some(Controlled(d.request, d.scope[n].filepath))
    ensures i !in made && i in s0.rows && s0.rows[i] == s.rows[i]
  {
    if i in made {
      var k :| 0 <= k < |made| && made[k] == i;
      assert Given(s0, s, d, d.scope[at[k]], made[k]);
      OnePosition(d.scope, d.scope[n].filepath, at[k], n);
      assert false;
    }
  }

  lemma SpentUntouched(s0: Jobs, s: Jobs, d: Desk, made: seq<nat>, at: seq<nat>, filepath: string, hash: string)
    requires HandsOffAt(s0, s, d, made, at)
    ensures Spent(s0.rows, filepath, hash) == Spent(s.rows, filepath, hash)
  {
    forall i | i in s.rows
      ensures SpentBy(s.rows[i], filepath, hash) == if i in s0.rows then SpentBy(s0.rows[i], filepath, hash) else 0
    {
      if i in made {
        var k :| 0 <= k < |made| && made[k] == i;
        assert Given(s0, s, d, d.scope[at[k]], made[k]);
      }
    }
    SpentAgrees(s0.rows, s.rows, filepath, hash);
  }

  lemma SkipPassesOver(s0: Jobs, s: Jobs, d: Desk, n: nat, made: seq<nat>, at: seq<nat>)
    requires n < |d.scope| && HandsOffAt(s0, s, d, made, at) && Increasing(at, n)
    requires Admission(s, d.request, d.scope, d.scope[n], d.accepts(d.scope[n]), d.now) == Skip
    ensures PassedOver(s0, d, d.scope[n])
  {
    var src := d.scope[n];
    SpentUntouched(s0, s, d, made, at, src.filepath, src.hash);
    var holder := HolderOf(s.rows, Some(Controlled(d.request, src.filepath)));
    if holder.Some? {
      LaterRowsUntouched(s0, s, d, n, made, at, holder.value);
      assert NotDue(s.rows[holder.value], d, src) ==> holder.value in s0.rows && NotDue(s0.rows[holder.value], d, src);
    }
  }

  lemma RefusalHasCause(s0: Jobs, s: Jobs, d: Desk, n: nat, made: seq<nat>, at: seq<nat>, e: Error)
    requires n < |d.scope| && HandsOffAt(s0, s, d, made, at) && Increasing(at, n) && KeysUnique(s.rows)
    requires d.scope[n].filepath !in d.deferred
    requires Admission(s, d.request, d.scope, d.scope[n], d.accepts(d.scope[n]), d.now) == Refuse(e)
    ensures Refused(s0, d, d.scope[n], e)
  {
    var src := d.scope[n];
    var holder := HolderOf(s.rows, Some(Controlled(d.request, src.filepath)));
    if e == ActiveWork {
      var i :| i in s.rows && ActiveElsewhere(s.rows[i], src.filepath) && Some(i) != holder;
      LaterRowsUntouched(s0, s, d, n, made, at, i);
      assert Competes(s0.rows[i], d, src);
    }
  }

  /** The row a hand-off writes is the one `Given` asks for. */
  lemma GoGives(w: World, s0: Jobs, d: Desk, n: nat, made: seq<nat>, at: seq<nat>, existing: Option<nat>, s1: Jobs, id: nat)
    requires Inv(w) && d.now == w.now && d.request in w.s.requests && w.s.requests[d.request] == d.scope
    requires n < |d.scope| && HandsOffAt(s0, w.s, d, made, at) && Increasing(at, n)
    requires d.scope[n].filepath !in d.deferred
    requires Admission(w.s, d.request, d.scope, d.scope[n], d.accepts(d.scope[n]), d.now) == Go(existing)
    requires (s1, id) == HandOffRow(w.s, d.request, PayloadFor(d.scope[n], d.build, d.name), existing, d.now)
    ensures id !in made && Given(s0, s1, d, d.scope[n], id)
    ensures s1.requests == w.s.requests
    ensures w.s.rows.Keys <= s1.rows.Keys && forall i :: i in s1.rows && i != id ==> i in w.s.rows && s1.rows[i] == w.s.rows[i]
  {
    var src := d.scope[n];
    AdmissionAdmits(w.s, d.request, d.scope, src, d.accepts(src), d.now, existing);
    HandOffRowHandsOff(w.s, w.now, w.origins, d.request, src, existing, PayloadFor(src, d.build, d.name));
    SpentUntouched(s0, w.s, d, made, at, src.filepath, src.hash);
    if existing.Some? {
      LaterRowsUntouched(s0, w.s, d, n, made, at, id);
    } else {
      NewRowIsNew(w.s, s0, d, n, made, at, id);
    }
  }

  lemma NewRowIsNew(s: Jobs, s0: Jobs, d: Desk, n: nat, made: seq<nat>, at: seq<nat>, id: nat)
    requires n < |d.scope| && HandsOffAt(s0, s, d, made, at) && id !in s.rows
    requires Holder(s.rows, Some(Controlled(d.request, d.scope[n].filepath)), None)
    ensures id !in made && id !in s0.rows
    ensures forall i :: i in s0.rows ==> s0.rows[i].key != Some(Controlled(d.request, d.scope[n].filepath))
  {
    forall i | i in made || i in s0.rows
      ensures i in s.rows && (i in s0.rows ==> s0.rows[i].key == s.rows[i].key)
    {
      if i in made {
        var k :| 0 <= k < |made| && made[k] == i;
        assert Given(s0, s, d, d.scope[at[k]], made[k]);
      }
    }
  }

  lemma ListsGrow(made: seq<nat>, at: seq<nat>, id: nat, n: nat)
    requires Distinct(made) && Increasing(at, n) && id !in made
    ensures Distinct(made + [id]) && Increasing(at + [n], n + 1)
    ensures forall x :: x in made + [id] <==> x in made || x == id
  {
    assert (made + [id])[|made|] == id;
    forall x | x in made ensures x in made + [id] {
      var k :| 0 <= k < |made| && made[k] == x;
      assert (made + [id])[k] == x;
    }
  }

  lemma HandsOffNext(s0: Jobs, s: Jobs, s1: Jobs, d: Desk, n: nat, made: seq<nat>, at: seq<nat>, id: nat)
    requires n < |d.scope| && HandsOffAt(s0, s, d, made, at) && Increasing(at, n)
    requires id !in made && Given(s0, s1, d, d.scope[n], id)
    requires s1.requests == s.requests
    requires s.rows.Keys <= s1.rows.Keys && forall i :: i in s1.rows && i != id ==> i in s.rows && s1.rows[i] == s.rows[i]
    ensures HandsOffAt(s0, s1, d, made + [id], at + [n]) && Increasing(at + [n], n + 1)
  {
    ListsGrow(made, at, id, n);
    forall k | 0 <= k < |at| + 1 ensures Given(s0, s1, d, d.scope[(at + [n])[k]], (made + [id])[k]) {
      if k < |at| {
        assert Given(s0, s, d, d.scope[at[k]], made[k]);
        assert made[k] in made;
      }
    }
  }

  lemma CoveredNext(s0: Jobs, d: Desk, n: nat, at: seq<nat>, at': seq<nat>)
    requires n < |d.scope| && Covered(s0, d, n, at)
    requires at' == at + [n] || (at' == at && (d.scope[n].filepath in d.deferred || PassedOver(s0, d, d.scope[n])))
    ensures Covered(s0, d, n + 1, at')
  {
    if at' == at + [n] { assert at'[|at|] == n; }
    assert forall x :: x in at ==> x in at';
  }

  // ---------------------------------------------------------------- the whole pass

  /** The outcome of a pass: the hand-offs and what else was covered, or the source that stopped it. */
  ghost predicate Outcome(s: Jobs, d: Desk, r: Result<(Jobs, seq<nat>), Error>, at: seq<nat>) {
    match r
    case Err(e) => exists p: nat :: p < |d.scope| && Refused(s, d, d.scope[p], e)
    case Ok((s', made)) =>
      && HandsOffAt(s, s', d, made, at) && |made| <= d.batch
      && forall p: nat | p < |d.scope| && p !in at && d.scope[p].filepath !in d.deferred ::
           PassedOver(s, d, d.scope[p]) || (|made| == d.batch && forall k :: 0 <= k < |at| ==> at[k] < p)
  }

  lemma PassEnds(s0: Jobs, s: Jobs, d: Desk, n: nat, made: seq<nat>, at: seq<nat>)
    requires n <= |d.scope| && HandsOffAt(s0, s, d, made, at) && Increasing(at, n) && Covered(s0, d, n, at) && |made| <= d.batch
    requires n == |d.scope| || |made| == d.batch
    ensures Outcome(s0, d, Ok((s, made)), at)
  {
  }

  lemma {:induction false} PassFrom(w: World, s0: Jobs, d: Desk, n: nat, made: seq<nat>, at: seq<nat>) returns (at': seq<nat>)
    requires Inv(w) && d.now == w.now && d.request in w.s.requests && w.s.requests[d.request] == d.scope
    requires n <= |d.scope| && HandsOffAt(s0, w.s, d, made, at) && Increasing(at, n) && Covered(s0, d, n, at) && |made| <= d.batch
    ensures Outcome(s0, d, HandOffAll(w.s, d, d.scope[n..], made), at')
    decreases |d.scope| - n
  {
    at' := at;
    if n == |d.scope| || (d.scope[n].filepath !in d.deferred && |made| == d.batch) {
      PassEnds(s0, w.s, d, n, made, at);
    } else if d.scope[n].filepath in d.deferred {
      CoveredNext(s0, d, n, at, at);
      at' := PassFrom(w, s0, d, n + 1, made, at);
      assert d.scope[n..][1..] == d.scope[n + 1..];
    } else {
      at' := PassOne(w, s0, d, n, made, at);
    }
  }

  lemma {:induction false} PassOne(w: World, s0: Jobs, d: Desk, n: nat, made: seq<nat>, at: seq<nat>) returns (at': seq<nat>)
    requires Inv(w) && d.now == w.now && d.request in w.s.requests && w.s.requests[d.request] == d.scope
    requires n < |d.scope| && HandsOffAt(s0, w.s, d, made, at) && Increasing(at, n) && Covered(s0, d, n, at) && |made| < d.batch
    requires d.scope[n].filepath !in d.deferred
    ensures Outcome(s0, d, HandOffAll(w.s, d, d.scope[n..], made), at')
    decreases |d.scope| - n, 0
  {
    at' := at;
    var src := d.scope[n];
    assert d.scope[n..][0] == src && d.scope[n..][1..] == d.scope[n + 1..];
    match Admission(w.s, d.request, d.scope, src, d.accepts(src), d.now)
    case Skip =>
      SkipPassesOver(s0, w.s, d, n, made, at);
      CoveredNext(s0, d, n, at, at);
      at' := PassFrom(w, s0, d, n + 1, made, at);
    case Refuse(e) =>
      RefusalHasCause(s0, w.s, d, n, made, at, e);
    case Go(existing) =>
      var (s1, id) := HandOffRow(w.s, d.request, PayloadFor(src, d.build, d.name), existing, d.now);
      HandOffOneCarries(w, d, src, existing, s1, id);
      GoGives(w, s0, d, n, made, at, existing, s1, id);
      HandsOffNext(s0, w.s, s1, d, n, made, at, id);
      CoveredNext(s0, d, n, at, at + [n]);
      at' := PassFrom(After(w, s1), s0, d, n + 1, made + [id], at + [n]);
  }

  /** The request with its scope frozen. */
  function Frozen(s: Jobs, d: Desk): Jobs { s.(requests := s.requests[d.request := d.scope]) }

  /** A successful pass hands off at most `batch` due sources of the frozen scope, in order, and leaves a source
      out only if it is deferred, cannot be retried now, or comes after a full batch. */
  lemma ScopeHandsOff(w: World, d: Desk, s': Jobs, made: seq<nat>) returns (at: seq<nat>)
    requires Inv(w) && d.now == w.now && DispatchScope(w.s, d) == Ok((s', made))
    ensures 1 <= d.batch <= 60 && (d.request in w.s.requests ==> w.s.requests[d.request] == d.scope)
    ensures |made| <= d.batch && HandsOffAt(Frozen(w.s, d), s', d, made, at)
    ensures forall p: nat :: p < |d.scope| && d.scope[p].filepath !in d.deferred && p !in at ==>
              PassedOver(w.s, d, d.scope[p]) || (|made| == d.batch && forall k :: 0 <= k < |at| ==> at[k] < p)
    ensures |made| < d.batch ==>
              forall p: nat :: p < |d.scope| && d.scope[p].filepath !in d.deferred ==> p in at || PassedOver(w.s, d, d.scope[p])
  {
    RegisterCarries(w, d.request, d.scope);
    var s1 := Frozen(w.s, d);
    assert s1 == Register(w.s, d.request, d.scope).value;
    var made0 := made[..0];
    assert made0 == [] && d.scope[0..] == d.scope;
    at := PassFrom(w.(s := s1), s1, d, 0, made0, made0);
  }

  /** A pass fails for its batch size, for a request bound to another scope, or for one source of the scope. */
  lemma ScopeFails(w: World, d: Desk, e: Error)
    requires Inv(w) && d.now == w.now && DispatchScope(w.s, d) == Err(e)
    ensures e == BadBatch <==> !(1 <= d.batch <= 60)
    ensures e == RequestRebound <==> 1 <= d.batch <= 60 && d.request in w.s.requests && w.s.requests[d.request] != d.scope
    ensures e != BadBatch && e != RequestRebound ==> exists p: nat :: p < |d.scope| && Refused(w.s, d, d.scope[p], e)
  {
    if 1 <= d.batch <= 60 && Register(w.s, d.request, d.scope).Ok? {
      RegisterCarries(w, d.request, d.scope);
      var s1 := Register(w.s, d.request, d.scope).value;
      var none := d.scope[..0];
      var ids: seq<nat> := seq(|none|, _ => 0);
      assert ids == [] && d.scope[0..] == d.scope;
      var at := PassFrom(w.(s := s1), s1, d, 0, ids, ids);
    }
  }
}
