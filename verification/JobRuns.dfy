/** Runs of the job table: scans, dispatchers, subagents, expiry sweeps, operator resets and the
    controlled recompile, in any order, with stale and forged claims allowed. */
module JobRuns {
  import opened Ordering
  import opened JobStore

  /** `origins` remembers the key each row was enqueued with; `leases` and `dispatched` the claims
      handed out so far. */
  datatype World = World(s: Jobs, now: int, origins: map<nat, JobKey>, leases: set<Lease>, dispatched: set<DispatchClaim>)

  datatype Event =
    | Enqueue(kind: Kind, payload: Payload, key: Option<JobKey>, replace: bool, finished: bool)
    | ClaimPending(limit: nat, leaseUntil: int, sampled: int, ids: set<nat>)
    | MarkAwaiting(c: DispatchClaim, payload: Payload)
    | ClaimSubagent(limit: nat, owner: string, leaseUntil: int, sampled: int, order: seq<nat>)
    | FinalizeJob(l: Lease)
    | ReleaseJob(id: nat, claim: FailureClaim, delay: int)
    | FailWith(id: nat, claim: FailureClaim)
    | FailClaim(c: DispatchClaim)
    | Expire(maxAge: int, sampled: int)
    | Reset
    | Close(proven: set<nat>)
    | Recompiles(d: Desk)
    | Tick(now: int)

  function OrElse(r: Result<Jobs, Error>, s: Jobs): Jobs { if r.Ok? then r.value else s }

  /** The table after an event, and the claims the event hands out. Claims and the expiry sweep sample the
      clock before their transaction has the lock; every other step reads it inside. */
  ghost predicate Effect(w: World, e: Event, s': Jobs, leases: seq<Lease>, dispatched: set<DispatchClaim>) {
    match e
    case Enqueue(kind, payload, key, replace, finished) =>
      && kind != Recompile && (key.Some? ==> key.value.Plain?)
      && s' == EnqueueWith(w.s, kind, payload, key, replace, finished, HolderOf(w.s.rows, key), w.now).0
      && leases == [] && dispatched == {}
    case ClaimPending(limit, leaseUntil, sampled, ids) =>
      && sampled <= w.now && leaseUntil > sampled && IsDispatchBatch(w.s, limit, sampled, ids)
      && s' == Dispatch(w.s, ids, leaseUntil, sampled)
      && leases == [] && dispatched == DispatchClaims(w.s, ids, leaseUntil, sampled)
    case ClaimSubagent(limit, owner, leaseUntil, sampled, ids) =>
      && sampled <= w.now && leaseUntil > sampled && IsLeaseBatch(w.s, limit, sampled, ids) && (forall i :: i in ids ==> i in w.s.rows)
      && (s', leases) == LeaseAll(w.s, ids, owner, leaseUntil, sampled) && dispatched == {}
    case Recompiles(d) =>
      && d.now == w.now && leases == [] && dispatched == {}
      && s' == (match DispatchScope(w.s, d) case Ok(done) => done.0 case Err(_) => w.s)
    case _ => leases == [] && dispatched == {} && s' == Quiet(w, e) && (e.Expire? ==> e.sampled <= w.now)
  }

  /** Events that hand nothing out. */
  function Quiet(w: World, e: Event): Jobs {
    match e
    case MarkAwaiting(c, payload) => OrElse(Handoff(w.s, c, payload, w.now), w.s)
    case FinalizeJob(l) => OrElse(Finalize(w.s, l, w.now), w.s)
    case ReleaseJob(id, c, delay) => OrElse(Release(w.s, id, c, delay, w.now), w.s)
    case FailWith(id, c) => OrElse(FailJob(w.s, id, c, w.now), w.s)
    case FailClaim(c) => OrElse(FailDispatch(w.s, c, w.now), w.s)
    case Expire(maxAge, sampled) => ExpireStale(w.s, maxAge, sampled)
    case Reset => ResetExpired(w.s, w.now)
    case Close(proven) => CloseTerminal(w.s, proven, w.now)
    case _ => w.s
  }

  function Origins(origins: map<nat, JobKey>, rows: map<nat, Job>, rows': map<nat, Job>): map<nat, JobKey> {
    origins + map i | i in rows' && i !in rows && rows'[i].key.Some? :: rows'[i].key.value
  }

  ghost predicate Next(w: World, e: Event, w': World) {
    exists leases: seq<Lease>, dispatched: set<DispatchClaim> ::
      && Effect(w, e, w'.s, leases, dispatched)
      && w'.now == (if e.Tick? then e.now else w.now) && w'.now >= w.now
      && w'.origins == Origins(w.origins, w.s.rows, w'.s.rows)
      && w'.leases == w.leases + (set l | l in leases)
      && w'.dispatched == w.dispatched + dispatched
  }

  ghost predicate Init(w: World) {
    w.s == Jobs(map[], map[], 1, 1) && w.origins == map[] && w.leases == {} && w.dispatched == {}
  }

  // ---------------------------------------------------------------- one row, one step

  predicate Done(s: Status) { s == Finalized || s == Completed || s == Superseded }

  predicate SameIdentity(p: Payload, q: Payload) { p.filepath == q.filepath && p.hash == q.hash }

  /** Every way a row changes, except a recompile hand-off. */
  predicate RowStep(j: Job, j': Job, now: int, firstToken: nat, lastToken: nat) {
    || j' == j
    || (j'.updatedAt <= now && Dispatchable(j, j'.updatedAt) && j'.leaseUntil.Some? && j'.leaseUntil.value > j'.updatedAt
        && j' == DispatchedRow(j, j'.leaseUntil.value, j'.updatedAt))
    || (j.status == Dispatched && SameIdentity(j.payload, j'.payload) && j' == AwaitingRow(j, j'.payload, now))
    || (j'.updatedAt <= now && Leasable(j, j'.updatedAt) && j'.owner.Some? && j'.token.Some? && firstToken <= j'.token.value < lastToken
        && j'.leaseUntil.Some? && j'.leaseUntil.value > j'.updatedAt
        && j' == WorkingRow(j, j'.owner.value, j'.token.value, j'.leaseUntil.value, j'.updatedAt))
    || (j.status == Working && j' == j.(status := Finalized, updatedAt := now, leaseUntil := None, owner := None, token := None))
    || (InFlight(j.status) && j'.updatedAt <= now && j' == FailedRow(j, true, j'.availableAt, j'.updatedAt)
        && (j'.availableAt > now || (j.status == Awaiting && j.updatedAt < j'.availableAt)))
    || (((InFlight(j.status) || j.status == Queued || j.status == Failed) && j.retries < MAX_INGEST_ATTEMPTS)
        && j' == FailedRow(j, false, j'.availableAt, now) && j'.availableAt > now)
    || (j.status == Dispatched && j.leaseUntil.Some? && j.leaseUntil.value < now && j' == j.(status := Queued, leaseUntil := None))
    || (j.status == Failed && j.retries >= MAX_INGEST_ATTEMPTS && j' == j.(status := Superseded, updatedAt := now))
    || (j.kind != Recompile && j.status in {Failed, Cancelled, Finalized, Completed} && j' == Retired(j, now))
  }

  /** The hand-off of a failed recompile job of the same request and content. */
  predicate Renewed(j: Job, j': Job, now: int) {
    && j.kind == Recompile && (j.status == Failed || j.status == Queued) && j.retries < MAX_INGEST_ATTEMPTS
    && SameIdentity(j.payload, j'.payload) && j' == AwaitingRow(j, j'.payload, now)
  }

  /** What no row ever undoes. */
  predicate Evolves(j: Job, j': Job) {
    && j'.kind == j.kind && SameIdentity(j.payload, j'.payload) && j.retries <= j'.retries
    && (j'.leaseGeneration > j.leaseGeneration || (j'.leaseGeneration == j.leaseGeneration && (j'.status == Working ==> j' == j)))
    && (j'.key == j.key || (j'.key.None? && Done(j'.status)))
    && (Done(j.status) ==> j'.status == j.status && j'.retries == j.retries && j'.payload == j.payload)
  }

  // ---------------------------------------------------------------- invariant

  ghost predicate JobOk(s: Jobs, i: nat, now: int)
    requires i in s.rows
  {
    var j := s.rows[i];
    && i < s.nextId && j.updatedAt <= now
    && j.retries <= MAX_INGEST_ATTEMPTS && (InFlight(j.status) || j.status == Queued ==> j.retries < MAX_INGEST_ATTEMPTS)
    && (j.status == Dispatched ==> j.leaseUntil.Some? && j.availableAt <= j.updatedAt < j.leaseUntil.value)
    && (j.status == Working ==> j.leaseUntil.Some? && j.owner.Some? && j.token.Some?)
    && (j.token.Some? ==> j.token.value < s.nextToken)
    && (j.kind == Recompile <==> j.key.Some? && j.key.value.Controlled?)
    && (j.kind == Recompile ==> j.status != Dispatched && j.status != Queued && BoundToRequest(s, j))
  }

  /** A recompile job carries the content its request froze for its file. */
  ghost predicate BoundToRequest(s: Jobs, j: Job)
    requires j.key.Some? && j.key.value.Controlled?
  {
    var request := j.key.value.request;
    && j.key.value.filepath == j.payload.filepath && request in s.requests
    && Members(s.requests[request], j.payload.filepath) == 1
    && Source(j.payload.filepath, j.payload.hash) in s.requests[request]
  }

  ghost predicate OriginOk(s: Jobs, origins: map<nat, JobKey>, i: nat)
    requires i in s.rows
  {
    var j := s.rows[i];
    && (j.key.Some? ==> i in origins && origins[i] == j.key.value)
    && (i in origins && j.key.None? ==> Done(j.status))
  }

  ghost predicate TableOk(s: Jobs, now: int, origins: map<nat, JobKey>) {
    && s.nextId >= 1 && KeysUnique(s.rows)
    && (forall i :: i in s.rows ==> JobOk(s, i, now) && OriginOk(s, origins, i))
    && (forall i :: i in origins ==> i in s.rows)
  }

  ghost predicate LeaseOk(s: Jobs, l: Lease) {
    && l.id in s.rows && l.token < s.nextToken && l.generation <= s.rows[l.id].leaseGeneration
    && (l.generation == s.rows[l.id].leaseGeneration && s.rows[l.id].status == Working ==>
          HoldsLease(s.rows[l.id], l) && s.rows[l.id].leaseUntil == Some(l.leaseUntil))
  }

  ghost predicate LeasesOk(s: Jobs, leases: set<Lease>) {
    && (forall l :: l in leases ==> LeaseOk(s, l))
    && (forall l, m :: l in leases && m in leases && l.token == m.token ==> l == m)
  }

  /** A claim that has not expired is the row's own, or older than anything the row can be dispatched under. */
  ghost predicate Spaced(s: Jobs, now: int, c: DispatchClaim) {
    && c.id in s.rows && c.updatedAt <= now
    && (c.leaseUntil > now ==>
          var j := s.rows[c.id];
          && (j.status == Dispatched ==> (j.updatedAt == c.updatedAt && j.leaseUntil == Some(c.leaseUntil)) || c.updatedAt < j.availableAt)
          && (j.status == Queued || j.status == Failed ==> c.updatedAt < j.availableAt)
          && (j.status == Awaiting ==> c.updatedAt <= j.updatedAt))
  }

  ghost predicate DispatchesOk(s: Jobs, now: int, dispatched: set<DispatchClaim>) {
    forall c :: c in dispatched ==> Spaced(s, now, c)
  }

  function Cost(j: Job, filepath: string, hash: string): nat {
    if SameContent(j, filepath, hash) then j.retries + (if InFlight(j.status) then 1 else 0) else 0
  }

  /** Attempts spent plus attempts at stake for one exact content, over every request. */
  ghost function Stake(rows: map<nat, Job>, filepath: string, hash: string): nat {
    if rows == map[] then 0
    else
      var i :| i in rows;
      Cost(rows[i], filepath, hash) + Stake(rows - {i}, filepath, hash)
  }

  ghost predicate BudgetOk(rows: map<nat, Job>) {
    && (forall p, h :: Stake(rows, p, h) <= MAX_INGEST_ATTEMPTS)
    && OnePerFile(rows)
  }

  predicate HandedOff(j: Job) { j.kind == Recompile && InFlight(j.status) }

  ghost predicate OnePerFile(rows: map<nat, Job>) {
    forall i, k ::
      i in rows && k in rows && HandedOff(rows[i]) && HandedOff(rows[k]) && rows[i].payload.filepath == rows[k].payload.filepath ==> i == k
  }

  ghost predicate Inv(w: World) {
    TableOk(w.s, w.now, w.origins) && LeasesOk(w.s, w.leases) && DispatchesOk(w.s, w.now, w.dispatched) && BudgetOk(w.s.rows)
  }

  // ---------------------------------------------------------------- sums

  lemma {:induction false} StakeWithout(rows: map<nat, Job>, i: nat, p: string, h: string)
    requires i in rows
    ensures Stake(rows, p, h) == Cost(rows[i], p, h) + Stake(rows - {i}, p, h)
    decreases rows.Keys
  {
    var k :| k in rows && Stake(rows, p, h) == Cost(rows[k], p, h) + Stake(rows - {k}, p, h);
    if k != i {
      StakeWithout(rows - {k}, i, p, h);
      StakeWithout(rows - {i}, k, p, h);
      assert rows - {k} - {i} == rows - {i} - {k};
    }
  }

  /** Rows that cost no more, and new rows that cost nothing, do not raise the stake. */
  lemma {:induction false} StakeMonotone(rows: map<nat, Job>, rows': map<nat, Job>, p: string, h: string)
    requires forall i :: i in rows' ==> if i in rows then Cost(rows'[i], p, h) <= Cost(rows[i], p, h) else Cost(rows'[i], p, h) == 0
    ensures Stake(rows', p, h) <= Stake(rows, p, h)
    decreases rows'.Keys
  {
    if rows' != map[] {
      var i :| i in rows';
      StakeWithout(rows', i, p, h);
      if i in rows {
        StakeWithout(rows, i, p, h);
        StakeMonotone(rows - {i}, rows' - {i}, p, h);
      } else {
        StakeMonotone(rows, rows' - {i}, p, h);
      }
    }
  }

  lemma {:induction false} SpentIsStake(rows: map<nat, Job>, p: string, h: string)
    requires forall i :: i in rows ==> Cost(rows[i], p, h) == SpentBy(rows[i], p, h)
    ensures Spent(rows, p, h) == Stake(rows, p, h)
    decreases rows.Keys
  {
    if rows != map[] {
      var i :| i in rows;
      StakeWithout(rows, i, p, h);
      SpentWithout(rows, i, p, h);
      SpentIsStake(rows - {i}, p, h);
    }
  }

  lemma {:induction false} SpentWithinStake(rows: map<nat, Job>, p: string, h: string)
    ensures Spent(rows, p, h) <= Stake(rows, p, h)
    decreases rows.Keys
  {
    if rows != map[] {
      var i :| i in rows;
      StakeWithout(rows, i, p, h);
      SpentWithout(rows, i, p, h);
      SpentWithinStake(rows - {i}, p, h);
    }
  }

  lemma StakeUpdate(rows: map<nat, Job>, i: nat, j: Job, p: string, h: string)
    ensures Stake(rows[i := j], p, h) == Stake(rows, p, h) - (if i in rows then Cost(rows[i], p, h) else 0) + Cost(j, p, h)
  {
    StakeWithout(rows[i := j], i, p, h);
    assert rows[i := j] - {i} == rows - {i};
    if i in rows {
      StakeWithout(rows, i, p, h);
    } else {
      assert rows - {i} == rows;
    }
  }

  // ---------------------------------------------------------------- row facts

  lemma RowStepEvolves(j: Job, j': Job, now: int, t0: nat, t1: nat)
    requires RowStep(j, j', now, t0, t1)
    ensures Evolves(j, j')
    ensures HandedOff(j') ==> HandedOff(j)
  {
  }

  lemma RowStepCost(j: Job, j': Job, now: int, t0: nat, t1: nat, p: string, h: string)
    requires RowStep(j, j', now, t0, t1)
    ensures Cost(j', p, h) <= Cost(j, p, h)
  {
  }

  lemma RowStepKeepsJob(s: Jobs, s': Jobs, i: nat, now: int)
    requires i in s.rows && i in s'.rows && JobOk(s, i, now) && s.nextId <= s'.nextId && s.nextToken <= s'.nextToken
    requires RowStep(s.rows[i], s'.rows[i], now, s.nextToken, s'.nextToken)
    requires forall r :: r in s.requests ==> r in s'.requests && s'.requests[r] == s.requests[r]
    ensures JobOk(s', i, now)
  {
  }

  lemma RowStepKeepsSpacing(s: Jobs, s': Jobs, now: int, c: DispatchClaim, t0: nat, t1: nat)
    requires Spaced(s, now, c) && c.id in s'.rows && JobOk(s, c.id, now)
    requires RowStep(s.rows[c.id], s'.rows[c.id], now, t0, t1)
    ensures Spaced(s', now, c)
  {
  }

  // ---------------------------------------------------------------- steps, all rows at once

  /** A row added by an ordinary enqueue. */
  predicate FreshRow(s: Jobs, i: nat, j: Job, now: int) {
    i >= s.nextId && j.kind != Recompile && (j.key.Some? ==> j.key.value.Plain?) && j == NewJob(j.kind, j.payload, j.key, now)
  }

  /** Every old row takes a `RowStep` and every added row is fresh. */
  ghost predicate RowsStep(s: Jobs, s': Jobs, now: int) {
    && s'.requests == s.requests && s.nextId <= s'.nextId && s.nextToken <= s'.nextToken && KeysUnique(s'.rows)
    && (forall i :: i in s.rows ==> i in s'.rows && RowStep(s.rows[i], s'.rows[i], now, s.nextToken, s'.nextToken))
    && (forall i :: i in s'.rows && i !in s.rows ==> i < s'.nextId && FreshRow(s, i, s'.rows[i], now))
  }

  lemma RowsStepKeepsTable(s: Jobs, s': Jobs, now: int, origins: map<nat, JobKey>)
    requires TableOk(s, now, origins) && RowsStep(s, s', now)
    ensures TableOk(s', now, Origins(origins, s.rows, s'.rows))
  {
    forall i | i in s'.rows ensures JobOk(s', i, now) && OriginOk(s', Origins(origins, s.rows, s'.rows), i) {
      if i in s.rows {
        RowStepKeepsJob(s, s', i, now);
        RowStepEvolves(s.rows[i], s'.rows[i], now, s.nextToken, s'.nextToken);
        assert OriginOk(s, origins, i);
      } else {
        assert FreshRow(s, i, s'.rows[i], now);
      }
    }
  }

  /** Rows never undo anything between the two tables. */
  ghost predicate RowsEvolve(s: Jobs, s': Jobs) {
    s.nextToken <= s'.nextToken && forall i :: i in s.rows ==> i in s'.rows && Evolves(s.rows[i], s'.rows[i])
  }

  lemma RowsStepEvolves(s: Jobs, s': Jobs, now: int)
    requires RowsStep(s, s', now)
    ensures RowsEvolve(s, s')
  {
    forall i | i in s.rows ensures i in s'.rows && Evolves(s.rows[i], s'.rows[i]) {
      RowStepEvolves(s.rows[i], s'.rows[i], now, s.nextToken, s'.nextToken);
    }
  }

  lemma RowsEvolveKeepsLeases(s: Jobs, s': Jobs, leases: set<Lease>)
    requires LeasesOk(s, leases) && RowsEvolve(s, s')
    ensures LeasesOk(s', leases)
  {
    forall l | l in leases ensures LeaseOk(s', l) {
      assert LeaseOk(s, l) && Evolves(s.rows[l.id], s'.rows[l.id]);
    }
  }

  lemma RowsStepKeepsDispatches(s: Jobs, s': Jobs, now: int, origins: map<nat, JobKey>, dispatched: set<DispatchClaim>)
    requires TableOk(s, now, origins) && DispatchesOk(s, now, dispatched) && RowsStep(s, s', now)
    ensures DispatchesOk(s', now, dispatched)
  {
    forall c | c in dispatched ensures Spaced(s', now, c) {
      assert Spaced(s, now, c);
      RowStepKeepsSpacing(s, s', now, c, s.nextToken, s'.nextToken);
    }
  }

  lemma RowsStepKeepsBudget(s: Jobs, s': Jobs, now: int)
    requires BudgetOk(s.rows) && RowsStep(s, s', now)
    ensures BudgetOk(s'.rows)
  {
    forall i | i in s'.rows
      ensures HandedOff(s'.rows[i]) ==> i in s.rows && HandedOff(s.rows[i]) && s'.rows[i].payload.filepath == s.rows[i].payload.filepath
    {
      if i in s.rows {
        RowStepEvolves(s.rows[i], s'.rows[i], now, s.nextToken, s'.nextToken);
      } else {
        assert FreshRow(s, i, s'.rows[i], now);
      }
    }
    forall p, h ensures Stake(s'.rows, p, h) <= MAX_INGEST_ATTEMPTS {
      forall i | i in s'.rows
        ensures if i in s.rows then Cost(s'.rows[i], p, h) <= Cost(s.rows[i], p, h) else Cost(s'.rows[i], p, h) == 0
      {
        if i in s.rows {
          RowStepCost(s.rows[i], s'.rows[i], now, s.nextToken, s'.nextToken, p, h);
        } else {
          assert FreshRow(s, i, s'.rows[i], now);
        }
      }
      StakeMonotone(s.rows, s'.rows, p, h);
    }
  }

  lemma RowsStepKeeps(w: World, s': Jobs)
    requires Inv(w) && RowsStep(w.s, s', w.now)
    ensures Inv(World(s', w.now, Origins(w.origins, w.s.rows, s'.rows), w.leases, w.dispatched)) && RowsEvolve(w.s, s')
  {
    RowsStepKeepsTable(w.s, s', w.now, w.origins);
    RowsStepEvolves(w.s, s', w.now);
    RowsEvolveKeepsLeases(w.s, s', w.leases);
    RowsStepKeepsDispatches(w.s, s', w.now, w.origins, w.dispatched);
    RowsStepKeepsBudget(w.s, s', w.now);
  }

  // ---------------------------------------------------------------- which steps the transactions take

  lemma SameKeysUnique(rows: map<nat, Job>, rows': map<nat, Job>)
    requires KeysUnique(rows) && rows'.Keys == rows.Keys && forall i :: i in rows ==> rows'[i].key == rows[i].key
    ensures KeysUnique(rows')
  {
  }

  lemma IdsAreOld(s: Jobs, now: int, origins: map<nat, JobKey>)
    requires TableOk(s, now, origins)
    ensures forall i :: i in s.rows ==> i < s.nextId
  {
    forall i | i in s.rows ensures i < s.nextId { assert JobOk(s, i, now); }
  }

  lemma EnqueueSteps(w: World, kind: Kind, payload: Payload, key: Option<JobKey>, replace: bool, finished: bool, s': Jobs)
    requires Inv(w) && kind != Recompile && (key.Some? ==> key.value.Plain?)
    requires s' == EnqueueWith(w.s, kind, payload, key, replace, finished, HolderOf(w.s.rows, key), w.now).0
    ensures RowsStep(w.s, s', w.now)
  {
    var s, holder := w.s, HolderOf(w.s.rows, key);
    IdsAreOld(s, w.now, w.origins);
    if s' != s {
      var kept := if holder.Some? then s.rows[holder.value := Retired(s.rows[holder.value], w.now)] else s.rows;
      var job := NewJob(kind, payload, key, w.now);
      EnqueueKeepsKeys(s.rows, kept, key, holder, s.nextId, job);
      RetiringSteps(w, key, replace, finished, holder, kept);
      AddedRowSteps(s, kept, job, w.now);
    }
  }

  lemma RetiringSteps(w: World, key: Option<JobKey>, replace: bool, finished: bool, holder: Option<nat>, kept: map<nat, Job>)
    requires Inv(w) && (key.Some? ==> key.value.Plain?) && Holder(w.s.rows, key, holder)
    requires holder.Some? ==> Replaceable(w.s.rows[holder.value].status, replace, finished)
    requires kept == if holder.Some? then w.s.rows[holder.value := Retired(w.s.rows[holder.value], w.now)] else w.s.rows
    ensures forall i | i in w.s.rows :: i in kept && RowStep(w.s.rows[i], kept[i], w.now, w.s.nextToken, w.s.nextToken)
  {
    if holder.Some? { assert JobOk(w.s, holder.value, w.now); }
  }

  lemma AddedRowSteps(s: Jobs, kept: map<nat, Job>, job: Job, now: int)
    requires kept.Keys == s.rows.Keys && (forall i :: i in s.rows ==> i < s.nextId) && KeysUnique(kept[s.nextId := job])
    requires forall i | i in s.rows :: RowStep(s.rows[i], kept[i], now, s.nextToken, s.nextToken)
    requires FreshRow(s, s.nextId, job, now)
    ensures RowsStep(s, s.(rows := kept[s.nextId := job], nextId := s.nextId + 1), now)
  {
  }

  lemma EnqueueKeepsKeys(rows: map<nat, Job>, kept: map<nat, Job>, key: Option<JobKey>, holder: Option<nat>, id: nat, j: Job)
    requires KeysUnique(rows) && Holder(rows, key, holder) && id !in rows && j.key == key
    requires kept.Keys == rows.Keys
    requires forall i :: i in rows ==> if Some(i) == holder then kept[i].key.None? else kept[i] == rows[i]
    ensures KeysUnique(kept[id := j])
  {
  }

  /** Replacing one row by a step of it. */
  lemma OneRowSteps(s: Jobs, now: int, i: nat, j': Job)
    requires KeysUnique(s.rows) && i in s.rows && RowStep(s.rows[i], j', now, s.nextToken, s.nextToken) && j'.key == s.rows[i].key
    ensures RowsStep(s, s.(rows := s.rows[i := j']), now)
  {
    SameKeysUnique(s.rows, s.rows[i := j']);
  }

  /** Hand-off, finalization, release and the two failure reports, accepted or refused. */
  lemma ReportSteps(w: World, e: Event, s': Jobs)
    requires Inv(w) && s' == Quiet(w, e)
    requires e.MarkAwaiting? || e.FinalizeJob? || e.ReleaseJob? || e.FailWith? || e.FailClaim?
    ensures RowsStep(w.s, s', w.now)
  {
    if s' != w.s {
      var id := match e
        case MarkAwaiting(c, _) => c.id
        case FinalizeJob(l) => l.id
        case ReleaseJob(id, _, _) => id
        case FailWith(id, _) => id
        case FailClaim(c) => c.id
        case _ => 0;
      assert JobOk(w.s, id, w.now);
      assert s' == w.s.(rows := w.s.rows[id := s'.rows[id]]);
      OneRowSteps(w.s, w.now, id, s'.rows[id]);
    }
  }

  /** Expiry, reset and closing of terminal failures. */
  lemma SweepSteps(w: World, e: Event, s': Jobs)
    requires Inv(w) && s' == Quiet(w, e)
    requires e.Reset? || e.Close? || (e.Expire? && e.sampled <= w.now)
    ensures RowsStep(w.s, s', w.now)
  {
    SameKeysUnique(w.s.rows, s'.rows);
    forall i | i in w.s.rows ensures RowStep(w.s.rows[i], s'.rows[i], w.now, w.s.nextToken, s'.nextToken) {
      assert JobOk(w.s, i, w.now);
    }
  }

  lemma DispatchSteps(s: Jobs, limit: nat, leaseUntil: int, sampled: int, ids: set<nat>, now: int)
    requires KeysUnique(s.rows) && leaseUntil > sampled && sampled <= now && IsDispatchBatch(s, limit, sampled, ids)
    ensures RowsStep(s, Dispatch(s, ids, leaseUntil, sampled), now)
  {
    SameKeysUnique(s.rows, Dispatch(s, ids, leaseUntil, sampled).rows);
  }

  /** The steps that hand no claim out. */
  lemma QuietSteps(w: World, e: Event, s': Jobs)
    requires Inv(w) && Effect(w, e, s', [], {})
    requires !e.ClaimPending? && !e.ClaimSubagent? && !e.Recompiles?
    ensures RowsStep(w.s, s', w.now)
  {
    if e.Enqueue? {
      EnqueueSteps(w, e.kind, e.payload, e.key, e.replace, e.finished, s');
    } else if e.Expire? || e.Reset? || e.Close? {
      SweepSteps(w, e, s');
    } else if !e.Tick? {
      ReportSteps(w, e, s');
    }
  }

  // ---------------------------------------------------------------- claims handed out

  lemma DispatchKeeps(w: World, limit: nat, leaseUntil: int, sampled: int, ids: set<nat>, s': Jobs)
    requires Inv(w) && leaseUntil > sampled && sampled <= w.now && IsDispatchBatch(w.s, limit, sampled, ids)
    requires s' == Dispatch(w.s, ids, leaseUntil, sampled)
    ensures Inv(World(s', w.now, Origins(w.origins, w.s.rows, s'.rows), w.leases, w.dispatched + DispatchClaims(w.s, ids, leaseUntil, sampled)))
    ensures RowsEvolve(w.s, s')
  {
    DispatchSteps(w.s, limit, leaseUntil, sampled, ids, w.now);
    RowsStepKeeps(w, s');
    NewDispatches(w.s, w.now, leaseUntil, sampled, ids);
  }

  lemma NewDispatches(s: Jobs, now: int, leaseUntil: int, sampled: int, ids: set<nat>)
    requires ids <= s.rows.Keys && sampled <= now
    ensures DispatchesOk(Dispatch(s, ids, leaseUntil, sampled), now, DispatchClaims(s, ids, leaseUntil, sampled))
  {
    forall c | c in DispatchClaims(s, ids, leaseUntil, sampled) ensures Spaced(Dispatch(s, ids, leaseUntil, sampled), now, c) {
    }
  }

  /** What leasing the ids in turn does: lease `k` is written on row `ids[k]` and handed out under its own token. */
  lemma LeaseAllIssues(s: Jobs, ids: seq<nat>, owner: string, leaseUntil: int, now: int)
    requires Distinct(ids) && forall i :: i in ids ==> i in s.rows
    ensures var (s', leases) := LeaseAll(s, ids, owner, leaseUntil, now);
            && s'.nextToken == s.nextToken + |ids| && |leases| == |ids| && s'.rows.Keys == s.rows.Keys
            && s'.nextId == s.nextId && s'.requests == s.requests
            && Untouched(s.rows, s'.rows, ids)
            && (forall k :: 0 <= k < |ids| ==>
                  leases[k] == Lease(ids[k], owner, s.nextToken + k, s.rows[ids[k]].leaseGeneration + 1, leaseUntil)
                  && s'.rows[ids[k]] == WorkingRow(s.rows[ids[k]], owner, s.nextToken + k, leaseUntil, now))
  {
    LeaseAllFrame(s, ids, owner, leaseUntil, now);
    forall k | 0 <= k < |ids|
      ensures var (s', leases) := LeaseAll(s, ids, owner, leaseUntil, now);
        leases[k] == Lease(ids[k], owner, s.nextToken + k, s.rows[ids[k]].leaseGeneration + 1, leaseUntil)
        && s'.rows[ids[k]] == WorkingRow(s.rows[ids[k]], owner, s.nextToken + k, leaseUntil, now)
    {
      LeaseAllAt(s, ids, owner, leaseUntil, now, k);
    }
  }

  lemma {:induction false} LeaseAllFrame(s: Jobs, ids: seq<nat>, owner: string, leaseUntil: int, now: int)
    requires forall i :: i in ids ==> i in s.rows
    ensures var (s', leases) := LeaseAll(s, ids, owner, leaseUntil, now);
            && s'.nextToken == s.nextToken + |ids| && |leases| == |ids| && s'.rows.Keys == s.rows.Keys
            && s'.nextId == s.nextId && s'.requests == s.requests
            && Untouched(s.rows, s'.rows, ids)
    decreases ids
  {
    if |ids| > 0 {
      var s1 := LeaseOne(s, ids[0], owner, leaseUntil, now);
      assert forall i :: i in ids[1..] ==> i in ids;
      LeaseAllFrame(s1, ids[1..], owner, leaseUntil, now);
      UntouchedSnoc(s.rows, s1.rows, LeaseAll(s1, ids[1..], owner, leaseUntil, now).0.rows, ids);
    }
  }

  lemma {:induction false} LeaseAllAt(s: Jobs, ids: seq<nat>, owner: string, leaseUntil: int, now: int, k: nat)
    requires Distinct(ids) && (forall i :: i in ids ==> i in s.rows) && k < |ids|
    ensures var (s', leases) := LeaseAll(s, ids, owner, leaseUntil, now);
      && |leases| == |ids| && ids[k] in s'.rows
      && leases[k] == Lease(ids[k], owner, s.nextToken + k, s.rows[ids[k]].leaseGeneration + 1, leaseUntil)
      && s'.rows[ids[k]] == WorkingRow(s.rows[ids[k]], owner, s.nextToken + k, leaseUntil, now)
    decreases ids
  {
    var s1 := LeaseOne(s, ids[0], owner, leaseUntil, now);
    assert (forall i :: i in ids[1..] ==> i in ids) && ids[0] !in ids[1..];
    LeaseAllFrame(s1, ids[1..], owner, leaseUntil, now);
    if k > 0 {
      assert ids[k] == ids[1..][k - 1] && ids[k] != ids[0];
      LeaseAllAt(s1, ids[1..], owner, leaseUntil, now, k - 1);
    }
  }

  predicate Untouched(before: map<nat, Job>, after: map<nat, Job>, ids: seq<nat>) {
    forall i :: i in before && i !in ids ==> i in after && after[i] == before[i]
  }

  lemma UntouchedSnoc(before: map<nat, Job>, middle: map<nat, Job>, after: map<nat, Job>, ids: seq<nat>)
    requires |ids| > 0 && Untouched(before, middle, [ids[0]]) && Untouched(middle, after, ids[1..])
    ensures Untouched(before, after, ids)
  {
    assert forall i :: i !in ids ==> i !in [ids[0]] && i !in ids[1..];
  }

  lemma LeaseAllSteps(s: Jobs, ids: seq<nat>, owner: string, leaseUntil: int, sampled: int, now: int, s': Jobs)
    requires KeysUnique(s.rows) && leaseUntil > sampled && sampled <= now && Distinct(ids)
    requires forall k :: 0 <= k < |ids| ==> ids[k] in s.rows && Leasable(s.rows[ids[k]], sampled)
    requires forall i :: i in ids ==> i in s.rows
    requires s' == LeaseAll(s, ids, owner, leaseUntil, sampled).0 && s'.nextId == s.nextId && s'.requests == s.requests
    ensures RowsStep(s, s', now)
  {
    LeaseAllIssues(s, ids, owner, leaseUntil, sampled);
    forall i | i in s.rows ensures RowStep(s.rows[i], s'.rows[i], now, s.nextToken, s'.nextToken) && s'.rows[i].key == s.rows[i].key {
      if i in ids { var k :| 0 <= k < |ids| && ids[k] == i; }
    }
    SameKeysUnique(s.rows, s'.rows);
  }

  lemma LeaseKeeps(w: World, limit: nat, owner: string, leaseUntil: int, sampled: int, ids: seq<nat>, s': Jobs, leases: seq<Lease>)
    requires Inv(w) && leaseUntil > sampled && sampled <= w.now && IsLeaseBatch(w.s, limit, sampled, ids) && forall i :: i in ids ==> i in w.s.rows
    requires (s', leases) == LeaseAll(w.s, ids, owner, leaseUntil, sampled)
    ensures Inv(World(s', w.now, Origins(w.origins, w.s.rows, s'.rows), w.leases + (set l | l in leases), w.dispatched))
    ensures RowsEvolve(w.s, s')
  {
    LeaseAllIssues(w.s, ids, owner, leaseUntil, sampled);
    LeaseAllSteps(w.s, ids, owner, leaseUntil, sampled, w.now, s');
    RowsStepKeeps(w, s');
    LeaseAllLeases(w.s, ids, owner, leaseUntil, sampled, s', leases);
    AddLeases(w.s, s', w.leases, leases);
  }

  lemma LeaseAllLeases(s: Jobs, ids: seq<nat>, owner: string, leaseUntil: int, now: int, s': Jobs, leases: seq<Lease>)
    requires Distinct(ids) && (forall i :: i in ids ==> i in s.rows) && (s', leases) == LeaseAll(s, ids, owner, leaseUntil, now)
    ensures forall k :: 0 <= k < |leases| ==> LeaseOk(s', leases[k]) && leases[k].token == s.nextToken + k
  {
    LeaseAllIssues(s, ids, owner, leaseUntil, now);
  }

  lemma AddLeases(s: Jobs, s': Jobs, before: set<Lease>, leases: seq<Lease>)
    requires LeasesOk(s, before) && LeasesOk(s', before)
    requires forall k :: 0 <= k < |leases| ==> LeaseOk(s', leases[k]) && leases[k].token == s.nextToken + k
    ensures LeasesOk(s', before + set l | l in leases)
  {
    forall l | l in before ensures l.token < s.nextToken { assert LeaseOk(s, l); }
  }

  // ---------------------------------------------------------------- controlled recompile

  lemma {:induction false} MembersAtLeast(scope: seq<Source>, src: Source)
    requires src in scope
    ensures Members(scope, src.filepath) >= 1
  {
    if scope[0] != src { MembersAtLeast(scope[1..], src); }
  }

  /** A file listed once in a scope is listed with one content. */
  lemma {:induction false} OneContentPerFile(scope: seq<Source>, a: Source, b: Source)
    requires a in scope && b in scope && a.filepath == b.filepath && Members(scope, a.filepath) == 1
    ensures a == b
  {
    if scope[0].filepath != a.filepath {
      OneContentPerFile(scope[1..], a, b);
    } else {
      if scope[0] != a { MembersAtLeast(scope[1..], a); }
      if scope[0] != b { MembersAtLeast(scope[1..], b); }
    }
  }

  lemma RegisterKeeps(w: World, request: string, scope: seq<Source>)
    requires Inv(w) && Register(w.s, request, scope).Ok?
    ensures Inv(w.(s := Register(w.s, request, scope).value))
  {
    var s' := Register(w.s, request, scope).value;
    forall i | i in s'.rows ensures JobOk(s', i, w.now) && OriginOk(s', w.origins, i) {
      assert JobOk(w.s, i, w.now) && OriginOk(w.s, w.origins, i);
    }
    assert TableOk(s', w.now, w.origins);
    forall l | l in w.leases ensures LeaseOk(s', l) { assert LeaseOk(w.s, l); }
    forall c | c in w.dispatched ensures Spaced(s', w.now, c) { assert Spaced(w.s, w.now, c); }
  }

  /** The gates of `Admission` for a source that is handed off. */
  ghost predicate Admitted(s: Jobs, now: int, request: string, src: Source, existing: Option<nat>) {
    && request in s.requests && src in s.requests[request] && Members(s.requests[request], src.filepath) == 1
    && Holder(s.rows, Some(Controlled(request, src.filepath)), existing)
    && (existing.Some? ==> s.rows[existing.value].status in {Failed, Queued} && s.rows[existing.value].retries < MAX_INGEST_ATTEMPTS)
    && !HasActive(s.rows, src.filepath, existing)
    && Spent(s.rows, src.filepath, src.hash) < MAX_INGEST_ATTEMPTS
  }

  lemma RenewalIsBound(s: Jobs, now: int, origins: map<nat, JobKey>, request: string, src: Source, i: nat, payload: Payload)
    requires TableOk(s, now, origins) && Admitted(s, now, request, src, Some(i))
    requires payload.filepath == src.filepath && payload.hash == src.hash
    ensures Renewed(s.rows[i], AwaitingRow(s.rows[i], payload, now), now)
  {
    assert JobOk(s, i, now);
    OneContentPerFile(s.requests[request], src, Source(s.rows[i].payload.filepath, s.rows[i].payload.hash));
  }

  /** The row a hand-off writes, and its place in the table. */
  ghost predicate HandsOff(s: Jobs, now: int, request: string, payload: Payload, existing: Option<nat>, id: nat, j: Job, s': Jobs) {
    && s'.rows == s.rows[id := j] && s'.requests == s.requests && s'.nextToken == s.nextToken && s.nextId <= s'.nextId && id < s'.nextId
    && j.kind == Recompile && j.status == Awaiting && j.payload == payload && j.updatedAt == now && j.token.None?
    && j.key == Some(Controlled(request, payload.filepath))
    && (match existing
        case Some(i) => id == i && id in s.rows && Renewed(s.rows[i], j, now)
        case None => id !in s.rows && j.retries == 0)
  }

  lemma HandOffRowHandsOff(s: Jobs, now: int, origins: map<nat, JobKey>, request: string, src: Source, existing: Option<nat>, payload: Payload)
    requires TableOk(s, now, origins) && Admitted(s, now, request, src, existing)
    requires payload.filepath == src.filepath && payload.hash == src.hash
    ensures var (s', id) := HandOffRow(s, request, payload, existing, now);
            id in s'.rows && HandsOff(s, now, request, payload, existing, id, s'.rows[id], s')
  {
    IdsAreOld(s, now, origins);
    if existing.Some? {
      RenewalIsBound(s, now, origins, request, src, existing.value, payload);
      assert JobOk(s, existing.value, now);
    }
  }

  lemma HandOffKeepsTable(s: Jobs, now: int, origins: map<nat, JobKey>, request: string, src: Source, existing: Option<nat>,
                          payload: Payload, id: nat, s': Jobs)
    requires TableOk(s, now, origins) && Admitted(s, now, request, src, existing) && id in s'.rows
    requires HandsOff(s, now, request, payload, existing, id, s'.rows[id], s')
    requires payload.filepath == src.filepath && payload.hash == src.hash
    ensures TableOk(s', now, Origins(origins, s.rows, s'.rows))
  {
    var origins' := Origins(origins, s.rows, s'.rows);
    forall i | i in s'.rows ensures JobOk(s', i, now) && OriginOk(s', origins', i) {
      if i in s.rows {
        assert JobOk(s, i, now) && OriginOk(s, origins, i);
      }
    }
    assert KeysUnique(s'.rows) by {
      forall i, k | i in s'.rows && k in s'.rows && s'.rows[i].key.Some? && s'.rows[i].key == s'.rows[k].key ensures i == k {
        if i in s.rows { assert JobOk(s, i, now); }
        if k in s.rows { assert JobOk(s, k, now); }
      }
    }
  }

  lemma HandOffEvolves(s: Jobs, now: int, request: string, payload: Payload, existing: Option<nat>, id: nat, s': Jobs)
    requires id in s'.rows && HandsOff(s, now, request, payload, existing, id, s'.rows[id], s')
    ensures RowsEvolve(s, s')
  {
  }

  lemma HandOffKeepsDispatches(s: Jobs, now: int, request: string, payload: Payload, existing: Option<nat>, id: nat, s': Jobs, ds: set<DispatchClaim>)
    requires id in s'.rows && HandsOff(s, now, request, payload, existing, id, s'.rows[id], s') && DispatchesOk(s, now, ds)
    ensures DispatchesOk(s', now, ds)
  {
    forall c | c in ds ensures Spaced(s', now, c) { assert Spaced(s, now, c); }
  }

  /** The budget argument: an admitted source has nothing in flight and attempts to spare. */
  lemma HandOffKeepsBudget(s: Jobs, now: int, request: string, src: Source, existing: Option<nat>, payload: Payload, id: nat, s': Jobs)
    requires BudgetOk(s.rows) && Admitted(s, now, request, src, existing) && id in s'.rows
    requires HandsOff(s, now, request, payload, existing, id, s'.rows[id], s')
    requires payload.filepath == src.filepath && payload.hash == src.hash
    ensures BudgetOk(s'.rows)
  {
    forall i | i in s.rows ensures HandedOff(s.rows[i]) ==> s.rows[i].payload.filepath != src.filepath {
      if Some(i) != existing { assert !ActiveElsewhere(s.rows[i], src.filepath); }
    }
    forall p, h ensures Stake(s'.rows, p, h) <= MAX_INGEST_ATTEMPTS {
      StakeUpdate(s.rows, id, s'.rows[id], p, h);
      if p == src.filepath && h == src.hash {
        SpentIsStake(s.rows, p, h);
      }
    }
    assert OnePerFile(s'.rows);
  }

  lemma HandOffKeeps(w: World, request: string, src: Source, existing: Option<nat>, payload: Payload, s': Jobs, id: nat)
    requires Inv(w) && Admitted(w.s, w.now, request, src, existing)
    requires payload.filepath == src.filepath && payload.hash == src.hash
    requires (s', id) == HandOffRow(w.s, request, payload, existing, w.now)
    ensures Inv(World(s', w.now, Origins(w.origins, w.s.rows, s'.rows), w.leases, w.dispatched)) && RowsEvolve(w.s, s')
    ensures s'.requests == w.s.requests
  {
    HandOffRowHandsOff(w.s, w.now, w.origins, request, src, existing, payload);
    HandOffKeepsTable(w.s, w.now, w.origins, request, src, existing, payload, id, s');
    HandOffEvolves(w.s, w.now, request, payload, existing, id, s');
    RowsEvolveKeepsLeases(w.s, s', w.leases);
    HandOffKeepsDispatches(w.s, w.now, request, payload, existing, id, s', w.dispatched);
    HandOffKeepsBudget(w.s, w.now, request, src, existing, payload, id, s');
  }

  lemma OriginsCompose(origins: map<nat, JobKey>, a: map<nat, Job>, b: map<nat, Job>, c: map<nat, Job>)
    requires a.Keys <= b.Keys <= c.Keys && forall i :: i in b && i !in a ==> c[i].key == b[i].key
    ensures Origins(Origins(origins, a, b), b, c) == Origins(origins, a, c)
  {
  }

  lemma EvolveCompose(a: Jobs, b: Jobs, c: Jobs)
    requires RowsEvolve(a, b) && RowsEvolve(b, c)
    ensures RowsEvolve(a, c)
  {
    forall i | i in a.rows ensures i in c.rows && Evolves(a.rows[i], c.rows[i]) {
      assert Evolves(a.rows[i], b.rows[i]) && Evolves(b.rows[i], c.rows[i]);
    }
  }

  /** A recompile keeps every key and dispatches nothing. */
  ghost predicate KeysKept(a: Jobs, b: Jobs) {
    forall i :: i in a.rows ==>
      i in b.rows && b.rows[i].key == a.rows[i].key && (b.rows[i].status == Dispatched ==> b.rows[i] == a.rows[i])
  }

  lemma HandOffKeepsKeys(w: World, request: string, src: Source, existing: Option<nat>, payload: Payload, s': Jobs, id: nat)
    requires Inv(w) && Admitted(w.s, w.now, request, src, existing) && payload.filepath == src.filepath && payload.hash == src.hash
    requires (s', id) == HandOffRow(w.s, request, payload, existing, w.now)
    ensures KeysKept(w.s, s')
  {
    HandOffRowHandsOff(w.s, w.now, w.origins, request, src, existing, payload);
  }

  lemma AdmissionAdmits(s: Jobs, request: string, scope: seq<Source>, src: Source, accepted: bool, now: int, existing: Option<nat>)
    requires request in s.requests && s.requests[request] == scope && src in scope
    requires Admission(s, request, scope, src, accepted, now) == Go(existing)
    ensures Admitted(s, now, request, src, existing)
  {
  }

  /** The world after a step that only moves the tables, at the same time. */
  function After(w: World, s': Jobs): World { World(s', w.now, Origins(w.origins, w.s.rows, s'.rows), w.leases, w.dispatched) }

  ghost predicate Carries(w: World, s': Jobs) { Inv(After(w, s')) && RowsEvolve(w.s, s') && KeysKept(w.s, s') }

  lemma NothingCarries(w: World)
    requires Inv(w)
    ensures Carries(w, w.s)
  {
    assert w == After(w, w.s);
  }

  lemma CarriesCompose(w: World, s1: Jobs, s': Jobs)
    requires Carries(w, s1) && Carries(After(w, s1), s')
    ensures Carries(w, s')
  {
    EvolveCompose(w.s, s1, s');
    OriginsCompose(w.origins, w.s.rows, s1.rows, s'.rows);
    assert After(After(w, s1), s') == After(w, s');
  }

  lemma HandOffOneCarries(w: World, d: Desk, source: Source, existing: Option<nat>, s1: Jobs, id: nat)
    requires Inv(w) && d.now == w.now && d.request in w.s.requests && w.s.requests[d.request] == d.scope && source in d.scope
    requires Admission(w.s, d.request, d.scope, source, d.accepts(source), d.now) == Go(existing)
    requires (s1, id) == HandOffRow(w.s, d.request, PayloadFor(source, d.build, d.name), existing, d.now)
    ensures Carries(w, s1) && s1.requests == w.s.requests
  {
    AdmissionAdmits(w.s, d.request, d.scope, source, d.accepts(source), d.now, existing);
    HandOffKeeps(w, d.request, source, existing, PayloadFor(source, d.build, d.name), s1, id);
    HandOffKeepsKeys(w, d.request, source, existing, PayloadFor(source, d.build, d.name), s1, id);
  }

  lemma {:induction false} HandOffAllCarries(w: World, d: Desk, sources: seq<Source>, made: seq<nat>, s': Jobs, made': seq<nat>)
    requires Inv(w) && d.now == w.now && d.request in w.s.requests && w.s.requests[d.request] == d.scope
    requires forall x :: x in sources ==> x in d.scope
    requires HandOffAll(w.s, d, sources, made) == Ok((s', made'))
    ensures Carries(w, s')
    decreases sources
  {
    if sources == [] || (sources[0].filepath !in d.deferred && |made| >= d.batch) {
      NothingCarries(w);
    } else if sources[0].filepath in d.deferred {
      HandOffAllCarries(w, d, sources[1..], made, s', made');
    } else {
      match Admission(w.s, d.request, d.scope, sources[0], d.accepts(sources[0]), d.now)
      case Skip => HandOffAllCarries(w, d, sources[1..], made, s', made');
      case Refuse(_) =>
      case Go(existing) =>
        var (s1, id) := HandOffRow(w.s, d.request, PayloadFor(sources[0], d.build, d.name), existing, d.now);
        HandOffOneCarries(w, d, sources[0], existing, s1, id);
        HandOffAllCarries(After(w, s1), d, sources[1..], made + [id], s', made');
        CarriesCompose(w, s1, s');
    }
  }

  lemma RecompileKeeps(w: World, d: Desk, s': Jobs)
    requires Inv(w) && d.now == w.now && s' == (match DispatchScope(w.s, d) case Ok(done) => done.0 case Err(_) => w.s)
    ensures Inv(After(w, s')) && RowsEvolve(w.s, s')
  {
    if DispatchScope(w.s, d).Ok? {
      ScopeCarries(w, d, s');
    } else {
      NothingCarries(w);
    }
  }

  lemma ScopeCarries(w: World, d: Desk, s': Jobs)
    requires Inv(w) && d.now == w.now && DispatchScope(w.s, d).Ok? && s' == DispatchScope(w.s, d).value.0
    ensures Carries(w, s')
  {
    var s1 := Register(w.s, d.request, d.scope).value;
    RegisterCarries(w, d.request, d.scope);
    HandOffAllCarries(After(w, s1), d, d.scope, [], s', DispatchScope(w.s, d).value.1);
    CarriesCompose(w, s1, s');
  }

  lemma RegisterCarries(w: World, request: string, scope: seq<Source>)
    requires Inv(w) && Register(w.s, request, scope).Ok?
    ensures var s1 := Register(w.s, request, scope).value;
      Carries(w, s1) && request in s1.requests && s1.requests[request] == scope && After(w, s1) == w.(s := s1)
  {
    RegisterKeeps(w, request, scope);
    assert After(w, Register(w.s, request, scope).value) == w.(s := Register(w.s, request, scope).value);
  }

  // ---------------------------------------------------------------- runs

  lemma StepKeeps(w: World, e: Event, w': World)
    requires Inv(w) && Next(w, e, w')
    ensures Inv(w') && RowsEvolve(w.s, w'.s)
  {
    var leases: seq<Lease>, dispatched: set<DispatchClaim> :|
      && Effect(w, e, w'.s, leases, dispatched)
      && w'.leases == w.leases + (set l | l in leases) && w'.dispatched == w.dispatched + dispatched;
    var w1 := World(w'.s, w.now, w'.origins, w'.leases, w'.dispatched);
    match e {
      case ClaimPending(limit, leaseUntil, sampled, ids) => DispatchKeeps(w, limit, leaseUntil, sampled, ids, w'.s);
      case ClaimSubagent(limit, owner, leaseUntil, sampled, order) => LeaseKeeps(w, limit, owner, leaseUntil, sampled, order, w'.s, leases);
      case Recompiles(d) => RecompileKeeps(w, d, w'.s);
      case _ =>
        QuietSteps(w, e, w'.s);
        RowsStepKeeps(w, w'.s);
    }
    assert w1.leases == w.leases + (set l | l in leases) && w1.dispatched == w.dispatched + dispatched;
    assert Inv(w1);
    TimePasses(w1, w');
  }

  /** A row is dispatched in one step only from a dispatchable state and under the sampled time. */
  ghost predicate DispatchProgress(s: Jobs, s': Jobs, now: int) {
    forall i :: i in s.rows ==>
      i in s'.rows
      && (s'.rows[i].status == Dispatched ==>
            s'.rows[i] == s.rows[i] || (Dispatchable(s.rows[i], s'.rows[i].updatedAt) && s'.rows[i].updatedAt <= now))
  }

  lemma RowsStepDispatches(s: Jobs, s': Jobs, now: int)
    requires RowsStep(s, s', now)
    ensures DispatchProgress(s, s', now)
  {
    forall i | i in s.rows && s'.rows[i].status == Dispatched
      ensures s'.rows[i] == s.rows[i] || (Dispatchable(s.rows[i], s'.rows[i].updatedAt) && s'.rows[i].updatedAt <= now)
    {
      assert RowStep(s.rows[i], s'.rows[i], now, s.nextToken, s'.nextToken);
    }
  }

  lemma RecompileDispatches(w: World, d: Desk, s': Jobs)
    requires Inv(w) && d.now == w.now && s' == (match DispatchScope(w.s, d) case Ok(done) => done.0 case Err(_) => w.s)
    ensures DispatchProgress(w.s, s', w.now)
  {
    if DispatchScope(w.s, d).Ok? { ScopeCarries(w, d, s'); }
  }

  lemma StepDispatches(w: World, e: Event, w': World)
    requires Inv(w) && Next(w, e, w')
    ensures DispatchProgress(w.s, w'.s, w.now)
  {
    var leases: seq<Lease>, dispatched: set<DispatchClaim> :| Effect(w, e, w'.s, leases, dispatched);
    match e {
      case ClaimPending(limit, leaseUntil, sampled, ids) =>
        DispatchSteps(w.s, limit, leaseUntil, sampled, ids, w.now);
        RowsStepDispatches(w.s, w'.s, w.now);
      case ClaimSubagent(limit, owner, leaseUntil, sampled, order) =>
        LeaseAllIssues(w.s, order, owner, leaseUntil, sampled);
        LeaseAllSteps(w.s, order, owner, leaseUntil, sampled, w.now, w'.s);
        RowsStepDispatches(w.s, w'.s, w.now);
      case Recompiles(d) => RecompileDispatches(w, d, w'.s);
      case _ =>
        QuietSteps(w, e, w'.s);
        RowsStepDispatches(w.s, w'.s, w.now);
    }
  }

  lemma TimePasses(w: World, w': World)
    requires Inv(w) && w' == w.(now := w'.now) && w'.now >= w.now
    ensures Inv(w')
  {
    forall i | i in w.s.rows ensures JobOk(w.s, i, w'.now) && OriginOk(w.s, w.origins, i) {
      assert JobOk(w.s, i, w.now) && OriginOk(w.s, w.origins, i);
    }
    forall c | c in w.dispatched ensures Spaced(w.s, w'.now, c) { assert Spaced(w.s, w.now, c); }
  }

  ghost predicate Run(ws: seq<World>, es: seq<Event>) {
    && |ws| == |es| + 1 && Init(ws[0])
    && forall i :: 0 <= i < |es| ==> StepAt(ws, es, i)
  }

  /** One step of a run, under a name of its own so that a run unfolds only where a step is asked for. */
  ghost predicate StepAt(ws: seq<World>, es: seq<Event>, i: nat)
    requires |ws| == |es| + 1 && i < |es|
  {
    Next(ws[i], es[i], ws[i + 1])
  }

  lemma {:induction false} RunKeeps(ws: seq<World>, es: seq<Event>, n: nat)
    requires Run(ws, es) && n < |ws|
    ensures Inv(ws[n])
    decreases n
  {
    if n > 0 {
      RunKeeps(ws, es, n - 1);
      assert StepAt(ws, es, n - 1);
      StepKeeps(ws[n - 1], es[n - 1], ws[n]);
    } else {
      assert forall p, h :: Stake(ws[0].s.rows, p, h) == 0;
    }
  }

  lemma StepEvolves(ws: seq<World>, es: seq<Event>, i: nat)
    requires Run(ws, es) && i < |es|
    ensures RowsEvolve(ws[i].s, ws[i + 1].s) && ws[i].now <= ws[i + 1].now
    ensures ws[i].leases <= ws[i + 1].leases && ws[i].dispatched <= ws[i + 1].dispatched
  {
    RunKeeps(ws, es, i);
    assert StepAt(ws, es, i);
    StepKeeps(ws[i], es[i], ws[i + 1]);
  }

  lemma {:induction false} RunEvolves(ws: seq<World>, es: seq<Event>, i: nat, j: nat)
    requires Run(ws, es) && i <= j < |ws|
    ensures RowsEvolve(ws[i].s, ws[j].s) && ws[i].now <= ws[j].now && ws[i].leases <= ws[j].leases && ws[i].dispatched <= ws[j].dispatched
    decreases j
  {
    if i < j {
      RunEvolves(ws, es, i, j - 1);
      StepEvolves(ws, es, j - 1);
      EvolveCompose(ws[i].s, ws[j - 1].s, ws[j].s);
    }
  }

  // ---------------------------------------------------------------- main results

  predicate LiveStatus(s: Status) { s == Queued || s == Failed || InFlight(s) }

  /** Whatever the supersede flags, at most one live row ever carries an original key. */
  lemma OneLiveRowPerKey(ws: seq<World>, es: seq<Event>, n: nat, i: nat, k: nat)
    requires Run(ws, es) && n < |ws| && i in ws[n].origins && k in ws[n].origins && ws[n].origins[i] == ws[n].origins[k]
    ensures i in ws[n].s.rows && k in ws[n].s.rows
    ensures LiveStatus(ws[n].s.rows[i].status) && LiveStatus(ws[n].s.rows[k].status) ==> i == k
  {
    RunKeeps(ws, es, n);
    assert OriginOk(ws[n].s, ws[n].origins, i) && OriginOk(ws[n].s, ws[n].origins, k);
  }

  /** No job spends more than the cap, and a job that is queued or in flight still has an attempt. */
  lemma RetriesStayWithinCap(ws: seq<World>, es: seq<Event>, n: nat, i: nat)
    requires Run(ws, es) && n < |ws| && i in ws[n].s.rows
    ensures ws[n].s.rows[i].retries <= MAX_INGEST_ATTEMPTS
    ensures InFlight(ws[n].s.rows[i].status) || ws[n].s.rows[i].status == Queued ==> ws[n].s.rows[i].retries < MAX_INGEST_ATTEMPTS
  {
    RunKeeps(ws, es, n);
    assert JobOk(ws[n].s, i, ws[n].now);
  }

  /** Over all request identities the recompile attempts spent on one exact content, plus those
      now at stake, stay within the cap; at most one recompile of a file is handed off. */
  lemma RecompileBudgetHolds(ws: seq<World>, es: seq<Event>, n: nat, p: string, h: string)
    requires Run(ws, es) && n < |ws|
    ensures Spent(ws[n].s.rows, p, h) <= Stake(ws[n].s.rows, p, h) <= MAX_INGEST_ATTEMPTS
    ensures OnePerFile(ws[n].s.rows)
  {
    RunKeeps(ws, es, n);
    SpentWithinStake(ws[n].s.rows, p, h);
  }

  /** A finished job is never changed again: its status, attempts and payload are final. */
  lemma FinishedIsFinal(ws: seq<World>, es: seq<Event>, i: nat, j: nat, id: nat)
    requires Run(ws, es) && i <= j < |ws| && id in ws[i].s.rows && Done(ws[i].s.rows[id].status)
    ensures id in ws[j].s.rows
    ensures ws[j].s.rows[id].status == ws[i].s.rows[id].status && ws[j].s.rows[id].retries == ws[i].s.rows[id].retries
    ensures ws[j].s.rows[id].payload == ws[i].s.rows[id].payload
  {
    RunEvolves(ws, es, i, j);
    assert Evolves(ws[i].s.rows[id], ws[j].s.rows[id]);
  }

  /** A lease that can finalize, fail or release its job now could do so at every moment since it
      was issued: once expired and reclaimed, or ended, it is powerless for good. */
  lemma LostLeaseStaysLost(ws: seq<World>, es: seq<Event>, i: nat, j: nat, l: Lease)
    requires Run(ws, es) && i <= j < |ws| && l in ws[i].leases
    requires l.id in ws[j].s.rows && LeaseValid(ws[j].s.rows[l.id], l, ws[j].now)
    ensures l.id in ws[i].s.rows && LeaseValid(ws[i].s.rows[l.id], l, ws[i].now)
  {
    RunEvolves(ws, es, i, j);
    RunKeeps(ws, es, i);
    assert LeaseOk(ws[i].s, l) && Evolves(ws[i].s.rows[l.id], ws[j].s.rows[l.id]);
  }

  /** Of all leases ever issued for a job at most one is valid. */
  lemma OneValidLease(ws: seq<World>, es: seq<Event>, n: nat, l: Lease, m: Lease)
    requires Run(ws, es) && n < |ws| && l in ws[n].leases && m in ws[n].leases && l.id == m.id && l.id in ws[n].s.rows
    requires LeaseValid(ws[n].s.rows[l.id], l, ws[n].now) && LeaseValid(ws[n].s.rows[m.id], m, ws[n].now)
    ensures l == m
  {
    RunKeeps(ws, es, n);
  }

  /** One step cannot give a lost dispatch claim back. */
  lemma CurrentBefore(w: World, e: Event, w': World, c: DispatchClaim)
    requires Inv(w) && Next(w, e, w') && c in w.dispatched && DispatchCurrent(w'.s, c, w'.now)
    ensures DispatchCurrent(w.s, c, w.now)
  {
    StepDispatches(w, e, w');
    assert Spaced(w.s, w.now, c) && JobOk(w.s, c.id, w.now);
  }

  lemma CurrentBeforeAt(ws: seq<World>, es: seq<Event>, k: nat, c: DispatchClaim)
    requires Run(ws, es) && k < |es| && c in ws[k].dispatched && DispatchCurrent(ws[k + 1].s, c, ws[k + 1].now)
    ensures DispatchCurrent(ws[k].s, c, ws[k].now)
  {
    RunKeeps(ws, es, k);
    assert StepAt(ws, es, k);
    CurrentBefore(ws[k], es[k], ws[k + 1], c);
  }

  /** The token-less dispatch claim is free of ABA, however early a dispatcher reads its clock: lease,
      retry delay and clock see to it that a claim that was lost never matches again. */
  lemma {:induction false} LostDispatchStaysLost(ws: seq<World>, es: seq<Event>, i: nat, j: nat, c: DispatchClaim)
    requires Run(ws, es) && i <= j < |ws| && c in ws[i].dispatched && DispatchCurrent(ws[j].s, c, ws[j].now)
    ensures DispatchCurrent(ws[i].s, c, ws[i].now)
    decreases j
  {
    if i < j {
      RunEvolves(ws, es, i, j - 1);
      CurrentBeforeAt(ws, es, j - 1, c);
      LostDispatchStaysLost(ws, es, i, j - 1, c);
    }
  }

  /** A new dispatch of a job makes every claim issued for it before worthless. */
  lemma RedispatchEndsOldClaims(ws: seq<World>, es: seq<Event>, n: nat, c: DispatchClaim)
    requires Run(ws, es) && n < |es| && es[n].ClaimPending? && c in ws[n].dispatched && c.id in es[n].ids
    ensures !DispatchCurrent(ws[n + 1].s, c, ws[n + 1].now)
  {
    var w, e := ws[n], es[n];
    RunKeeps(ws, es, n);
    assert StepAt(ws, es, n);
    assert Spaced(w.s, w.now, c) && JobOk(w.s, c.id, w.now) && Dispatchable(w.s.rows[c.id], e.sampled);
    assert ws[n + 1].s == Dispatch(w.s, e.ids, e.leaseUntil, e.sampled);
  }
}
