/** The job table: dispatch claims, subagent leases, retry budget, supersession and the controlled
    recompile hand-off (`vector_lake/db_store.py`, `vector_lake/controlled_recompile.py`).
    Functions give each transaction's effect; the methods of class `JobStore` run the statements. */
module JobStore {
  import opened Ordering

  const MAX_INGEST_ATTEMPTS := 3

  datatype Kind = Ingest | Recompile | Other
  datatype Status = Queued | Dispatched | Awaiting | Working | Failed | Finalized | Completed | Cancelled | Superseded

  datatype Payload = Payload(filepath: string, hash: string, canonicalName: string, rest: string)

  /** `Controlled` is the key of one source of one recompile request; every other key is `Plain`. */
  datatype JobKey = Plain(text: string) | Controlled(request: string, filepath: string)

  datatype Job = Job(
    kind: Kind, payload: Payload, status: Status, retries: nat,
    createdAt: int, updatedAt: int, availableAt: int,
    leaseUntil: Option<int>, owner: Option<string>, token: Option<nat>, leaseGeneration: nat, key: Option<JobKey>)

  /** `nextId` and `nextToken` stand for the random sources of job ids and lease tokens;
      `requests` are the durable recompile requests with their frozen source lists. */
  datatype Jobs = Jobs(rows: map<nat, Job>, requests: map<string, seq<Source>>, nextId: nat, nextToken: nat)

  datatype Source = Source(filepath: string, hash: string)

  /** What a dispatch hands out: the row's lease, update time and payload, but no token. */
  datatype DispatchClaim = DispatchClaim(id: nat, leaseUntil: int, updatedAt: int, payload: Payload)

  datatype Lease = Lease(id: nat, owner: string, token: nat, generation: nat, leaseUntil: int)

  datatype FailureClaim = NoClaim | ByDispatch(d: DispatchClaim) | ByLease(l: Lease)

  datatype Error = BadDelay | ClaimLost | PayloadChanged | RequestRebound | ActiveWork | SourceRefused | BadBatch

  predicate InFlight(s: Status) { s == Dispatched || s == Awaiting || s == Working }

  // ---------------------------------------------------------------- enqueue

  ghost predicate KeysUnique(rows: map<nat, Job>) {
    forall i, j :: i in rows && j in rows && rows[i].key.Some? && rows[i].key == rows[j].key ==> i == j
  }

  ghost predicate Holder(rows: map<nat, Job>, key: Option<JobKey>, holder: Option<nat>) {
    match holder
    case Some(i) => key.Some? && i in rows && rows[i].key == key
    case None => key.None? || forall i :: i in rows ==> rows[i].key != key
  }

  ghost function HolderOf(rows: map<nat, Job>, key: Option<JobKey>): (h: Option<nat>)
    ensures Holder(rows, key, h)
  {
    if key.Some? && exists i :: i in rows && rows[i].key == key then
      var i :| i in rows && rows[i].key == key;
      Some(i)
    else None
  }

  lemma HolderIsUnique(rows: map<nat, Job>, key: Option<JobKey>, h: Option<nat>)
    requires KeysUnique(rows) && Holder(rows, key, h)
    ensures h == HolderOf(rows, key)
  {
  }

  predicate Replaceable(s: Status, replaceTerminal: bool, supersedeFinished: bool) {
    || ((replaceTerminal || supersedeFinished) && (s == Failed || s == Cancelled))
    || (supersedeFinished && (s == Finalized || s == Completed))
  }

  /** The superseded row gives up its key; a failed one also stops being dispatchable. */
  function Retired(j: Job, now: int): Job {
    j.(key := None, status := if j.status == Failed || j.status == Cancelled then Superseded else j.status, updatedAt := now)
  }

  function NewJob(kind: Kind, payload: Payload, key: Option<JobKey>, now: int): Job {
    Job(kind, payload, Queued, 0, now, now, now, None, None, None, 0, key)
  }

  function EnqueueWith(s: Jobs, kind: Kind, payload: Payload, key: Option<JobKey>, replace: bool, finished: bool,
                       holder: Option<nat>, now: int): (Jobs, nat)
    requires holder.Some? ==> holder.value in s.rows
  {
    if holder.Some? && !Replaceable(s.rows[holder.value].status, replace, finished) then (s, holder.value)
    else
      var rows := if holder.Some? then s.rows[holder.value := Retired(s.rows[holder.value], now)] else s.rows;
      (s.(rows := rows[s.nextId := NewJob(kind, payload, key, now)], nextId := s.nextId + 1), s.nextId)
  }

  // ---------------------------------------------------------------- dispatch

  predicate Dispatchable(j: Job, now: int) {
    && j.kind != Recompile
    && (|| ((j.status == Queued || j.status == Failed) && j.retries < MAX_INGEST_ATTEMPTS && j.availableAt <= now)
        || (j.status == Dispatched && (j.leaseUntil.None? || j.leaseUntil.value <= now)))
  }

  /** The oldest `limit` rows satisfying `Dispatchable`; ties of `created_at` may fall either way. */
  ghost predicate IsDispatchBatch(s: Jobs, limit: nat, now: int, ids: set<nat>) {
    && |ids| <= limit
    && (forall i :: i in ids ==> i in s.rows && Dispatchable(s.rows[i], now))
    && (forall i :: i in s.rows && Dispatchable(s.rows[i], now) && i !in ids ==>
          |ids| == limit && forall k :: k in ids ==> s.rows[k].createdAt <= s.rows[i].createdAt)
  }

  /** Such a batch, as a list in the order of creation. */
  ghost predicate IsDispatchOrder(s: Jobs, limit: nat, now: int, order: seq<nat>) {
    && |order| <= limit && Distinct(order)
    && (forall k :: 0 <= k < |order| ==> order[k] in s.rows && Dispatchable(s.rows[order[k]], now))
    && (forall i :: i in s.rows && Dispatchable(s.rows[i], now) && i !in order ==>
          |order| == limit && forall k :: 0 <= k < |order| ==> s.rows[order[k]].createdAt <= s.rows[i].createdAt)
    && (forall i, k | 0 <= i < k < |order| :: s.rows[order[i]].createdAt <= s.rows[order[k]].createdAt)
  }

  lemma {:induction false} DistinctSize(order: seq<nat>, ids: set<nat>)
    requires Distinct(order) && forall i :: i in ids <==> i in order
    ensures |ids| == |order|
  {
    if |order| > 0 {
      var n := |order| - 1;
      assert forall i :: i in order <==> i in order[..n] || i == order[n];
      DistinctSize(order[..n], ids - {order[n]});
    } else {
      assert ids == {};
    }
  }

  lemma OrderIsBatch(s: Jobs, limit: nat, now: int, order: seq<nat>, ids: set<nat>)
    requires IsDispatchOrder(s, limit, now, order) && forall i :: i in ids <==> i in order
    ensures IsDispatchBatch(s, limit, now, ids) && |order| == |ids|
  {
    DistinctSize(order, ids);
  }

  function DispatchedRow(j: Job, leaseUntil: int, now: int): Job {
    j.(status := Dispatched, leaseUntil := Some(leaseUntil), updatedAt := now)
  }

  function Dispatch(s: Jobs, ids: set<nat>, leaseUntil: int, now: int): Jobs {
    s.(rows := map i | i in s.rows :: if i in ids then DispatchedRow(s.rows[i], leaseUntil, now) else s.rows[i])
  }

  function DispatchClaims(s: Jobs, ids: set<nat>, leaseUntil: int, now: int): set<DispatchClaim>
    requires ids <= s.rows.Keys
  {
    set i | i in ids :: DispatchClaim(i, leaseUntil, now, s.rows[i].payload)
  }

  /** The claims on the rows of `order`, in that order. */
  function ClaimsFor(s: Jobs, order: seq<nat>, leaseUntil: int, now: int): (claims: seq<DispatchClaim>)
    requires forall k :: 0 <= k < |order| ==> order[k] in s.rows
    ensures |claims| == |order|
    ensures forall k | 0 <= k < |order| :: claims[k] == DispatchClaim(order[k], leaseUntil, now, s.rows[order[k]].payload)
  {
    seq(|order|, k requires 0 <= k < |order| => DispatchClaim(order[k], leaseUntil, now, s.rows[order[k]].payload))
  }

  predicate OldestFirst(s: Jobs, claims: seq<DispatchClaim>) {
    && (forall c | c in claims :: c.id in s.rows)
    && (forall i, k | 0 <= i < k < |claims| :: claims[i].id in s.rows && claims[k].id in s.rows
          && s.rows[claims[i].id].createdAt <= s.rows[claims[k].id].createdAt)
  }

  lemma ClaimsOfOrder(s: Jobs, limit: nat, ids: set<nat>, order: seq<nat>, leaseUntil: int, now: int)
    requires IsDispatchOrder(s, limit, now, order) && forall i :: i in ids <==> i in order
    ensures ids <= s.rows.Keys && (set c | c in ClaimsFor(s, order, leaseUntil, now)) == DispatchClaims(s, ids, leaseUntil, now)
    ensures OldestFirst(s, ClaimsFor(s, order, leaseUntil, now))
  {
    var claims := ClaimsFor(s, order, leaseUntil, now);
    forall c | c in DispatchClaims(s, ids, leaseUntil, now) ensures c in claims {
      var k :| 0 <= k < |order| && order[k] == c.id;
      assert claims[k] == c;
    }
    forall c | c in claims ensures c.id in s.rows && c in DispatchClaims(s, ids, leaseUntil, now) {
      var k :| 0 <= k < |claims| && claims[k] == c;
      assert order[k] in order;
    }
  }

  predicate DispatchCurrent(s: Jobs, c: DispatchClaim, now: int) {
    && c.id in s.rows
    && (var j := s.rows[c.id];
        j.status == Dispatched && j.leaseUntil == Some(c.leaseUntil) && c.leaseUntil > now && j.updatedAt == c.updatedAt && j.payload == c.payload)
  }

  /** Publishing a hand-off: the refreshed payload keeps its identity fields. */
  function Handoff(s: Jobs, c: DispatchClaim, payload: Payload, now: int): Result<Jobs, Error> {
    if !DispatchCurrent(s, c, now) then Err(ClaimLost)
    else if payload.filepath != c.payload.filepath || payload.hash != c.payload.hash || payload.canonicalName != c.payload.canonicalName
    then Err(PayloadChanged)
    else Ok(s.(rows := s.rows[c.id := AwaitingRow(s.rows[c.id], payload, now)]))
  }

  function AwaitingRow(j: Job, payload: Payload, now: int): Job {
    j.(payload := payload, status := Awaiting, updatedAt := now, leaseUntil := None, owner := None, token := None)
  }

  // ---------------------------------------------------------------- subagent leases

  predicate Leasable(j: Job, now: int) {
    && (j.kind == Ingest || j.kind == Recompile)
    && (j.status == Awaiting || (j.status == Working && (j.leaseUntil.None? || j.leaseUntil.value <= now)))
  }

  ghost predicate IsLeaseBatch(s: Jobs, limit: nat, now: int, ids: seq<nat>) {
    && |ids| <= limit && Distinct(ids)
    && (forall k :: 0 <= k < |ids| ==> ids[k] in s.rows && Leasable(s.rows[ids[k]], now))
    && (forall i :: i in s.rows && Leasable(s.rows[i], now) && i !in ids ==>
          |ids| == limit && forall k :: 0 <= k < |ids| ==> s.rows[ids[k]].createdAt <= s.rows[i].createdAt)
  }

  function WorkingRow(j: Job, owner: string, token: nat, leaseUntil: int, now: int): Job {
    j.(status := Working, leaseUntil := Some(leaseUntil), owner := Some(owner), token := Some(token),
       leaseGeneration := j.leaseGeneration + 1, updatedAt := now)
  }

  function LeaseOf(s: Jobs, i: nat, owner: string, leaseUntil: int): Lease
    requires i in s.rows
  {
    Lease(i, owner, s.nextToken, s.rows[i].leaseGeneration + 1, leaseUntil)
  }

  /** Leases the ids in turn, each under its own fresh token. */
  function LeaseAll(s: Jobs, ids: seq<nat>, owner: string, leaseUntil: int, now: int): (Jobs, seq<Lease>)
    requires forall i :: i in ids ==> i in s.rows
    decreases ids
  {
    if ids == [] then (s, [])
    else
      var (s2, leases) := LeaseAll(LeaseOne(s, ids[0], owner, leaseUntil, now), ids[1..], owner, leaseUntil, now);
      (s2, [LeaseOf(s, ids[0], owner, leaseUntil)] + leases)
  }

  function LeaseOne(s: Jobs, i: nat, owner: string, leaseUntil: int, now: int): Jobs
    requires i in s.rows
  {
    s.(rows := s.rows[i := WorkingRow(s.rows[i], owner, s.nextToken, leaseUntil, now)], nextToken := s.nextToken + 1)
  }

  /** The first lease of the rest joins those made so far. */
  lemma LeaseNext(s: Jobs, ids: seq<nat>, k: nat, owner: string, leaseUntil: int, now: int, made: seq<Lease>, all: (Jobs, seq<Lease>))
    requires k < |ids| && forall i :: i in ids ==> i in s.rows
    requires all.0 == LeaseAll(s, ids[k..], owner, leaseUntil, now).0 && all.1 == made + LeaseAll(s, ids[k..], owner, leaseUntil, now).1
    ensures var s1 := LeaseOne(s, ids[k], owner, leaseUntil, now);
      && all.0 == LeaseAll(s1, ids[k + 1..], owner, leaseUntil, now).0
      && all.1 == made + [LeaseOf(s, ids[k], owner, leaseUntil)] + LeaseAll(s1, ids[k + 1..], owner, leaseUntil, now).1
  {
    assert ids[k..][0] == ids[k] && ids[k..][1..] == ids[k + 1..];
  }

  predicate HoldsLease(j: Job, l: Lease) {
    j.status == Working && j.owner == Some(l.owner) && j.token == Some(l.token) && j.leaseGeneration == l.generation
  }

  predicate LeaseValid(j: Job, l: Lease, now: int) {
    HoldsLease(j, l) && j.leaseUntil.Some? && j.leaseUntil.value > now
  }

  function Finalize(s: Jobs, l: Lease, now: int): Result<Jobs, Error> {
    if l.id in s.rows && LeaseValid(s.rows[l.id], l, now)
    then Ok(s.(rows := s.rows[l.id := s.rows[l.id].(status := Finalized, updatedAt := now, leaseUntil := None, owner := None, token := None)]))
    else Err(ClaimLost)
  }

  // ---------------------------------------------------------------- failure, release, expiry

  /** Failure and release need the same fence as finalization. */
  predicate FailureCurrent(s: Jobs, id: nat, c: FailureClaim, now: int) {
    && id in s.rows
    && (var j := s.rows[id];
        && (j.kind == Ingest || j.kind == Recompile)
        && match c
           case NoClaim =>
             (j.status == Queued || j.status == Failed) && j.retries < MAX_INGEST_ATTEMPTS
             && j.owner.None? && j.token.None? && j.leaseUntil.None?
           case ByDispatch(d) => d.id == id && DispatchCurrent(s, d, now)
           case ByLease(l) => l.id == id && LeaseValid(j, l, now))
  }

  function FailedRow(j: Job, spend: bool, availableAt: int, now: int): Job {
    j.(status := Failed, retries := j.retries + (if spend then 1 else 0), updatedAt := now, availableAt := availableAt,
       leaseUntil := None, owner := None, token := None)
  }

  /** `release_job_for_retry`: no attempt is spent; the delay is at least one second. */
  function Release(s: Jobs, id: nat, c: FailureClaim, delay: int, now: int): Result<Jobs, Error> {
    if !(1 <= delay <= 3600) then Err(BadDelay)
    else if !FailureCurrent(s, id, c, now) then Err(ClaimLost)
    else Ok(s.(rows := s.rows[id := FailedRow(s.rows[id], false, now + delay, now)]))
  }

  /** `update_job_status(..., "failed", claim=...)`: one attempt is spent. */
  function FailJob(s: Jobs, id: nat, c: FailureClaim, now: int): Result<Jobs, Error> {
    if c.NoClaim? || !FailureCurrent(s, id, c, now) then Err(ClaimLost)
    else Ok(s.(rows := s.rows[id := FailedRow(s.rows[id], true, now + 5 * Pow2(s.rows[id].retries), now)]))
  }

  /** `fail_dispatch_claim`: any kind of job, but only its exact live dispatch claim. */
  function FailDispatch(s: Jobs, c: DispatchClaim, now: int): Result<Jobs, Error> {
    if !DispatchCurrent(s, c, now) then Err(ClaimLost)
    else Ok(s.(rows := s.rows[c.id := FailedRow(s.rows[c.id], true, now + 5 * Pow2(s.rows[c.id].retries), now)]))
  }

  predicate Stale(j: Job, maxAge: int, now: int) {
    j.status == Awaiting && j.updatedAt < now - (if maxAge < 1 then 1 else maxAge)
  }

  function ExpireStale(s: Jobs, maxAge: int, now: int): Jobs {
    s.(rows := map i | i in s.rows :: if Stale(s.rows[i], maxAge, now) then FailedRow(s.rows[i], true, now, now) else s.rows[i])
  }

  /** `reset_jobs.py --apply`: expired dispatches go back to the queue. */
  function ResetExpired(s: Jobs, now: int): Jobs {
    s.(rows := map i | i in s.rows ::
         if s.rows[i].status == Dispatched && (s.rows[i].leaseUntil.None? || s.rows[i].leaseUntil.value < now)
         then s.rows[i].(status := Queued, leaseUntil := None) else s.rows[i])
  }

  /** `close_terminal_failed_jobs` over the terminal failures whose work is proven done elsewhere. */
  function CloseTerminal(s: Jobs, proven: set<nat>, now: int): Jobs {
    s.(rows := map i | i in s.rows ::
         if i in proven && s.rows[i].status == Failed && s.rows[i].retries >= MAX_INGEST_ATTEMPTS
         then s.rows[i].(status := Superseded, updatedAt := now) else s.rows[i])
  }

  // ---------------------------------------------------------------- controlled recompile

  predicate ActiveElsewhere(j: Job, filepath: string) {
    && (j.kind == Ingest || j.kind == Recompile) && j.payload.filepath == filepath
    && (InFlight(j.status) || ((j.status == Queued || j.status == Failed) && j.retries < MAX_INGEST_ATTEMPTS))
  }

  ghost predicate HasActive(rows: map<nat, Job>, filepath: string, except: Option<nat>) {
    exists i :: i in rows && ActiveElsewhere(rows[i], filepath) && Some(i) != except
  }

  predicate SameContent(j: Job, filepath: string, hash: string) {
    j.kind == Recompile && j.payload.filepath == filepath && j.payload.hash == hash
  }

  function SpentBy(j: Job, filepath: string, hash: string): nat {
    if SameContent(j, filepath, hash) then j.retries else 0
  }

  /** SUM(retries) over every recompile job of this exact content. */
  ghost function Spent(rows: map<nat, Job>, filepath: string, hash: string): nat {
    if rows == map[] then 0
    else
      var i :| i in rows;
      SpentBy(rows[i], filepath, hash) + Spent(rows - {i}, filepath, hash)
  }

  function Members(sources: seq<Source>, filepath: string): nat {
    if sources == [] then 0 else (if sources[0].filepath == filepath then 1 else 0) + Members(sources[1..], filepath)
  }

  datatype Verdict = Skip | Refuse(error: Error) | Go(existing: Option<nat>)

  /** The gates one selected source passes before it is handed off, in the order they are tried.
      `accepted` stands for the checks of the source file, its ledger row and its marker. */
  ghost function Admission(s: Jobs, request: string, scope: seq<Source>, src: Source, accepted: bool, now: int): Verdict {
    var holder := HolderOf(s.rows, Some(Controlled(request, src.filepath)));
    if holder.Some? && s.rows[holder.value].status !in {Failed, Queued} then Skip
    else if holder.Some? && s.rows[holder.value].retries >= MAX_INGEST_ATTEMPTS then Skip
    else if holder.Some? && s.rows[holder.value].availableAt > now then Skip
    else if HasActive(s.rows, src.filepath, holder) then Refuse(ActiveWork)
    else if Spent(s.rows, src.filepath, src.hash) >= MAX_INGEST_ATTEMPTS then Skip
    else if !accepted || Members(scope, src.filepath) != 1 then Refuse(SourceRefused)
    else Go(holder)
  }

  /** A new job row, or the failed one of the same request, goes straight to `awaiting_subagent`. */
  function HandOffRow(s: Jobs, request: string, payload: Payload, existing: Option<nat>, now: int): (Jobs, nat)
    requires existing.Some? ==> existing.value in s.rows
  {
    if existing.Some? then
      (s.(rows := s.rows[existing.value := AwaitingRow(s.rows[existing.value], payload, now)]), existing.value)
    else
      var j := NewJob(Recompile, payload, Some(Controlled(request, payload.filepath)), now);
      (s.(rows := s.rows[s.nextId := AwaitingRow(j, payload, now)], nextId := s.nextId + 1), s.nextId)
  }

  /** `build` stands for the packet builder: it fills in the fields that identify nothing. */
  function PayloadFor(src: Source, build: Source -> string, name: Source -> string): Payload {
    Payload(src.filepath, src.hash, name(src), build(src))
  }

  datatype Desk = Desk(request: string, scope: seq<Source>, deferred: set<string>, batch: nat, accepts: Source -> bool,
                       build: Source -> string, name: Source -> string, now: int)

  /** The source loop of `dispatch_scope` from `sources` on, `made` jobs being handed off already. */
  ghost function HandOffAll(s: Jobs, d: Desk, sources: seq<Source>, made: seq<nat>): Result<(Jobs, seq<nat>), Error>
    decreases sources
  {
    if sources == [] then Ok((s, made))
    else if sources[0].filepath in d.deferred then HandOffAll(s, d, sources[1..], made)
    else if |made| >= d.batch then Ok((s, made))
    else
      match Admission(s, d.request, d.scope, sources[0], d.accepts(sources[0]), d.now)
      case Skip => HandOffAll(s, d, sources[1..], made)
      case Refuse(e) => Err(e)
      case Go(existing) =>
        var (s1, id) := HandOffRow(s, d.request, PayloadFor(sources[0], d.build, d.name), existing, d.now);
        HandOffAll(s1, d, sources[1..], made + [id])
  }

  /** Registers the request, or checks that its frozen scope is the registered one. */
  function Register(s: Jobs, request: string, scope: seq<Source>): Result<Jobs, Error> {
    if request in s.requests then
      if s.requests[request] == scope then Ok(s) else Err(RequestRebound)
    else Ok(s.(requests := s.requests[request := scope]))
  }

  ghost function DispatchScope(s: Jobs, d: Desk): Result<(Jobs, seq<nat>), Error> {
    if !(1 <= d.batch <= 60) then Err(BadBatch)
    else
      match Register(s, d.request, d.scope)
      case Err(e) => Err(e)
      case Ok(s1) => HandOffAll(s1, d, d.scope, [])
  }

  // ---------------------------------------------------------------- the store

  class JobStore {
    var rows: map<nat, Job>
    var requests: map<string, seq<Source>>
    var nextId: nat
    var nextToken: nat

    function State(): Jobs
      reads this
    {
      Jobs(rows, requests, nextId, nextToken)
    }

    constructor ()
      ensures State() == Jobs(map[], map[], 1, 1)
    {
      rows, requests, nextId, nextToken := map[], map[], 1, 1;
    }

    method FindByKey(key: Option<JobKey>) returns (holder: Option<nat>)
      requires KeysUnique(rows)
      ensures holder == HolderOf(rows, key)
    {
      holder := None;
      var rest := rows.Keys;
      while rest != {} && key.Some? && holder.None?
        invariant rest <= rows.Keys
        invariant holder.None? ==> forall i :: i in rows && i !in rest ==> rows[i].key != key
        invariant holder.Some? ==> Holder(rows, key, holder)
      {
        var i :| i in rest;
        if rows[i].key == key { holder := Some(i); }
        rest := rest - {i};
      }
      HolderIsUnique(rows, key, holder);
    }

    method EnqueueJob(kind: Kind, payload: Payload, key: Option<JobKey>, replaceTerminal: bool, supersedeFinished: bool, now: int)
      returns (id: nat)
      requires KeysUnique(rows)
      modifies this
      ensures (State(), id) == EnqueueWith(old(State()), kind, payload, key, replaceTerminal, supersedeFinished, HolderOf(old(rows), key), now)
    {
      var replace := replaceTerminal || supersedeFinished;
      var holder := FindByKey(key);
      if holder.Some? {
        var status := rows[holder.value].status;
        var unfinished := replace && (status == Failed || status == Cancelled);
        var finished := supersedeFinished && (status == Finalized || status == Completed);
        if !(unfinished || finished) { return holder.value; }
        rows := rows[holder.value := Retired(rows[holder.value], now)];
      }
      id := nextId;
      rows, nextId := rows[id := NewJob(kind, payload, key, now)], nextId + 1;
    }

    /** The rows to dispatch, oldest first. */
    method DispatchBatch(limit: nat, now: int) returns (order: seq<nat>)
      ensures IsDispatchOrder(State(), limit, now, order)
    {
      order := [];
      var rest := set i | i in rows && Dispatchable(rows[i], now);
      while rest != {} && |order| < limit
        invariant rest <= rows.Keys && |order| <= limit && Distinct(order)
        invariant forall k :: 0 <= k < |order| ==> order[k] !in rest && order[k] in rows && Dispatchable(rows[order[k]], now)
        invariant forall i :: i in rows && Dispatchable(rows[i], now) ==> i in rest || i in order
        invariant forall i, k :: i in rest && 0 <= k < |order| ==> rows[order[k]].createdAt <= rows[i].createdAt
        invariant forall i, k | 0 <= i < k < |order| :: rows[order[i]].createdAt <= rows[order[k]].createdAt
        decreases rest
      {
        var oldest := Oldest(rest);
        order, rest := order + [oldest], rest - {oldest};
      }
    }

    method Oldest(ids: set<nat>) returns (oldest: nat)
      requires ids != {} && ids <= rows.Keys
      ensures oldest in ids && forall i :: i in ids ==> rows[oldest].createdAt <= rows[i].createdAt
    {
      oldest :| oldest in ids;
      var rest := ids;
      while rest != {}
        invariant rest <= ids && oldest in ids
        invariant forall i :: i in ids && i !in rest ==> rows[oldest].createdAt <= rows[i].createdAt
      {
        var i :| i in rest;
        if rows[i].createdAt < rows[oldest].createdAt { oldest := i; }
        rest := rest - {i};
      }
    }

    method ClaimPendingJobs(limit: int, leaseSeconds: int, now: int) returns (claims: seq<DispatchClaim>, ghost batch: set<nat>)
      modifies this
      ensures IsDispatchBatch(old(State()), if limit < 1 then 1 else limit, now, batch)
      ensures State() == Dispatch(old(State()), batch, now + (if leaseSeconds < 1 then 1 else leaseSeconds), now)
      ensures (set c | c in claims) == DispatchClaims(old(State()), batch, now + (if leaseSeconds < 1 then 1 else leaseSeconds), now)
      ensures |claims| == |batch|
      ensures OldestFirst(old(State()), claims)
    {
      var leaseUntil := now + (if leaseSeconds < 1 then 1 else leaseSeconds);
      var order := DispatchBatch(if limit < 1 then 1 else limit, now);
      var ids := set i | i in order;
      batch := ids;
      OrderIsBatch(State(), if limit < 1 then 1 else limit, now, order, ids);
      ClaimsOfOrder(State(), if limit < 1 then 1 else limit, ids, order, leaseUntil, now);
      claims := ClaimsFor(State(), order, leaseUntil, now);
      rows := map i | i in rows :: if i in ids then rows[i].(status := Dispatched, leaseUntil := Some(leaseUntil), updatedAt := now) else rows[i];
      assert State() == Dispatch(old(State()), ids, leaseUntil, now);
    }

    method MarkJobAwaitingSubagent(c: DispatchClaim, payload: Payload, now: int) returns (r: Result<(), Error>)
      modifies this`rows
      ensures match Handoff(old(State()), c, payload, now)
        case Ok(s) => r == Ok(()) && State() == s
        case Err(e) => r == Err(e) && State() == old(State())
    {
      if !DispatchCurrent(State(), c, now) { return Err(ClaimLost); }
      if payload.filepath != c.payload.filepath || payload.hash != c.payload.hash || payload.canonicalName != c.payload.canonicalName {
        return Err(PayloadChanged);
      }
      rows := rows[c.id := rows[c.id].(payload := payload)];
      rows := rows[c.id := rows[c.id].(status := Awaiting, updatedAt := now, leaseUntil := None, owner := None, token := None)];
      return Ok(());
    }

    method LeaseBatch(limit: nat, now: int) returns (ids: seq<nat>)
      ensures IsLeaseBatch(State(), limit, now, ids)
    {
      ids := [];
      var rest := set i | i in rows && Leasable(rows[i], now);
      while rest != {} && |ids| < limit
        invariant rest <= rows.Keys && |ids| <= limit && Distinct(ids)
        invariant forall k :: 0 <= k < |ids| ==> ids[k] !in rest && ids[k] in rows && Leasable(rows[ids[k]], now)
        invariant forall i :: i in rows && Leasable(rows[i], now) ==> i in rest || i in ids
        invariant forall i, k :: i in rest && 0 <= k < |ids| ==> rows[ids[k]].createdAt <= rows[i].createdAt
        decreases rest
      {
        var oldest := Oldest(rest);
        ids, rest := ids + [oldest], rest - {oldest};
      }
    }

    method LeaseRow(i: nat, owner: string, leaseUntil: int, now: int) returns (lease: Lease)
      requires i in rows
      modifies this
      ensures State() == LeaseOne(old(State()), i, owner, leaseUntil, now) && lease == LeaseOf(old(State()), i, owner, leaseUntil)
    {
      lease := Lease(i, owner, nextToken, rows[i].leaseGeneration + 1, leaseUntil);
      rows, nextToken := rows[i := WorkingRow(rows[i], owner, nextToken, leaseUntil, now)], nextToken + 1;
    }

    method ClaimSubagentJobs(limit: int, leaseSeconds: int, owner: string, now: int) returns (leases: seq<Lease>, ghost ids: seq<nat>)
      modifies this
      ensures IsLeaseBatch(old(State()), if limit < 1 then 1 else limit, now, ids)
      ensures forall i :: i in ids ==> i in old(rows)
      ensures (State(), leases) == LeaseAll(old(State()), ids, owner, now + (if leaseSeconds < 1 then 1 else leaseSeconds), now)
    {
      var leaseUntil := now + (if leaseSeconds < 1 then 1 else leaseSeconds);
      var batch := LeaseBatch(if limit < 1 then 1 else limit, now);
      ids, leases := batch, [];
      assert batch[0..] == batch;
      ghost var all := LeaseAll(State(), batch, owner, leaseUntil, now);
      for k := 0 to |batch|
        invariant rows.Keys == old(rows).Keys
        invariant all.0 == LeaseAll(State(), batch[k..], owner, leaseUntil, now).0
        invariant all.1 == leases + LeaseAll(State(), batch[k..], owner, leaseUntil, now).1
      {
        LeaseNext(State(), batch, k, owner, leaseUntil, now, leases, all);
        var lease := LeaseRow(batch[k], owner, leaseUntil, now);
        leases := leases + [lease];
      }
      NoneLeft(State(), batch[|batch|..], owner, leaseUntil, now, leases);
    }

    method FinalizeIngestJob(l: Lease, now: int) returns (r: Result<(), Error>)
      modifies this`rows
      ensures match Finalize(old(State()), l, now)
        case Ok(s) => r == Ok(()) && State() == s
        case Err(e) => r == Err(e) && State() == old(State())
    {
      if l.id !in rows || !LeaseValid(rows[l.id], l, now) { return Err(ClaimLost); }
      rows := rows[l.id := rows[l.id].(status := Finalized, updatedAt := now, leaseUntil := None, owner := None, token := None)];
      return Ok(());
    }

    method ReleaseJobForRetry(id: nat, c: FailureClaim, delay: int, now: int) returns (r: Result<(), Error>)
      modifies this`rows
      ensures match Release(old(State()), id, c, delay, now)
        case Ok(s) => r == Ok(()) && State() == s
        case Err(e) => r == Err(e) && State() == old(State())
    {
      if !(1 <= delay <= 3600) { return Err(BadDelay); }
      if !FailureCurrent(State(), id, c, now) { return Err(ClaimLost); }
      rows := rows[id := rows[id].(status := Failed, updatedAt := now, availableAt := now + delay, leaseUntil := None, owner := None, token := None)];
      return Ok(());
    }

    method UpdateJobFailed(id: nat, c: FailureClaim, now: int) returns (r: Result<(), Error>)
      modifies this`rows
      ensures match FailJob(old(State()), id, c, now)
        case Ok(s) => r == Ok(()) && State() == s
        case Err(e) => r == Err(e) && State() == old(State())
    {
      if c.NoClaim? || !FailureCurrent(State(), id, c, now) { return Err(ClaimLost); }
      SpendAttempt(id, now);
      return Ok(());
    }

    method SpendAttempt(id: nat, now: int)
      requires id in rows
      modifies this`rows
      ensures rows == old(rows)[id := FailedRow(old(rows)[id], true, now + 5 * Pow2(old(rows)[id].retries), now)]
    {
      var nextRetry := rows[id].retries + 1;
      rows := rows[id := FailedRow(rows[id], true, now + 5 * Pow2(nextRetry - 1), now)];
    }

    method FailDispatchClaim(c: DispatchClaim, now: int) returns (r: Result<(), Error>)
      modifies this`rows
      ensures match FailDispatch(old(State()), c, now)
        case Ok(s) => r == Ok(()) && State() == s
        case Err(e) => r == Err(e) && State() == old(State())
    {
      if !DispatchCurrent(State(), c, now) { return Err(ClaimLost); }
      SpendAttempt(c.id, now);
      return Ok(());
    }

    method ExpireStaleSubagentJobs(maxAge: int, now: int) returns (expired: nat)
      modifies this`rows
      ensures State() == ExpireStale(old(State()), maxAge, now)
      ensures expired == |set i | i in old(rows) && Stale(old(rows)[i], maxAge, now)|
    {
      expired := |set i | i in rows && Stale(rows[i], maxAge, now)|;
      rows := map i | i in rows :: if Stale(rows[i], maxAge, now) then FailedRow(rows[i], true, now, now) else rows[i];
    }

    method TotalSpent(filepath: string, hash: string) returns (n: nat)
      ensures n == Spent(rows, filepath, hash)
    {
      n := 0;
      var left := rows;
      while left != map[]
        invariant left.Keys <= rows.Keys
        invariant n + Spent(left, filepath, hash) == Spent(rows, filepath, hash)
        decreases left.Keys
      {
        assert left.Keys != {};
        var i :| i in left;
        SpentWithout(left, i, filepath, hash);
        n := n + SpentBy(left[i], filepath, hash);
        left := left - {i};
      }
    }

    method AnyActive(filepath: string, except: Option<nat>) returns (active: bool)
      ensures active <==> HasActive(rows, filepath, except)
    {
      active := false;
      var rest := rows.Keys;
      while rest != {} && !active
        invariant rest <= rows.Keys
        invariant !active ==> forall i :: i in rows && i !in rest ==> !(ActiveElsewhere(rows[i], filepath) && Some(i) != except)
        invariant active ==> HasActive(rows, filepath, except)
      {
        var i :| i in rest;
        if ActiveElsewhere(rows[i], filepath) && Some(i) != except { active := true; }
        rest := rest - {i};
      }
    }

    method Admit(request: string, scope: seq<Source>, src: Source, accepted: bool, now: int) returns (v: Verdict)
      requires KeysUnique(rows)
      ensures v == Admission(State(), request, scope, src, accepted, now)
    {
      var holder := FindByKey(Some(Controlled(request, src.filepath)));
      if holder.Some? {
        var j := rows[holder.value];
        if j.status !in {Failed, Queued} { return Skip; }
        if j.retries >= MAX_INGEST_ATTEMPTS { return Skip; }
        if j.availableAt > now { return Skip; }
      }
      var active := AnyActive(src.filepath, holder);
      if active { return Refuse(ActiveWork); }
      var spent := TotalSpent(src.filepath, src.hash);
      if spent >= MAX_INGEST_ATTEMPTS { return Skip; }
      if !accepted || Members(scope, src.filepath) != 1 { return Refuse(SourceRefused); }
      return Go(holder);
    }

    method HandOff(request: string, payload: Payload, existing: Option<nat>, now: int) returns (id: nat)
      requires existing.Some? ==> existing.value in rows
      modifies this
      ensures (State(), id) == HandOffRow(old(State()), request, payload, existing, now)
    {
      if existing.Some? {
        id := existing.value;
      } else {
        id := nextId;
        rows, nextId := rows[id := NewJob(Recompile, payload, Some(Controlled(request, payload.filepath)), now)], nextId + 1;
      }
      rows := rows[id := AwaitingRow(rows[id], payload, now)];
      assert existing.None? ==>
        rows == old(rows)[id := AwaitingRow(NewJob(Recompile, payload, Some(Controlled(request, payload.filepath)), now), payload, now)];
    }

    /** One transaction: a refused source rolls every hand-off of the call back. */
    method DispatchRecompileScope(d: Desk) returns (r: Result<seq<nat>, Error>)
      requires KeysUnique(rows)
      requires forall i :: i in rows ==> i < nextId
      modifies this
      ensures match DispatchScope(old(State()), d)
        case Ok(done) => r == Ok(done.1) && State() == done.0
        case Err(e) => r == Err(e) && State() == old(State())
    {
      if !(1 <= d.batch <= 60) { return Err(BadBatch); }
      var before := State();
      if d.request in requests {
        if requests[d.request] != d.scope { return Err(RequestRebound); }
      } else {
        requests := requests[d.request := d.scope];
      }
      ghost var s1 := State();
      var made: seq<nat> := [];
      var k := 0;
      while k < |d.scope| && (|made| < d.batch || d.scope[k].filepath in d.deferred)
        invariant 0 <= k <= |d.scope| && KeysUnique(rows) && forall i :: i in rows ==> i < nextId
        invariant HandOffAll(s1, d, d.scope, []) == HandOffAll(State(), d, d.scope[k..], made)
      {
        var src := d.scope[k];
        assert d.scope[k..][0] == src && d.scope[k..][1..] == d.scope[k + 1..];
        if src.filepath !in d.deferred {
          var verdict := Admit(d.request, d.scope, src, d.accepts(src), d.now);
          match verdict
          case Skip =>
          case Refuse(e) =>
            rows, requests, nextId, nextToken := before.rows, before.requests, before.nextId, before.nextToken;
            return Err(e);
          case Go(existing) =>
            var payload := PayloadFor(src, d.build, d.name);
            var id := HandOff(d.request, payload, existing, d.now);
            made := made + [id];
        }
        k := k + 1;
      }
      return Ok(made);
    }
  }

  lemma NoneLeft(s: Jobs, ids: seq<nat>, owner: string, leaseUntil: int, now: int, leases: seq<Lease>)
    requires |ids| == 0
    ensures LeaseAll(s, ids, owner, leaseUntil, now).0 == s && leases + LeaseAll(s, ids, owner, leaseUntil, now).1 == leases
  {
  }

  /** The sum does not depend on the order in which the rows are visited. */
  lemma {:induction false} SpentWithout(rows: map<nat, Job>, i: nat, filepath: string, hash: string)
    requires i in rows
    ensures Spent(rows, filepath, hash) == SpentBy(rows[i], filepath, hash) + Spent(rows - {i}, filepath, hash)
    decreases rows.Keys
  {
    var k :| k in rows && Spent(rows, filepath, hash) == SpentBy(rows[k], filepath, hash) + Spent(rows - {k}, filepath, hash);
    if k != i {
      SpentWithout(rows - {k}, i, filepath, hash);
      SpentWithout(rows - {i}, k, filepath, hash);
      assert rows - {k} - {i} == rows - {i} - {k};
    }
  }
}
