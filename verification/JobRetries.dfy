/** What a job's producers and workers can rely on: when a job can be taken up again after an enqueue, a dispatch,
    a lease, a failure, a release or an expiry, and that none of them leaves an old claim in force. */
module JobRetries {
  import opened Ordering
  import opened JobStore

  ghost predicate OnlyRowChanged(s: Jobs, s': Jobs, id: nat) {
    && id in s.rows && s'.rows.Keys == s.rows.Keys
    && forall i :: i in s.rows && i != id ==> s'.rows[i] == s.rows[i]
  }

  /** No lease and no dispatch of the job is in force, whenever it is looked at. */
  ghost predicate Unclaimed(s: Jobs, id: nat)
    requires id in s.rows
  {
    && (forall l: Lease, t :: l.id == id ==> !LeaseValid(s.rows[id], l, t))
    && (forall c: DispatchClaim, t :: c.id == id ==> !DispatchCurrent(s, c, t))
  }

  /** The third failure is the last; before that the job waits five seconds, then ten. */
  predicate DueAfterFailure(j: Job, now: int, t: int) {
    j.kind != Recompile && ((j.retries == 0 && now + 5 <= t) || (j.retries == 1 && now + 10 <= t))
  }

  lemma FailureWaits(s: Jobs, id: nat, c: FailureClaim, now: int, s': Jobs)
    requires FailJob(s, id, c, now) == Ok(s')
    ensures OnlyRowChanged(s, s', id) && s'.rows[id].retries == s.rows[id].retries + 1 && s'.rows[id].status == Failed
    ensures Unclaimed(s', id) && forall t :: Dispatchable(s'.rows[id], t) <==> DueAfterFailure(s.rows[id], now, t)
  {
    assert Pow2(1) == 2 * Pow2(0);
  }

  lemma DispatchFailureWaits(s: Jobs, c: DispatchClaim, now: int, s': Jobs)
    requires FailDispatch(s, c, now) == Ok(s')
    ensures OnlyRowChanged(s, s', c.id) && s'.rows[c.id].retries == s.rows[c.id].retries + 1 && s'.rows[c.id].status == Failed
    ensures Unclaimed(s', c.id) && forall t :: Dispatchable(s'.rows[c.id], t) <==> DueAfterFailure(s.rows[c.id], now, t)
  {
    assert Pow2(1) == 2 * Pow2(0);
  }

  /** A release spends nothing and waits exactly the delay asked for. */
  lemma ReleaseWaits(s: Jobs, id: nat, c: FailureClaim, delay: int, now: int, s': Jobs)
    requires Release(s, id, c, delay, now) == Ok(s')
    ensures 1 <= delay <= 3600 && OnlyRowChanged(s, s', id) && s'.rows[id].retries == s.rows[id].retries && s'.rows[id].status == Failed
    ensures Unclaimed(s', id)
    ensures forall t :: Dispatchable(s'.rows[id], t) <==> s.rows[id].kind != Recompile && s.rows[id].retries < 3 && now + delay <= t
  {
  }

  /** A finalized job is out of everybody's hands and is not taken up again. */
  lemma FinalizedIsOut(s: Jobs, l: Lease, now: int, s': Jobs)
    requires Finalize(s, l, now) == Ok(s')
    ensures LeaseValid(s.rows[l.id], l, now) && OnlyRowChanged(s, s', l.id) && Unclaimed(s', l.id)
    ensures forall t :: !Dispatchable(s'.rows[l.id], t) && !Leasable(s'.rows[l.id], t)
    ensures s'.rows[l.id].status == Finalized && s'.rows[l.id].retries == s.rows[l.id].retries && s'.rows[l.id].payload == s.rows[l.id].payload
  {
  }

  /** A sweep fails the jobs that no subagent has taken for longer than the age, at least a second; they are due at once. */
  lemma SweepFailsTheStale(s: Jobs, maxAge: int, now: int, i: nat)
    requires i in s.rows
    ensures var s' := ExpireStale(s, maxAge, now);
            && s'.rows.Keys == s.rows.Keys
            && if s.rows[i].status == Awaiting && s.rows[i].updatedAt + Max(1, maxAge) < now then
                 && s'.rows[i].status == Failed && s'.rows[i].retries == s.rows[i].retries + 1 && Unclaimed(s', i)
                 && forall t :: Dispatchable(s'.rows[i], t) <==> s.rows[i].kind != Recompile && s.rows[i].retries < 2 && now <= t
               else s'.rows[i] == s.rows[i]
  {
  }

  /** A dispatch leaves a due row out only for a full batch of rows that are no younger. */
  lemma OldestAreDispatched(s: Jobs, limit: nat, now: int, ids: set<nat>, i: nat)
    requires IsDispatchBatch(s, limit, now, ids) && i in s.rows && i !in ids
    requires s.rows[i].kind != Recompile && s.rows[i].retries < 3 && s.rows[i].availableAt <= now
    requires s.rows[i].status == Queued || s.rows[i].status == Failed
    ensures |ids| == limit && forall k :: k in ids ==> k in s.rows && s.rows[k].createdAt <= s.rows[i].createdAt
  {
  }

  lemma OldestAreLeased(s: Jobs, limit: nat, now: int, ids: seq<nat>, i: nat)
    requires IsLeaseBatch(s, limit, now, ids) && i in s.rows && i !in ids
    requires s.rows[i].kind == Ingest || s.rows[i].kind == Recompile
    requires s.rows[i].status == Awaiting || (s.rows[i].status == Working && (s.rows[i].leaseUntil.None? || s.rows[i].leaseUntil.value <= now))
    ensures |ids| == limit && forall k :: 0 <= k < |ids| ==> ids[k] in s.rows && s.rows[ids[k]].createdAt <= s.rows[i].createdAt
  {
  }

  /** The rows of a dispatch are held under the claims handed out, and dispatched again only once those expire. */
  lemma DispatchHolds(s: Jobs, ids: set<nat>, leaseUntil: int, now: int, c: DispatchClaim)
    requires ids <= s.rows.Keys && (forall i :: i in ids ==> Dispatchable(s.rows[i], now)) && leaseUntil > now
    requires c in DispatchClaims(s, ids, leaseUntil, now)
    ensures var s' := Dispatch(s, ids, leaseUntil, now);
            && DispatchCurrent(s', c, now)
            && (forall t :: Dispatchable(s'.rows[c.id], t) <==> leaseUntil <= t)
            && (forall d: DispatchClaim, t :: d.id == c.id && DispatchCurrent(s', d, t) ==> d == c && t < leaseUntil)
            && s'.rows[c.id].retries == s.rows[c.id].retries
            && forall i :: i in s.rows && i !in ids ==> s'.rows[i] == s.rows[i]
  {
  }

  /** A leased job is leased again only once the lease expires, and until then only its lease is in force. */
  lemma LeaseHolds(s: Jobs, i: nat, owner: string, leaseUntil: int, now: int)
    requires i in s.rows && Leasable(s.rows[i], now) && leaseUntil > now
    ensures var s', l := LeaseOne(s, i, owner, leaseUntil, now), LeaseOf(s, i, owner, leaseUntil);
            && OnlyRowChanged(s, s', i) && LeaseValid(s'.rows[i], l, now)
            && (forall t :: Leasable(s'.rows[i], t) <==> leaseUntil <= t)
            && (forall m: Lease, t :: LeaseValid(s'.rows[i], m, t) ==> m.owner == owner && m.token == s.nextToken && t < leaseUntil)
            && s'.rows[i].retries == s.rows[i].retries
  {
  }

  // ---------------------------------------------------------------- enqueue

  /** A job of this status keeps its key when the key is enqueued again. */
  predicate KeepsKey(status: Status, replace: bool, finished: bool) {
    match status
    case Queued | Dispatched | Awaiting | Working | Superseded => true
    case Failed | Cancelled => !replace && !finished
    case Finalized | Completed => !finished
  }

  /** An enqueue finds the job that keeps the key, or adds one that is due at once; the job that gave up its key is
      never dispatched again. */
  lemma EnqueueFindsOrAdds(s: Jobs, kind: Kind, payload: Payload, key: Option<JobKey>, replace: bool, finished: bool, now: int)
    requires forall i :: i in s.rows ==> i < s.nextId
    ensures var holder := HolderOf(s.rows, key);
            var (s', id) := EnqueueWith(s, kind, payload, key, replace, finished, holder, now);
            if holder.Some? && KeepsKey(s.rows[holder.value].status, replace, finished) then
              s' == s && id == holder.value
            else
              && id !in s.rows && s'.rows.Keys == s.rows.Keys + {id}
              && s'.rows[id].kind == kind && s'.rows[id].payload == payload && s'.rows[id].key == key && s'.rows[id].retries == 0
              && Unclaimed(s', id) && (forall t :: Dispatchable(s'.rows[id], t) <==> kind != Recompile && now <= t)
              && (forall i :: i in s.rows && Some(i) != holder ==> s'.rows[i] == s.rows[i])
              && (holder.Some? ==> s'.rows[holder.value].key.None? && forall t :: !Dispatchable(s'.rows[holder.value], t))
  {
  }
}
