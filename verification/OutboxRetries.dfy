/** What producers and workers can rely on in the outbox: when a reported failure is retried, that a failed
    row stays down until it is enqueued or bound again, and what an enqueue, a claim and a binding mean for later claims. */
module OutboxRetries {
  import opened Ordering
  import opened OutboxStore
  import opened OutboxRuns

  // ---------------------------------------------------------------- failure reports

  /** An accepted report below the limit puts the row back, to be claimed from the end of its backoff on;
      at the limit it takes the row out of every claim. No other row is touched. */
  lemma ReportDecidesRetry(o: Outbox, id: nat, maxAttempts: int, backoff: int, c: Claim, now: int, o': Outbox)
    requires Fail(o, id, maxAttempts, backoff, c, now) == Ok(o')
    ensures id in o.rows && IsNewest(o', id)
    ensures var n := o.rows[id].attempts;
            if n < Max(1, maxAttempts) then
              forall t :: Claimable(o', id, t) <==> now + Max(0, backoff) * Pow2(if n > 1 then n - 1 else 0) <= t
            else
              o'.rows[id].status == Failed && forall t :: !Claimable(o', id, t)
    ensures o'.rows.Keys == o.rows.Keys && forall i :: i in o.rows && i != id ==> o'.rows[i] == o.rows[i]
    ensures forall d: Claim, t :: d.id == id ==> !Valid(o', d, t)
  {
    forall j | j in o'.rows && SamePage(o', id, j) ensures NotAfter(o', j, id) {
      assert SamePage(o, id, j) && NotAfter(o, j, id);
    }
  }

  /** The first failure waits the base delay and each further one twice as long as the one before. */
  lemma BackoffDoubles(n: nat)
    ensures Pow2(0) == 1 && Pow2(1) == 2 && Pow2(2) == 4 && Pow2(n + 1) == Pow2(n) + Pow2(n)
  {
    assert Pow2(1) == 2 * Pow2(0);
  }

  predicate Down(s: Status) { s == Failed || s == Superseded }

  /** The event enqueues row `i` again or binds it. */
  predicate Revives(e: Event, i: nat) {
    (e.Enqueue? && e.r == Ok(i)) || (e.BindVersions? && i in e.ids)
  }

  lemma DownStaysDown(w: World, e: Event, w': World, i: nat)
    requires Grounded(w) && Next(w, e, w') && !Revives(e, i)
    requires i in w.o.rows && Down(w.o.rows[i].status)
    ensures i in w'.o.rows && Down(w'.o.rows[i].status) && w'.o.rows[i].attempts == w.o.rows[i].attempts
  {
    match e
    case Enqueue(q, sampled, r) =>
      EnqueueEffect(w.o, q, sampled, w'.o, r);
      if w'.o != w.o { assert SameOrSuperseded(w.o.rows[i], w'.o.rows[i]); }
    case BindVersions(ids, versions) =>
      if Bind(w.o, ids, versions).Ok? { BindEffect(w.o, ids, versions, w'.o); }
    case TakeClaims(limit, owner, leaseUntil, sampled, claims) =>
      var ids: seq<nat> :| IsClaimBatch(w.o, limit, sampled, ids) && Leased(w.o, ids, |ids|, owner, leaseUntil, w'.o, claims);
      assert i !in ids by {
        forall k | 0 <= k < |ids| ensures ids[k] != i { assert Claimable(w.o, ids[k], sampled); }
      }
    case Finish(id, c) =>
    case Report(id, maxAttempts, backoff, c) =>
    case Tick(_) =>
  }

  /** In every run a row that was given up or superseded is in no claim until it is enqueued or bound again. */
  lemma {:induction false} FailedWaitsForRevival(ws: seq<World>, es: seq<Event>, i: nat, j: nat, id: nat)
    requires Run(ws, es) && i <= j < |ws|
    requires id in ws[i].o.rows && (ws[i].o.rows[id].status == Failed || ws[i].o.rows[id].status == Superseded)
    requires forall k :: i <= k < j ==> !Revives(es[k], id)
    ensures id in ws[j].o.rows && (ws[j].o.rows[id].status == Failed || ws[j].o.rows[id].status == Superseded)
    ensures forall t :: !Claimable(ws[j].o, id, t)
    decreases j
  {
    if i < j {
      FailedWaitsForRevival(ws, es, i, j - 1, id);
      RunKeeps(ws, es, j - 1);
      assert StepAt(ws, es, j - 1);
      DownStaysDown(ws[j - 1], es[j - 1], ws[j], id);
    }
  }

  // ---------------------------------------------------------------- claims

  /** A leased row can be claimed again exactly when no claim on it is valid any more. */
  lemma ReclaimedIffNoValidClaim(o: Outbox, i: nat, t: int)
    requires RowsOk(o) && IsNewest(o, i) && o.rows[i].status == Processing
    ensures Claimable(o, i, t) <==> forall c: Claim :: c.id == i ==> !Valid(o, c, t)
  {
    var r := o.rows[i];
    var c := Claim(i, r.owner.value, r.token.value, r.leaseGeneration, r.revision, r.leaseUntil.value);
    assert Claimable(o, i, t) || Valid(o, c, t);
  }

  lemma LeasedKeepsPages(o: Outbox, ids: seq<nat>, owner: string, leaseUntil: int, o': Outbox, claims: seq<Claim>, i: nat)
    requires Leased(o, ids, |ids|, owner, leaseUntil, o', claims) && i in o.rows
    ensures o'.rows[i].filename == o.rows[i].filename && o'.rows[i].revision == o.rows[i].revision
  {
    if i in ids {
      var k :| 0 <= k < |ids| && ids[k] == i;
    }
  }

  lemma LeasedKeepsNewest(o: Outbox, ids: seq<nat>, owner: string, leaseUntil: int, o': Outbox, claims: seq<Claim>, i: nat)
    requires Leased(o, ids, |ids|, owner, leaseUntil, o', claims) && IsNewest(o, i)
    ensures IsNewest(o', i)
  {
    LeasedKeepsPages(o, ids, owner, leaseUntil, o', claims, i);
    forall j | j in o'.rows && SamePage(o', i, j) ensures NotAfter(o', j, i) {
      LeasedKeepsPages(o, ids, owner, leaseUntil, o', claims, j);
      assert SamePage(o, i, j) && NotAfter(o, j, i);
    }
  }

  lemma ClaimIsValid(o: Outbox, ids: seq<nat>, owner: string, leaseUntil: int, now: int, o': Outbox, claims: seq<Claim>, k: nat)
    requires Leased(o, ids, |ids|, owner, leaseUntil, o', claims) && leaseUntil > now && k < |claims| && IsNewest(o, ids[k])
    ensures claims[k].id == ids[k] && claims[k].owner == owner
    ensures Valid(o', claims[k], now) && o'.rows[ids[k]].attempts == o.rows[ids[k]].attempts + 1
  {
    assert claims[k] == ClaimOf(o, ids[k], owner, o.nextToken + k, leaseUntil);
    LeasedKeepsNewest(o, ids, owner, leaseUntil, o', claims, ids[k]);
  }

  predicate ClaimsRow(claims: seq<Claim>, i: nat) { exists k :: 0 <= k < |claims| && claims[k].id == i }

  /** A claim batch leases its rows under valid claims, counts one attempt each and leaves the rest alone. Only a
      full batch leaves a claimable row out. */
  lemma ClaimsAreValid(o: Outbox, limit: nat, owner: string, leaseUntil: int, now: int, o': Outbox, claims: seq<Claim>)
    requires ClaimStep(o, limit, owner, leaseUntil, now, o', claims) && leaseUntil > now
    ensures |claims| <= limit && o'.rows.Keys == o.rows.Keys
    ensures forall k :: 0 <= k < |claims| ==>
              && Claimable(o, claims[k].id, now) && claims[k].owner == owner && Valid(o', claims[k], now)
              && o'.rows[claims[k].id].attempts == o.rows[claims[k].id].attempts + 1
    ensures forall i :: i in o.rows && !ClaimsRow(claims, i) ==> o'.rows[i] == o.rows[i]
    ensures forall i :: Claimable(o, i, now) && !ClaimsRow(claims, i) ==>
              |claims| == limit && forall k :: 0 <= k < |claims| ==> claims[k].id < i
  {
    var ids: seq<nat> :| IsClaimBatch(o, limit, now, ids) && Leased(o, ids, |ids|, owner, leaseUntil, o', claims);
    forall k | 0 <= k < |claims|
      ensures claims[k].id == ids[k] && claims[k].owner == owner && Claimable(o, ids[k], now)
      ensures Valid(o', claims[k], now) && o'.rows[ids[k]].attempts == o.rows[ids[k]].attempts + 1
    {
      assert Claimable(o, ids[k], now);
      ClaimIsValid(o, ids, owner, leaseUntil, now, o', claims, k);
    }
    forall i | i in ids ensures ClaimsRow(claims, i) {
      var k :| 0 <= k < |ids| && ids[k] == i;
      assert claims[k].id == i;
    }
    assert forall k :: 0 <= k < |claims| ==> claims[k].id in ids;
  }

  // ---------------------------------------------------------------- enqueue

  /** Row `id` is the page's newest and carries the request. */
  ghost predicate Carries(o: Outbox, q: Request, id: nat) {
    && IsNewest(o, id)
    && o.rows[id].filename == q.filename && o.rows[id].kind == q.kind && o.rows[id].payload == q.payload && o.rows[id].mode == q.mode
  }

  lemma ReviseDelivers(o: Outbox, q: Request, e: Option<nat>, m: nat, now: int, o1: Outbox, id: nat, o': Outbox)
    requires RowsOk(o) && o.nextId >= 1 && IsMaxRevision(o, q.filename, m) && (e.Some? ==> e.value in o.rows)
    requires e.Some? ==> o.rows[e.value].filename == q.filename && o.rows[e.value].kind == q.kind
    requires (o1, id) == Revise(o, q, e, m + 1, now) && o' == Supersede(o1, q.filename, id, m + 1)
    ensures Carries(o', q, id) && o'.rows[id].status == Pending && o'.rows[id].availableAt == now && o'.rows[id].attempts == 0
    ensures o' != o
    ensures forall i :: i in o.rows && o.rows[i].filename != q.filename ==> i in o'.rows && o'.rows[i] == o.rows[i]
    ensures forall i :: i in o'.rows && i != id && o'.rows[i].filename == q.filename ==>
              o'.rows[i].status == Completed || o'.rows[i].status == Superseded
  {
    assert o'.rows[id] == o1.rows[id] && o1.rows[id].revision == m + 1;
    forall i | i in o'.rows && i != id
      ensures i in o.rows && o'.rows[i].filename == o.rows[i].filename && o'.rows[i].revision == o.rows[i].revision
      ensures o.rows[i].filename != q.filename ==> o'.rows[i] == o.rows[i]
    {
      assert o1.rows[i] == o.rows[i];
    }
    assert id in o.rows ==> o.rows[id].revision <= m;
  }

  /** The request's row is the page's newest and carries the request. Unless it was active already, it can be
      claimed from now on, and nothing else of the page is pending, processing or failed any more. */
  lemma EnqueueDelivers(o: Outbox, q: Request, now: int, o': Outbox, id: nat)
    requires TableOk(o) && o.nextId >= 1 && EnqueueStep(o, q, now, o', Ok(id))
    ensures Carries(o', q, id)
    ensures if o' == o then o'.rows[id].status == Pending || o'.rows[id].status == Processing
            else o'.rows[id].attempts == 0 && forall t :: Claimable(o', id, t) <==> now <= t
    ensures o' != o ==> forall i :: i in o'.rows && i != id && o'.rows[i].filename == q.filename ==>
              o'.rows[i].status == Completed || o'.rows[i].status == Superseded
    ensures forall i :: i in o.rows && o.rows[i].filename != q.filename ==> i in o'.rows && o'.rows[i] == o.rows[i]
  {
    var e: Option<nat>, m: nat :| FoundByKey(o, q.key, e) && IsMaxRevision(o, q.filename, m) && (o', Ok(id)) == EnqueueWith(o, q, e, m, now);
    if !(e.Some? && o.rows[e.value].status in {Pending, Processing} && IsNewest(o, e.value)) {
      var (o1, id1) := Revise(o, q, e, m + 1, now);
      ReviseDelivers(o, q, e, m, now, o1, id1, o');
    }
  }

  /** The three refusals of an enqueue, in the order they are tried; the key is looked up in a table where it is unique. */
  lemma EnqueueRefusesIff(o: Outbox, q: Request, now: int, o': Outbox, r: Result<nat, OutboxError>, holder: Option<nat>)
    requires TableOk(o) && EnqueueStep(o, q, now, o', r) && FoundByKey(o, q.key, holder)
    ensures r.Err? ==> o' == o
    ensures r == Err(EmptyFilename) <==> q.filename == ""
    ensures r == Err(KeyConflict) <==>
              q.filename != "" && holder.Some? && (o.rows[holder.value].filename != q.filename || o.rows[holder.value].kind != q.kind)
    ensures r == Err(ActivePayloadDiffers) <==>
              && q.filename != "" && holder.Some? && o.rows[holder.value].filename == q.filename && o.rows[holder.value].kind == q.kind
              && (o.rows[holder.value].status == Pending || o.rows[holder.value].status == Processing) && IsNewest(o, holder.value)
              && (o.rows[holder.value].payload != q.payload || o.rows[holder.value].mode != q.mode)
  {
    var e: Option<nat>, m: nat :| FoundByKey(o, q.key, e) && IsMaxRevision(o, q.filename, m) && (o', r) == EnqueueWith(o, q, e, m, now);
    assert e == holder;
  }

  /** Idempotency: repeating a keyed request right away finds the row it made and changes nothing. */
  lemma RepeatedEnqueueIsNoOp(o: Outbox, q: Request, now: int, o1: Outbox, id: nat, later: int, o2: Outbox, r: Result<nat, OutboxError>)
    requires TableOk(o) && o.nextId >= 1 && q.key.Some? && q.key.value != ""
    requires EnqueueStep(o, q, now, o1, Ok(id)) && EnqueueStep(o1, q, later, o2, r)
    ensures o2 == o1 && r == Ok(id)
  {
    EnqueueReturnsOpenRow(o, q, now, o1, id);
    EnqueueDelivers(o, q, now, o1, id);
    EnqueueKeepsKey(o, q, now, o1, id);
    var e: Option<nat>, m: nat :| FoundByKey(o1, q.key, e) && IsMaxRevision(o1, q.filename, m) && (o2, r) == EnqueueWith(o1, q, e, m, later);
    assert e == Some(id);
  }

  lemma EnqueueKeepsKey(o: Outbox, q: Request, now: int, o': Outbox, id: nat)
    requires TableOk(o) && o.nextId >= 1 && q.key.Some? && q.key.value != "" && EnqueueStep(o, q, now, o', Ok(id))
    ensures id in o'.rows && o'.rows[id].key == q.key && (o'.rows[id].status == Pending || o'.rows[id].status == Processing)
  {
    var e: Option<nat>, m: nat :| FoundByKey(o, q.key, e) && IsMaxRevision(o, q.filename, m) && (o', Ok(id)) == EnqueueWith(o, q, e, m, now);
    if e.Some? && o.rows[e.value].status in {Pending, Processing} && IsNewest(o, e.value) {
      assert o' == o && id == e.value;
    } else {
      var (o1, id1) := Revise(o, q, e, m + 1, now);
      assert o'.rows[id] == o1.rows[id];
    }
  }

  // ---------------------------------------------------------------- binding

  predicate Bindable(o: Outbox, i: nat, versions: Versions) {
    i in o.rows && !(o.rows[i].kind == Delete && versions.For(o.rows[i].filename) != "")
  }

  /** A binding succeeds exactly when every row exists and no delete is among them whose page is still published. */
  lemma {:induction false} BindSucceedsIff(o: Outbox, ids: seq<nat>, versions: Versions)
    ensures Bind(o, ids, versions).Ok? <==> forall i :: i in ids ==> Bindable(o, i, versions)
    decreases ids
  {
    if |ids| > 0 && Bindable(o, ids[0], versions) {
      var r := o.rows[ids[0]];
      var o1 := o.(rows := o.rows[ids[0] := BoundRow(r, versions.For(r.filename))]);
      BindSucceedsIff(o1, ids[1..], versions);
      assert forall i :: Bindable(o1, i, versions) <==> Bindable(o, i, versions);
      assert forall i :: i in ids <==> i == ids[0] || i in ids[1..];
    } else if |ids| > 0 {
      assert ids[0] in ids;
    }
  }

  /** A bound row records its page's version, starts its attempts anew and is out of every worker's hands; the rest is untouched. */
  lemma {:induction false} BindRestarts(o: Outbox, ids: seq<nat>, versions: Versions, o': Outbox)
    requires Bind(o, ids, versions) == Ok(o')
    ensures o'.rows.Keys == o.rows.Keys && forall i :: i in o.rows && i !in ids ==> o'.rows[i] == o.rows[i]
    ensures forall i :: i in ids ==> i in o.rows && Restarted(o.rows[i], o'.rows[i], versions)
    decreases ids
  {
    if |ids| > 0 {
      var r := o.rows[ids[0]];
      var o1 := o.(rows := o.rows[ids[0] := BoundRow(r, versions.For(r.filename))]);
      BindRestarts(o1, ids[1..], versions, o');
      assert forall i :: i in ids <==> i == ids[0] || i in ids[1..];
    }
  }

  predicate Restarted(r: Row, r': Row, versions: Versions) {
    && r'.filename == r.filename && r'.kind == r.kind && r'.payload == r.payload && r'.revision == r.revision && r'.availableAt == r.availableAt
    && r'.status == Pending && r'.attempts == 0 && r'.token.None?
    && r'.baseVersion == Some(if versions.stem(r.filename) in versions.known then versions.known[versions.stem(r.filename)] else "")
  }
}
