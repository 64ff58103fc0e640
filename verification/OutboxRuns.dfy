/** Runs of the fenced outbox: producers, binders, workers, crashes, forged or stale claims, in any order. */
module OutboxRuns {
  import opened Ordering
  import opened OutboxStore

  datatype Completion = Completion(filename: string, revision: nat, id: nat)

  /** `issued` are the claims handed out so far, `done` the completions in order. */
  datatype World = World(o: Outbox, now: int, issued: set<Claim>, done: seq<Completion>)

  datatype Event =
    | Enqueue(q: Request, sampled: int, r: Result<nat, OutboxError>)
    | BindVersions(ids: seq<nat>, versions: Versions)
    | TakeClaims(limit: nat, owner: string, leaseUntil: int, sampled: int, claims: seq<Claim>)
    | Finish(id: nat, c: Claim)
    | Report(id: nat, maxAttempts: int, backoff: int, c: Claim)
    | Tick(now: int)

  // Enqueues and claims sample the clock before their transaction has the lock; the other steps read it inside.
  ghost predicate Next(w: World, e: Event, w': World) {
    match e
    case Enqueue(q, sampled, r) => sampled <= w.now && EnqueueStep(w.o, q, sampled, w'.o, r) && w' == w.(o := w'.o)
    case BindVersions(ids, versions) =>
      && (forall i :: i in ids && i in w.o.rows ==> w.o.rows[i].status != Completed)
      && w' == (match Bind(w.o, ids, versions) case Ok(o) => w.(o := o) case Err(_) => w)
    case TakeClaims(limit, owner, leaseUntil, sampled, claims) =>
      && sampled <= w.now && leaseUntil > sampled && ClaimStep(w.o, limit, owner, leaseUntil, sampled, w'.o, claims)
      && w' == w.(o := w'.o, issued := w.issued + (set c | c in claims))
    case Finish(id, c) =>
      && w' == (match Complete(w.o, id, c, w.now)
                case Ok(o) => w.(o := o, done := w.done + [Completion(w.o.rows[id].filename, w.o.rows[id].revision, id)])
                case Err(_) => w)
    case Report(id, maxAttempts, backoff, c) =>
      && w' == (match Fail(w.o, id, maxAttempts, backoff, c, w.now) case Ok(o) => w.(o := o) case Err(_) => w)
    case Tick(now) => now >= w.now && w' == w.(now := now)
  }

  ghost predicate Init(w: World) {
    w.o == Outbox(map[], 1, 1) && w.issued == {} && w.done == []
  }

  // ---------------------------------------------------------------- invariant

  ghost predicate RowsOk(o: Outbox) {
    forall i :: i in o.rows ==>
      && 1 <= i < o.nextId && o.rows[i].revision >= 1
      && (o.rows[i].status == Processing ==> o.rows[i].owner.Some? && o.rows[i].token.Some? && o.rows[i].leaseUntil.Some?)
      && (o.rows[i].token.Some? ==> o.rows[i].token.value < o.nextToken)
  }

  ghost predicate RevisionsUnique(o: Outbox) {
    forall i, j :: i in o.rows && j in o.rows && SamePage(o, i, j) && o.rows[i].revision == o.rows[j].revision ==> i == j
  }

  ghost predicate KeysUnique(o: Outbox) {
    forall i, j ::
      i in o.rows && j in o.rows && o.rows[i].key.Some? && o.rows[i].key.value != "" && o.rows[i].key == o.rows[j].key ==> i == j
  }

  ghost predicate NewestNotSuperseded(o: Outbox) {
    forall i :: IsNewest(o, i) ==> o.rows[i].status != Superseded
  }

  ghost predicate TableOk(o: Outbox) {
    RowsOk(o) && RevisionsUnique(o) && KeysUnique(o) && NewestNotSuperseded(o)
  }

  /** A lease generation is handed out once: a row processing under it is processing for `c`. */
  ghost predicate IssuedOk(o: Outbox, c: Claim) {
    && c.id in o.rows && c.token < o.nextToken && c.leaseGeneration <= o.rows[c.id].leaseGeneration
    && (c.leaseGeneration == o.rows[c.id].leaseGeneration && o.rows[c.id].status == Processing ==>
          Holds(o, c) && o.rows[c.id].leaseUntil == Some(c.leaseUntil))
  }

  ghost predicate ClaimsOk(o: Outbox, issued: set<Claim>) {
    && (forall c :: c in issued ==> IssuedOk(o, c))
    && (forall c, d :: c in issued && d in issued && c.token == d.token ==> c == d)
  }

  /** A completed revision is final: its row stays completed until it moves to a later revision. */
  ghost predicate DoneRowOk(o: Outbox, d: Completion) {
    && d.id in o.rows && o.rows[d.id].filename == d.filename && d.revision <= o.rows[d.id].revision
    && (d.revision == o.rows[d.id].revision ==> o.rows[d.id].status == Completed)
  }

  ghost predicate DoneOk(o: Outbox, done: seq<Completion>) {
    && (forall n :: 0 <= n < |done| ==> DoneRowOk(o, done[n]))
    && Increasing(done)
  }

  ghost predicate Increasing(done: seq<Completion>) {
    forall m, n :: 0 <= m < n < |done| && done[m].filename == done[n].filename ==> done[m].revision < done[n].revision
  }

  ghost predicate Recorded(o: Outbox, done: seq<Completion>) {
    forall i :: i in o.rows && o.rows[i].status == Completed ==> Completion(o.rows[i].filename, o.rows[i].revision, i) in done
  }

  ghost predicate Inv(w: World) { TableOk(w.o) && ClaimsOk(w.o, w.issued) && DoneOk(w.o, w.done) }

  // ---------------------------------------------------------------- what every step does to a row

  /** Lease generations never go back, and a row keeps processing only if it is untouched. */
  predicate LeaseProgress(r: Row, r': Row) {
    r'.leaseGeneration > r.leaseGeneration || (r'.leaseGeneration == r.leaseGeneration && (r'.status == Processing ==> r' == r))
  }

  /** Revisions never go back, and a completed row stays completed within its revision. */
  predicate RevisionProgress(r: Row, r': Row) {
    && r'.filename == r.filename
    && (r'.revision > r.revision || (r'.revision == r.revision && (r.status == Completed ==> r'.status == Completed)))
  }

  ghost predicate Progress(o: Outbox, o': Outbox) {
    && o.nextToken <= o'.nextToken
    && forall i :: i in o.rows ==> i in o'.rows && LeaseProgress(o.rows[i], o'.rows[i]) && RevisionProgress(o.rows[i], o'.rows[i])
  }

  lemma ProgressKeepsClaims(o: Outbox, o': Outbox, issued: set<Claim>)
    requires Progress(o, o') && ClaimsOk(o, issued)
    ensures ClaimsOk(o', issued)
  {
    forall c | c in issued ensures IssuedOk(o', c) {
      assert IssuedOk(o, c) && LeaseProgress(o.rows[c.id], o'.rows[c.id]);
    }
  }

  lemma ProgressKeepsDone(o: Outbox, o': Outbox, done: seq<Completion>)
    requires Progress(o, o') && DoneOk(o, done)
    ensures DoneOk(o', done)
  {
    forall n | 0 <= n < |done| ensures DoneRowOk(o', done[n]) {
      assert DoneRowOk(o, done[n]) && RevisionProgress(o.rows[done[n].id], o'.rows[done[n].id]);
    }
  }

  /** No row changes page, revision or key. */
  ghost predicate SamePages(o: Outbox, o': Outbox) {
    && o'.rows.Keys == o.rows.Keys && o'.nextId == o.nextId
    && forall i :: i in o.rows ==>
         o'.rows[i].filename == o.rows[i].filename && o'.rows[i].revision == o.rows[i].revision && o'.rows[i].key == o.rows[i].key
  }

  lemma SamePagesSameNewest(o: Outbox, o': Outbox, i: nat)
    requires SamePages(o, o') && IsNewest(o', i)
    ensures IsNewest(o, i)
  {
    forall j | j in o.rows && SamePage(o, i, j) ensures NotAfter(o, j, i) {
      assert j in o'.rows && SamePage(o', i, j);
      assert NotAfter(o', j, i);
    }
  }

  lemma SamePagesKeepTable(o: Outbox, o': Outbox)
    requires TableOk(o) && SamePages(o, o') && RowsOk(o')
    requires forall i :: i in o.rows && o'.rows[i].status == Superseded ==> o.rows[i].status == Superseded
    ensures TableOk(o')
  {
    forall i | IsNewest(o', i) ensures o'.rows[i].status != Superseded {
      SamePagesSameNewest(o, o', i);
    }
    forall i, j | i in o'.rows && j in o'.rows && SamePage(o', i, j) && o'.rows[i].revision == o'.rows[j].revision ensures i == j {
      assert SamePage(o, i, j);
    }
  }

  // ---------------------------------------------------------------- enqueue

  /** What a revising enqueue does to the other rows: they are as before, or superseded. */
  predicate SameOrSuperseded(r: Row, r': Row) {
    r' == r || (Live(r.status) && r' == r.(status := Superseded, supersededBy := r'.supersededBy, leaseUntil := None, owner := None, token := None))
  }

  /** A revising enqueue makes row `id` the page's newest and supersedes every live older one. */
  ghost predicate Revises(o: Outbox, q: Request, o': Outbox, id: nat) {
    && o'.nextToken == o.nextToken && o.nextId <= o'.nextId && 1 <= id < o'.nextId
    && o'.rows.Keys == o.rows.Keys + {id}
    && RevisedRow(o, q, o'.rows[id], id)
    && (forall i :: i in o.rows && i != id ==> SameOrSuperseded(o.rows[i], o'.rows[i]))
    && (forall i :: i in o.rows && i != id && o'.rows[i] != o.rows[i] ==> o.rows[i].filename == q.filename)
  }

  ghost predicate RevisedRow(o: Outbox, q: Request, r: Row, id: nat) {
    && r.filename == q.filename && r.status == Pending && r.token.None? && r.revision >= 1
    && (forall i :: i in o.rows && o.rows[i].filename == q.filename ==> o.rows[i].revision < r.revision)
    && (if id in o.rows then r.leaseGeneration == o.rows[id].leaseGeneration && r.key == o.rows[id].key && o.rows[id].filename == q.filename
        else r.key == q.key && (q.key.Some? && q.key.value != "" ==> forall i :: i in o.rows ==> o.rows[i].key != q.key))
  }

  lemma EnqueueEffect(o: Outbox, q: Request, now: int, o': Outbox, r: Result<nat, OutboxError>)
    requires RowsOk(o) && o.nextId >= 1 && EnqueueStep(o, q, now, o', r)
    ensures o' == o || (r.Ok? && Revises(o, q, o', r.value))
  {
    var e: Option<nat>, m: nat :| FoundByKey(o, q.key, e) && IsMaxRevision(o, q.filename, m) && (o', r) == EnqueueWith(o, q, e, m, now);
    if o' != o {
      ReviseEffect(o, q, e, m, now);
    }
  }

  lemma ReviseEffect(o: Outbox, q: Request, e: Option<nat>, m: nat, now: int)
    requires RowsOk(o) && o.nextId >= 1 && FoundByKey(o, q.key, e) && IsMaxRevision(o, q.filename, m)
    requires e.Some? ==> o.rows[e.value].filename == q.filename
    ensures var (o1, id) := Revise(o, q, e, m + 1, now);
            Revises(o, q, Supersede(o1, q.filename, id, m + 1), id)
  {
    var (o1, id) := Revise(o, q, e, m + 1, now);
    var o' := Supersede(o1, q.filename, id, m + 1);
    assert o'.rows[id] == o1.rows[id];
    assert RevisedRow(o, q, o'.rows[id], id);
    forall i | i in o.rows && i != id ensures SameOrSuperseded(o.rows[i], o'.rows[i]) {
      assert o1.rows[i] == o.rows[i];
    }
  }

  lemma ReviseProgress(o: Outbox, q: Request, o': Outbox, id: nat)
    requires Revises(o, q, o', id)
    ensures Progress(o, o')
  {
    forall i | i in o.rows ensures i in o'.rows && LeaseProgress(o.rows[i], o'.rows[i]) && RevisionProgress(o.rows[i], o'.rows[i]) {
      assert i != id ==> SameOrSuperseded(o.rows[i], o'.rows[i]);
    }
  }

  lemma ReviseNewest(o: Outbox, q: Request, o': Outbox, id: nat, i: nat)
    requires Revises(o, q, o', id) && NewestNotSuperseded(o) && IsNewest(o', i)
    ensures o'.rows[i].status != Superseded
  {
    if i != id {
      assert SameOrSuperseded(o.rows[i], o'.rows[i]);
      assert SamePage(o', i, id) ==> NotAfter(o', id, i);
      forall j | j in o.rows && SamePage(o, i, j) ensures NotAfter(o, j, i) {
        assert SamePage(o', i, j) ==> NotAfter(o', j, i);
      }
      assert IsNewest(o, i);
    }
  }

  lemma ReviseKeepsTable(o: Outbox, q: Request, o': Outbox, id: nat)
    requires TableOk(o) && Revises(o, q, o', id)
    ensures TableOk(o')
  {
    forall i | IsNewest(o', i) ensures o'.rows[i].status != Superseded {
      ReviseNewest(o, q, o', id, i);
    }
    forall i | i in o'.rows && i != id
      ensures i in o.rows && o'.rows[i].filename == o.rows[i].filename && o'.rows[i].revision == o.rows[i].revision && o'.rows[i].key == o.rows[i].key
    {
      assert SameOrSuperseded(o.rows[i], o'.rows[i]);
    }
    forall i, j | i in o'.rows && j in o'.rows && SamePage(o', i, j) && o'.rows[i].revision == o'.rows[j].revision ensures i == j {
      if i != id && j != id { assert SamePage(o, i, j); }
    }
  }

  // ---------------------------------------------------------------- bind

  /** Rebinding leaves a row's page, revision and key alone and never lowers its generation. */
  predicate Rebound(r: Row, r': Row) {
    && r'.filename == r.filename && r'.revision == r.revision && r'.key == r.key && r'.status == Pending && r'.token.None?
    && r'.leaseGeneration == r.leaseGeneration + (if r.status == Processing then 1 else 0)
  }

  lemma {:induction false} BindEffect(o: Outbox, ids: seq<nat>, versions: Versions, o': Outbox)
    requires Bind(o, ids, versions) == Ok(o')
    ensures forall i :: i in ids ==> i in o.rows
    ensures o'.rows.Keys == o.rows.Keys && o'.nextId == o.nextId && o'.nextToken == o.nextToken
    ensures forall i :: i in o.rows ==> if i in ids then Rebound(o.rows[i], o'.rows[i]) else o'.rows[i] == o.rows[i]
    decreases ids
  {
    if ids != [] {
      var r := o.rows[ids[0]];
      var o1 := o.(rows := o.rows[ids[0] := BoundRow(r, versions.For(r.filename))]);
      BindEffect(o1, ids[1..], versions, o');
      assert forall i :: i in ids ==> i == ids[0] || i in ids[1..];
      forall i | i in o.rows ensures if i in ids then Rebound(o.rows[i], o'.rows[i]) else o'.rows[i] == o.rows[i] {
        assert i in ids <==> i == ids[0] || i in ids[1..];
      }
    }
  }

  lemma BindKeepsTable(o: Outbox, ids: seq<nat>, versions: Versions, o': Outbox)
    requires TableOk(o) && Bind(o, ids, versions) == Ok(o')
    ensures TableOk(o')
  {
    BindEffect(o, ids, versions, o');
    forall i | i in o.rows ensures o'.rows[i] == o.rows[i] || Rebound(o.rows[i], o'.rows[i]) {}
    SamePagesKeepTable(o, o');
  }

  lemma BindProgress(o: Outbox, ids: seq<nat>, versions: Versions, o': Outbox)
    requires (forall i :: i in ids && i in o.rows ==> o.rows[i].status != Completed) && Bind(o, ids, versions) == Ok(o')
    ensures Progress(o, o')
  {
    BindEffect(o, ids, versions, o');
  }

  /** What the binder owes the outbox, and `Next` asks of it: the records of completed revisions stay
      true exactly when no bound row is completed. */
  lemma BindKeepsDoneIff(w: World, ids: seq<nat>, versions: Versions, o': Outbox)
    requires Inv(w) && Bind(w.o, ids, versions) == Ok(o')
    requires Recorded(w.o, w.done)
    ensures DoneOk(o', w.done) <==> forall i :: i in ids && i in w.o.rows ==> w.o.rows[i].status != Completed
  {
    BindEffect(w.o, ids, versions, o');
    if i :| i in ids && i in w.o.rows && w.o.rows[i].status == Completed {
      var d := Completion(w.o.rows[i].filename, w.o.rows[i].revision, i);
      var n :| 0 <= n < |w.done| && w.done[n] == d;
      assert !DoneRowOk(o', w.done[n]);
    } else {
      BindProgress(w.o, ids, versions, o');
      ProgressKeepsDone(w.o, o', w.done);
    }
  }

  /** The one caller binds, in the same transaction, the rows that its batch of enqueues has just
      returned. They are open, so it owes nothing more. */
  lemma {:induction false} BatchReturnsOpenRows(os: seq<Outbox>, qs: seq<Request>, now: int, ids: seq<nat>, n: nat)
    requires |os| == |qs| + 1 && |ids| == |qs| && TableOk(os[0]) && os[0].nextId >= 1 && n <= |qs|
    requires forall k :: 0 <= k < |qs| ==> EnqueueStep(os[k], qs[k], now, os[k + 1], Ok(ids[k]))
    ensures TableOk(os[n]) && os[n].nextId >= 1
    ensures forall k :: 0 <= k < n ==> Open(os[n], ids[k])
  {
    if n > 0 {
      BatchReturnsOpenRows(os, qs, now, ids, n - 1);
      EnqueueReturnsOpenRow(os[n - 1], qs[n - 1], now, os[n], ids[n - 1]);
    }
  }

  predicate Open(o: Outbox, i: nat) { i in o.rows && o.rows[i].status != Completed }

  lemma EnqueueReturnsOpenRow(o: Outbox, q: Request, now: int, o': Outbox, id: nat)
    requires TableOk(o) && o.nextId >= 1 && EnqueueStep(o, q, now, o', Ok(id))
    ensures TableOk(o') && o'.nextId >= 1 && Open(o', id) && forall i | Open(o, i) :: Open(o', i)
  {
    var e: Option<nat>, m: nat :| FoundByKey(o, q.key, e) && IsMaxRevision(o, q.filename, m) && (o', Ok(id)) == EnqueueWith(o, q, e, m, now);
    if e.Some? && o.rows[e.value].status in {Pending, Processing} && IsNewest(o, e.value) {
      assert o' == o && id == e.value;
    } else {
      ReviseEffect(o, q, e, m, now);
      RevisingOpens(o, q, o', id);
    }
  }

  lemma RevisingOpens(o: Outbox, q: Request, o': Outbox, id: nat)
    requires TableOk(o) && Revises(o, q, o', id)
    ensures TableOk(o') && o'.nextId >= 1 && Open(o', id) && forall i | Open(o, i) :: Open(o', i)
  {
    ReviseKeepsTable(o, q, o', id);
    forall i | Open(o, i) ensures Open(o', i) {
      assert i != id ==> SameOrSuperseded(o.rows[i], o'.rows[i]);
    }
  }

  // ---------------------------------------------------------------- claim

  predicate SameOrLeased(r: Row, r': Row, lo: nat, hi: nat) {
    || r' == r
    || (r'.filename == r.filename && r'.revision == r.revision && r'.key == r.key && r'.status == Processing
        && r'.leaseGeneration == r.leaseGeneration + 1 && r.status != Completed
        && r'.owner.Some? && r'.leaseUntil.Some? && r'.token.Some? && lo <= r'.token.value < hi)
  }

  lemma ClaimEffect(o: Outbox, limit: nat, owner: string, leaseUntil: int, now: int, ids: seq<nat>, o': Outbox, claims: seq<Claim>)
    requires IsClaimBatch(o, limit, now, ids) && Leased(o, ids, |ids|, owner, leaseUntil, o', claims)
    ensures forall i :: i in o.rows ==> SameOrLeased(o.rows[i], o'.rows[i], o.nextToken, o'.nextToken)
  {
    forall i | i in o.rows ensures SameOrLeased(o.rows[i], o'.rows[i], o.nextToken, o'.nextToken) {
      if i in ids {
        var k :| 0 <= k < |ids| && ids[k] == i;
        assert Claimable(o, ids[k], now);
      }
    }
  }

  lemma ClaimKeepsTable(o: Outbox, o': Outbox)
    requires TableOk(o) && o'.rows.Keys == o.rows.Keys && o'.nextId == o.nextId && o.nextToken <= o'.nextToken
    requires forall i :: i in o.rows ==> SameOrLeased(o.rows[i], o'.rows[i], o.nextToken, o'.nextToken)
    ensures TableOk(o') && Progress(o, o')
  {
    SamePagesKeepTable(o, o');
  }

  lemma NewClaimOk(o: Outbox, owner: string, leaseUntil: int, ids: seq<nat>, o': Outbox, claims: seq<Claim>, k: nat)
    requires Leased(o, ids, |ids|, owner, leaseUntil, o', claims) && k < |claims|
    ensures IssuedOk(o', claims[k]) && claims[k].token == o.nextToken + k
  {
    assert o'.rows[ids[k]] == LeasedRow(o.rows[ids[k]], owner, o.nextToken + k, leaseUntil);
    assert claims[k] == ClaimOf(o, ids[k], owner, o.nextToken + k, leaseUntil);
  }

  lemma ClaimKeepsClaims(o: Outbox, issued: set<Claim>, owner: string, leaseUntil: int, ids: seq<nat>, o': Outbox, claims: seq<Claim>)
    requires ClaimsOk(o, issued) && ClaimsOk(o', issued) && Leased(o, ids, |ids|, owner, leaseUntil, o', claims)
    ensures ClaimsOk(o', issued + set c | c in claims)
  {
    forall k | 0 <= k < |claims| ensures IssuedOk(o', claims[k]) && claims[k].token == o.nextToken + k {
      NewClaimOk(o, owner, leaseUntil, ids, o', claims, k);
    }
    forall c | c in issued ensures c.token < o.nextToken { assert IssuedOk(o, c); }
    AddTokens(issued, claims, o.nextToken);
  }

  lemma AddTokens(issued: set<Claim>, claims: seq<Claim>, first: nat)
    requires forall c, d :: c in issued && d in issued && c.token == d.token ==> c == d
    requires forall c :: c in issued ==> c.token < first
    requires forall k :: 0 <= k < |claims| ==> claims[k].token == first + k
    ensures forall c, d :: c in issued + (set c | c in claims) && d in issued + (set c | c in claims) && c.token == d.token ==> c == d
  {
  }

  // ---------------------------------------------------------------- complete and fail

  /** A valid completion names the page's newest intent, which no earlier completion has reached. */
  lemma CompletionIsNew(w: World, id: nat, c: Claim, n: nat)
    requires Inv(w) && Valid(w.o, c, w.now) && c.id == id
    requires n < |w.done| && w.done[n].filename == w.o.rows[id].filename
    ensures w.done[n].revision < w.o.rows[id].revision
  {
    var d := w.done[n];
    assert DoneRowOk(w.o, d);
    assert SamePage(w.o, id, d.id) && NotAfter(w.o, d.id, id);
    assert w.o.rows[d.id].revision == w.o.rows[id].revision ==> d.id == id;
  }

  /** Ending a lease: the row leaves `processing` under its own revision and generation. */
  lemma EndLeaseKeeps(o: Outbox, id: nat, r: Row)
    requires TableOk(o) && id in o.rows && o.rows[id].status == Processing
    requires r.filename == o.rows[id].filename && r.revision == o.rows[id].revision && r.key == o.rows[id].key
    requires r.leaseGeneration == o.rows[id].leaseGeneration && r.status != Processing && r.status != Superseded
    requires r.token.None? || r.token == o.rows[id].token
    ensures TableOk(o.(rows := o.rows[id := r])) && Progress(o, o.(rows := o.rows[id := r]))
  {
    SamePagesKeepTable(o, o.(rows := o.rows[id := r]));
  }

  lemma FinishKeepsDone(w: World, id: nat, c: Claim, o': Outbox)
    requires Inv(w) && Valid(w.o, c, w.now) && c.id == id && DoneOk(o', w.done)
    requires o' == w.o.(rows := w.o.rows[id := w.o.rows[id].(status := Completed, leaseUntil := None)])
    ensures DoneOk(o', w.done + [Completion(w.o.rows[id].filename, w.o.rows[id].revision, id)])
  {
    var done' := w.done + [Completion(w.o.rows[id].filename, w.o.rows[id].revision, id)];
    forall n | 0 <= n < |w.done| && w.done[n].filename == w.o.rows[id].filename ensures w.done[n].revision < w.o.rows[id].revision {
      CompletionIsNew(w, id, c, n);
    }
    forall n | 0 <= n < |done'| ensures DoneRowOk(o', done'[n]) {
      if n < |w.done| { assert DoneRowOk(o', w.done[n]); }
    }
  }

  // ---------------------------------------------------------------- runs

  ghost predicate Grounded(w: World) { Inv(w) && w.o.nextId >= 1 }

  /** Every step makes progress and keeps the table consistent. */
  lemma StepEffect(w: World, e: Event, w': World)
    requires Grounded(w) && Next(w, e, w')
    ensures TableOk(w'.o) && w'.o.nextId >= 1 && Progress(w.o, w'.o)
  {
    match e
    case Enqueue(q, sampled, r) =>
      EnqueueEffect(w.o, q, sampled, w'.o, r);
      if w'.o != w.o {
        ReviseKeepsTable(w.o, q, w'.o, r.value);
        ReviseProgress(w.o, q, w'.o, r.value);
      }
    case BindVersions(ids, versions) =>
      if Bind(w.o, ids, versions).Ok? {
        BindEffect(w.o, ids, versions, w'.o);
        BindKeepsTable(w.o, ids, versions, w'.o);
        BindProgress(w.o, ids, versions, w'.o);
      }
    case TakeClaims(limit, owner, leaseUntil, sampled, claims) =>
      var ids: seq<nat> :| IsClaimBatch(w.o, limit, sampled, ids) && Leased(w.o, ids, |ids|, owner, leaseUntil, w'.o, claims);
      ClaimEffect(w.o, limit, owner, leaseUntil, sampled, ids, w'.o, claims);
      ClaimKeepsTable(w.o, w'.o);
    case Finish(id, c) =>
      if Valid(w.o, c, w.now) && c.id == id { EndLeaseKeeps(w.o, id, w'.o.rows[id]); }
    case Report(id, maxAttempts, backoff, c) =>
      if Valid(w.o, c, w.now) && c.id == id { EndLeaseKeeps(w.o, id, w'.o.rows[id]); }
    case Tick(_) =>
  }

  lemma StepKeeps(w: World, e: Event, w': World)
    requires Grounded(w) && Next(w, e, w')
    ensures Grounded(w')
  {
    StepEffect(w, e, w');
    ProgressKeepsClaims(w.o, w'.o, w.issued);
    ProgressKeepsDone(w.o, w'.o, w.done);
    match e
    case TakeClaims(limit, owner, leaseUntil, sampled, claims) =>
      var ids: seq<nat> :| IsClaimBatch(w.o, limit, sampled, ids) && Leased(w.o, ids, |ids|, owner, leaseUntil, w'.o, claims);
      ClaimKeepsClaims(w.o, w.issued, owner, leaseUntil, ids, w'.o, claims);
    case Finish(id, c) =>
      if Valid(w.o, c, w.now) && c.id == id { FinishKeepsDone(w, id, c, w'.o); }
    case _ =>
  }

  ghost predicate Run(ws: seq<World>, es: seq<Event>) {
    && |ws| == |es| + 1 && Init(ws[0])
    && forall i :: 0 <= i < |es| ==> StepAt(ws, es, i)
  }

  /** One step of a run, under a name of its own so that a run unfolds only where a step is asked for. */
  ghost predicate StepAt(ws: seq<World>, es: seq<Event>, i: nat)
    requires |ws| == |es| + 1 && i < |es|
  {
    Next(ws[i], es[i], ws[i + 1])
  }

  lemma {:induction false} RunKeeps(ws: seq<World>, es: seq<Event>, n: nat)
    requires Run(ws, es) && n < |ws|
    ensures Grounded(ws[n])
    decreases n
  {
    if n > 0 {
      RunKeeps(ws, es, n - 1);
      assert StepAt(ws, es, n - 1);
      StepKeeps(ws[n - 1], es[n - 1], ws[n]);
    }
  }

  lemma BindRecords(o: Outbox, ids: seq<nat>, versions: Versions, o': Outbox, done: seq<Completion>)
    requires Recorded(o, done) && Bind(o, ids, versions) == Ok(o')
    ensures Recorded(o', done)
  {
    BindEffect(o, ids, versions, o');
    forall i | i in ids ensures o'.rows[i].status == Pending { assert Rebound(o.rows[i], o'.rows[i]); }
  }

  lemma EnqueueRecords(o: Outbox, q: Request, now: int, o': Outbox, r: Result<nat, OutboxError>, done: seq<Completion>)
    requires RowsOk(o) && o.nextId >= 1 && Recorded(o, done) && EnqueueStep(o, q, now, o', r)
    ensures Recorded(o', done)
  {
    EnqueueEffect(o, q, now, o', r);
    if o' != o {
      forall i | i in o.rows && i != r.value ensures SameOrSuperseded(o.rows[i], o'.rows[i]) {}
    }
  }

  lemma ClaimRecords(o: Outbox, limit: nat, owner: string, leaseUntil: int, now: int, ids: seq<nat>, o': Outbox, claims: seq<Claim>,
                     done: seq<Completion>)
    requires Recorded(o, done) && IsClaimBatch(o, limit, now, ids) && Leased(o, ids, |ids|, owner, leaseUntil, o', claims)
    ensures Recorded(o', done)
  {
    ClaimEffect(o, limit, owner, leaseUntil, now, ids, o', claims);
  }

  /** Only `Finish` completes a row, and it records the completion. */
  lemma StepRecords(w: World, e: Event, w': World)
    requires Grounded(w) && Recorded(w.o, w.done) && Next(w, e, w')
    ensures Recorded(w'.o, w'.done)
  {
    match e
    case Enqueue(q, sampled, r) => EnqueueRecords(w.o, q, sampled, w'.o, r, w.done);
    case BindVersions(ids, versions) =>
      if Bind(w.o, ids, versions).Ok? { BindRecords(w.o, ids, versions, w'.o, w.done); }
    case TakeClaims(limit, owner, leaseUntil, sampled, claims) =>
      var ids: seq<nat> :| IsClaimBatch(w.o, limit, sampled, ids) && Leased(w.o, ids, |ids|, owner, leaseUntil, w'.o, claims);
      ClaimRecords(w.o, limit, owner, leaseUntil, sampled, ids, w'.o, claims, w.done);
    case Finish(id, c) =>
      assert forall d :: d in w.done ==> d in w'.done;
      if Valid(w.o, c, w.now) && c.id == id {
        assert w'.done[|w.done|] == Completion(w.o.rows[id].filename, w.o.rows[id].revision, id);
      }
    case Report(id, maxAttempts, backoff, c) =>
    case Tick(_) =>
  }

  lemma {:induction false} RunRecords(ws: seq<World>, es: seq<Event>, n: nat)
    requires Run(ws, es) && n < |ws|
    ensures Recorded(ws[n].o, ws[n].done)
    decreases n
  {
    if n > 0 {
      RunRecords(ws, es, n - 1);
      RunKeeps(ws, es, n - 1);
      assert StepAt(ws, es, n - 1);
      StepRecords(ws[n - 1], es[n - 1], ws[n]);
    }
  }

  /** Over every run the completed revisions of a page strictly increase, the newest intent of a
      page is never superseded, and an idempotency key names one row. */
  lemma CompletedRevisionsIncrease(ws: seq<World>, es: seq<Event>, n: nat)
    requires Run(ws, es) && n < |ws|
    ensures Increasing(ws[n].done) && NewestNotSuperseded(ws[n].o) && KeysUnique(ws[n].o)
  {
    RunKeeps(ws, es, n);
  }

  /** Each completion of a run names the page's newest intent at that moment. */
  lemma CompletionNamesNewest(ws: seq<World>, es: seq<Event>, n: nat)
    requires Run(ws, es) && n < |es| && ws[n + 1].done != ws[n].done
    ensures exists d :: ws[n + 1].done == ws[n].done + [d] && IsNewest(ws[n].o, d.id)
              && d.filename == ws[n].o.rows[d.id].filename && d.revision == ws[n].o.rows[d.id].revision
  {
    assert StepAt(ws, es, n);
    var id := es[n].id;
    var d := Completion(ws[n].o.rows[id].filename, ws[n].o.rows[id].revision, id);
    assert ws[n + 1].done == ws[n].done + [d];
  }

  /** Of all claims ever issued for a row at most one is valid. */
  lemma OneValidClaim(ws: seq<World>, es: seq<Event>, n: nat, c: Claim, d: Claim)
    requires Run(ws, es) && n < |ws| && c in ws[n].issued && d in ws[n].issued && c.id == d.id
    requires Valid(ws[n].o, c, ws[n].now) && Valid(ws[n].o, d, ws[n].now)
    ensures c == d
  {
    RunKeeps(ws, es, n);
  }

  /** A valid claim's row is in nobody else's next batch, however early its clock was read. */
  lemma ValidClaimIsNotStolen(w: World, c: Claim, limit: nat, sampled: int, ids: seq<nat>)
    requires Valid(w.o, c, w.now) && sampled <= w.now && IsClaimBatch(w.o, limit, sampled, ids)
    ensures c.id !in ids
  {
    assert !Claimable(w.o, c.id, sampled);
  }

  /** One step cannot give a lost lease back. */
  lemma LostLeaseStep(w: World, e: Event, w': World, c: Claim)
    requires Grounded(w) && Next(w, e, w') && c in w.issued && Holds(w'.o, c)
    ensures Holds(w.o, c) && w'.o.rows[c.id].leaseUntil == w.o.rows[c.id].leaseUntil
  {
    StepEffect(w, e, w');
    assert IssuedOk(w.o, c) && LeaseProgress(w.o.rows[c.id], w'.o.rows[c.id]);
  }

  lemma UnexpiredBefore(ws: seq<World>, es: seq<Event>, k: nat, c: Claim)
    requires Run(ws, es) && k < |es| && c in ws[k].issued && Unexpired(ws[k + 1], c)
    ensures Unexpired(ws[k], c)
  {
    RunKeeps(ws, es, k);
    IssuedGrows(ws, es, k, k + 1);
    assert StepAt(ws, es, k);
    LostLeaseStep(ws[k], es[k], ws[k + 1], c);
  }

  /** A claim that is valid now has been valid ever since it was issued: once expired, reclaimed,
      superseded, rebound or reported it can never again complete or fail the row. */
  lemma {:induction false} LostClaimStaysLost(ws: seq<World>, es: seq<Event>, i: nat, j: nat, c: Claim)
    requires Run(ws, es) && i <= j < |ws| && c in ws[i].issued
    requires Unexpired(ws[j], c)
    ensures Unexpired(ws[i], c)
    decreases j
  {
    if i < j {
      IssuedGrows(ws, es, i, j - 1);
      UnexpiredBefore(ws, es, j - 1, c);
      LostClaimStaysLost(ws, es, i, j - 1, c);
    }
  }

  /** `c` passes every test of validation but the one for a newer revision. */
  predicate Unexpired(w: World, c: Claim) {
    Holds(w.o, c) && w.o.rows[c.id].leaseUntil.Some? && w.o.rows[c.id].leaseUntil.value > w.now
  }

  lemma {:induction false} IssuedGrows(ws: seq<World>, es: seq<Event>, i: nat, j: nat)
    requires Run(ws, es) && i <= j < |ws|
    ensures ws[i].issued <= ws[j].issued && ws[i].now <= ws[j].now
    decreases j
  {
    if i < j {
      IssuedGrows(ws, es, i, j - 1);
      assert StepAt(ws, es, j - 1);
    }
  }
}
