/** The fenced mutation outbox: one row per logical page write, leased to one worker at a time
    (`vector_lake/db_store.py`). Functions give each transaction's effect on the table; the
    methods of class `OutboxStore` run the statements and are proved to have that effect. */
module OutboxStore {
  import opened Ordering

  datatype OutboxError = EmptyFilename | KeyConflict | ActivePayloadDiffers | DeleteStillPublished | NoSuchRow | ClaimLost

  datatype Kind = Update | Delete
  datatype Mode = Full | Schema
  datatype Status = Pending | Processing | Completed | Failed | Superseded

  datatype Row = Row(
    filename: string, kind: Kind, payload: Option<string>, mode: Mode, key: Option<string>,
    status: Status, attempts: nat, availableAt: int,
    leaseUntil: Option<int>, owner: Option<string>, token: Option<nat>, leaseGeneration: nat,
    revision: nat, baseVersion: Option<string>, supersededBy: Option<nat>)

  /** `id` is AUTOINCREMENT; `nextToken` stands for the uuid source. */
  datatype Outbox = Outbox(rows: map<nat, Row>, nextId: nat, nextToken: nat)

  datatype Request = Request(filename: string, kind: Kind, payload: Option<string>, key: Option<string>, mode: Mode)

  /** The lease a claimed row hands to its worker. */
  datatype Claim = Claim(id: nat, owner: string, token: nat, leaseGeneration: nat, revision: nat, leaseUntil: int)

  // ---------------------------------------------------------------- revisions

  predicate SamePage(o: Outbox, i: nat, j: nat)
    requires i in o.rows && j in o.rows
  {
    o.rows[i].filename == o.rows[j].filename
  }

  /** `j` does not come after `i` in the order (projection_generation, id). */
  predicate NotAfter(o: Outbox, j: nat, i: nat)
    requires i in o.rows && j in o.rows
  {
    o.rows[j].revision < o.rows[i].revision || (o.rows[j].revision == o.rows[i].revision && j <= i)
  }

  predicate IsNewest(o: Outbox, i: nat) {
    i in o.rows && forall j :: j in o.rows && SamePage(o, i, j) ==> NotAfter(o, j, i)
  }

  /** MAX(projection_generation) over the page's rows, 0 when it has none. */
  ghost predicate IsMaxRevision(o: Outbox, filename: string, m: nat) {
    && (forall i :: i in o.rows && o.rows[i].filename == filename ==> o.rows[i].revision <= m)
    && (m == 0 || exists i :: i in o.rows && o.rows[i].filename == filename && o.rows[i].revision == m)
  }

  ghost predicate FoundByKey(o: Outbox, key: Option<string>, existing: Option<nat>) {
    match existing
    case Some(i) => key.Some? && key.value != "" && i in o.rows && o.rows[i].key == key
    case None => key.None? || key.value == "" || forall i :: i in o.rows ==> o.rows[i].key != key
  }

  // ---------------------------------------------------------------- enqueue

  predicate Live(s: Status) { s == Pending || s == Processing || s == Failed }

  predicate ToSupersede(o: Outbox, i: nat, filename: string, id: nat, revision: nat)
    requires i in o.rows
  {
    i != id && o.rows[i].filename == filename && Live(o.rows[i].status) && o.rows[i].revision < revision
  }

  function Supersede(o: Outbox, filename: string, id: nat, revision: nat): Outbox {
    o.(rows := map i | i in o.rows ::
         if ToSupersede(o, i, filename, id, revision)
         then o.rows[i].(status := Superseded, supersededBy := Some(id), leaseUntil := None, owner := None, token := None)
         else o.rows[i])
  }

  /** A terminal row with the same key is revived under a new revision; its lease generation stays. */
  function Revived(r: Row, q: Request, revision: nat, now: int): Row {
    r.(status := Pending, attempts := 0, availableAt := now, leaseUntil := None, owner := None, token := None,
       payload := q.payload, mode := q.mode, revision := revision, baseVersion := None, supersededBy := None)
  }

  function NewRow(q: Request, revision: nat, now: int): Row {
    Row(q.filename, q.kind, q.payload, q.mode, q.key, Pending, 0, now, None, None, None, 0, revision, None, None)
  }

  function EnqueueWith(o: Outbox, q: Request, existing: Option<nat>, maxRevision: nat, now: int): (Outbox, Result<nat, OutboxError>)
    requires existing.Some? ==> existing.value in o.rows
  {
    if q.filename == "" then (o, Err(EmptyFilename))
    else if existing.Some? && (o.rows[existing.value].filename != q.filename || o.rows[existing.value].kind != q.kind) then
      (o, Err(KeyConflict))
    else if existing.Some? && o.rows[existing.value].status in {Pending, Processing} && IsNewest(o, existing.value) then
      if o.rows[existing.value].payload != q.payload || o.rows[existing.value].mode != q.mode
      then (o, Err(ActivePayloadDiffers))
      else (o, Ok(existing.value))
    else
      var (o1, id) := Revise(o, q, existing, maxRevision + 1, now);
      (Supersede(o1, q.filename, id, maxRevision + 1), Ok(id))
  }

  function Revise(o: Outbox, q: Request, existing: Option<nat>, revision: nat, now: int): (Outbox, nat)
    requires existing.Some? ==> existing.value in o.rows
  {
    if existing.Some? then (o.(rows := o.rows[existing.value := Revived(o.rows[existing.value], q, revision, now)]), existing.value)
    else (o.(rows := o.rows[o.nextId := NewRow(q, revision, now)], nextId := o.nextId + 1), o.nextId)
  }

  ghost predicate EnqueueStep(o: Outbox, q: Request, now: int, o': Outbox, r: Result<nat, OutboxError>) {
    exists e: Option<nat>, m: nat ::
      FoundByKey(o, q.key, e) && IsMaxRevision(o, q.filename, m) && (o', r) == EnqueueWith(o, q, e, m, now)
  }

  // ---------------------------------------------------------------- bind

  function BoundRow(r: Row, version: string): Row {
    r.(baseVersion := Some(version),
       leaseGeneration := r.leaseGeneration + (if r.status == Processing then 1 else 0),
       status := Pending, attempts := 0, owner := None, token := None, leaseUntil := None)
  }

  /** The canonical versions of pages; `stem` takes a file name to its page key. */
  datatype Versions = Versions(known: map<string, string>, stem: string -> string) {
    function For(filename: string): string {
      if stem(filename) in known then known[stem(filename)] else ""
    }
  }

  /** Binds each id in turn; an unknown id, or a delete whose page still has a version, aborts the transaction. */
  function Bind(o: Outbox, ids: seq<nat>, versions: Versions): Result<Outbox, OutboxError>
    decreases ids
  {
    if ids == [] then Ok(o)
    else if ids[0] !in o.rows then Err(NoSuchRow)
    else
      var r := o.rows[ids[0]];
      var v := versions.For(r.filename);
      if r.kind == Delete && v != "" then Err(DeleteStillPublished)
      else Bind(o.(rows := o.rows[ids[0] := BoundRow(r, v)]), ids[1..], versions)
  }

  // ---------------------------------------------------------------- claim

  predicate Claimable(o: Outbox, i: nat, now: int) {
    && IsNewest(o, i)
    && (|| (o.rows[i].status == Pending && o.rows[i].availableAt <= now)
        || (o.rows[i].status == Processing && (o.rows[i].leaseUntil.None? || o.rows[i].leaseUntil.value <= now)))
  }

  /** The first `limit` claimable rows by id. */
  ghost predicate IsClaimBatch(o: Outbox, limit: nat, now: int, ids: seq<nat>) {
    && |ids| <= limit
    && (forall i, j :: 0 <= i < j < |ids| ==> ids[i] < ids[j])
    && (forall k :: 0 <= k < |ids| ==> Claimable(o, ids[k], now))
    && (forall i :: Claimable(o, i, now) && i !in ids ==> |ids| == limit && forall j :: j in ids ==> j < i)
  }

  function LeasedRow(r: Row, owner: string, token: nat, leaseUntil: int): Row {
    r.(status := Processing, attempts := r.attempts + 1, leaseUntil := Some(leaseUntil),
       owner := Some(owner), token := Some(token), leaseGeneration := r.leaseGeneration + 1)
  }

  function ClaimOf(o: Outbox, i: nat, owner: string, token: nat, leaseUntil: int): Claim
    requires i in o.rows
  {
    Claim(i, owner, token, o.rows[i].leaseGeneration + 1, o.rows[i].revision, leaseUntil)
  }

  /** The first `n` ids are leased, each under its own token; every other row is as before. */
  ghost predicate Leased(o: Outbox, ids: seq<nat>, n: nat, owner: string, leaseUntil: int, o': Outbox, claims: seq<Claim>)
    requires n <= |ids|
  {
    && |claims| == n && o'.nextId == o.nextId && o'.nextToken == o.nextToken + n
    && o'.rows.Keys == o.rows.Keys
    && (forall k :: n <= k < |ids| ==> ids[k] in o.rows && o'.rows[ids[k]] == o.rows[ids[k]])
    && (forall i :: i in o.rows && i !in ids ==> o'.rows[i] == o.rows[i])
    && (forall k :: 0 <= k < n ==>
          && ids[k] in o.rows
          && o'.rows[ids[k]] == LeasedRow(o.rows[ids[k]], owner, o.nextToken + k, leaseUntil)
          && claims[k] == ClaimOf(o, ids[k], owner, o.nextToken + k, leaseUntil))
  }

  lemma LeasedNext(o: Outbox, ids: seq<nat>, n: nat, owner: string, leaseUntil: int, o1: Outbox, claims: seq<Claim>, o2: Outbox, c: Claim)
    requires n < |ids| && (forall i, j :: 0 <= i < j < |ids| ==> ids[i] < ids[j])
    requires Leased(o, ids, n, owner, leaseUntil, o1, claims)
    requires o2.nextId == o1.nextId && o2.nextToken == o1.nextToken + 1
    requires o2.rows == o1.rows[ids[n] := LeasedRow(o1.rows[ids[n]], owner, o1.nextToken, leaseUntil)]
    requires c == ClaimOf(o1, ids[n], owner, o1.nextToken, leaseUntil)
    ensures Leased(o, ids, n + 1, owner, leaseUntil, o2, claims + [c])
  {
    assert ids[n] in ids && o1.rows[ids[n]] == o.rows[ids[n]];
  }

  /** Leases the first claimable rows, each under its own fresh token. */
  ghost predicate ClaimStep(o: Outbox, limit: nat, owner: string, leaseUntil: int, now: int, o': Outbox, claims: seq<Claim>) {
    exists ids: seq<nat> :: IsClaimBatch(o, limit, now, ids) && Leased(o, ids, |ids|, owner, leaseUntil, o', claims)
  }

  // ---------------------------------------------------------------- validate, complete, fail

  /** The row still carries exactly this lease. */
  predicate Holds(o: Outbox, c: Claim) {
    && c.id in o.rows
    && (var r := o.rows[c.id];
        && r.status == Processing && r.owner == Some(c.owner) && r.token == Some(c.token)
        && r.leaseGeneration == c.leaseGeneration && r.revision == c.revision)
  }

  predicate Valid(o: Outbox, c: Claim, now: int) {
    IsNewest(o, c.id) && Holds(o, c) && o.rows[c.id].leaseUntil.Some? && o.rows[c.id].leaseUntil.value > now
  }

  function Complete(o: Outbox, id: nat, c: Claim, now: int): Result<Outbox, OutboxError> {
    if !Valid(o, c, now) || c.id != id then Err(ClaimLost)
    else Ok(o.(rows := o.rows[id := o.rows[id].(status := Completed, leaseUntil := None)]))
  }

  function Fail(o: Outbox, id: nat, maxAttempts: int, backoff: int, c: Claim, now: int): Result<Outbox, OutboxError> {
    if !Valid(o, c, now) || c.id != id then Err(ClaimLost)
    else
      var r := o.rows[id];
      var terminal := r.attempts >= (if maxAttempts < 1 then 1 else maxAttempts);
      var delay := if terminal then 0 else Max(0, backoff) * Pow2(if r.attempts == 0 then 0 else r.attempts - 1);
      Ok(o.(rows := o.rows[id := r.(status := if terminal then Failed else Pending, availableAt := now + delay,
                                    leaseUntil := None, owner := None, token := None)]))
  }

  // ---------------------------------------------------------------- the store

  class OutboxStore {
    var rows: map<nat, Row>
    var nextId: nat
    var nextToken: nat

    function State(): Outbox
      reads this
    {
      Outbox(rows, nextId, nextToken)
    }

    constructor ()
      ensures State() == Outbox(map[], 1, 1)
    {
      rows, nextId, nextToken := map[], 1, 1;
    }

    method FindByKey(key: Option<string>) returns (existing: Option<nat>)
      ensures FoundByKey(State(), key, existing)
    {
      existing := None;
      if key.None? || key.value == "" { return; }
      var rest := rows.Keys;
      while rest != {}
        invariant rest <= rows.Keys
        invariant forall i :: i in rows && i !in rest ==> rows[i].key != key
      {
        var i :| i in rest;
        if rows[i].key == key { return Some(i); }
        rest := rest - {i};
      }
    }

    /** The page's latest row and its revision. */
    method Latest(filename: string) returns (latest: Option<nat>, m: nat)
      ensures IsMaxRevision(State(), filename, m)
      ensures latest.None? ==> forall i :: i in rows ==> rows[i].filename != filename
      ensures latest.Some? ==> IsNewest(State(), latest.value) && rows[latest.value].filename == filename
    {
      latest, m := None, 0;
      var rest := rows.Keys;
      while rest != {}
        invariant rest <= rows.Keys
        invariant latest.None? ==> m == 0 && forall i :: i in rows && i !in rest ==> rows[i].filename != filename
        invariant latest.Some? ==> latest.value in rows && rows[latest.value].filename == filename && rows[latest.value].revision == m
        invariant latest.Some? ==> forall i :: i in rows && i !in rest && rows[i].filename == filename ==> NotAfter(State(), i, latest.value)
      {
        var i :| i in rest;
        if rows[i].filename == filename && (latest.None? || rows[i].revision > m || (rows[i].revision == m && i > latest.value)) {
          latest, m := Some(i), rows[i].revision;
        }
        rest := rest - {i};
      }
    }

    method EnqueueMutation(q: Request, now: int) returns (r: Result<nat, OutboxError>)
      modifies this
      ensures EnqueueStep(old(State()), q, now, State(), r)
    {
      ghost var o := State();
      var existing := FindByKey(q.key);
      var latest, m := Latest(q.filename);
      ghost var expected := EnqueueWith(o, q, existing, m, now);
      if q.filename == "" { assert (State(), Err(EmptyFilename)) == expected; return Err(EmptyFilename); }
      if existing.Some? {
        var row := rows[existing.value];
        if row.filename != q.filename || row.kind != q.kind { assert (State(), Err(KeyConflict)) == expected; return Err(KeyConflict); }
        if row.status in {Pending, Processing} && latest == existing {
          if row.payload != q.payload || row.mode != q.mode {
            assert (State(), Err(ActivePayloadDiffers)) == expected;
            return Err(ActivePayloadDiffers);
          }
          assert (State(), Ok(existing.value)) == expected;
          return Ok(existing.value);
        }
        assert !(row.status in {Pending, Processing} && IsNewest(o, existing.value));
      }
      var id := WriteRevision(q, existing, m + 1, now);
      SupersedeOlder(q.filename, id, m + 1);
      assert (State(), Ok(id)) == expected;
      return Ok(id);
    }

    method WriteRevision(q: Request, existing: Option<nat>, revision: nat, now: int) returns (id: nat)
      requires existing.Some? ==> existing.value in rows
      modifies this
      ensures (State(), id) == Revise(old(State()), q, existing, revision, now)
    {
      if existing.Some? {
        id := existing.value;
        rows := rows[id := Revived(rows[id], q, revision, now)];
      } else {
        id := nextId;
        rows, nextId := rows[id := NewRow(q, revision, now)], nextId + 1;
      }
    }

    method SupersedeOlder(filename: string, id: nat, revision: nat)
      modifies this`rows
      ensures State() == Supersede(old(State()), filename, id, revision)
    {
      rows := map i | i in rows ::
        if i != id && rows[i].filename == filename && Live(rows[i].status) && rows[i].revision < revision
        then rows[i].(status := Superseded, supersededBy := Some(id), leaseUntil := None, owner := None, token := None)
        else rows[i];
    }

    /** A raised error rolls the caller's transaction back. */
    method BindMutationVersions(ids: seq<nat>, versions: Versions) returns (r: Result<(), OutboxError>)
      modifies this`rows
      ensures match Bind(old(State()), ids, versions)
        case Ok(o) => r == Ok(()) && State() == o
        case Err(e) => r == Err(e) && State() == old(State())
    {
      var saved := rows;
      for k := 0 to |ids|
        invariant rows.Keys == old(rows).Keys
        invariant Bind(old(State()), ids, versions) == Bind(State(), ids[k..], versions)
      {
        if ids[k] !in rows {
          rows := saved;
          return Err(NoSuchRow);
        }
        var row := rows[ids[k]];
        var version := versions.For(row.filename);
        if row.kind == Delete && version != "" {
          rows := saved;
          return Err(DeleteStillPublished);
        }
        rows := rows[ids[k] := BoundRow(row, version)];
        assert ids[k..][1..] == ids[k + 1..];
      }
      return Ok(());
    }

    method ClaimBatch(limit: nat, now: int) returns (ids: seq<nat>)
      ensures IsClaimBatch(State(), limit, now, ids)
    {
      var all: seq<nat> := [];
      var rest := rows.Keys;
      while rest != {}
        invariant rest <= rows.Keys && Distinct(all)
        invariant forall i :: i in all <==> i !in rest && Claimable(State(), i, now)
      {
        var i :| i in rest;
        var latest, m := Latest(rows[i].filename);
        if latest == Some(i)
           && ((rows[i].status == Pending && rows[i].availableAt <= now)
               || (rows[i].status == Processing && (rows[i].leaseUntil.None? || rows[i].leaseUntil.value <= now))) {
          all := all + [i];
        }
        rest := rest - {i};
      }
      var le := (a: nat, b: nat) => a <= b;
      var sorted := Sorted(all, le);
      SortedKeepsDistinct(all, le);
      assert forall i, j :: 0 <= i < j < |sorted| ==> le(sorted[i], sorted[j]) && sorted[i] != sorted[j];
      ids := if |sorted| <= limit then sorted else sorted[..limit];
      forall i | Claimable(State(), i, now) && i !in ids ensures |ids| == limit && forall j :: j in ids ==> j < i {
        assert i in sorted;
        var k :| 0 <= k < |sorted| && sorted[k] == i;
      }
    }

    method LeaseRow(i: nat, owner: string, leaseUntil: int) returns (c: Claim)
      requires i in rows
      modifies this
      ensures nextId == old(nextId) && nextToken == old(nextToken) + 1
      ensures rows == old(rows)[i := LeasedRow(old(rows)[i], owner, old(nextToken), leaseUntil)]
      ensures c == ClaimOf(old(State()), i, owner, old(nextToken), leaseUntil)
    {
      c := Claim(i, owner, nextToken, rows[i].leaseGeneration + 1, rows[i].revision, leaseUntil);
      rows, nextToken := rows[i := LeasedRow(rows[i], owner, nextToken, leaseUntil)], nextToken + 1;
    }

    method ClaimMutationOutbox(limit: int, leaseSeconds: int, owner: string, now: int) returns (claims: seq<Claim>)
      modifies this
      ensures ClaimStep(old(State()), if limit < 1 then 1 else limit, owner,
                        now + (if leaseSeconds < 1 then 1 else leaseSeconds), now, State(), claims)
    {
      ghost var o := State();
      var leaseUntil := now + (if leaseSeconds < 1 then 1 else leaseSeconds);
      var ids := ClaimBatch(if limit < 1 then 1 else limit, now);
      claims := [];
      assert forall n :: 0 <= n < |ids| ==> ids[n] in o.rows;
      for k := 0 to |ids|
        invariant Leased(o, ids, k, owner, leaseUntil, State(), claims)
      {
        ghost var o1, claims1 := State(), claims;
        var c := LeaseRow(ids[k], owner, leaseUntil);
        claims := claims + [c];
        LeasedNext(o, ids, k, owner, leaseUntil, o1, claims1, State(), c);
      }
    }

    method ValidateMutationClaim(c: Claim, now: int) returns (ok: bool)
      ensures ok <==> Valid(State(), c, now)
    {
      if c.id !in rows { return false; }
      var row := rows[c.id];
      var latest, m := Latest(row.filename);
      ok := && latest == Some(c.id) && row.status == Processing && row.owner == Some(c.owner) && row.token == Some(c.token)
            && row.leaseGeneration == c.leaseGeneration && row.revision == c.revision
            && row.leaseUntil.Some? && row.leaseUntil.value > now;
    }

    method CompleteMutationOutbox(id: nat, c: Claim, now: int) returns (r: Result<(), OutboxError>)
      modifies this`rows
      ensures match Complete(old(State()), id, c, now)
        case Ok(o) => r == Ok(()) && State() == o
        case Err(e) => r == Err(e) && State() == old(State())
    {
      var valid := ValidateMutationClaim(c, now);
      if !valid || c.id != id { return Err(ClaimLost); }
      rows := rows[id := rows[id].(status := Completed, leaseUntil := None)];
      return Ok(());
    }

    method FailMutationOutbox(id: nat, maxAttempts: int, backoff: int, c: Claim, now: int) returns (r: Result<Status, OutboxError>)
      modifies this`rows
      ensures match Fail(old(State()), id, maxAttempts, backoff, c, now)
        case Ok(o) => r == Ok(o.rows[id].status) && State() == o
        case Err(e) => r == Err(e) && State() == old(State())
    {
      var valid := ValidateMutationClaim(c, now);
      if !valid || c.id != id { return Err(ClaimLost); }
      var row := rows[id];
      var terminal := row.attempts >= (if maxAttempts < 1 then 1 else maxAttempts);
      var status := if terminal then Failed else Pending;
      var delay := 0;
      if !terminal { delay := Max(0, backoff) * Pow2(if row.attempts == 0 then 0 else row.attempts - 1); }
      rows := rows[id := row.(status := status, availableAt := now + delay, leaseUntil := None, owner := None, token := None)];
      return Ok(status);
    }
  }
}
