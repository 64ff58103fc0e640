/** The search-mirror protocol around the store (`vector_lake/db_store.py`, `vector_lake/tantivy_index.py`). */
module MirrorProtocol {
  import opened Ordering
  import opened MirrorStore

  // Writers, rebuild requests, the native owner's clear, seed, select, admit and commit steps, late
  // acknowledgements, crashes and loss of the native index interleave in any order. Every SQL
  // transaction is one step. The native owner keeps its lock from selection or clear admission
  // through the native commit; acknowledgements may arrive at any later time.

  datatype Native = Native(docs: map<string, Doc>, incarnation: nat)

  /** What the holder of the native lock has done so far. */
  datatype Owner =
    | Free
    | Idle
    | Picked(batch: Batch)
    | Sending(epoch: nat, items: seq<Item>)
    | Clearing(epoch: nat)
    | Wiped(epoch: nat)

  /** `receipts` are the committed items and `clears` the finished clears: what a late
      acknowledgement may name. `unused` bounds the incarnations handed out so far. */
  datatype World = World(db: Db, native: Native, owner: Owner, receipts: set<Item>, clears: set<(nat, nat)>, unused: nat)

  datatype Event =
    | WriteRow(key: string, doc: Doc, hashed: bool, replaceExisting: Option<bool>)
    | DeleteKey(key: string)
    | ClearAll
    | Rebuild
    | Acquire
    | Crash
    | Select(slots: seq<Slot>, maxRows: nat, maxBytes: nat, maxAttempts: nat, now: int, bytes: string -> nat)
    | Admit(maxAttempts: nat, now: int)
    | Commit
    | Ack(items: seq<Item>)
    | Fail(items: seq<Item>, now: int, delay: nat)
    | AdmitClear(epoch: nat, maxAttempts: nat, now: int)
    | Wipe
    | Stamp
    | AckClear(epoch: nat, incarnation: nat)
    | FailClear(epoch: nat, now: int, delay: nat)
    | Seed(page: seq<nat>, epoch: nat, limit: nat)
    | MarkReady(epoch: nat, incarnation: nat)
    | NativeLost

  /** The native writer deletes the key's document, then adds the admitted one, item by item. */
  function Applied(docs: map<string, Doc>, items: seq<Item>): map<string, Doc>
    decreases items
  {
    if items == [] then docs
    else
      Applied(if items[0].doc.Some? then docs[items[0].key := items[0].doc.value] else docs - {items[0].key}, items[1..])
  }

  /** What a writer owes the store: `replace_existing=False` only for a key without a row, and a
      content hash unless the key has no recorded position or keeps the one it has. */
  ghost predicate TruthfulWrite(d: Db, key: string, hashed: bool, replaceExisting: Option<bool>) {
    && (replaceExisting == Some(false) ==> forall r :: r in d.fts ==> d.fts[r].key != key)
    && (hashed || key !in d.ledger || d.ledger[key] == MaxRowid(RowsKept(d, key, replaceExisting).Keys) + 1)
  }

  ghost predicate Next(w: World, e: Event, w': World) {
    match e
    case WriteRow(key, doc, hashed, rep) =>
      TruthfulWrite(w.db, key, hashed, rep) && w' == w.(db := Upserted(w.db, key, doc, hashed, rep))
    case DeleteKey(key) => w' == w.(db := Deleted(w.db, key))
    case ClearAll => w' == w.(db := Cleared(w.db))
    case Rebuild => UniqueKeys(w.db.fts) && w' == w.(db := EpochReset(w.db))
    case Acquire => w.owner.Free? && w' == w.(owner := Idle)
    case Crash => w' == w.(owner := Free)
    case Select(slots, maxRows, maxBytes, maxAttempts, now, bytes) =>
      && w.owner.Idle?
      && (w.db.ctl.phase == Replay ==> IsCandidates(w.db, maxRows, maxAttempts, now, slots))
      && w' == w.(owner := Picked(if w.db.ctl.phase == Replay
                                  then Triage(w.db, slots, maxBytes, bytes, Batch(w.db.ctl.epoch, [], [], 0))
                                  else Batch(w.db.ctl.epoch, [], [], 0)))
    case Admit(maxAttempts, now) =>
      && w.owner.Picked?
      && (var (d, items) := Admitted(w.db, w.owner.batch, maxAttempts, now);
          w' == w.(db := d, owner := Sending(w.owner.batch.epoch, items)))
    case Commit =>
      && w.owner.Sending?
      && w' == w.(native := w.native.(docs := Applied(w.native.docs, w.owner.items)),
                  receipts := w.receipts + (set i | i in w.owner.items), owner := Free)
    case Ack(items) => (forall i :: i in items ==> i in w.receipts) && w' == w.(db := Acked(w.db, items))
    case Fail(items, now, delay) => w' == w.(db := Failed(w.db, items, now, delay))
    case AdmitClear(epoch, maxAttempts, now) =>
      var d := ClearAdmitted(w.db, epoch, maxAttempts, now);
      w.owner.Idle? && d.Some? && w' == w.(db := d.value, owner := Clearing(epoch))
    case Wipe => w.owner.Clearing? && w' == w.(native := w.native.(docs := map[]), owner := Wiped(w.owner.epoch))
    case Stamp =>
      && w.owner.Wiped?
      && w' == w.(native := w.native.(incarnation := w.unused), clears := w.clears + {(w.owner.epoch, w.unused)},
                  unused := w.unused + 1, owner := Free)
    case AckClear(epoch, inc) =>
      var d := ClearAcked(w.db, epoch, inc);
      (epoch, inc) in w.clears && d.Some? && w' == w.(db := d.value)
    case FailClear(epoch, now, delay) =>
      var d := ClearFailed(w.db, epoch, now, delay);
      d.Some? && w' == w.(db := d.value)
    case Seed(page, epoch, limit) =>
      && w.db.ctl.epoch == epoch && w.db.ctl.phase == Seeding && limit >= 1
      && IsPage(w.db.fts, w.db.ctl.seedAfter, w.db.ctl.seedThrough, limit, page)
      && w' == w.(db := Seeded(w.db, page, limit))
    case MarkReady(epoch, inc) =>
      var d := MarkedReady(w.db, epoch, inc);
      d.Some? && w' == w.(db := d.value)
    case NativeLost => w' == w.(native := Native(map[], w.unused), unused := w.unused + 1)
  }

  ghost predicate Init(w: World) {
    && UniqueKeys(w.db.fts) && LedgerOk(w.db) && (forall r :: r in w.db.fts ==> r > 0)
    && w.db.ctl == Control(0, 0, NeedsClear, 0, MaxRowid(w.db.fts.Keys), None, 0, 0)
    && w.db.queue == map[]
    && w.owner == Free && w.receipts == {} && w.clears == {} && w.native.incarnation < w.unused
  }

  // ---------------------------------------------------------------- invariant

  ghost predicate HasKey(fts: map<nat, Row>, key: string) { exists r :: r in fts && fts[r].key == key }

  /** The document the FTS table holds for a key. */
  ghost function DocOf(fts: map<nat, Row>, key: string): Option<Doc> {
    if HasKey(fts, key) then
      var r :| r in fts && fts[r].key == key;
      Some(fts[r].doc)
    else None
  }

  function NativeDoc(docs: map<string, Doc>, key: string): Option<Doc> {
    if key in docs then Some(docs[key]) else None
  }

  ghost predicate InSync(w: World, key: string) { NativeDoc(w.native.docs, key) == DocOf(w.db.fts, key) }

  /** Every recorded position is the position of that key's row. */
  ghost predicate LedgerOk(d: Db) {
    forall k :: k in d.ledger ==> d.ledger[k] in d.fts && d.fts[d.ledger[k]].key == k
  }

  ghost predicate QueueOk(d: Db) {
    forall k :: k in d.queue ==>
      var q := d.queue[k];
      && q.epoch == d.ctl.epoch && q.generation <= d.ctl.revision
      && match q.op
         case Upsert(r) => r in d.fts && d.fts[r].key == k
         case Delete => !HasKey(d.fts, k)
  }

  ghost predicate Covered(d: Db) {
    d.ctl.phase in {NeedsClear, Seeding} ==>
      forall r :: r in d.fts ==> d.fts[r].key in d.queue || InSeedRange(r, d.ctl.seedAfter, d.ctl.seedThrough)
  }

  ghost predicate DbInv(d: Db) {
    && UniqueKeys(d.fts) && LedgerOk(d) && (forall r :: r in d.fts ==> r > 0)
    && QueueOk(d) && Covered(d)
    && (d.ctl.phase == NeedsClear <==> d.ctl.incarnation.None?)
    && (d.ctl.phase == Ready ==> d.queue == map[])
  }

  predicate Matching(w: World) { w.db.ctl.incarnation == Some(w.native.incarnation) }

  predicate Replaying(d: Db) { d.ctl.phase == Replay || d.ctl.phase == Ready }

  /** While seeding the native index is empty; afterwards a key that differs is queued. */
  ghost predicate MirrorOk(w: World) {
    Matching(w) ==>
      && (w.db.ctl.phase == Seeding ==> w.native.docs == map[])
      && (Replaying(w.db) ==> forall k :: k in w.db.queue || InSync(w, k))
  }

  /** The queued intent for `item.key` is exactly the one `item` was read from. */
  predicate Current(d: Db, item: Item) {
    item.key in d.queue && d.queue[item.key].generation == item.generation
  }

  ghost predicate ReceiptOk(w: World, item: Item) {
    && item.epoch <= w.db.ctl.epoch
    && (item.epoch == w.db.ctl.epoch ==>
          && Replaying(w.db) && item.generation <= w.db.ctl.revision
          && (item.key in w.db.queue ==> w.db.queue[item.key].generation >= item.generation)
          && (Matching(w) && Current(w.db, item) ==> InSync(w, item.key)))
  }

  ghost predicate ReceiptsOk(w: World) { forall i :: i in w.receipts ==> ReceiptOk(w, i) }

  predicate DistinctKeys(items: seq<Item>) { forall i, j :: 0 <= i < j < |items| ==> items[i].key != items[j].key }

  /** The lock holder's epoch is current, or the store has not left `needs_clear` since. */
  ghost predicate EpochOk(w: World, epoch: nat) {
    && epoch <= w.db.ctl.epoch
    && (epoch < w.db.ctl.epoch ==> w.db.ctl.phase == NeedsClear && forall i :: (w.db.ctl.epoch, i) !in w.clears)
  }

  ghost predicate PickedOk(w: World, epoch: nat, item: Item) {
    && item.epoch == epoch
    && (epoch == w.db.ctl.epoch ==>
          && Replaying(w.db) && item.generation <= w.db.ctl.revision
          && (Current(w.db, item) ==> DocOf(w.db.fts, item.key) == item.doc))
  }

  ghost predicate SendingOk(w: World, epoch: nat, item: Item) {
    && PickedOk(w, epoch, item)
    && (epoch == w.db.ctl.epoch ==>
          && (item.key in w.db.queue ==> w.db.queue[item.key].generation >= item.generation)
          && (item.key !in w.db.queue ==> DocOf(w.db.fts, item.key) == item.doc)
          && forall r :: r in w.receipts && r.key == item.key && r.epoch == epoch ==> r.generation <= item.generation)
  }

  ghost predicate OwnerOk(w: World) {
    match w.owner
    case Free => true
    case Idle => true
    case Picked(b) =>
      EpochOk(w, b.epoch) && DistinctKeys(b.intents) && forall i :: i in b.intents ==> PickedOk(w, b.epoch, i)
    case Sending(epoch, items) =>
      EpochOk(w, epoch) && DistinctKeys(items) && forall i :: i in items ==> SendingOk(w, epoch, i)
    case Clearing(epoch) => ClearerOk(w, epoch)
    case Wiped(epoch) => ClearerOk(w, epoch) && w.native.docs == map[]
  }

  /** No document has reached the native index since this clear was admitted. */
  ghost predicate ClearerOk(w: World, epoch: nat) {
    && EpochOk(w, epoch)
    && (epoch == w.db.ctl.epoch && Matching(w) ==> w.native.docs == map[])
  }

  ghost predicate ClearsOk(w: World) {
    forall c :: c in w.clears ==>
      && c.0 <= w.db.ctl.epoch && c.1 < w.unused
      && (c.0 == w.db.ctl.epoch && w.db.ctl.phase == NeedsClear && c.1 == w.native.incarnation ==> w.native.docs == map[])
  }

  ghost predicate Inv(w: World) {
    && DbInv(w.db) && MirrorOk(w) && ReceiptsOk(w) && OwnerOk(w) && ClearsOk(w)
    && w.native.incarnation < w.unused
    && (w.db.ctl.incarnation.Some? ==> w.db.ctl.incarnation.value < w.unused)
  }

  // ---------------------------------------------------------------- table lemmas

  lemma DocOfRow(fts: map<nat, Row>, r: nat)
    requires UniqueKeys(fts) && r in fts
    ensures DocOf(fts, fts[r].key) == Some(fts[r].doc)
  {
    assert HasKey(fts, fts[r].key);
  }

  /** With an accurate ledger the point delete removes exactly the key's rows. */
  lemma PointDeleteIsExact(d: Db, key: string)
    requires UniqueKeys(d.fts) && LedgerOk(d)
    ensures RowsAfterDelete(d.fts, d.ledger, key) == RowsWithout(d.fts, key)
  {
  }

  lemma DocOfWithout(fts: map<nat, Row>, key: string, k: string)
    requires UniqueKeys(fts)
    ensures DocOf(RowsWithout(fts, key), k) == if k == key then None else DocOf(fts, k)
  {
    var rest := RowsWithout(fts, key);
    if k != key && HasKey(fts, k) {
      var r :| r in fts && fts[r].key == k;
      DocOfRow(fts, r);
      assert r in rest;
      DocOfRow(rest, r);
    }
  }

  lemma DocOfAdded(fts: map<nat, Row>, r: nat, row: Row, k: string)
    requires UniqueKeys(fts) && r !in fts && !HasKey(fts, row.key)
    ensures UniqueKeys(fts[r := row])
    ensures DocOf(fts[r := row], k) == if k == row.key then Some(row.doc) else DocOf(fts, k)
  {
    var more := fts[r := row];
    if k == row.key {
      DocOfRow(more, r);
    } else if HasKey(fts, k) {
      var s :| s in fts && fts[s].key == k;
      DocOfRow(fts, s);
      assert s in more;
      DocOfRow(more, s);
    }
  }

  lemma {:induction false} AppliedDocs(docs: map<string, Doc>, items: seq<Item>, k: string)
    requires DistinctKeys(items)
    ensures (forall i :: 0 <= i < |items| ==> items[i].key != k) ==> NativeDoc(Applied(docs, items), k) == NativeDoc(docs, k)
    ensures forall i :: 0 <= i < |items| && items[i].key == k ==> NativeDoc(Applied(docs, items), k) == items[i].doc
    decreases items
  {
    if items != [] {
      var docs1 := if items[0].doc.Some? then docs[items[0].key := items[0].doc.value] else docs - {items[0].key};
      AppliedDocs(docs1, items[1..], k);
      forall i | 0 <= i < |items| && items[i].key == k ensures NativeDoc(Applied(docs, items), k) == items[i].doc {
        if i > 0 { assert items[1..][i - 1] == items[i]; }
      }
    }
  }

  // ---------------------------------------------------------------- what the lock holder holds

  /** A step that changes neither rows nor intents leaves the held items as they were. */
  lemma HeldItemsKeep(w: World, w': World)
    requires OwnerOk(w) && w'.owner == w.owner && w'.receipts == w.receipts && w'.clears == w.clears
    requires w'.db.fts == w.db.fts && w'.db.queue == w.db.queue
    requires w'.db.ctl.epoch == w.db.ctl.epoch && w'.db.ctl.revision == w.db.ctl.revision
    requires Replaying(w.db) ==> Replaying(w'.db)
    requires w.db.ctl.phase == NeedsClear ==> w'.db.ctl.phase == NeedsClear
    ensures w.owner.Picked? || w.owner.Sending? ==> OwnerOk(w')
  {
    if w.owner.Picked? {
      forall i | i in w.owner.batch.intents ensures PickedOk(w', w.owner.batch.epoch, i) {
        assert PickedOk(w, w.owner.batch.epoch, i);
      }
    } else if w.owner.Sending? {
      forall i | i in w.owner.items ensures SendingOk(w', w.owner.epoch, i) {
        assert SendingOk(w, w.owner.epoch, i);
      }
    }
  }

  /** Before replay a batch of the current epoch is empty. */
  lemma NothingHeldBeforeReplay(w: World)
    requires OwnerOk(w) && !Replaying(w.db)
    ensures w.owner.Picked? && w.owner.batch.epoch == w.db.ctl.epoch ==> w.owner.batch.intents == []
    ensures w.owner.Sending? && w.owner.epoch == w.db.ctl.epoch ==> w.owner.items == []
  {
    if w.owner.Picked? && w.owner.batch.intents != [] {
      assert PickedOk(w, w.owner.batch.epoch, w.owner.batch.intents[0]);
    }
    if w.owner.Sending? && w.owner.items != [] {
      assert SendingOk(w, w.owner.epoch, w.owner.items[0]);
    }
  }

  // ---------------------------------------------------------------- writers keep the invariant

  /** A write of one key: its intent gets a new generation, every other key keeps its document. */
  lemma WriteKeeps(w: World, d: Db, key: string, op: Operation)
    requires Inv(w) && DbInv(d)
    requires d.ctl == Enqueued(w.db, key, op).ctl && d.queue == Enqueued(w.db, key, op).queue
    requires forall k :: k != key ==> DocOf(d.fts, k) == DocOf(w.db.fts, k)
    ensures Inv(w.(db := d))
  {
    var w' := w.(db := d);
    assert MirrorOk(w') by {
      forall k | Matching(w') && Replaying(d) && k !in d.queue ensures InSync(w', k) {
        assert k in w.db.queue || InSync(w, k);
      }
    }
    forall i | i in w'.receipts ensures ReceiptOk(w', i) {
      assert ReceiptOk(w, i);
      assert i.epoch == d.ctl.epoch && Current(d, i) ==> i.key != key && Current(w.db, i);
    }
    assert OwnerOk(w') by {
      if w.owner.Picked? {
        forall i | i in w.owner.batch.intents ensures PickedOk(w', w.owner.batch.epoch, i) {
          assert PickedOk(w, w.owner.batch.epoch, i);
        }
      } else if w.owner.Sending? {
        forall i | i in w.owner.items ensures SendingOk(w', w.owner.epoch, i) {
          assert SendingOk(w, w.owner.epoch, i);
        }
      }
    }
  }

  /** A truthful upsert replaces the key's row and touches no other. */
  lemma UpsertRows(d: Db, key: string, doc: Doc, rep: Option<bool>, rowid: nat)
    requires UniqueKeys(d.fts) && LedgerOk(d) && rowid == MaxRowid(RowsKept(d, key, rep).Keys) + 1
    requires rep == Some(false) ==> !HasKey(d.fts, key)
    ensures var rest := RowsWithout(d.fts, key);
            && RowsKept(d, key, rep) == rest && rowid !in rest && rowid > 0
            && (forall k :: DocOf(rest[rowid := Row(key, doc)], k) == if k == key then Some(doc) else DocOf(d.fts, k))
            && UniqueKeys(rest[rowid := Row(key, doc)])
  {
    var rest := RowsWithout(d.fts, key);
    PointDeleteIsExact(d, key);
    assert RowsKept(d, key, rep) == rest;
    assert rowid !in rest.Keys;
    assert !HasKey(rest, key);
    assert UniqueKeys(rest);
    DocOfAdded(rest, rowid, Row(key, doc), key);
    forall k ensures DocOf(rest[rowid := Row(key, doc)], k) == if k == key then Some(doc) else DocOf(d.fts, k) {
      DocOfWithout(d.fts, key, k);
      DocOfAdded(rest, rowid, Row(key, doc), k);
    }
  }

  /** `fts'` differs from `fts` only in the row of `key`, now at `rowid`. */
  ghost predicate RowReplaced(fts: map<nat, Row>, fts': map<nat, Row>, key: string, rowid: nat) {
    && rowid in fts' && fts'[rowid].key == key
    && (forall r :: r in fts' && r != rowid ==> r in fts && fts'[r] == fts[r])
    && (forall r :: r in fts && fts[r].key != key ==> r in fts' && fts'[r] == fts[r])
  }

  lemma ReplaceRowQueueOk(d: Db, d': Db, key: string, rowid: nat)
    requires QueueOk(d) && Covered(d) && RowReplaced(d.fts, d'.fts, key, rowid) && UniqueKeys(d'.fts)
    requires d'.ctl == Enqueued(d, key, Operation.Upsert(rowid)).ctl && d'.queue == Enqueued(d, key, Operation.Upsert(rowid)).queue
    ensures QueueOk(d') && Covered(d')
  {
    forall k | k in d.queue && k != key && d.queue[k].op.Delete? ensures !HasKey(d'.fts, k) {
      assert !HasKey(d.fts, k);
    }
    forall r | r in d'.fts ensures d'.fts[r].key == key || (r in d.fts && d'.fts[r] == d.fts[r]) {
    }
  }

  lemma ReplaceRowLedgerOk(d: Db, d': Db, key: string, rowid: nat)
    requires LedgerOk(d) && RowReplaced(d.fts, d'.fts, key, rowid)
    requires d'.ledger == d.ledger[key := rowid] || (d'.ledger == d.ledger && (key !in d.ledger || d.ledger[key] == rowid))
    ensures LedgerOk(d')
  {
    forall k | k in d'.ledger ensures d'.ledger[k] in d'.fts && d'.fts[d'.ledger[k]].key == k {
      if k != key {
        assert d'.ledger[k] == d.ledger[k] && d.fts[d.ledger[k]].key != key;
      }
    }
  }

  /** What an upsert does to each table when its insert does not duplicate the key. */
  lemma UpsertEffect(d: Db, key: string, doc: Doc, hashed: bool, rep: Option<bool>, rowid: nat)
    requires UniqueKeys(d.fts) && LedgerOk(d) && rowid == MaxRowid(RowsKept(d, key, rep).Keys) + 1
    requires rep == Some(false) ==> !HasKey(d.fts, key)
    ensures var d' := Upserted(d, key, doc, hashed, rep);
            && d'.fts == RowsWithout(d.fts, key)[rowid := Row(key, doc)]
            && UniqueKeys(d'.fts) && RowReplaced(d.fts, d'.fts, key, rowid) && rowid > 0
            && d'.ledger == (if hashed then d.ledger[key := rowid] else d.ledger)
            && d'.ctl == Enqueued(d, key, Operation.Upsert(rowid)).ctl && d'.queue == Enqueued(d, key, Operation.Upsert(rowid)).queue
  {
    UpsertRows(d, key, doc, rep, rowid);
    AddedRowReplaces(d.fts, key, rowid, Row(key, doc));
  }

  lemma AddedRowReplaces(fts: map<nat, Row>, key: string, rowid: nat, row: Row)
    requires rowid !in RowsWithout(fts, key) && row.key == key
    ensures RowReplaced(fts, RowsWithout(fts, key)[rowid := row], key, rowid)
  {
  }

  lemma UpsertKeepsTables(d: Db, key: string, doc: Doc, hashed: bool, rep: Option<bool>, rowid: nat)
    requires DbInv(d) && TruthfulWrite(d, key, hashed, rep) && rowid == MaxRowid(RowsKept(d, key, rep).Keys) + 1
    ensures var d' := Upserted(d, key, doc, hashed, rep);
            DbInv(d') && d'.ctl == Enqueued(d, key, Operation.Upsert(rowid)).ctl && d'.queue == Enqueued(d, key, Operation.Upsert(rowid)).queue
    ensures forall k :: DocOf(Upserted(d, key, doc, hashed, rep).fts, k) == if k == key then Some(doc) else DocOf(d.fts, k)
  {
    assert rep == Some(false) ==> !HasKey(d.fts, key);
    var d' := Upserted(d, key, doc, hashed, rep);
    UpsertEffect(d, key, doc, hashed, rep, rowid);
    UpsertRows(d, key, doc, rep, rowid);
    ReplaceRowLedgerOk(d, d', key, rowid);
    ReplaceRowQueueOk(d, d', key, rowid);
    assert forall r :: r in d'.fts ==> r > 0;
  }

  lemma DeleteKeeps(w: World, key: string)
    requires Inv(w)
    ensures Inv(w.(db := Deleted(w.db, key)))
  {
    DeleteKeepsTables(w.db, key);
    WriteKeeps(w, Deleted(w.db, key), key, Operation.Delete);
  }

  lemma DeleteKeepsTables(d: Db, key: string)
    requires DbInv(d)
    ensures var d' := Deleted(d, key);
            DbInv(d') && d'.ctl == Enqueued(d, key, Operation.Delete).ctl && d'.queue == Enqueued(d, key, Operation.Delete).queue
    ensures forall k :: k != key ==> DocOf(Deleted(d, key).fts, k) == DocOf(d.fts, k)
  {
    PointDeleteIsExact(d, key);
    forall k | k != key ensures DocOf(RowsWithout(d.fts, key), k) == DocOf(d.fts, k) { DocOfWithout(d.fts, key, k); }
    RowGoneQueueOk(d, Deleted(d, key), key);
  }

  lemma RowGoneQueueOk(d: Db, d': Db, key: string)
    requires DbInv(d) && d'.fts == RowsWithout(d.fts, key)
    requires d'.ctl == Enqueued(d, key, Operation.Delete).ctl && d'.queue == Enqueued(d, key, Operation.Delete).queue
    ensures QueueOk(d') && Covered(d')
  {
    forall k | k in d'.queue && d'.queue[k].op.Delete? ensures !HasKey(d'.fts, k) {
      assert k == key || (k in d.queue && !HasKey(d.fts, k));
    }
  }

  /** A new epoch drops the queue and outdates every receipt and clear at once. */
  lemma ResetKeeps(w: World, d: Db)
    requires Inv(w) && UniqueKeys(d.fts) && LedgerOk(d) && (forall r :: r in d.fts ==> r > 0)
    requires d.ctl == w.db.ctl
    ensures Inv(w.(db := EpochReset(d))) && EpochReset(d).queue == map[] && EpochReset(d).ctl.phase == NeedsClear
    ensures forall i | i in w.receipts :: i.epoch < EpochReset(d).ctl.epoch
    ensures forall c | c in w.clears :: ClearAcked(EpochReset(d), c.0, c.1).None?
  {
    var w' := w.(db := EpochReset(d));
    forall i | i in w.receipts ensures i.epoch < w'.db.ctl.epoch { assert ReceiptOk(w, i); }
    assert Covered(w'.db);
    forall i | i in w'.receipts ensures ReceiptOk(w', i) {
      assert ReceiptOk(w, i);
    }
    assert forall i :: (w'.db.ctl.epoch, i) !in w.clears;
    if w.owner.Picked? {
      forall i | i in w.owner.batch.intents ensures PickedOk(w', w.owner.batch.epoch, i) {
        assert PickedOk(w, w.owner.batch.epoch, i);
      }
    } else if w.owner.Sending? {
      forall i | i in w.owner.items ensures SendingOk(w', w.owner.epoch, i) {
        assert SendingOk(w, w.owner.epoch, i);
      }
    }
  }

  // ---------------------------------------------------------------- the native owner keeps it

  lemma {:induction false} TriageReadsCurrentRows(d: Db, slots: seq<Slot>, maxBytes: nat, bytes: string -> nat, b: Batch)
    requires UniqueKeys(d.fts) && QueueOk(d)
    requires forall s :: s in slots ==> s.key in d.queue && s.generation == d.queue[s.key].generation
    requires forall i, j :: 0 <= i < j < |slots| ==> slots[i].key != slots[j].key
    requires DistinctKeys(b.intents) && forall i, s :: i in b.intents && s in slots ==> i.key != s.key
    requires forall i :: i in b.intents ==> ReadFrom(d, i)
    ensures var r := Triage(d, slots, maxBytes, bytes, b);
            r.epoch == b.epoch && DistinctKeys(r.intents) && forall i :: i in r.intents ==> ReadFrom(d, i)
    decreases slots
  {
    if slots != [] {
      var key := slots[0].key;
      var q := d.queue[key];
      var doc := JoinedDoc(d, key, q.op);
      assert q.op.Upsert? ==> DocOf(d.fts, key) == doc by {
        if q.op.Upsert? { DocOfRow(d.fts, q.op.rowid); }
      }
      var item := Item(key, d.ctl.epoch, q.generation, q.op, doc);
      assert ReadFrom(d, item);
      var size := PayloadBytes(key, doc, bytes);
      var b' := if (q.op.Upsert? && doc.None?) || size > maxBytes then
          b.(rejected := b.rejected + [Item(key, d.ctl.epoch, q.generation, q.op, None)])
        else if b.bytes + size > maxBytes then b
        else b.(intents := b.intents + [item], bytes := b.bytes + size);
      assert forall i :: i in b'.intents ==> i in b.intents || i == item;
      forall i, s | i in b'.intents && s in slots[1..] ensures i.key != s.key {
        assert s in slots;
      }
      TriageReadsCurrentRows(d, slots[1..], maxBytes, bytes, b');
    }
  }

  /** The item names the pending intent of its key and carries that key's document. */
  ghost predicate ReadFrom(d: Db, i: Item) {
    && i.epoch == d.ctl.epoch && i.key in d.queue && i.generation == d.queue[i.key].generation
    && i.doc == DocOf(d.fts, i.key)
  }

  lemma SelectKeeps(w: World, slots: seq<Slot>, maxRows: nat, maxBytes: nat, maxAttempts: nat, now: int, bytes: string -> nat, w': World)
    requires Inv(w) && Next(w, Select(slots, maxRows, maxBytes, maxAttempts, now, bytes), w')
    ensures Inv(w')
  {
    if w.db.ctl.phase == Replay {
      forall i, j | 0 <= i < j < |slots| ensures slots[i].key != slots[j].key {
        assert slots[i] in slots && slots[j] in slots;
      }
      TriageReadsCurrentRows(w.db, slots, maxBytes, bytes, Batch(w.db.ctl.epoch, [], [], 0));
      forall i | i in w'.owner.batch.intents ensures PickedOk(w', w.db.ctl.epoch, i) {
        assert ReadFrom(w.db, i);
      }
    }
    assert ReceiptsOk(w') by { forall i | i in w'.receipts ensures ReceiptOk(w', i) { assert ReceiptOk(w, i); } }
    assert MirrorOk(w') by { forall k | Matching(w') && Replaying(w'.db) && k !in w'.db.queue ensures InSync(w', k) { assert InSync(w, k); } }
  }

  /** Queue entries keep their identity when only attempts and retry times change. */
  predicate SameIntents(q: map<string, Intent>, r: map<string, Intent>) {
    && q.Keys == r.Keys
    && forall k :: k in q ==> q[k].epoch == r[k].epoch && q[k].generation == r[k].generation && q[k].op == r[k].op
  }

  lemma {:induction false} RejectKeepsIntents(queue: map<string, Intent>, items: seq<Item>, maxAttempts: nat)
    ensures SameIntents(queue, RejectAll(queue, items, maxAttempts))
    decreases items
  {
    if items != [] {
      var k := items[0].key;
      RejectKeepsIntents(if k in queue && Names(items[0], k, queue[k]) then queue[k := queue[k].(attempts := maxAttempts)] else queue,
                         items[1..], maxAttempts);
    }
  }

  /** Only intents that are still queued as they were selected are admitted, each with one attempt counted. */
  lemma AdmitOnlyCurrent(queue: map<string, Intent>, items: seq<Item>, maxAttempts: nat, now: int)
    requires DistinctKeys(items)
    ensures var (q, admitted) := AdmitAll(queue, items, maxAttempts, now);
            && SameIntents(queue, q) && DistinctKeys(admitted)
            && (forall i :: i in admitted ==> i in items && Admissible(queue, i, maxAttempts, now))
            && (forall k :: k in queue ==> q[k] == if HasItem(admitted, k) then Counted(queue[k]) else queue[k])
  {
    AdmitSelects(queue, items, maxAttempts, now);
    forall k | k in queue
      ensures var (q, admitted) := AdmitAll(queue, items, maxAttempts, now);
        k in q && q[k] == if HasItem(admitted, k) then Counted(queue[k]) else queue[k]
    {
      AdmitCounts(queue, items, maxAttempts, now, k);
    }
  }

  predicate HasItem(items: seq<Item>, key: string) { exists i :: i in items && i.key == key }

  function Counted(q: Intent): Intent { q.(attempts := q.attempts + 1) }

  lemma {:induction false} AdmitSelects(queue: map<string, Intent>, items: seq<Item>, maxAttempts: nat, now: int)
    requires DistinctKeys(items)
    ensures var (q, admitted) := AdmitAll(queue, items, maxAttempts, now);
            && q.Keys == queue.Keys && DistinctKeys(admitted)
            && forall i :: i in admitted ==> i in items && Admissible(queue, i, maxAttempts, now)
    decreases items
  {
    if |items| > 0 {
      var item := items[0];
      var q1 := if Admissible(queue, item, maxAttempts, now) then queue[item.key := Counted(queue[item.key])] else queue;
      AdmitSelects(q1, items[1..], maxAttempts, now);
      LaterKeysDiffer(items);
    }
  }

  lemma LaterKeysDiffer(items: seq<Item>)
    requires DistinctKeys(items) && |items| > 0
    ensures forall i :: i in items[1..] ==> i in items && i.key != items[0].key
  {
    forall i | i in items[1..] ensures i in items && i.key != items[0].key {
      var j :| 0 <= j < |items[1..]| && items[1..][j] == i;
      assert items[j + 1] == i;
    }
  }

  lemma {:induction false} AdmitCounts(queue: map<string, Intent>, items: seq<Item>, maxAttempts: nat, now: int, k: string)
    requires DistinctKeys(items) && k in queue
    ensures var (q, admitted) := AdmitAll(queue, items, maxAttempts, now);
      k in q && q[k] == if HasItem(admitted, k) then Counted(queue[k]) else queue[k]
    decreases items
  {
    if |items| > 0 {
      var item := items[0];
      var q1 := if Admissible(queue, item, maxAttempts, now) then queue[item.key := Counted(queue[item.key])] else queue;
      AdmitCounts(q1, items[1..], maxAttempts, now, k);
      AdmitSelects(q1, items[1..], maxAttempts, now);
      var rest := AdmitAll(q1, items[1..], maxAttempts, now).1;
      LaterKeysDiffer(items);
      if Admissible(queue, item, maxAttempts, now) { HasItemCons(item, rest, k); }
    }
  }

  lemma HasItemCons(item: Item, rest: seq<Item>, k: string)
    ensures HasItem([item] + rest, k) <==> item.key == k || HasItem(rest, k)
  {
    assert item in [item] + rest && forall i :: i in [item] + rest <==> i == item || i in rest;
  }

  /** A step of the store that leaves every intent's identity alone. */
  lemma BookkeepingKeeps(w: World, d: Db)
    requires Inv(w) && d.fts == w.db.fts && d.ledger == w.db.ledger && SameIntents(w.db.queue, d.queue)
    requires d.ctl == w.db.ctl.(attempts := d.ctl.attempts, availableAt := d.ctl.availableAt)
    ensures Inv(w.(db := d))
  {
    var w' := w.(db := d);
    assert w.db.queue == map[] ==> d.queue == map[] by {
      if w.db.queue == map[] { assert d.queue.Keys == {}; }
    }
    assert MirrorOk(w') by {
      forall k | Matching(w') && Replaying(d) && k !in d.queue ensures InSync(w', k) { assert InSync(w, k); }
    }
    forall i | i in w'.receipts ensures ReceiptOk(w', i) {
      assert ReceiptOk(w, i);
    }
    if w.owner.Picked? {
      forall i | i in w.owner.batch.intents ensures PickedOk(w', w.owner.batch.epoch, i) {
        assert PickedOk(w, w.owner.batch.epoch, i);
      }
    } else if w.owner.Sending? {
      forall i | i in w.owner.items ensures SendingOk(w', w.owner.epoch, i) {
        assert SendingOk(w, w.owner.epoch, i);
      }
    }
  }

  lemma AdmitKeeps(w: World, maxAttempts: nat, now: int, w': World)
    requires Inv(w) && Next(w, Admit(maxAttempts, now), w')
    ensures Inv(w')
  {
    var b := w.owner.batch;
    var (d, items) := Admitted(w.db, b, maxAttempts, now);
    if w.db.ctl.epoch == b.epoch && w.db.ctl.phase == Replay {
      var q1 := RejectAll(w.db.queue, b.rejected, maxAttempts);
      RejectKeepsIntents(w.db.queue, b.rejected, maxAttempts);
      AdmitOnlyCurrent(q1, b.intents, maxAttempts, now);
    }
    BookkeepingKeeps(w, d);
    var w1 := w.(db := d);
    forall i | i in items ensures SendingOk(w', b.epoch, i) {
      assert PickedOk(w1, b.epoch, i) && Current(w.db, i);
      forall r | r in w.receipts && r.key == i.key && r.epoch == b.epoch ensures r.generation <= i.generation {
        assert ReceiptOk(w, r);
      }
    }
    assert ReceiptsOk(w') by { forall i | i in w'.receipts ensures ReceiptOk(w', i) { assert ReceiptOk(w1, i); } }
    assert MirrorOk(w') by { forall k | Matching(w') && Replaying(w'.db) && k !in w'.db.queue ensures InSync(w', k) { assert InSync(w1, k); } }
  }

  /** Committing puts each admitted document in place and touches no other key. */
  lemma CommitKeeps(w: World, w': World)
    requires Inv(w) && Next(w, Commit, w')
    ensures Inv(w')
    ensures forall i | i in w.owner.items :: NativeDoc(w'.native.docs, i.key) == i.doc
    ensures forall k | (forall i | i in w.owner.items :: i.key != k) :: NativeDoc(w'.native.docs, k) == NativeDoc(w.native.docs, k)
  {
    CommitInstalls(w, w');
    CommitKeepsInv(w, w');
  }

  lemma CommitInstalls(w: World, w': World)
    requires Inv(w) && Next(w, Commit, w')
    ensures forall i | i in w.owner.items :: NativeDoc(w'.native.docs, i.key) == i.doc
    ensures forall k | (forall i | i in w.owner.items :: i.key != k) :: NativeDoc(w'.native.docs, k) == NativeDoc(w.native.docs, k)
  {
    forall k
      ensures (forall i | i in w.owner.items :: i.key != k) ==> NativeDoc(w'.native.docs, k) == NativeDoc(w.native.docs, k)
      ensures forall i | i in w.owner.items && i.key == k :: NativeDoc(w'.native.docs, k) == i.doc
    {
      AppliedDocs(w.native.docs, w.owner.items, k);
    }
  }

  lemma CommitKeepsInv(w: World, w': World)
    requires Inv(w) && Next(w, Commit, w')
    ensures Inv(w')
  {
    var epoch, items := w.owner.epoch, w.owner.items;
    forall k ensures epoch == w.db.ctl.epoch && Matching(w) ==> k in w.db.queue || InSync(w, k) ==> k in w.db.queue || InSync(w', k) {
      AppliedDocs(w.native.docs, items, k);
      if epoch == w.db.ctl.epoch && k !in w.db.queue {
        forall i | 0 <= i < |items| && items[i].key == k ensures items[i].doc == DocOf(w.db.fts, k) {
          assert SendingOk(w, epoch, items[i]);
        }
      }
    }
    assert MirrorOk(w') by {
      if Matching(w') && items != [] {
        assert SendingOk(w, epoch, items[0]);
      }
    }
    forall r | r in w'.receipts ensures ReceiptOk(w', r) {
      AppliedDocs(w.native.docs, items, r.key);
      if r in items {
        assert SendingOk(w, epoch, r);
      } else {
        assert ReceiptOk(w, r);
        forall i | 0 <= i < |items| && items[i].key == r.key && r.epoch == w.db.ctl.epoch && Current(w.db, r) && Matching(w)
          ensures items[i].doc == DocOf(w.db.fts, r.key) {
          assert SendingOk(w, epoch, items[i]);
        }
      }
    }
    assert ClearsOk(w') by {
      if items != [] { assert SendingOk(w, epoch, items[0]); }
    }
  }

  /** An acknowledgement, however late, removes an intent only when exactly that intent was committed,
      and then its document is in place; every other intent stays as it is. */
  lemma AckKeeps(w: World, items: seq<Item>, w': World)
    requires Inv(w) && Next(w, Ack(items), w')
    ensures Inv(w')
    ensures forall k | k in w'.db.queue :: k in w.db.queue && w'.db.queue[k] == w.db.queue[k]
    ensures forall k | k in w.db.queue && k !in w'.db.queue ::
      (exists i :: i in w.receipts && Names(i, k, w.db.queue[k])) && (Matching(w) ==> InSync(w, k))
  {
    AckKeepsInv(w, items, w');
    forall k | k in w.db.queue && k !in w'.db.queue
      ensures exists i :: i in w.receipts && Names(i, k, w.db.queue[k])
      ensures Matching(w) ==> InSync(w, k)
    {
      var j :| 0 <= j < |items| && Names(items[j], k, w.db.queue[k]);
      assert items[j] in w.receipts && ReceiptOk(w, items[j]) && Current(w.db, items[j]);
    }
  }

  lemma AckKeepsInv(w: World, items: seq<Item>, w': World)
    requires Inv(w) && Next(w, Ack(items), w')
    ensures Inv(w')
  {
    var d, d' := w.db, w'.db;
    forall k | k in d.queue && k !in d'.queue
      ensures exists i :: i in w.receipts && i.key == k && i.epoch == d.ctl.epoch && Current(d, i)
    {
      var j :| 0 <= j < |items| && Names(items[j], k, d.queue[k]);
      assert items[j] in w.receipts;
    }
    assert MirrorOk(w') by {
      forall k | Matching(w') && Replaying(d') && k !in d'.queue ensures InSync(w', k) {
        if k in d.queue {
          var i :| i in w.receipts && i.key == k && i.epoch == d.ctl.epoch && Current(d, i);
          assert ReceiptOk(w, i);
        } else {
          assert InSync(w, k);
        }
      }
    }
    assert Covered(d') by {
      forall k | k in d.queue && k !in d'.queue ensures Replaying(d) {
        var i :| i in w.receipts && i.key == k && i.epoch == d.ctl.epoch && Current(d, i);
        assert ReceiptOk(w, i);
      }
    }
    forall i | i in w'.receipts ensures ReceiptOk(w', i) { assert ReceiptOk(w, i); }
    if w.owner.Picked? {
      forall i | i in w.owner.batch.intents ensures PickedOk(w', w.owner.batch.epoch, i) {
        assert PickedOk(w, w.owner.batch.epoch, i);
      }
    } else if w.owner.Sending? {
      forall i | i in w.owner.items ensures SendingOk(w', w.owner.epoch, i) {
        assert SendingOk(w, w.owner.epoch, i);
        if i.epoch == d.ctl.epoch && i.key in d.queue && i.key !in d'.queue {
          var r :| r in w.receipts && r.key == i.key && r.epoch == d.ctl.epoch && Current(d, r);
        }
      }
    }
  }

  lemma AdmitClearKeeps(w: World, epoch: nat, maxAttempts: nat, now: int, w': World)
    requires Inv(w) && Next(w, AdmitClear(epoch, maxAttempts, now), w')
    ensures Inv(w')
  {
    var w1 := w.(db := w'.db);
    BookkeepingKeeps(w, w'.db);
    assert ReceiptsOk(w') by { forall i | i in w'.receipts ensures ReceiptOk(w', i) { assert ReceiptOk(w1, i); } }
  }

  lemma WipeKeeps(w: World, w': World)
    requires Inv(w) && Next(w, Wipe, w')
    ensures Inv(w')
  {
    assert w.owner.epoch < w.db.ctl.epoch ==> w.db.ctl.phase == NeedsClear;
    assert Matching(w) ==> w'.native == w.native;
    assert MirrorOk(w') by {
      forall k | Matching(w') && Replaying(w'.db) && k !in w'.db.queue ensures InSync(w', k) { assert InSync(w, k); }
    }
    forall i | i in w'.receipts ensures ReceiptOk(w', i) { assert ReceiptOk(w, i); }
  }

  lemma StampKeeps(w: World, w': World)
    requires Inv(w) && Next(w, Stamp, w')
    ensures Inv(w')
  {
    assert !Matching(w');
    forall i | i in w'.receipts ensures ReceiptOk(w', i) { assert ReceiptOk(w, i); }
  }

  /** Only the clear of the current epoch opens seeding, and then over an empty native index. */
  lemma AckClearKeeps(w: World, epoch: nat, inc: nat, w': World)
    requires Inv(w) && Next(w, AckClear(epoch, inc), w')
    ensures Inv(w') && w.db.ctl.epoch == epoch && w.db.ctl.phase == NeedsClear && w'.db.ctl.phase == Seeding
    ensures Matching(w') ==> w'.native.docs == map[]
  {
    forall i | i in w'.receipts ensures ReceiptOk(w', i) { assert ReceiptOk(w, i); }
    NothingHeldBeforeReplay(w);
  }

  lemma {:induction false} SeededQueueAdds(queue: map<string, Intent>, fts: map<nat, Row>, page: seq<nat>, epoch: nat, revision: nat)
    requires forall r :: r in page ==> r in fts
    ensures var q := SeededQueue(queue, fts, page, epoch, revision);
            && (forall k :: k in queue ==> k in q && q[k] == queue[k])
            && (forall r :: r in page ==> fts[r].key in q)
            && (forall k :: k in q && k !in queue ==>
                  q[k].epoch == epoch && q[k].generation == revision
                  && q[k].op.Upsert? && q[k].op.rowid in page && fts[q[k].op.rowid].key == k)
    decreases page
  {
    if page != [] {
      var key := fts[page[0]].key;
      SeededQueueAdds(if key in queue then queue else queue[key := Intent(epoch, revision, Upsert(page[0]), 0, 0)],
                      fts, page[1..], epoch, revision);
      forall r | r in page ensures fts[r].key in SeededQueue(queue, fts, page, epoch, revision) {
        assert r == page[0] || r in page[1..];
      }
    }
  }

  /** One page queues every row it passes, under that row's position; the rows beyond it stay in the
      cursor's range, and after the last page no row is left without an intent. */
  lemma SeedKeeps(w: World, page: seq<nat>, epoch: nat, limit: nat, w': World)
    requires Inv(w) && Next(w, Event.Seed(page, epoch, limit), w')
    ensures Inv(w')
    ensures forall r | r in page :: r in w.db.fts && w.db.fts[r].key in w'.db.queue
    ensures forall k | k in w'.db.queue && k !in w.db.queue ::
      w'.db.queue[k].op.Upsert? && w'.db.queue[k].op.rowid in page && w.db.fts[w'.db.queue[k].op.rowid].key == k
    ensures forall r | r in w.db.fts ::
      w.db.fts[r].key in w'.db.queue || (w'.db.ctl.phase == Seeding && InSeedRange(r, w'.db.ctl.seedAfter, w'.db.ctl.seedThrough))
  {
    var d, d' := w.db, w'.db;
    SeededQueueAdds(d.queue, d.fts, page, d.ctl.epoch, d.ctl.revision);
    forall r | r in d.fts
      ensures d.fts[r].key in d'.queue || (d'.ctl.phase == Seeding && InSeedRange(r, d'.ctl.seedAfter, d'.ctl.seedThrough))
    {
      if d.fts[r].key !in d.queue {
        assert InSeedRange(r, d.ctl.seedAfter, d.ctl.seedThrough);
        if r !in page && page != [] {
          assert page[|page| - 1] in page;
        }
      }
    }
    assert QueueOk(d');
    assert Covered(d');
    forall k | Replaying(d') && HasKey(d.fts, k) ensures k in d'.queue {
      var r :| r in d.fts && d.fts[r].key == k;
    }
    assert MirrorOk(w') by {
      assert forall k :: Matching(w') && Replaying(d') && k !in d'.queue ==> InSync(w', k);
    }
    forall i | i in w'.receipts ensures ReceiptOk(w', i) { assert ReceiptOk(w, i); }
    NothingHeldBeforeReplay(w);
  }

  lemma MarkReadyKeeps(w: World, epoch: nat, inc: nat, w': World)
    requires Inv(w) && Next(w, Event.MarkReady(epoch, inc), w')
    ensures Inv(w')
  {
    assert MirrorOk(w') by {
      forall k | Matching(w') && Replaying(w'.db) && k !in w'.db.queue ensures InSync(w', k) { assert InSync(w, k); }
    }
    forall i | i in w'.receipts ensures ReceiptOk(w', i) { assert ReceiptOk(w, i); }
    HeldItemsKeep(w, w');
  }

  /** Crash, lock acquisition and loss of the native index. */
  lemma NativeEventKeeps(w: World, e: Event, w': World)
    requires Inv(w) && Next(w, e, w') && (e.Acquire? || e.Crash? || e.NativeLost?)
    ensures Inv(w')
  {
    assert MirrorOk(w') by {
      forall k | Matching(w') && Replaying(w'.db) && k !in w'.db.queue ensures InSync(w', k) { assert InSync(w, k); }
    }
    forall i | i in w'.receipts ensures ReceiptOk(w', i) { assert ReceiptOk(w, i); }
    if e.NativeLost? { HeldItemsKeep(w, w'); }
  }

  // ---------------------------------------------------------------- main results

  lemma InitEstablishes(w: World)
    requires Init(w)
    ensures Inv(w)
  {
  }

  /** Every step of every participant keeps the invariant. */
  lemma StepKeeps(w: World, e: Event, w': World)
    requires Inv(w) && Next(w, e, w')
    ensures Inv(w')
  {
    match e
    case WriteRow(key, doc, hashed, rep) =>
      var rowid := MaxRowid(RowsKept(w.db, key, rep).Keys) + 1;
      UpsertKeepsTables(w.db, key, doc, hashed, rep, rowid);
      WriteKeeps(w, w'.db, key, Operation.Upsert(rowid));
    case DeleteKey(key) => DeleteKeeps(w, key);
    case ClearAll => ResetKeeps(w, w.db.(fts := map[], ledger := map[]));
    case Rebuild => ResetKeeps(w, w.db);
    case Select(slots, maxRows, maxBytes, maxAttempts, now, bytes) => SelectKeeps(w, slots, maxRows, maxBytes, maxAttempts, now, bytes, w');
    case Admit(maxAttempts, now) => AdmitKeeps(w, maxAttempts, now, w');
    case Commit => CommitKeeps(w, w');
    case Ack(items) => AckKeeps(w, items, w');
    case Fail(items, now, delay) => BookkeepingKeeps(w, w'.db);
    case AdmitClear(epoch, maxAttempts, now) => AdmitClearKeeps(w, epoch, maxAttempts, now, w');
    case Wipe => WipeKeeps(w, w');
    case Stamp => StampKeeps(w, w');
    case AckClear(epoch, inc) => AckClearKeeps(w, epoch, inc, w');
    case FailClear(epoch, now, delay) => BookkeepingKeeps(w, w'.db);
    case Seed(page, epoch, limit) => SeedKeeps(w, page, epoch, limit, w');
    case MarkReady(epoch, inc) => MarkReadyKeeps(w, epoch, inc, w');
    case Acquire => NativeEventKeeps(w, e, w');
    case Crash => NativeEventKeeps(w, e, w');
    case NativeLost => NativeEventKeeps(w, e, w');
  }

  /** A run: the worlds and the events between them. */
  ghost predicate Run(ws: seq<World>, es: seq<Event>) {
    && |ws| == |es| + 1 && Init(ws[0])
    && forall i :: 0 <= i < |es| ==> StepAt(ws, es, i)
  }

  /** One step of a run, under a name of its own so that a run unfolds only where a step is asked for. */
  ghost predicate StepAt(ws: seq<World>, es: seq<Event>, i: nat)
    requires |ws| == |es| + 1 && i < |es|
  {
    Next(ws[i], es[i], ws[i + 1])
  }

  lemma {:induction false} RunKeeps(ws: seq<World>, es: seq<Event>, n: nat)
    requires Run(ws, es) && n < |ws|
    ensures Inv(ws[n])
    decreases n
  {
    if n == 0 {
      InitEstablishes(ws[0]);
    } else {
      RunKeeps(ws, es, n - 1);
      assert StepAt(ws, es, n - 1);
      StepKeeps(ws[n - 1], es[n - 1], ws[n]);
    }
  }

  /** In every reachable world `ready` means: nothing is pending, and the native index the store
      validated holds exactly the documents of the FTS table. */
  lemma ReadyMeansMirrored(ws: seq<World>, es: seq<Event>, n: nat)
    requires Run(ws, es) && n < |ws| && ws[n].db.ctl.phase == Ready
    ensures ws[n].db.queue == map[]
    ensures Matching(ws[n]) ==> forall k :: NativeDoc(ws[n].native.docs, k) == DocOf(ws[n].db.fts, k)
  {
    RunKeeps(ws, es, n);
    forall k | Matching(ws[n]) ensures NativeDoc(ws[n].native.docs, k) == DocOf(ws[n].db.fts, k) {
      assert InSync(ws[n], k);
    }
  }

  /** `current_token`: the store's token, if the index on disk is the one it names. */
  function CurrentToken(w: World): Option<Token> {
    var t := ReadToken(w.db);
    if t.Some? && t.value.incarnation == w.native.incarnation then t else None
  }

  /** Revisions and incarnations only grow, and a revision pins the FTS table. */
  lemma StepIsMonotone(w: World, e: Event, w': World)
    requires Inv(w) && Next(w, e, w')
    ensures w'.db.ctl.revision >= w.db.ctl.revision && w'.native.incarnation >= w.native.incarnation
    ensures w'.db.ctl.revision == w.db.ctl.revision ==> w'.db.fts == w.db.fts && w'.db.ctl.epoch == w.db.ctl.epoch
    ensures w'.db.ctl.revision == w.db.ctl.revision && w.db.ctl.phase == Ready ==>
              w'.db.ctl.phase == Ready && w'.db.ctl.incarnation == w.db.ctl.incarnation
  {
  }

  lemma EachStepIsMonotone(ws: seq<World>, es: seq<Event>, k: nat)
    requires Run(ws, es) && k < |es|
    ensures ws[k + 1].db.ctl.revision >= ws[k].db.ctl.revision && ws[k + 1].native.incarnation >= ws[k].native.incarnation
    ensures ws[k + 1].db.ctl.revision == ws[k].db.ctl.revision ==> ws[k + 1].db.fts == ws[k].db.fts
    ensures ws[k + 1].db.ctl.revision == ws[k].db.ctl.revision && ws[k].db.ctl.phase == Ready ==>
              ws[k + 1].db.ctl.phase == Ready && ws[k + 1].db.ctl.incarnation == ws[k].db.ctl.incarnation
  {
    RunKeeps(ws, es, k);
    assert StepAt(ws, es, k);
    StepIsMonotone(ws[k], es[k], ws[k + 1]);
  }

  lemma {:induction false} RunIsMonotone(ws: seq<World>, es: seq<Event>, i: nat, j: nat)
    requires Run(ws, es) && i <= j < |ws|
    ensures ws[j].db.ctl.revision >= ws[i].db.ctl.revision && ws[j].native.incarnation >= ws[i].native.incarnation
    ensures ws[j].db.ctl.revision == ws[i].db.ctl.revision ==> ws[j].db.fts == ws[i].db.fts
    ensures ws[j].db.ctl.revision == ws[i].db.ctl.revision && ws[i].db.ctl.phase == Ready ==>
              ws[j].db.ctl.phase == Ready && ws[j].db.ctl.incarnation == ws[i].db.ctl.incarnation
    decreases j
  {
    if i < j {
      RunIsMonotone(ws, es, i, j - 1);
      EachStepIsMonotone(ws, es, j - 1);
    }
  }

  /** A search answer is returned only between two equal tokens. Then no FTS write happened in
      between, and whenever the native index was read it held exactly that FTS table. */
  lemma SearchReadsOneState(ws: seq<World>, es: seq<Event>, before: nat, read: nat, after: nat)
    requires Run(ws, es) && before <= read <= after < |ws|
    requires CurrentToken(ws[before]).Some? && CurrentToken(ws[before]) == CurrentToken(ws[after])
    ensures ws[read].db.fts == ws[before].db.fts == ws[after].db.fts
    ensures forall k :: NativeDoc(ws[read].native.docs, k) == DocOf(ws[before].db.fts, k)
  {
    RunIsMonotone(ws, es, before, read);
    RunIsMonotone(ws, es, read, after);
    ReadyMeansMirrored(ws, es, read);
  }

  // ---------------------------------------------------------------- what writers owe the store

  /** The two caller obligations are exactly what keeps keys unique and positions accurate. */
  lemma WriteKeepsLedgerIff(d: Db, key: string, doc: Doc, hashed: bool, rep: Option<bool>)
    requires UniqueKeys(d.fts) && LedgerOk(d)
    ensures var d' := Upserted(d, key, doc, hashed, rep);
            UniqueKeys(d'.fts) && LedgerOk(d') <==> TruthfulWrite(d, key, hashed, rep)
  {
    if rep == Some(false) && HasKey(d.fts, key) {
      UntruthfulInsertDuplicates(d, key, doc, hashed, rep);
    } else {
      LedgerFollowsIff(d, key, doc, hashed, rep, MaxRowid(RowsKept(d, key, rep).Keys) + 1);
    }
  }

  lemma UntruthfulInsertDuplicates(d: Db, key: string, doc: Doc, hashed: bool, rep: Option<bool>)
    requires rep == Some(false) && HasKey(d.fts, key)
    ensures !UniqueKeys(Upserted(d, key, doc, hashed, rep).fts)
  {
    var d', kept := Upserted(d, key, doc, hashed, rep), RowsKept(d, key, rep);
    var rowid := MaxRowid(kept.Keys) + 1;
    assert rowid !in kept.Keys && d'.fts == kept[rowid := Row(key, doc)];
    var r :| r in d.fts && d.fts[r].key == key;
    assert d'.fts[r].key == d'.fts[rowid].key;
  }

  lemma LedgerFollowsIff(d: Db, key: string, doc: Doc, hashed: bool, rep: Option<bool>, rowid: nat)
    requires UniqueKeys(d.fts) && LedgerOk(d) && !(rep == Some(false) && HasKey(d.fts, key))
    requires rowid == MaxRowid(RowsKept(d, key, rep).Keys) + 1
    ensures var d' := Upserted(d, key, doc, hashed, rep);
            UniqueKeys(d'.fts) && (LedgerOk(d') <==> TruthfulWrite(d, key, hashed, rep))
  {
    var d' := Upserted(d, key, doc, hashed, rep);
    UpsertEffect(d, key, doc, hashed, rep, rowid);
    TruthfulMeans(d, key, hashed, rep, rowid);
    if hashed || key !in d.ledger || d.ledger[key] == rowid {
      ReplaceRowLedgerOk(d, d', key, rowid);
    } else {
      assert d'.ledger[key] == d.ledger[key] && d.ledger[key] != rowid;
      assert d.ledger[key] !in d'.fts;
    }
  }

  lemma TruthfulMeans(d: Db, key: string, hashed: bool, rep: Option<bool>, rowid: nat)
    requires rep == Some(false) ==> !HasKey(d.fts, key)
    requires rowid == MaxRowid(RowsKept(d, key, rep).Keys) + 1
    ensures TruthfulWrite(d, key, hashed, rep) <==> hashed || key !in d.ledger || d.ledger[key] == rowid
  {
  }

  /** Without the obligation: rewriting `a` without a content hash leaves its old position in the
      ledger; deleting `a` then misses the row, though the queued intent tells the mirror it is gone. */
  lemma UnhashedRewriteOutlivesDelete(doc: Doc, a: string, b: string) returns (d: Db, d': Db)
    requires a != b
    ensures DbInv(d) && d.ctl.phase == Ready
    ensures d' == Deleted(Upserted(d, a, doc, false, None), a)
    ensures HasKey(d'.fts, a) && a in d'.queue && d'.queue[a].op == Operation.Delete
  {
    d := Db(map[1 := Row(a, doc), 2 := Row(b, doc)], map[a := 1, b := 2],
            Control(0, 0, Ready, 0, 2, Some(0), 0, 0), map[]);
    assert DbInv(d);
    var d1, kept := Upserted(d, a, doc, false, None), RowsKept(d, a, None);
    assert kept == map[2 := Row(b, doc)];
    assert kept.Keys == {2} && MaxRowid({2}) == 2;
    assert d1.fts == map[2 := Row(b, doc), 3 := Row(a, doc)];
    assert d1.ledger[a] == 1;
    d' := Deleted(d1, a);
    assert d'.fts == d1.fts && d'.fts[3].key == a;
  }
}
