/** The SQLite side of the search mirror: the FTS table with its position ledger, the singleton
    control row and the queue of one pending intent per key (`vector_lake/db_store.py`).

    `Db` is the value of those tables. The functions on `Db` are the transactions' effects; the
    methods of class `MirrorStore` run the statements, loops included, and are proved to have
    exactly those effects. The protocol around the store is in MirrorProtocol.dfy. */
module MirrorStore {
  import opened Ordering

  datatype MirrorError = BadLimit | BatchTooLarge | DuplicateKey | BadIncarnation | BadDelay

  datatype Phase = NeedsClear | Seeding | Replay | Ready

  datatype Doc = Doc(title: string, summary: string, text: string)
  datatype Row = Row(key: string, doc: Doc)

  /** The table's CHECK ties `fts_rowid` to the operation. */
  datatype Operation = Upsert(rowid: nat) | Delete

  datatype Intent = Intent(epoch: nat, generation: nat, op: Operation, attempts: nat, availableAt: int)

  datatype Control = Control(
    revision: nat, epoch: nat, phase: Phase, seedAfter: nat, seedThrough: nat,
    incarnation: Option<nat>, attempts: nat, availableAt: int)

  datatype Db = Db(fts: map<nat, Row>, ledger: map<string, nat>, ctl: Control, queue: map<string, Intent>)

  /** A selected intent; `doc` is the admitted payload, None for a delete or a rejected upsert. */
  datatype Item = Item(key: string, epoch: nat, generation: nat, op: Operation, doc: Option<Doc>)
  datatype Batch = Batch(epoch: nat, intents: seq<Item>, rejected: seq<Item>, bytes: nat)
  datatype SeedReport = SeedReport(scanned: nat, enqueued: nat, phase: Phase, conflict: bool)
  datatype Token = Token(revision: nat, epoch: nat, incarnation: nat)

  const MAX_ROWS := 100
  const MAX_BYTES := 4 * 1024 * 1024
  const MAX_ATTEMPTS := 3

  predicate LimitsOk(maxRows: int, maxBytes: int, maxAttempts: int) {
    1 <= maxRows <= MAX_ROWS && 1 <= maxBytes <= MAX_BYTES && 1 <= maxAttempts <= MAX_ATTEMPTS
  }

  // ---------------------------------------------------------------- writers

  /** The largest rowid, 0 for an empty table: FTS5 gives the next row this plus one. */
  ghost function MaxRowid(rowids: set<nat>): (m: nat)
    ensures forall r :: r in rowids ==> r <= m
    ensures rowids == {} ==> m == 0
    ensures rowids != {} ==> m in rowids
  {
    if rowids == {} then 0
    else
      var r :| r in rowids;
      var m := MaxRowid(rowids - {r});
      assert rowids == (rowids - {r}) + {r};
      if m <= r then r else m
  }

  function RowsWithout(fts: map<nat, Row>, key: string): map<nat, Row> {
    map r | r in fts && fts[r].key != key :: fts[r]
  }

  /** The point delete by recorded position, or the scan when no position is recorded. */
  function RowsAfterDelete(fts: map<nat, Row>, ledger: map<string, nat>, key: string): map<nat, Row> {
    if key in ledger then
      if ledger[key] in fts && fts[ledger[key]].key == key then fts - {ledger[key]} else fts
    else RowsWithout(fts, key)
  }

  function Enqueued(d: Db, key: string, op: Operation): Db {
    var rev := d.ctl.revision + 1;
    d.(ctl := d.ctl.(revision := rev, phase := if d.ctl.phase == Ready then Replay else d.ctl.phase),
       queue := d.queue[key := Intent(d.ctl.epoch, rev, op, 0, 0)])
  }

  /** Rows that stay when `key` is written: `replaceExisting == Some(false)` skips the delete. */
  function RowsKept(d: Db, key: string, replaceExisting: Option<bool>): map<nat, Row> {
    if replaceExisting == Some(false) then d.fts else RowsAfterDelete(d.fts, d.ledger, key)
  }

  ghost function Upserted(d: Db, key: string, doc: Doc, hashed: bool, replaceExisting: Option<bool>): Db {
    var kept := RowsKept(d, key, replaceExisting);
    var rowid := MaxRowid(kept.Keys) + 1;
    Enqueued(d.(fts := kept[rowid := Row(key, doc)],
                ledger := if hashed then d.ledger[key := rowid] else d.ledger), key, Upsert(rowid))
  }

  function Deleted(d: Db, key: string): Db {
    Enqueued(d.(fts := RowsAfterDelete(d.fts, d.ledger, key), ledger := d.ledger - {key}), key, Delete)
  }

  ghost function EpochReset(d: Db): Db {
    d.(ctl := Control(d.ctl.revision + 1, d.ctl.epoch + 1, NeedsClear, 0, MaxRowid(d.fts.Keys), None, 0, 0),
       queue := map[])
  }

  ghost function Cleared(d: Db): Db {
    EpochReset(d.(fts := map[], ledger := map[]))
  }

  ghost predicate UniqueKeys(fts: map<nat, Row>) {
    forall r, s :: r in fts && s in fts && fts[r].key == fts[s].key ==> r == s
  }

  // ---------------------------------------------------------------- native clear

  function ClearAdmitted(d: Db, epoch: nat, maxAttempts: int, now: int): Option<Db> {
    if d.ctl.epoch == epoch && d.ctl.phase == NeedsClear && d.ctl.attempts < maxAttempts && d.ctl.availableAt <= now
    then Some(d.(ctl := d.ctl.(attempts := d.ctl.attempts + 1)))
    else None
  }

  function ClearAcked(d: Db, epoch: nat, incarnation: nat): Option<Db> {
    if d.ctl.epoch == epoch && d.ctl.phase == NeedsClear && d.ctl.attempts > 0
    then Some(d.(ctl := d.ctl.(phase := Seeding, incarnation := Some(incarnation), attempts := 0, availableAt := 0)))
    else None
  }

  function ClearFailed(d: Db, epoch: nat, now: int, delay: nat): Option<Db> {
    if d.ctl.epoch == epoch && d.ctl.phase == NeedsClear
    then Some(d.(ctl := d.ctl.(availableAt := now + delay)))
    else None
  }

  // ---------------------------------------------------------------- seeding

  predicate InSeedRange(r: nat, after: nat, through: nat) { after < r <= through }

  /** `page` is the first `limit` rowids of the seed range, ascending. */
  ghost predicate IsPage(fts: map<nat, Row>, after: nat, through: nat, limit: nat, page: seq<nat>) {
    && |page| <= limit
    && (forall i, j :: 0 <= i < j < |page| ==> page[i] < page[j])
    && (forall r :: r in page ==> r in fts && InSeedRange(r, after, through))
    && (forall r :: r in fts && InSeedRange(r, after, through) && r !in page ==>
          |page| == limit && forall p :: p in page ==> p < r)
  }

  /** INSERT OR IGNORE of one upsert intent per row of the page. */
  function SeededQueue(queue: map<string, Intent>, fts: map<nat, Row>, page: seq<nat>, epoch: nat, revision: nat): map<string, Intent>
    requires forall r :: r in page ==> r in fts
    decreases page
  {
    if page == [] then queue
    else
      var key := fts[page[0]].key;
      SeededQueue(if key in queue then queue else queue[key := Intent(epoch, revision, Upsert(page[0]), 0, 0)],
                  fts, page[1..], epoch, revision)
  }

  function Seeded(d: Db, page: seq<nat>, limit: nat): Db
    requires forall r :: r in page ==> r in d.fts
  {
    var after := if page == [] then d.ctl.seedThrough else page[|page| - 1];
    var done := |page| < limit || after >= d.ctl.seedThrough;
    d.(queue := SeededQueue(d.queue, d.fts, page, d.ctl.epoch, d.ctl.revision),
       ctl := d.ctl.(seedAfter := after, phase := if done then Replay else Seeding))
  }

  // ---------------------------------------------------------------- select, admit, ack, fail

  datatype Slot = Slot(generation: nat, key: string)

  predicate SlotLe(a: Slot, b: Slot) {
    a.generation < b.generation || (a.generation == b.generation && LexLe(a.key, b.key))
  }

  lemma SlotLeIsTotalOrder()
    ensures TotalOrder(SlotLe)
  {
    LexLeIsTotalOrder();
  }

  predicate Eligible(d: Db, key: string, maxAttempts: int, now: int) {
    key in d.queue && d.queue[key].epoch == d.ctl.epoch && d.queue[key].attempts < maxAttempts && d.queue[key].availableAt <= now
  }

  /** The first `limit` eligible intents by (generation, node_key). */
  ghost predicate IsCandidates(d: Db, limit: nat, maxAttempts: int, now: int, slots: seq<Slot>) {
    && |slots| <= limit
    && (forall i, j :: 0 <= i < j < |slots| ==> SlotLe(slots[i], slots[j]) && slots[i] != slots[j])
    && (forall s :: s in slots ==> Eligible(d, s.key, maxAttempts, now) && s.generation == d.queue[s.key].generation)
    && (forall k :: Eligible(d, k, maxAttempts, now) && Slot(d.queue[k].generation, k) !in slots ==>
          |slots| == limit && forall s :: s in slots ==> SlotLe(s, Slot(d.queue[k].generation, k)))
  }

  lemma FirstAreCandidates(d: Db, sorted: seq<Slot>, limit: nat, maxAttempts: int, now: int)
    requires SortedBy(sorted, SlotLe) && Distinct(sorted)
    requires forall s :: s in sorted <==> Eligible(d, s.key, maxAttempts, now) && s.generation == d.queue[s.key].generation
    ensures IsCandidates(d, limit, maxAttempts, now, if |sorted| <= limit then sorted else sorted[..limit])
  {
    var slots := if |sorted| <= limit then sorted else sorted[..limit];
    forall k | Eligible(d, k, maxAttempts, now) && Slot(d.queue[k].generation, k) !in slots
      ensures |slots| == limit && forall s :: s in slots ==> SlotLe(s, Slot(d.queue[k].generation, k))
    {
      assert Slot(d.queue[k].generation, k) in sorted;
      var i :| 0 <= i < |sorted| && sorted[i] == Slot(d.queue[k].generation, k);
    }
  }

  /** The row the LEFT JOIN finds: position and key must both match. */
  function JoinedDoc(d: Db, key: string, op: Operation): Option<Doc> {
    if op.Upsert? && op.rowid in d.fts && d.fts[op.rowid].key == key then Some(d.fts[op.rowid].doc) else None
  }

  function PayloadBytes(key: string, doc: Option<Doc>, bytes: string -> nat): nat {
    bytes(key) + if doc.None? then 0 else bytes(doc.value.title) + bytes(doc.value.summary) + bytes(doc.value.text)
  }

  function SizeOf(d: Db, key: string, bytes: string -> nat): nat
    requires key in d.queue
  {
    PayloadBytes(key, JoinedDoc(d, key, d.queue[key].op), bytes)
  }

  /** A missing or oversized row is rejected; a row over the remaining byte budget is deferred. */
  function Triaged(d: Db, s: Slot, maxBytes: nat, bytes: string -> nat, b: Batch): Batch
    requires s.key in d.queue
  {
    var q := d.queue[s.key];
    var doc := JoinedDoc(d, s.key, q.op);
    if (q.op.Upsert? && doc.None?) || SizeOf(d, s.key, bytes) > maxBytes then
      b.(rejected := b.rejected + [Item(s.key, d.ctl.epoch, q.generation, q.op, None)])
    else if b.bytes + SizeOf(d, s.key, bytes) > maxBytes then b
    else b.(intents := b.intents + [Item(s.key, d.ctl.epoch, q.generation, q.op, doc)], bytes := b.bytes + SizeOf(d, s.key, bytes))
  }

  function Triage(d: Db, slots: seq<Slot>, maxBytes: nat, bytes: string -> nat, b: Batch): Batch
    requires forall s :: s in slots ==> s.key in d.queue
  {
    if slots == [] then b else Triage(d, slots[1..], maxBytes, bytes, Triaged(d, slots[0], maxBytes, bytes, b))
  }

  /** The bytes of all the items together. */
  function Weight(items: seq<Item>, bytes: string -> nat): nat {
    if |items| == 0 then 0
    else Weight(items[..|items| - 1], bytes) + PayloadBytes(items[|items| - 1].key, items[|items| - 1].doc, bytes)
  }

  lemma WeightSnoc(items: seq<Item>, item: Item, bytes: string -> nat)
    ensures Weight(items + [item], bytes) == Weight(items, bytes) + PayloadBytes(item.key, item.doc, bytes)
  {
    assert (items + [item])[..|items|] == items;
  }

  /** The first `n` selected intents are no younger and leave no room for the intent of `key`. */
  ghost predicate FullAfter(d: Db, intents: seq<Item>, n: nat, key: string, maxBytes: nat, bytes: string -> nat)
    requires key in d.queue && n <= |intents|
  {
    && (forall i :: i in intents[..n] ==> i.generation <= d.queue[key].generation)
    && Weight(intents[..n], bytes) + SizeOf(d, key, bytes) > maxBytes
  }

  ghost predicate CrowdedOut(d: Db, intents: seq<Item>, key: string, maxBytes: nat, bytes: string -> nat)
    requires key in d.queue
  {
    exists n :: 0 <= n <= |intents| && FullAfter(d, intents, n, key, maxBytes, bytes)
  }

  /** An inspected intent is rejected, crowded out by older ones, or selected with its row. */
  ghost predicate Settled(d: Db, s: Slot, maxBytes: nat, bytes: string -> nat, b: Batch)
    requires s.key in d.queue
  {
    var q := d.queue[s.key];
    var missing := q.op.Upsert? && !(q.op.rowid in d.fts && d.fts[q.op.rowid].key == s.key);
    if missing || SizeOf(d, s.key, bytes) > maxBytes then
      Item(s.key, d.ctl.epoch, s.generation, q.op, None) in b.rejected && forall i :: i in b.intents ==> i.key != s.key
    else
      (forall i :: i in b.rejected ==> i.key != s.key)
      && (CrowdedOut(d, b.intents, s.key, maxBytes, bytes)
          || Item(s.key, d.ctl.epoch, s.generation, q.op, if q.op.Upsert? then Some(d.fts[q.op.rowid].doc) else None) in b.intents)
  }

  predicate OfQueue(d: Db, i: Item) {
    i.key in d.queue && i.epoch == d.ctl.epoch && i.generation == d.queue[i.key].generation
  }

  predicate Precedes(i: Item, slots: seq<Slot>) {
    forall s :: s in slots ==> i.key != s.key && i.generation <= s.generation
  }

  predicate OldestFirst(slots: seq<Slot>) {
    forall i, j :: 0 <= i < j < |slots| ==> slots[i].key != slots[j].key && slots[i].generation <= slots[j].generation
  }

  /** What `Triage` is handed on its way: the slots left, oldest first, and a batch of older intents. */
  ghost predicate Underway(d: Db, slots: seq<Slot>, maxBytes: nat, bytes: string -> nat, b: Batch) {
    && (forall s :: s in slots ==> s.key in d.queue && s.generation == d.queue[s.key].generation)
    && OldestFirst(slots)
    && (forall i :: i in b.intents ==> OfQueue(d, i) && Precedes(i, slots))
    && (forall i :: i in b.rejected ==> OfQueue(d, i) && Precedes(i, slots))
    && b.bytes == Weight(b.intents, bytes) && b.bytes <= maxBytes
  }

  lemma PrecedesRest(i: Item, slots: seq<Slot>)
    requires OldestFirst(slots) && |slots| > 0
    requires Precedes(i, slots) || (i.key == slots[0].key && i.generation == slots[0].generation)
    ensures Precedes(i, slots[1..])
  {
    assert forall t :: t in slots[1..] ==> t in slots && slots[0].key != t.key && slots[0].generation <= t.generation;
  }

  lemma TriagedStaysUnderway(d: Db, slots: seq<Slot>, maxBytes: nat, bytes: string -> nat, b: Batch)
    requires Underway(d, slots, maxBytes, bytes, b) && |slots| > 0
    ensures slots[0].key in d.queue && Underway(d, slots[1..], maxBytes, bytes, Triaged(d, slots[0], maxBytes, bytes, b))
  {
    var b' := Triaged(d, slots[0], maxBytes, bytes, b);
    forall i | i in b'.intents || i in b'.rejected ensures OfQueue(d, i) && Precedes(i, slots[1..]) {
      PrecedesRest(i, slots);
    }
    if |b'.intents| > |b.intents| {
      WeightSnoc(b.intents, b'.intents[|b.intents|], bytes);
    }
  }

  lemma TriagedSettles(d: Db, slots: seq<Slot>, maxBytes: nat, bytes: string -> nat, b: Batch)
    requires Underway(d, slots, maxBytes, bytes, b) && |slots| > 0
    ensures slots[0].key in d.queue && Settled(d, slots[0], maxBytes, bytes, Triaged(d, slots[0], maxBytes, bytes, b))
  {
    var s := slots[0];
    var b' := Triaged(d, s, maxBytes, bytes, b);
    assert s in slots;
    if |b'.intents| > |b.intents| {
      assert b'.intents[|b.intents|] in b'.intents;
    } else if |b'.rejected| > |b.rejected| {
      assert b'.rejected[|b.rejected|] in b'.rejected;
    } else {
      assert b.intents[..|b.intents|] == b.intents;
      assert FullAfter(d, b.intents, |b.intents|, s.key, maxBytes, bytes);
    }
  }

  predicate HasKey(slots: seq<Slot>, key: string) { exists i :: 0 <= i < |slots| && slots[i].key == key }

  /** `b'` lists what `b` lists, and beyond it intents of the slots only. */
  ghost predicate Grows(d: Db, slots: seq<Slot>, b: Batch, b': Batch) {
    && b.intents <= b'.intents
    && (forall i :: i in b.rejected ==> i in b'.rejected)
    && (forall i :: i in b'.intents ==> i in b.intents || (HasKey(slots, i.key) && OfQueue(d, i)))
    && (forall i :: i in b'.rejected ==> i in b.rejected || (HasKey(slots, i.key) && OfQueue(d, i)))
  }

  lemma GrowsStep(d: Db, slots: seq<Slot>, maxBytes: nat, bytes: string -> nat, b: Batch, r: Batch)
    requires Underway(d, slots, maxBytes, bytes, b) && |slots| > 0
    requires Grows(d, slots[1..], Triaged(d, slots[0], maxBytes, bytes, b), r)
    ensures Grows(d, slots, b, r)
  {
    forall key | HasKey(slots[1..], key) ensures HasKey(slots, key) {
      var i :| 0 <= i < |slots[1..]| && slots[1..][i].key == key;
      assert slots[i + 1].key == key;
    }
    assert HasKey(slots, slots[0].key);
  }

  /** A settled intent stays settled while the batch grows by other keys. */
  lemma SettledStays(d: Db, slots: seq<Slot>, s: Slot, maxBytes: nat, bytes: string -> nat, b: Batch, b': Batch)
    requires s.key in d.queue && Settled(d, s, maxBytes, bytes, b)
    requires Grows(d, slots, b, b') && !HasKey(slots, s.key)
    ensures Settled(d, s, maxBytes, bytes, b')
  {
    if CrowdedOut(d, b.intents, s.key, maxBytes, bytes) {
      var n :| 0 <= n <= |b.intents| && FullAfter(d, b.intents, n, s.key, maxBytes, bytes);
      assert b'.intents[..n] == b.intents[..n];
      assert FullAfter(d, b'.intents, n, s.key, maxBytes, bytes);
    }
  }

  /** The loop settles every slot, within the byte budget, and lists nothing else. */
  lemma {:induction false} TriageSettles(d: Db, slots: seq<Slot>, maxBytes: nat, bytes: string -> nat, b: Batch)
    requires Underway(d, slots, maxBytes, bytes, b)
    ensures var r := Triage(d, slots, maxBytes, bytes, b);
            && Grows(d, slots, b, r)
            && r.bytes == Weight(r.intents, bytes) && r.bytes <= maxBytes
            && forall s :: s in slots ==> s.key in d.queue && Settled(d, s, maxBytes, bytes, r)
    decreases slots
  {
    if |slots| > 0 {
      var b' := Triaged(d, slots[0], maxBytes, bytes, b);
      TriagedStaysUnderway(d, slots, maxBytes, bytes, b);
      TriagedSettles(d, slots, maxBytes, bytes, b);
      TriageSettles(d, slots[1..], maxBytes, bytes, b');
      var r := Triage(d, slots[1..], maxBytes, bytes, b');
      GrowsStep(d, slots, maxBytes, bytes, b, r);
      SettledStays(d, slots[1..], slots[0], maxBytes, bytes, b', r);
      assert forall s :: s in slots ==> s == slots[0] || s in slots[1..];
    }
  }

  /** The oldest eligible intents, triaged. */
  ghost predicate IsSelection(d: Db, maxRows: nat, maxBytes: nat, maxAttempts: nat, now: int, bytes: string -> nat,
                              inspected: seq<Slot>, b: Batch)
  {
    && IsCandidates(d, maxRows, maxAttempts, now, inspected)
    && b == Triage(d, inspected, maxBytes, bytes, Batch(d.ctl.epoch, [], [], 0))
  }

  lemma SelectionSettles(d: Db, maxRows: nat, maxBytes: nat, maxAttempts: nat, now: int, bytes: string -> nat,
                         inspected: seq<Slot>, b: Batch)
    requires IsSelection(d, maxRows, maxBytes, maxAttempts, now, bytes, inspected, b)
    ensures b.bytes == Weight(b.intents, bytes) && b.bytes <= maxBytes
    ensures forall i :: i in b.intents || i in b.rejected ==> OfQueue(d, i) && HasKey(inspected, i.key)
    ensures forall s :: s in inspected ==> s.key in d.queue && Settled(d, s, maxBytes, bytes, b)
  {
    forall i, j | 0 <= i < j < |inspected|
      ensures inspected[i].key != inspected[j].key && inspected[i].generation <= inspected[j].generation
    {
      assert inspected[i] in inspected && inspected[j] in inspected;
    }
    var b0 := Batch(d.ctl.epoch, [], [], 0);
    assert Underway(d, inspected, maxBytes, bytes, b0);
    TriageSettles(d, inspected, maxBytes, bytes, b0);
  }

  /** No starvation: the oldest eligible intent is selected, whatever its age, if its row is there and fits at all. */
  lemma OldestIsSelected(d: Db, maxRows: nat, maxBytes: nat, maxAttempts: nat, now: int, bytes: string -> nat,
                         inspected: seq<Slot>, b: Batch, key: string)
    requires IsSelection(d, maxRows, maxBytes, maxAttempts, now, bytes, inspected, b) && maxRows >= 1
    requires key in d.queue && d.queue[key].epoch == d.ctl.epoch && d.queue[key].attempts < maxAttempts && d.queue[key].availableAt <= now
    requires forall k :: k in d.queue && d.queue[k].epoch == d.ctl.epoch && d.queue[k].attempts < maxAttempts
                    && d.queue[k].availableAt <= now && d.queue[k].generation <= d.queue[key].generation
                    ==> k == key
    requires d.queue[key].op.Upsert? ==> d.queue[key].op.rowid in d.fts && d.fts[d.queue[key].op.rowid].key == key
    requires SizeOf(d, key, bytes) <= maxBytes
    ensures Named(b.intents, key, d.queue[key])
  {
    SelectionSettles(d, maxRows, maxBytes, maxAttempts, now, bytes, inspected, b);
    var s := Slot(d.queue[key].generation, key);
    assert Eligible(d, key, maxAttempts, now);
    if |inspected| > 0 {
      assert inspected[0] in inspected && Eligible(d, inspected[0].key, maxAttempts, now);
    }
    assert s in inspected;
    if CrowdedOut(d, b.intents, key, maxBytes, bytes) {
      var n :| 0 <= n <= |b.intents| && FullAfter(d, b.intents, n, key, maxBytes, bytes);
      assert |b.intents[..n]| > 0;
      assert b.intents[0] == b.intents[..n][0] && b.intents[0] in b.intents;
      var t :| 0 <= t < |inspected| && inspected[t].key == b.intents[0].key;
      assert inspected[t] in inspected;
      assert Names(b.intents[0], key, d.queue[key]);
    } else {
      var item :| item in b.intents && item.key == key;
      var n :| 0 <= n < |b.intents| && b.intents[n] == item;
      assert Names(b.intents[n], key, d.queue[key]);
    }
  }

  predicate Names(item: Item, key: string, q: Intent) {
    item.key == key && item.epoch == q.epoch && item.generation == q.generation
  }

  function RejectAll(queue: map<string, Intent>, items: seq<Item>, maxAttempts: nat): map<string, Intent> {
    if items == [] then queue
    else
      var k := items[0].key;
      RejectAll(if k in queue && Names(items[0], k, queue[k]) then queue[k := queue[k].(attempts := maxAttempts)] else queue,
                items[1..], maxAttempts)
  }

  predicate Admissible(queue: map<string, Intent>, item: Item, maxAttempts: nat, now: int) {
    item.key in queue && Names(item, item.key, queue[item.key])
    && queue[item.key].attempts < maxAttempts && queue[item.key].availableAt <= now
  }

  function AdmitAll(queue: map<string, Intent>, items: seq<Item>, maxAttempts: nat, now: int): (map<string, Intent>, seq<Item>) {
    if items == [] then (queue, [])
    else if Admissible(queue, items[0], maxAttempts, now) then
      var k := items[0].key;
      var (q, admitted) := AdmitAll(queue[k := queue[k].(attempts := queue[k].attempts + 1)], items[1..], maxAttempts, now);
      (q, [items[0]] + admitted)
    else AdmitAll(queue, items[1..], maxAttempts, now)
  }

  function Admitted(d: Db, b: Batch, maxAttempts: nat, now: int): (Db, seq<Item>) {
    if d.ctl.epoch != b.epoch || d.ctl.phase != Replay then (d, [])
    else
      var (q, admitted) := AdmitAll(RejectAll(d.queue, b.rejected, maxAttempts), b.intents, maxAttempts, now);
      (d.(queue := q), admitted)
  }

  predicate Named(items: seq<Item>, key: string, q: Intent) {
    exists i :: 0 <= i < |items| && Names(items[i], key, q)
  }

  function AckedQueue(queue: map<string, Intent>, items: seq<Item>): map<string, Intent> {
    map k | k in queue && !Named(items, k, queue[k]) :: queue[k]
  }

  /** Conditional ACK: newer generations survive. */
  function Acked(d: Db, items: seq<Item>): Db {
    d.(queue := AckedQueue(d.queue, items))
  }

  function FailedQueue(queue: map<string, Intent>, items: seq<Item>, at: int): map<string, Intent> {
    map k | k in queue :: if Named(items, k, queue[k]) then queue[k].(availableAt := at) else queue[k]
  }

  predicate Finds(queue: map<string, Intent>, item: Item) { item.key in queue && Names(item, item.key, queue[item.key]) }

  /** How many of the statements, one per item, find their intent. */
  function Hits(queue: map<string, Intent>, items: seq<Item>): nat {
    if items == [] then 0 else Hits(queue, items[..|items| - 1]) + if Finds(queue, items[|items| - 1]) then 1 else 0
  }

  function Failed(d: Db, items: seq<Item>, now: int, delay: nat): Db {
    d.(queue := FailedQueue(d.queue, items, now + delay))
  }

  function MarkedReady(d: Db, epoch: nat, incarnation: nat): Option<Db> {
    if d.ctl.epoch == epoch && d.ctl.incarnation == Some(incarnation) && d.ctl.phase == Replay && d.queue == map[]
    then Some(d.(ctl := d.ctl.(phase := Ready)))
    else None
  }

  function ReadToken(d: Db): Option<Token> {
    if d.ctl.phase == Ready && d.ctl.incarnation.Some? && d.queue == map[]
    then Some(Token(d.ctl.revision, d.ctl.epoch, d.ctl.incarnation.value))
    else None
  }

  // ---------------------------------------------------------------- what a step means for the selection

  /** A write supersedes the key's pending intent with one that names the row as it now is and is due at once. */
  lemma WriteIsDueAtOnce(d: Db, key: string, doc: Doc, hashed: bool, replaceExisting: Option<bool>, maxAttempts: int, now: int)
    requires 1 <= maxAttempts && 0 <= now
    ensures var w := Upserted(d, key, doc, hashed, replaceExisting);
            && Eligible(w, key, maxAttempts, now) && w.queue[key].generation == w.ctl.revision == d.ctl.revision + 1
            && w.queue[key].op.Upsert? && w.queue[key].op.rowid in w.fts && w.fts[w.queue[key].op.rowid] == Row(key, doc)
    ensures var w := Deleted(d, key);
            Eligible(w, key, maxAttempts, now) && w.queue[key].generation == w.ctl.revision == d.ctl.revision + 1 && w.queue[key].op.Delete?
    ensures forall k :: k != key && k in d.queue ==>
              Upserted(d, key, doc, hashed, replaceExisting).queue[k] == d.queue[k] && Deleted(d, key).queue[k] == d.queue[k]
  {
  }

  /** A reported failure keeps the named intents out of every selection until the delay has passed, and no others. */
  lemma FailureWaits(d: Db, items: seq<Item>, now: int, delay: nat, key: string, maxAttempts: int, t: int)
    requires key in d.queue
    ensures Named(items, key, d.queue[key]) ==>
              (Eligible(Failed(d, items, now, delay), key, maxAttempts, t) <==>
               d.queue[key].epoch == d.ctl.epoch && d.queue[key].attempts < maxAttempts && now + delay <= t)
    ensures !Named(items, key, d.queue[key]) ==> Failed(d, items, now, delay).queue[key] == d.queue[key]
  {
  }

  /** A rejected intent is spent: no selection under the same limit sees it until a write replaces it. Others are untouched. */
  lemma {:induction false} RejectedIsSpent(queue: map<string, Intent>, items: seq<Item>, maxAttempts: nat, key: string)
    requires key in queue
    ensures RejectAll(queue, items, maxAttempts).Keys == queue.Keys
    ensures RejectAll(queue, items, maxAttempts)[key] ==
            if Named(items, key, queue[key]) then queue[key].(attempts := maxAttempts) else queue[key]
    decreases items
  {
    if |items| > 0 {
      var k := items[0].key;
      var q := if k in queue && Names(items[0], k, queue[k]) then queue[k := queue[k].(attempts := maxAttempts)] else queue;
      RejectedIsSpent(q, items[1..], maxAttempts, key);
      NamedCons(items, key, queue[key]);
      NamedCons(items, key, q[key]);
      assert Named(items[1..], key, q[key]) <==> Named(items[1..], key, queue[key]) by {
        assert q[key].epoch == queue[key].epoch && q[key].generation == queue[key].generation;
      }
    }
  }

  /** A clear of a fresh epoch is admitted at once; each admission counts, and after a failure the next one waits for the delay. */
  lemma ClearIsRetried(d: Db, epoch: nat, maxAttempts: int, now: int, delay: nat, t: int)
    ensures 1 <= maxAttempts && 0 <= t ==> ClearAdmitted(EpochReset(d), d.ctl.epoch + 1, maxAttempts, t).Some?
    ensures ClearAdmitted(d, epoch, maxAttempts, now).Some? ==>
              ClearAdmitted(d, epoch, maxAttempts, now).value.ctl.attempts == d.ctl.attempts + 1 <= maxAttempts
    ensures ClearFailed(d, epoch, now, delay).Some? ==>
              (ClearAdmitted(ClearFailed(d, epoch, now, delay).value, epoch, maxAttempts, t).Some? <==>
               d.ctl.attempts < maxAttempts && now + delay <= t)
  {
  }

  /** Seeding comes to an end: a page finishes it, or is full and moves the cursor on below the last position. */
  lemma SeedProgresses(d: Db, page: seq<nat>, limit: nat)
    requires IsPage(d.fts, d.ctl.seedAfter, d.ctl.seedThrough, limit, page) && limit >= 1
    ensures var s := Seeded(d, page, limit);
            if s.ctl.phase == Replay then
              forall r :: r in d.fts && InSeedRange(r, d.ctl.seedAfter, d.ctl.seedThrough) ==> d.fts[r].key in s.queue
            else
              |page| == limit && d.ctl.seedAfter < s.ctl.seedAfter < s.ctl.seedThrough == d.ctl.seedThrough
  {
    SeededQueueCovers(d.queue, d.fts, page, d.ctl.epoch, d.ctl.revision);
    if |page| > 0 { assert page[|page| - 1] in page; }
  }

  lemma {:induction false} SeededQueueCovers(queue: map<string, Intent>, fts: map<nat, Row>, page: seq<nat>, epoch: nat, revision: nat)
    requires forall r :: r in page ==> r in fts
    ensures var q := SeededQueue(queue, fts, page, epoch, revision);
            && (forall k :: k in queue ==> k in q && q[k] == queue[k])
            && (forall r :: r in page ==> fts[r].key in q)
    decreases page
  {
    if |page| > 0 {
      var key := fts[page[0]].key;
      SeededQueueCovers(if key in queue then queue else queue[key := Intent(epoch, revision, Upsert(page[0]), 0, 0)], fts, page[1..], epoch, revision);
    }
  }

  // ---------------------------------------------------------------- the store

  class MirrorStore {
    var fts: map<nat, Row>
    var ledger: map<string, nat>
    var ctl: Control
    var queue: map<string, Intent>

    ghost function State(): Db
      reads this
    {
      Db(fts, ledger, ctl, queue)
    }

    /** Schema creation over whatever the FTS table already holds. */
    constructor (rows: map<nat, Row>, positions: map<string, nat>)
      ensures State() == Db(rows, positions, Control(0, 0, NeedsClear, 0, MaxRowid(rows.Keys), None, 0, 0), map[])
    {
      fts, ledger, queue := rows, positions, map[];
      new;
      var m := LastRowid();
      ctl := Control(0, 0, NeedsClear, 0, m, None, 0, 0);
    }

    method LastRowid() returns (m: nat)
      ensures m == MaxRowid(fts.Keys)
    {
      m := 0;
      var rest := fts.Keys;
      while rest != {}
        invariant rest <= fts.Keys
        invariant forall r :: r in fts && r !in rest ==> r <= m
        invariant m == 0 || m in fts
      {
        var r :| r in rest;
        if m < r { m := r; }
        rest := rest - {r};
      }
      assert MaxRowid(fts.Keys) <= m;
    }

    method HasDuplicates() returns (dup: bool)
      ensures dup <==> !UniqueKeys(fts)
    {
      dup := false;
      var rest, seen := fts.Keys, {};
      while rest != {} && !dup
        invariant rest <= fts.Keys
        invariant forall k :: k in seen <==> exists r :: r in fts && r !in rest && fts[r].key == k
        invariant !dup ==> forall r, s :: r in fts && s in fts && r !in rest && s !in rest && fts[r].key == fts[s].key ==> r == s
        invariant dup ==> !UniqueKeys(fts)
      {
        var r :| r in rest;
        if fts[r].key in seen { dup := true; }
        seen, rest := seen + {fts[r].key}, rest - {r};
      }
    }

    method EnqueueIntent(key: string, op: Operation)
      modifies this
      ensures State() == Enqueued(old(State()), key, op)
    {
      ctl := ctl.(revision := ctl.revision + 1, phase := if ctl.phase == Ready then Replay else ctl.phase);
      queue := queue[key := Intent(ctl.epoch, ctl.revision, op, 0, 0)];
    }

    method ResetEpoch()
      modifies this
      ensures State() == EpochReset(old(State()))
    {
      var m := LastRowid();
      ctl := Control(ctl.revision + 1, ctl.epoch + 1, NeedsClear, 0, m, None, 0, 0);
      queue := map[];
    }

    method DeleteRow(key: string)
      modifies this`fts
      ensures fts == RowsAfterDelete(old(fts), ledger, key)
    {
      if key in ledger {
        var r := ledger[key];
        if r in fts && fts[r].key == key { fts := fts - {r}; }
      } else {
        fts := map r | r in fts && fts[r].key != key :: fts[r];
      }
    }

    method UpsertSearchIndex(key: string, doc: Doc, contentHash: Option<string>, replaceExisting: Option<bool>)
      modifies this
      ensures State() == Upserted(old(State()), key, doc, contentHash.Some?, replaceExisting)
    {
      if replaceExisting != Some(false) { DeleteRow(key); }
      var m := LastRowid();
      fts := fts[m + 1 := Row(key, doc)];
      if contentHash.Some? { ledger := ledger[key := m + 1]; }
      EnqueueIntent(key, Upsert(m + 1));
    }

    method DeleteSearchIndex(key: string)
      modifies this
      ensures State() == Deleted(old(State()), key)
    {
      DeleteRow(key);
      ledger := ledger - {key};
      EnqueueIntent(key, Delete);
    }

    method ClearSearchIndex()
      modifies this
      ensures State() == Cleared(old(State()))
    {
      fts, ledger := map[], map[];
      ResetEpoch();
    }

    method RequestRebuild() returns (r: Result<nat, MirrorError>)
      modifies this
      ensures r == if UniqueKeys(old(fts)) then Ok(old(ctl).epoch + 1) else Err(DuplicateKey)
      ensures State() == if r.Ok? then EpochReset(old(State())) else old(State())
    {
      var dup := HasDuplicates();
      if dup { return Err(DuplicateKey); }
      ResetEpoch();
      return Ok(ctl.epoch);
    }

    method AdmitClear(epoch: nat, maxAttempts: int, now: int) returns (r: Result<bool, MirrorError>)
      modifies this
      ensures r.Err? <==> !LimitsOk(1, 1, maxAttempts)
      ensures r.Err? ==> State() == old(State())
      ensures r.Ok? ==> match ClearAdmitted(old(State()), epoch, maxAttempts, now)
        case Some(d) => r.value && State() == d
        case None => !r.value && State() == old(State())
    {
      if !LimitsOk(1, 1, maxAttempts) { return Err(BadLimit); }
      if ctl.epoch == epoch && ctl.phase == NeedsClear && ctl.attempts < maxAttempts && ctl.availableAt <= now {
        ctl := ctl.(attempts := ctl.attempts + 1);
        return Ok(true);
      }
      return Ok(false);
    }

    /** `wellFormed` stands for the test that the incarnation is a nonempty string of at most 128 characters. */
    method AckClear(epoch: nat, incarnation: nat, wellFormed: bool) returns (r: Result<bool, MirrorError>)
      modifies this
      ensures r.Err? <==> !wellFormed
      ensures r.Err? ==> State() == old(State())
      ensures r.Ok? ==> match ClearAcked(old(State()), epoch, incarnation)
        case Some(d) => r.value && State() == d
        case None => !r.value && State() == old(State())
    {
      if !wellFormed { return Err(BadIncarnation); }
      if ctl.epoch == epoch && ctl.phase == NeedsClear && ctl.attempts > 0 {
        ctl := ctl.(phase := Seeding, incarnation := Some(incarnation), attempts := 0, availableAt := 0);
        return Ok(true);
      }
      return Ok(false);
    }

    method FailClear(epoch: nat, now: int, delay: int) returns (r: Result<bool, MirrorError>)
      modifies this
      ensures r.Err? <==> !(0 <= delay <= 3600)
      ensures r.Err? ==> State() == old(State())
      ensures r.Ok? ==> match ClearFailed(old(State()), epoch, now, delay)
        case Some(d) => r.value && State() == d
        case None => !r.value && State() == old(State())
    {
      if !(0 <= delay <= 3600) { return Err(BadDelay); }
      if ctl.epoch == epoch && ctl.phase == NeedsClear {
        ctl := ctl.(availableAt := now + delay);
        return Ok(true);
      }
      return Ok(false);
    }

    /** SELECT rowid ... WHERE rowid > after AND rowid <= through ORDER BY rowid LIMIT n. */
    method SelectPage(after: nat, through: nat, limit: nat) returns (page: seq<nat>)
      ensures IsPage(fts, after, through, limit, page)
    {
      var all: seq<nat> := [];
      var rest := fts.Keys;
      while rest != {}
        invariant rest <= fts.Keys && Distinct(all)
        invariant forall r :: r in all <==> r in fts && r !in rest && InSeedRange(r, after, through)
      {
        var r :| r in rest;
        if InSeedRange(r, after, through) { all := all + [r]; }
        rest := rest - {r};
      }
      var le := (a: nat, b: nat) => a <= b;
      var sorted := Sorted(all, le);
      SortedKeepsDistinct(all, le);
      assert forall i, j :: 0 <= i < j < |sorted| ==> le(sorted[i], sorted[j]) && sorted[i] != sorted[j];
      page := if |sorted| <= limit then sorted else sorted[..limit];
      forall r | r in fts && InSeedRange(r, after, through) && r !in page
        ensures |page| == limit && forall p :: p in page ==> p < r
      {
        assert r in sorted;
        var i :| 0 <= i < |sorted| && sorted[i] == r;
      }
    }

    method Seed(epoch: nat, maxRows: int) returns (r: Result<SeedReport, MirrorError>, ghost page: seq<nat>)
      modifies this
      ensures r == Err(BadLimit) <==> !LimitsOk(maxRows, 1, 1)
      ensures r.Err? ==> State() == old(State())
      ensures LimitsOk(maxRows, 1, 1) && (old(ctl).epoch != epoch || old(ctl).phase != Seeding) ==>
                r == Ok(SeedReport(0, 0, old(ctl).phase, true)) && State() == old(State())
      ensures r == Err(DuplicateKey) <==>
                LimitsOk(maxRows, 1, 1) && old(ctl).epoch == epoch && old(ctl).phase == Seeding
                && old(ctl).seedAfter == 0 && !UniqueKeys(old(fts))
      ensures r.Ok? && !r.value.conflict ==>
                && old(ctl).epoch == epoch && old(ctl).phase == Seeding
                && IsPage(old(fts), old(ctl).seedAfter, old(ctl).seedThrough, maxRows, page)
                && State() == Seeded(old(State()), page, maxRows)
                && r.value.scanned == |page| && r.value.enqueued == |queue| - |old(queue)| && r.value.phase == ctl.phase
    {
      page := [];
      if !LimitsOk(maxRows, 1, 1) { return Err(BadLimit), page; }
      if ctl.epoch != epoch || ctl.phase != Seeding { return Ok(SeedReport(0, 0, ctl.phase, true)), page; }
      if ctl.seedAfter == 0 {
        var dup := HasDuplicates();
        if dup { return Err(DuplicateKey), page; }
      }
      var rows := SelectPage(ctl.seedAfter, ctl.seedThrough, maxRows);
      page := rows;
      var added := 0;
      for i := 0 to |rows|
        invariant fts == old(fts) && ledger == old(ledger) && ctl == old(ctl)
        invariant added == |queue| - |old(queue)| && added >= 0
        invariant SeededQueue(old(queue), fts, rows, ctl.epoch, ctl.revision)
                  == SeededQueue(queue, fts, rows[i..], ctl.epoch, ctl.revision)
      {
        assert rows[i..][1..] == rows[i + 1..];
        var key := fts[rows[i]].key;
        if key !in queue {
          queue := queue[key := Intent(epoch, ctl.revision, Upsert(rows[i]), 0, 0)];
          added := added + 1;
        }
      }
      var after := if rows == [] then ctl.seedThrough else rows[|rows| - 1];
      var done := |rows| < maxRows || after >= ctl.seedThrough;
      ctl := ctl.(seedAfter := after, phase := if done then Replay else Seeding);
      return Ok(SeedReport(|rows|, added, ctl.phase, false)), page;
    }

    method EligibleSlots(maxAttempts: int, now: int) returns (all: seq<Slot>)
      ensures Distinct(all)
      ensures forall s :: s in all <==> Eligible(State(), s.key, maxAttempts, now) && s.generation == queue[s.key].generation
    {
      ghost var d := State();
      all := [];
      var rest := queue.Keys;
      while rest != {}
        invariant rest <= queue.Keys && Distinct(all)
        invariant forall s :: s in all <==>
                    s.key in queue && s.key !in rest && s.generation == queue[s.key].generation && Eligible(d, s.key, maxAttempts, now)
      {
        var k :| k in rest;
        if queue[k].epoch == ctl.epoch && queue[k].attempts < maxAttempts && queue[k].availableAt <= now {
          all := all + [Slot(queue[k].generation, k)];
        }
        rest := rest - {k};
      }
    }

    method Candidates(limit: nat, maxAttempts: int, now: int) returns (slots: seq<Slot>)
      ensures IsCandidates(State(), limit, maxAttempts, now, slots)
      ensures forall i, j :: 0 <= i < j < |slots| ==> slots[i].generation <= slots[j].generation
      ensures forall i, j :: 0 <= i < j < |slots| && slots[i].generation == slots[j].generation ==> LexLe(slots[i].key, slots[j].key)
      ensures forall k :: k in queue && queue[k].epoch == ctl.epoch && queue[k].attempts < maxAttempts && queue[k].availableAt <= now
                          && Slot(queue[k].generation, k) !in slots ==>
                |slots| == limit && forall s :: s in slots ==>
                  s.generation < queue[k].generation || (s.generation == queue[k].generation && LexLe(s.key, k))
    {
      ghost var d := State();
      var all := EligibleSlots(maxAttempts, now);
      SlotLeIsTotalOrder();
      var sorted := Sorted(all, SlotLe);
      SortedKeepsDistinct(all, SlotLe);
      slots := if |sorted| <= limit then sorted else sorted[..limit];
      FirstAreCandidates(d, sorted, limit, maxAttempts, now);
    }

    method TriageRows(rows: seq<Slot>, maxBytes: nat, bytes: string -> nat) returns (b: Batch)
      requires forall s :: s in rows ==> s.key in queue
      ensures b == Triage(State(), rows, maxBytes, bytes, Batch(ctl.epoch, [], [], 0))
    {
      b := Batch(ctl.epoch, [], [], 0);
      for i := 0 to |rows|
        invariant Triage(State(), rows, maxBytes, bytes, Batch(ctl.epoch, [], [], 0))
                  == Triage(State(), rows[i..], maxBytes, bytes, b)
      {
        assert rows[i..][1..] == rows[i + 1..];
        var key := rows[i].key;
        var q := queue[key];
        var found := q.op.Upsert? && q.op.rowid in fts && fts[q.op.rowid].key == key;
        var doc := if found then Some(fts[q.op.rowid].doc) else None;
        var size := PayloadBytes(key, doc, bytes);
        if (q.op.Upsert? && !found) || size > maxBytes {
          b := b.(rejected := b.rejected + [Item(key, ctl.epoch, q.generation, q.op, None)]);
        } else if b.bytes + size <= maxBytes {
          b := b.(intents := b.intents + [Item(key, ctl.epoch, q.generation, q.op, doc)], bytes := b.bytes + size);
        }
      }
    }

    /** `inspected` lists the intents the call looks at: the oldest that are due, and every one of them is settled. */
    method Select(maxRows: int, maxBytes: int, maxAttempts: int, now: int, bytes: string -> nat)
      returns (r: Result<Batch, MirrorError>, ghost inspected: seq<Slot>)
      ensures r.Err? <==> !(1 <= maxRows <= 100 && 1 <= maxBytes <= 4194304 && 1 <= maxAttempts <= 3)
      ensures r.Ok? && ctl.phase != Replay ==> r.value == Batch(ctl.epoch, [], [], 0)
      ensures r.Ok? && ctl.phase == Replay ==>
                && IsSelection(State(), maxRows, maxBytes, maxAttempts, now, bytes, inspected, r.value)
                && r.value.bytes == Weight(r.value.intents, bytes) && r.value.bytes <= maxBytes
                && (forall i :: i in r.value.intents || i in r.value.rejected ==> OfQueue(State(), i) && HasKey(inspected, i.key))
                && (forall s :: s in inspected ==> s.key in queue && Settled(State(), s, maxBytes, bytes, r.value))
      ensures r.Ok? && ctl.phase == Replay ==>
                forall k :: k in queue && queue[k].epoch == ctl.epoch && queue[k].attempts < maxAttempts && queue[k].availableAt <= now ==>
                  || Slot(queue[k].generation, k) in inspected
                  || (|inspected| == maxRows && forall s :: s in inspected ==>
                        s.generation < queue[k].generation || (s.generation == queue[k].generation && LexLe(s.key, k)))
    {
      inspected := [];
      if !LimitsOk(maxRows, maxBytes, maxAttempts) { return Err(BadLimit), inspected; }
      if ctl.phase != Replay { return Ok(Batch(ctl.epoch, [], [], 0)), inspected; }
      var rows := Candidates(maxRows, maxAttempts, now);
      inspected := rows;
      var b := TriageRows(rows, maxBytes, bytes);
      SelectionSettles(State(), maxRows, maxBytes, maxAttempts, now, bytes, inspected, b);
      return Ok(b), inspected;
    }

    method Admit(b: Batch, maxAttempts: int, now: int) returns (r: Result<seq<Item>, MirrorError>)
      modifies this
      ensures r.Ok? <==> LimitsOk(1, 1, maxAttempts) && |b.intents| + |b.rejected| <= 100 && b.bytes <= MAX_BYTES
      ensures r.Err? ==> State() == old(State())
      ensures r.Ok? ==> (State(), r.value) == Admitted(old(State()), b, maxAttempts, now)
    {
      if !LimitsOk(1, 1, maxAttempts) { return Err(BadLimit); }
      if |b.intents| + |b.rejected| > 100 || b.bytes > MAX_BYTES { return Err(BatchTooLarge); }
      if ctl.epoch != b.epoch || ctl.phase != Replay { return Ok([]); }
      for i := 0 to |b.rejected|
        invariant fts == old(fts) && ledger == old(ledger) && ctl == old(ctl)
        invariant RejectAll(old(queue), b.rejected, maxAttempts) == RejectAll(queue, b.rejected[i..], maxAttempts)
      {
        assert b.rejected[i..][1..] == b.rejected[i + 1..];
        var item := b.rejected[i];
        if item.key in queue && Names(item, item.key, queue[item.key]) {
          queue := queue[item.key := queue[item.key].(attempts := maxAttempts)];
        }
      }
      assert b.rejected[|b.rejected|..] == [];
      ghost var q1 := queue;
      var admitted: seq<Item> := [];
      for i := 0 to |b.intents|
        invariant fts == old(fts) && ledger == old(ledger) && ctl == old(ctl)
        invariant AdmitAll(q1, b.intents, maxAttempts, now).0 == AdmitAll(queue, b.intents[i..], maxAttempts, now).0
        invariant AdmitAll(q1, b.intents, maxAttempts, now).1 == admitted + AdmitAll(queue, b.intents[i..], maxAttempts, now).1
      {
        assert b.intents[i..][1..] == b.intents[i + 1..];
        var item := b.intents[i];
        if item.key in queue && Names(item, item.key, queue[item.key])
           && queue[item.key].attempts < maxAttempts && queue[item.key].availableAt <= now {
          queue := queue[item.key := queue[item.key].(attempts := queue[item.key].attempts + 1)];
          admitted := admitted + [item];
        }
      }
      assert AdmitAll(queue, b.intents[|b.intents|..], maxAttempts, now) == (queue, []) && admitted + [] == admitted;
      assert q1 == RejectAll(old(queue), b.rejected, maxAttempts);
      assert AdmitAll(q1, b.intents, maxAttempts, now).0 == queue;
      assert AdmitAll(q1, b.intents, maxAttempts, now).1 == admitted;
      return Ok(admitted);
    }

    method AckOne(item: Item) returns (n: nat)
      modifies this`queue
      ensures queue == AckedQueue(old(queue), [item])
      ensures n == |old(queue)| - |queue|
    {
      n := 0;
      if item.key in queue && Names(item, item.key, queue[item.key]) {
        assert queue.Keys == (queue - {item.key}).Keys + {item.key};
        assert Names([item][0], item.key, queue[item.key]);
        queue := queue - {item.key};
        n := 1;
      }
      assert forall k :: k in queue ==> !Named([item], k, queue[k]);
    }

    method Ack(items: seq<Item>) returns (r: Result<nat, MirrorError>)
      modifies this
      ensures r.Err? <==> |items| > 100
      ensures r.Err? ==> State() == old(State())
      ensures r.Ok? ==> State() == Acked(old(State()), items) && r.value == |old(queue)| - |queue|
    {
      if |items| > 100 { return Err(BatchTooLarge); }
      var n := 0;
      assert AckedQueue(queue, items[..0]) == queue;
      for i := 0 to |items|
        invariant fts == old(fts) && ledger == old(ledger) && ctl == old(ctl)
        invariant n == |old(queue)| - |queue|
        invariant queue == AckedQueue(old(queue), items[..i])
      {
        var m := AckOne(items[i]);
        n := n + m;
        AckedSnoc(old(queue), items[..i], items[i]);
        assert items[..i + 1] == items[..i] + [items[i]];
      }
      assert items[..|items|] == items;
      return Ok(n);
    }

    method FailOne(item: Item, at: int) returns (found: bool)
      modifies this`queue
      ensures found == Finds(old(queue), item)
      ensures queue == if found then old(queue)[item.key := old(queue)[item.key].(availableAt := at)] else old(queue)
    {
      found := item.key in queue && Names(item, item.key, queue[item.key]);
      if found { queue := queue[item.key := queue[item.key].(availableAt := at)]; }
    }

    method Fail(items: seq<Item>, now: int, delay: int) returns (r: Result<nat, MirrorError>)
      modifies this
      ensures r.Err? <==> !(0 <= delay <= 3600) || |items| > 100
      ensures r.Err? ==> State() == old(State())
      ensures r.Ok? ==> State() == Failed(old(State()), items, now, delay) && r.value == Hits(old(queue), items)
    {
      if !(0 <= delay <= 3600) { return Err(BadDelay); }
      if |items| > 100 { return Err(BatchTooLarge); }
      assert FailedQueue(queue, items[..0], now + delay) == queue;
      var n := 0;
      for i := 0 to |items|
        invariant fts == old(fts) && ledger == old(ledger) && ctl == old(ctl)
        invariant queue == FailedQueue(old(queue), items[..i], now + delay) && n == Hits(old(queue), items[..i])
      {
        var item := items[i];
        FailedSnoc(old(queue), items[..i], item, now + delay);
        assert items[..i + 1] == items[..i] + [item];
        var found := FailOne(item, now + delay);
        if found { n := n + 1; }
      }
      assert items[..|items|] == items;
      return Ok(n);
    }

    method MarkReady(epoch: nat, incarnation: nat) returns (r: Result<bool, MirrorError>)
      modifies this
      ensures r.Err? <==> !UniqueKeys(old(fts))
      ensures r.Err? ==> State() == old(State())
      ensures r.Ok? ==> match MarkedReady(old(State()), epoch, incarnation)
        case Some(d) => r.value && State() == d
        case None => !r.value && State() == old(State())
    {
      var dup := HasDuplicates();
      if dup { return Err(DuplicateKey); }
      if ctl.epoch == epoch && ctl.incarnation == Some(incarnation) && ctl.phase == Replay && queue == map[] {
        ctl := ctl.(phase := Ready);
        return Ok(true);
      }
      return Ok(false);
    }
  }

  lemma NamedCons(items: seq<Item>, key: string, q: Intent)
    requires |items| > 0
    ensures Named(items, key, q) <==> Names(items[0], key, q) || Named(items[1..], key, q)
  {
    if Named(items[1..], key, q) {
      var i :| 0 <= i < |items[1..]| && Names(items[1..][i], key, q);
      assert Names(items[i + 1], key, q);
    }
    if Named(items, key, q) && !Names(items[0], key, q) {
      var i :| 0 <= i < |items| && Names(items[i], key, q);
      assert Names(items[1..][i - 1], key, q);
    }
  }

  lemma NamedSnoc(items: seq<Item>, item: Item, key: string, q: Intent)
    ensures Named(items + [item], key, q) <==> Named(items, key, q) || Names(item, key, q)
  {
    assert (items + [item])[|items|] == item;
    if Named(items, key, q) {
      var i :| 0 <= i < |items| && Names(items[i], key, q);
      assert Names((items + [item])[i], key, q);
    }
  }

  lemma AckedSnoc(queue: map<string, Intent>, items: seq<Item>, item: Item)
    ensures AckedQueue(AckedQueue(queue, items), [item]) == AckedQueue(queue, items + [item])
  {
    forall k | k in queue
      ensures Named(items + [item], k, queue[k]) <==> Named(items, k, queue[k]) || Named([item], k, queue[k])
    {
      NamedSnoc(items, item, k, queue[k]);
      assert [item][0] == item;
    }
  }

  /** The statement for one item, applied after the items before it. */
  lemma FailedSnoc(queue: map<string, Intent>, items: seq<Item>, item: Item, at: int)
    ensures FailedQueue(queue, items + [item], at) ==
            var q := FailedQueue(queue, items, at);
            if Finds(q, item) then q[item.key := q[item.key].(availableAt := at)] else q
    ensures Hits(queue, items + [item]) == Hits(queue, items) + if Finds(FailedQueue(queue, items, at), item) then 1 else 0
  {
    forall k | k in queue
      ensures Named(items + [item], k, queue[k]) <==> Named(items, k, queue[k]) || Names(item, k, queue[k])
    {
      NamedSnoc(items, item, k, queue[k]);
    }
    assert (items + [item])[..|items|] == items;
  }
}
