/** Greedy batching of embedding inputs (`vector_lake/embedding_scheduler.py`, `_batch_items`). */
module Batching {
  import opened Sequences
  import opened Ordering

  datatype Item = Item(nodeKey: string, tokens: int)

  datatype Caps = Caps(maxBatchItems: int, maxBatchTokens: int, effectiveTpm: int) {
    function Items(): int { Max(1, maxBatchItems) }
    function BatchTokens(): int { Max(1, if maxBatchTokens <= effectiveTpm then maxBatchTokens else effectiveTpm) }
  }

  function Cost(item: Item): nat { Max(1, item.tokens) }

  function Total(batch: seq<Item>): nat {
    if batch == [] then 0 else Total(batch[..|batch| - 1]) + Cost(batch[|batch| - 1])
  }

  /** Within both caps, or a single item that no batch could hold within the token cap. */
  predicate Legal(batch: seq<Item>, caps: Caps) {
    |batch| <= caps.Items() && (Total(batch) <= caps.BatchTokens() || |batch| == 1)
  }

  /** The caps are at least one; a batch of several items obeys both, the smaller of the two token caps counting. */
  lemma LegalIff(batch: seq<Item>, caps: Caps)
    ensures Legal(batch, caps) <==>
              && (|batch| <= 1 || |batch| <= caps.maxBatchItems)
              && (|batch| <= 1 || Total(batch) <= 1 || (Total(batch) <= caps.maxBatchTokens && Total(batch) <= caps.effectiveTpm))
  {
  }

  predicate AllLegal(batches: seq<seq<Item>>, caps: Caps) { forall i | 0 <= i < |batches| :: Legal(batches[i], caps) }

  predicate CouldTakeFirst(batch: seq<Item>, next: seq<Item>, caps: Caps)
    requires |next| > 0
  {
    Legal(batch + [next[0]], caps)
  }

  /** No batch could have taken the first item of the next one. */
  predicate Filled(batches: seq<seq<Item>>, caps: Caps) {
    && (forall i | 0 <= i < |batches| :: |batches[i]| > 0)
    && (forall i | 0 <= i < |batches| - 1 :: ClosedInTime(batches, i, caps))
  }

  predicate ClosedInTime(batches: seq<seq<Item>>, i: nat, caps: Caps)
    requires i < |batches| - 1
  {
    |batches[i + 1]| > 0 && !CouldTakeFirst(batches[i], batches[i + 1], caps)
  }

  /** After the items of `done`: the batches that are closed and the one being filled. */
  predicate Progress(done: seq<Item>, batches: seq<seq<Item>>, current: seq<Item>, caps: Caps) {
    && Flatten(batches) + current == done
    && AllLegal(batches, caps) && Filled(batches, caps) && Legal(current, caps)
    && (|batches| > 0 ==> |current| > 0 && !CouldTakeFirst(batches[|batches| - 1], current, caps))
  }

  /** Order and content are kept, both caps are obeyed, and no order-preserving split into legal
      batches is shorter. */
  method BatchItems(items: seq<Item>, caps: Caps) returns (batches: seq<seq<Item>>)
    ensures Flatten(batches) == items
    ensures AllLegal(batches, caps) && Filled(batches, caps)
    ensures forall other | Flatten(other) == items && AllLegal(other, caps) :: |batches| <= |other|
  {
    batches := Nothing();
    var current := Nothing();
    var currentTokens := 0;
    Started(items[..0], batches, current, caps);
    for i := 0 to |items|
      invariant currentTokens == Total(current) && Progress(items[..i], batches, current, caps)
    {
      var item := items[i];
      assert items[..i + 1] == items[..i] + [item];
      var itemTokens := Max(1, item.tokens);
      if |current| > 0 && (|current| >= caps.maxBatchItems || currentTokens + itemTokens > caps.BatchTokens()) {
        var none := Nothing();
        Closed(items[..i], batches, current, item, none, caps);
        batches := batches + [current];
        current := none;
        currentTokens := 0;
      } else {
        Grown(items[..i], batches, current, item, caps);
      }
      current := current + [item];
      currentTokens := currentTokens + itemTokens;
    }
    assert items[..|items|] == items;
    Finished(items, batches, current, caps);
    if |current| > 0 {
      batches := batches + [current];
    }
  }

  lemma Started(done: seq<Item>, batches: seq<seq<Item>>, current: seq<Item>, caps: Caps)
    requires |done| == 0 && |batches| == 0 && |current| == 0
    ensures Progress(done, batches, current, caps) && Total(current) == 0
  {
    assert Flatten(batches) + current == done;
  }

  /** What the loop leaves, with the last batch closed, is a shortest legal split. */
  lemma Finished(items: seq<Item>, batches: seq<seq<Item>>, current: seq<Item>, caps: Caps)
    requires Progress(items, batches, current, caps)
    ensures var all := if |current| > 0 then batches + [current] else batches;
      && Flatten(all) == items && AllLegal(all, caps) && Filled(all, caps)
      && forall other | Flatten(other) == items && AllLegal(other, caps) :: |all| <= |other|
  {
    if |current| > 0 {
      PushKeeps(batches, current, caps);
      NoneIsShorter(batches + [current], caps);
    } else {
      assert Flatten(batches) + current == Flatten(batches);
      NoneIsShorter(batches, caps);
    }
  }

  lemma Grown(done: seq<Item>, batches: seq<seq<Item>>, current: seq<Item>, item: Item, caps: Caps)
    requires Progress(done, batches, current, caps)
    requires |current| == 0 || (|current| < caps.maxBatchItems && Total(current) + Cost(item) <= caps.BatchTokens())
    ensures Progress(done + [item], batches, current + [item], caps) && Total(current + [item]) == Total(current) + Cost(item)
  {
    OneIsLegal(item, caps);
    TakesFirstIff(current, item, caps);
    assert |current| == 0 ==> current + [item] == [item];
    ConcatAssociates(Flatten(batches), current, [item]);
  }

  lemma Closed(done: seq<Item>, batches: seq<seq<Item>>, current: seq<Item>, item: Item, none: seq<Item>, caps: Caps)
    requires Progress(done, batches, current, caps) && |current| > 0 && |none| == 0
    requires |current| >= caps.maxBatchItems || Total(current) + Cost(item) > caps.BatchTokens()
    ensures Progress(done + [item], batches + [current], none + [item], caps) && Total(none + [item]) == Cost(item)
  {
    assert none + [item] == [item];
    TakesFirstIff(current, item, caps);
    OneIsLegal(item, caps);
    PushKeeps(batches, current, caps);
  }

  lemma NoneIsShorter(batches: seq<seq<Item>>, caps: Caps)
    requires Filled(batches, caps)
    ensures forall other | Flatten(other) == Flatten(batches) && AllLegal(other, caps) :: |batches| <= |other|
  {
    forall other | Flatten(other) == Flatten(batches) && AllLegal(other, caps) ensures |batches| <= |other| {
      var none: seq<Item> :| |none| == 0;
      assert Flatten(other) == none + Flatten(batches);
      StaysAhead(batches, other, none, caps);
    }
  }

  /** The loop's test: a started batch takes the item exactly when it stays legal. */
  lemma TakesFirstIff(batch: seq<Item>, item: Item, caps: Caps)
    requires Legal(batch, caps)
    ensures Total(batch + [item]) == Total(batch) + Cost(item)
    ensures |batch| > 0 ==>
      (CouldTakeFirst(batch, [item], caps) <==> |batch| < caps.maxBatchItems && Total(batch) + Cost(item) <= caps.BatchTokens())
  {
    assert (batch + [item])[..|batch|] == batch && (batch + [item])[|batch|] == item;
  }

  lemma OneIsLegal(item: Item, caps: Caps)
    ensures Legal([item], caps) && Total([item]) == Cost(item)
  {
    assert |[item][..0]| == 0;
  }

  lemma PushKeeps(batches: seq<seq<Item>>, current: seq<Item>, caps: Caps)
    requires AllLegal(batches, caps) && Filled(batches, caps) && Legal(current, caps) && |current| > 0
    requires |batches| > 0 ==> !CouldTakeFirst(batches[|batches| - 1], current, caps)
    ensures AllLegal(batches + [current], caps) && Filled(batches + [current], caps)
    ensures Flatten(batches + [current]) == Flatten(batches) + current
  {
    PushStaysFilled(batches, current, caps);
    assert (batches + [current])[..|batches|] == batches;
  }

  lemma PushStaysFilled(batches: seq<seq<Item>>, current: seq<Item>, caps: Caps)
    requires Filled(batches, caps) && |current| > 0
    requires |batches| > 0 ==> !CouldTakeFirst(batches[|batches| - 1], current, caps)
    ensures Filled(batches + [current], caps)
  {
    var after := batches + [current];
    forall i | 0 <= i < |after| - 1 ensures ClosedInTime(after, i, caps) {
      assert after[i] == batches[i];
      if i < |batches| - 1 {
        assert ClosedInTime(batches, i, caps) && after[i + 1] == batches[i + 1];
      } else {
        assert after[i + 1] == current;
      }
    }
  }

  lemma TailIsFilled(batches: seq<seq<Item>>, caps: Caps)
    requires Filled(batches, caps) && |batches| > 0
    ensures Filled(batches[1..], caps) && (|batches| > 1 ==> ClosedInTime(batches, 0, caps))
  {
    forall i | 0 <= i < |batches[1..]| - 1 ensures ClosedInTime(batches[1..], i, caps) {
      assert ClosedInTime(batches, i + 1, caps);
    }
  }

  lemma {:induction false} TotalSplits(a: seq<Item>, b: seq<Item>)
    ensures Total(a + b) == Total(a) + Total(b)
  {
    if |b| == 0 {
      assert a + b == a;
    } else {
      var n := |b| - 1;
      TotalSplits(a, b[..n]);
      assert (a + b)[..|a + b| - 1] == a + b[..n];
    }
  }

  lemma PartTotals(batch: seq<Item>, lo: nat, hi: nat)
    requires lo <= hi <= |batch|
    ensures Total(batch[lo..hi]) <= Total(batch)
  {
    assert batch[..lo] + batch[lo..hi] == batch[..hi] && batch[..hi] + batch[hi..] == batch;
    TotalSplits(batch[..lo], batch[lo..hi]);
    TotalSplits(batch[..hi], batch[hi..]);
  }

  /** A stretch out of a legal batch is legal. */
  lemma PartsAreLegal(batch: seq<Item>, lo: nat, hi: nat, caps: Caps)
    requires Legal(batch, caps) && lo <= hi <= |batch|
    ensures Legal(batch[lo..hi], caps)
  {
    PartTotals(batch, lo, hi);
    if |batch| == 1 && hi - lo == 1 { assert batch[lo..hi] == batch; }
    if hi == lo { assert Total(batch[lo..hi]) == 0; }
  }

  /** Greedy stays ahead: splitting the rest of what `other` splits never takes more batches. */
  lemma {:induction false} StaysAhead(batches: seq<seq<Item>>, other: seq<seq<Item>>, skipped: seq<Item>, caps: Caps)
    requires AllLegal(other, caps) && Filled(batches, caps)
    requires Flatten(other) == skipped + Flatten(batches)
    ensures |batches| <= |other|
    decreases |other|
  {
    if |batches| > 0 {
      FlattenHead(batches);
      TailIsFilled(batches, caps);
      assert |other| == 0 ==> |Flatten(other)| == 0;
      FlattenHead(other);
      var o, first := other[0], batches[0];
      if |o| <= |skipped| {
        Suffixes(o, Flatten(other[1..]), skipped, Flatten(batches));
        StaysAhead(batches, other[1..], skipped[|o|..], caps);
      } else {
        if |o| > |skipped| + |first| {
          OneMoreFits(batches, o, skipped, Flatten(other[1..]), caps);
        }
        ConcatAssociates(skipped, first, Flatten(batches[1..]));
        Suffixes(o, Flatten(other[1..]), skipped + first, Flatten(batches[1..]));
        StaysAhead(batches[1..], other[1..], (skipped + first)[|o|..], caps);
      }
    }
  }

  lemma Suffixes(a: seq<Item>, b: seq<Item>, c: seq<Item>, d: seq<Item>)
    requires a + b == c + d && |a| <= |c|
    ensures b == c[|a|..] + d
  {
    assert (a + b)[|a|..] == (c + d)[|a|..];
  }

  lemma OneMoreFits(batches: seq<seq<Item>>, o: seq<Item>, skipped: seq<Item>, rest: seq<Item>, caps: Caps)
    requires |batches| > 0 && Legal(o, caps) && forall i | 0 <= i < |batches| :: |batches[i]| > 0
    requires o + rest == skipped + Flatten(batches) && |o| > |skipped| + |batches[0]|
    ensures |batches| > 1 && CouldTakeFirst(batches[0], batches[1], caps)
  {
    FlattenHead(batches);
    HeadOf(batches);
    var head := batches[0] + [batches[1][0]];
    var lo, hi := |skipped|, |skipped| + |head|;
    assert forall k | lo <= k < hi :: o[k] == (o + rest)[k] == (skipped + Flatten(batches))[k] == Flatten(batches)[..|head|][k - lo];
    assert o[lo..hi] == head;
    PartsAreLegal(o, lo, hi, caps);
  }

  lemma HeadOf(batches: seq<seq<Item>>)
    requires |batches| > 1 && forall i | 0 <= i < |batches| :: |batches[i]| > 0
    ensures |Flatten(batches)| > |batches[0]|
    ensures Flatten(batches)[..|batches[0]| + 1] == batches[0] + [batches[1][0]]
  {
    FlattenHead(batches);
    FlattenHead(batches[1..]);
    assert Flatten(batches[1..])[0] == batches[1][0];
  }
}
