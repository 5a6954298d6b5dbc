// The batch processor: items are cut into consecutive slices of an
// adaptive size, each slice is handed to the per-item processor, and the
// results are gathered in input order with the failed or empty ones
// dropped.  The thread pool over one slice is modelled as a sequential map:
// each result lands at its item's index either way.
module Batches {
  import opened Outcomes

  /**
   * The per-item processor: `Some(r)` for a result, `None` when it
   * returned None or raised.
   */
  type Processor<!T, R> = T -> Option<R>

  function Max(a: int, b: int): int { if a < b then b else a }

  /** The adaptive rule of _determine_batch_size. */
  function BatchSizeFor(batchSize: Option<int>, total: nat): (r: nat)
    ensures r >= 1
    ensures batchSize.Some? ==> r == Max(1, batchSize.value)
    ensures batchSize.None? && total > 0 ==> r <= total
    ensures batchSize.None? && total >= 1000 ==> r >= 50
  {
    if batchSize.Some? then Max(1, batchSize.value)
    else if total < 100 then Max(1, total / 4)
    else if total < 1000 then Max(10, total / 10)
    else Max(50, total / 20)
  }

  /** The results of `items` in input order, the dropped ones left out. */
  function Collect<T, R>(items: seq<T>, f: Processor<T, R>): seq<R>
    decreases |items|
  {
    if items == [] then []
    else
      var last := f(items[|items| - 1]);
      Collect(items[..|items| - 1], f) + (if last.Some? then [last.value] else [])
  }

  /** Collecting slice by slice is collecting the whole. */
  lemma {:induction false} CollectAppend<T, R>(a: seq<T>, b: seq<T>, f: Processor<T, R>)
    ensures Collect(a + b, f) == Collect(a, f) + Collect(b, f)
    decreases |b|
  {
    if b == [] {
      assert a + b == a;
    } else {
      var b' := b[..|b| - 1];
      assert (a + b)[..|a + b| - 1] == a + b';
      assert (a + b)[|a + b| - 1] == b[|b| - 1];
      CollectAppend(a, b', f);
    }
  }

  /** A value is collected exactly when some item produced it. */
  lemma {:induction false} CollectMembers<T, R>(items: seq<T>, f: Processor<T, R>, r: R)
    ensures r in Collect(items, f) <==> exists i :: 0 <= i < |items| && f(items[i]) == Some(r)
    decreases |items|
  {
    if items != [] {
      var init := items[..|items| - 1];
      CollectMembers(init, f, r);
      if exists i :: 0 <= i < |init| && f(init[i]) == Some(r) {
        var i :| 0 <= i < |init| && f(init[i]) == Some(r);
        assert items[i] == init[i];
      }
      if exists i :: 0 <= i < |items| && f(items[i]) == Some(r) {
        var i :| 0 <= i < |items| && f(items[i]) == Some(r);
        if i < |init| {
          assert init[i] == items[i];
        }
      }
    }
  }

  /** When no item is dropped, the results are the items' results, one for one and in order. */
  lemma {:induction false} CollectNoneDropped<T, R>(items: seq<T>, f: Processor<T, R>)
    requires forall i | 0 <= i < |items| :: f(items[i]).Some?
    ensures |Collect(items, f)| == |items|
    ensures forall i | 0 <= i < |items| :: Collect(items, f)[i] == f(items[i]).value
    decreases |items|
  {
    if items != [] {
      var init := items[..|items| - 1];
      assert forall i | 0 <= i < |init| :: init[i] == items[i];
      CollectNoneDropped(init, f);
    }
  }

  /** The slices cover the items in order, every one `size` long except a shorter non-empty last one. */
  ghost predicate Slices<T>(batches: seq<seq<T>>, items: seq<T>, size: nat) {
    Flatten(batches) == items && SliceShape(batches, size, true)
  }

  /** Non-empty slices of at most `size`, all but the last exactly `size`; a short last one only when `done`. */
  ghost predicate SliceShape<T>(batches: seq<seq<T>>, size: nat, done: bool) {
    (forall b | 0 <= b < |batches| :: 0 < |batches[b]| <= size)
    && (forall b | 0 <= b < |batches| - 1 :: |batches[b]| == size)
    && (batches != [] && |batches[|batches| - 1]| < size ==> done)
  }

  lemma ShapeStep<T>(batches: seq<seq<T>>, batch: seq<T>, size: nat, done: bool)
    requires SliceShape(batches, size, false)
    requires 0 < |batch| <= size && (|batch| < size ==> done)
    ensures SliceShape(batches + [batch], size, done)
  {
  }

  function Flatten<T>(bs: seq<seq<T>>): seq<T>
    decreases |bs|
  {
    if bs == [] then [] else Flatten(bs[..|bs| - 1]) + bs[|bs| - 1]
  }

  lemma FlattenSnoc<T>(bs: seq<seq<T>>, b: seq<T>)
    ensures Flatten(bs + [b]) == Flatten(bs) + b
  {
    assert (bs + [b])[..|bs|] == bs;
  }

  class BatchProcessor {
    var maxWorkers: int
    var batchSize: Option<int>
    var showProgress: bool
    var totalItems: nat
    var processedItems: nat

    /**
     * `maxWorkers` falls back to twice the CPU count, at most 32, when it is
     * None or 0; `cpuCount` is what the operating system reports (None as 1).
     */
    constructor(maxWorkers: Option<int>, batchSize: Option<int>, showProgress: bool, cpuCount: Option<int>)
      ensures this.maxWorkers == if maxWorkers.Some? && maxWorkers.value != 0 then maxWorkers.value
        else var cpu := if cpuCount.Some? && cpuCount.value != 0 then cpuCount.value else 1;
          if cpu * 2 < 32 then cpu * 2 else 32
      ensures this.batchSize == batchSize && this.showProgress == showProgress
      ensures totalItems == 0 && processedItems == 0
    {
      var cpu := if cpuCount.Some? && cpuCount.value != 0 then cpuCount.value else 1;
      this.maxWorkers := if maxWorkers.Some? && maxWorkers.value != 0 then maxWorkers.value
        else if cpu * 2 < 32 then cpu * 2 else 32;
      this.batchSize := batchSize;
      this.showProgress := showProgress;
      totalItems := 0;
      processedItems := 0;
    }

    /** One slice: each item's result stored at its index, then the empty ones dropped. */
    method ProcessBatch<T, R>(batch: seq<T>, f: Processor<T, R>) returns (rs: seq<R>)
      ensures rs == Collect(batch, f)
    {
      if |batch| == 0 {
        return [];
      }
      var slots := new Option<R>[|batch|](_ => None);
      var i := 0;
      while i < |batch|
        invariant i <= |batch|
        invariant forall j | 0 <= j < i :: slots[j] == f(batch[j])
      {
        slots[i] := f(batch[i]);
        i := i + 1;
      }
      rs := [];
      i := 0;
      while i < slots.Length
        invariant i <= slots.Length == |batch|
        invariant rs == Collect(batch[..i], f)
      {
        assert batch[..i + 1][..i] == batch[..i];
        if slots[i].Some? {
          rs := rs + [slots[i].value];
        }
        i := i + 1;
      }
      assert batch[..i] == batch;
    }

    /** The slice loop shared by both entry points. */
    method RunBatches<T, R>(items: seq<T>, f: Processor<T, R>, size: nat) returns (results: seq<R>, ghost batches: seq<seq<T>>)
      requires size >= 1 && processedItems == 0
      modifies this
      ensures results == Collect(items, f)
      ensures Slices(batches, items, size)
      ensures processedItems == |items|
      ensures maxWorkers == old(maxWorkers) && batchSize == old(batchSize)
      ensures showProgress == old(showProgress) && totalItems == old(totalItems)
    {
      results := [];
      batches := [];
      var i := 0;
      while i < |items|
        invariant i <= |items| && processedItems == i
        invariant results == Collect(items[..i], f)
        invariant Flatten(batches) == items[..i]
        invariant SliceShape(batches, size, i == |items|)
        invariant maxWorkers == old(maxWorkers) && batchSize == old(batchSize)
        invariant showProgress == old(showProgress) && totalItems == old(totalItems)
      {
        var end := if i + size < |items| then i + size else |items|;
        var batch := items[i..end];
        var batchResults := ProcessBatch(batch, f);
        CollectSlice(items, i, end, f);
        results := results + batchResults;
        FlattenSlice(batches, items, i, end);
        ShapeStep(batches, batch, size, end == |items|);
        batches := batches + [batch];
        processedItems := processedItems + |batch|;
        i := end;
      }
      assert items[..i] == items;
    }

    /** process_items: the results of all items in input order, the dropped ones left out. */
    method ProcessItems<T, R>(items: seq<T>, f: Processor<T, R>) returns (results: seq<R>, ghost batches: seq<seq<T>>)
      modifies this
      ensures results == Collect(items, f)
      ensures totalItems == |items|
      ensures items != [] ==> processedItems == |items| && Slices(batches, items, BatchSizeFor(batchSize, |items|))
      ensures items == [] ==> processedItems == old(processedItems)
      ensures maxWorkers == old(maxWorkers) && batchSize == old(batchSize) && showProgress == old(showProgress)
    {
      totalItems := |items|;
      if totalItems == 0 {
        return [], [];
      }
      processedItems := 0;
      var size := BatchSizeFor(batchSize, totalItems);
      results, batches := RunBatches(items, f, size);
    }

    /** process_with_collector: the collector applied to all results, in input order. */
    method ProcessWithCollector<T, R, C>(items: seq<T>, f: Processor<T, R>, collector: seq<R> -> C)
      returns (c: C, ghost batches: seq<seq<T>>)
      modifies this
      ensures c == collector(Collect(items, f))
      ensures totalItems == |items|
      ensures items != [] ==> processedItems == |items| && Slices(batches, items, BatchSizeFor(batchSize, |items|))
      ensures items == [] ==> processedItems == old(processedItems)
      ensures maxWorkers == old(maxWorkers) && batchSize == old(batchSize) && showProgress == old(showProgress)
    {
      totalItems := |items|;
      if totalItems == 0 {
        return collector([]), [];
      }
      processedItems := 0;
      var size := BatchSizeFor(batchSize, totalItems);
      var all;
      all, batches := RunBatches(items, f, size);
      c := collector(all);
    }
  }

  lemma CollectSlice<T, R>(items: seq<T>, i: nat, end: nat, f: Processor<T, R>)
    requires i <= end <= |items|
    ensures Collect(items[..end], f) == Collect(items[..i], f) + Collect(items[i..end], f)
  {
    CollectAppend(items[..i], items[i..end], f);
    assert items[..i] + items[i..end] == items[..end];
  }

  lemma FlattenSlice<T>(batches: seq<seq<T>>, items: seq<T>, i: nat, end: nat)
    requires i <= end <= |items| && Flatten(batches) == items[..i]
    ensures Flatten(batches + [items[i..end]]) == items[..end]
  {
    FlattenSnoc(batches, items[i..end]);
    assert items[..i] + items[i..end] == items[..end];
  }

  /** The module-level process_items: a fresh processor with the given settings. */
  method ProcessItemsWith<T, R>(items: seq<T>, f: Processor<T, R>, maxWorkers: Option<int>, batchSize: Option<int>,
                                showProgress: bool, cpuCount: Option<int>) returns (results: seq<R>)
    ensures results == Collect(items, f)
  {
    var processor := new BatchProcessor(maxWorkers, batchSize, showProgress, cpuCount);
    ghost var batches;
    results, batches := processor.ProcessItems(items, f);
  }

  /** The module-level process_with_collector. */
  method ProcessWithCollectorWith<T, R, C>(items: seq<T>, f: Processor<T, R>, collector: seq<R> -> C,
                                           maxWorkers: Option<int>, batchSize: Option<int>, showProgress: bool,
                                           cpuCount: Option<int>) returns (c: C)
    ensures c == collector(Collect(items, f))
  {
    var processor := new BatchProcessor(maxWorkers, batchSize, showProgress, cpuCount);
    ghost var batches;
    c, batches := processor.ProcessWithCollector(items, f, collector);
  }
}
