/**
 * `BatchProcessor`: a keyed debouncer. Items accumulate per key and are
 * handed to one job per flush, when the batch fills up or when its time
 * window has passed. Time is integer seconds.
 */
module Batches {

  const DefaultBatchSize: int := 100
  const DefaultBatchWindow: int := 30

  /** The arguments every job of a batch receives besides the items. */
  type Args = map<string, string>

  /** One row of `batch_processors`. */
  datatype Batch<T> = Batch(
    jobClass: string,
    sharedArgs: Args,
    pendingItems: seq<T>,
    pendingCount: int,
    batchSize: int,
    windowSeconds: int,
    lastProcessedAt: int)

  /** `job_class.perform_later(items, **shared_args)`, with the key of the batch it came from. */
  datatype Job<T> = Job(batchKey: string, jobClass: string, items: seq<T>, sharedArgs: Args)

  /** All batches, their keys in creation order, and the jobs enqueued so far. */
  datatype System<T> = System(keys: seq<string>, table: map<string, Batch<T>>, jobs: seq<Job<T>>)

  function Empty<T>(): System<T> {
    System([], map[], [])
  }

  /** Keys listed once each, exactly the stored ones, and every count equal to its item list's length. */
  ghost predicate WellFormed<T>(sys: System<T>) {
    && (forall i, j :: 0 <= i < j < |sys.keys| ==> sys.keys[i] != sys.keys[j])
    && (forall k :: k in sys.table <==> k in sys.keys)
    && (forall k :: k in sys.table ==> sys.table[k].pendingCount == |sys.table[k].pendingItems|)
  }

  /** What a flush leaves behind: no items, count 0, stamped now. An empty batch is left alone. */
  function Flushed<T>(b: Batch<T>, now: int): (r: Batch<T>)
    ensures b.pendingItems == [] ==> r == b
    ensures b.pendingItems != [] ==> r.pendingItems == [] && r.pendingCount == 0 && r.lastProcessedAt == now
    ensures r.jobClass == b.jobClass && r.sharedArgs == b.sharedArgs
    ensures r.batchSize == b.batchSize && r.windowSeconds == b.windowSeconds
  {
    if b.pendingItems == [] then b else b.(pendingItems := [], pendingCount := 0, lastProcessedAt := now)
  }

  /** `process_batch`: enqueue one job with every pending item, then empty the batch. */
  function ProcessBatch<T>(sys: System<T>, key: string, now: int): (r: System<T>)
    requires key in sys.table
    ensures r.keys == sys.keys && r.table == sys.table[key := Flushed(sys.table[key], now)]
    ensures sys.table[key].pendingItems == [] ==> r == sys
    ensures sys.table[key].pendingItems != [] ==>
              var b := sys.table[key];
              r.jobs == sys.jobs + [Job(key, b.jobClass, b.pendingItems, b.sharedArgs)]
  {
    var b := sys.table[key];
    if b.pendingItems == [] then sys
    else
      System(sys.keys, sys.table[key := Flushed(b, now)], sys.jobs + [Job(key, b.jobClass, b.pendingItems, b.sharedArgs)])
  }

  /** The batch of `key` as `find_or_create_by` yields it: the stored one, or a new empty one. */
  function FindOrCreate<T>(sys: System<T>, key: string, jobClass: string, args: Args, size: int, window: int,
                           now: int): (b: Batch<T>)
    ensures key in sys.table ==> b == sys.table[key]
    ensures key !in sys.table ==> b == Batch(jobClass, args, [], 0, size, window, now)
  {
    if key in sys.table then sys.table[key] else Batch(jobClass, args, [], 0, size, window, now)
  }

  /**
   * `add_to_batch`: append the item, store the count, and flush at once
   * when the batch is full.
   */
  function AddToBatch<T>(sys: System<T>, key: string, jobClass: string, item: T, args: Args,
                         size: int, window: int, now: int): (r: System<T>)
    ensures key in r.table
    ensures var b := FindOrCreate(sys, key, jobClass, args, size, window, now);
            var b' := r.table[key];
            && b'.jobClass == b.jobClass && b'.sharedArgs == b.sharedArgs
            && b'.batchSize == b.batchSize && b'.windowSeconds == b.windowSeconds
            && (|b.pendingItems| + 1 < b.batchSize ==>
                  b'.pendingItems == b.pendingItems + [item] && b'.pendingCount == |b'.pendingItems|
                  && r.jobs == sys.jobs && b'.lastProcessedAt == b.lastProcessedAt)
            && (|b.pendingItems| + 1 >= b.batchSize ==>
                  b'.pendingItems == [] && b'.pendingCount == 0 && b'.lastProcessedAt == now
                  && r.jobs == sys.jobs + [Job(key, b.jobClass, b.pendingItems + [item], b.sharedArgs)])
    ensures forall k :: k in sys.table && k != key ==> k in r.table && r.table[k] == sys.table[k]
  {
    var b := FindOrCreate(sys, key, jobClass, args, size, window, now);
    var items := b.pendingItems + [item];
    var b' := b.(pendingItems := items, pendingCount := |items|);
    var keys := if key in sys.table then sys.keys else sys.keys + [key];
    var sys' := System(keys, sys.table[key := b'], sys.jobs);
    if b'.pendingCount >= b'.batchSize then ProcessBatch(sys', key, now) else sys'
  }

  /** With a positive size, a batch is never left full after an add. */
  lemma AddLeavesRoom<T>(sys: System<T>, key: string, jobClass: string, item: T, args: Args,
                         size: int, window: int, now: int)
    requires key in sys.table ==> sys.table[key].batchSize >= 1
    requires size >= 1
    ensures var r := AddToBatch(sys, key, jobClass, item, args, size, window, now);
            r.table[key].pendingCount < r.table[key].batchSize
  {
  }

  /** `batch.last_processed_at < batch.batch_window_in_seconds.seconds.ago`. */
  predicate Expired<T>(b: Batch<T>, now: int) {
    b.lastProcessedAt < now - b.windowSeconds
  }

  /** `should_process_batch?`: a full batch, or one whose window has passed; nothing else. */
  predicate ShouldProcess<T>(b: Batch<T>, now: int)
    ensures b.pendingCount >= b.batchSize ==> ShouldProcess(b, now)
    ensures Expired(b, now) ==> ShouldProcess(b, now)
    ensures b.pendingCount < b.batchSize && b.lastProcessedAt >= now - b.windowSeconds ==> !ShouldProcess(b, now)
  {
    b.pendingCount >= b.batchSize || Expired(b, now)
  }

  /** What the periodic sweep flushes: pending items and an expired window. */
  predicate Due<T>(b: Batch<T>, now: int) {
    b.pendingCount > 0 && Expired(b, now)
  }

  /** A batch the sweep flushes is one `should_process_batch?` accepts. */
  lemma DueShouldProcess<T>(b: Batch<T>, now: int)
    ensures Due(b, now) ==> ShouldProcess(b, now)
    ensures ShouldProcess(b, now) && b.pendingCount < b.batchSize ==> Expired(b, now)
  {
  }

  /** The sweep over the listed keys, in order. */
  function Sweep<T>(sys: System<T>, ks: seq<string>, now: int): (r: System<T>)
    requires forall i, j :: 0 <= i < j < |ks| ==> ks[i] != ks[j]
    ensures r.keys == sys.keys && r.table.Keys == sys.table.Keys
    ensures forall k :: k in sys.table ==>
              r.table[k] == if k in ks && Due(sys.table[k], now) then Flushed(sys.table[k], now) else sys.table[k]
    decreases |ks|
  {
    if ks == [] then sys
    else
      var k := ks[0];
      var sys' := if k in sys.table && Due(sys.table[k], now) then ProcessBatch(sys, k, now) else sys;
      Sweep(sys', ks[1..], now)
  }

  /**
   * `process_pending_batches`: flush every batch that has pending items and
   * an expired window; leave every other batch as it is.
   */
  function ProcessPendingBatches<T>(sys: System<T>, now: int): (r: System<T>)
    requires WellFormed(sys)
    ensures r.keys == sys.keys && r.table.Keys == sys.table.Keys
    ensures forall k :: k in sys.table && Due(sys.table[k], now) ==>
              r.table[k].pendingItems == [] && r.table[k].pendingCount == 0 && r.table[k].lastProcessedAt == now
    ensures forall k :: k in sys.table && !Due(sys.table[k], now) ==> r.table[k] == sys.table[k]
  {
    Sweep(sys, sys.keys, now)
  }

  // ---------------------------------------------------------- invariants

  lemma AddWellFormed<T>(sys: System<T>, key: string, jobClass: string, item: T, args: Args,
                         size: int, window: int, now: int)
    requires WellFormed(sys)
    ensures WellFormed(AddToBatch(sys, key, jobClass, item, args, size, window, now))
  {
  }

  lemma PendingWellFormed<T>(sys: System<T>, now: int)
    requires WellFormed(sys)
    ensures WellFormed(ProcessPendingBatches(sys, now))
  {
  }

  /** The items the jobs of one key carried, in enqueue order. */
  function FlushedItems<T>(jobs: seq<Job<T>>, key: string): seq<T> {
    if jobs == [] then []
    else
      var last := jobs[|jobs| - 1];
      FlushedItems(jobs[..|jobs| - 1], key) + (if last.batchKey == key then last.items else [])
  }

  /** The items still waiting under a key. */
  function Pending<T>(sys: System<T>, key: string): seq<T> {
    if key in sys.table then sys.table[key].pendingItems else []
  }

  /** Everything ever handed over for a key: what went out in jobs, then what is waiting. */
  function Delivered<T>(sys: System<T>, key: string): seq<T> {
    FlushedItems(sys.jobs, key) + Pending(sys, key)
  }

  lemma FlushedItemsSnoc<T>(jobs: seq<Job<T>>, j: Job<T>, key: string)
    ensures FlushedItems(jobs + [j], key) == FlushedItems(jobs, key) + (if j.batchKey == key then j.items else [])
  {
    assert (jobs + [j])[..|jobs|] == jobs;
  }

  /** A flush moves items from waiting to sent without losing or reordering any. */
  lemma ProcessBatchDelivers<T>(sys: System<T>, key: string, now: int)
    requires key in sys.table
    ensures forall k :: Delivered(ProcessBatch(sys, key, now), k) == Delivered(sys, k)
  {
    var b := sys.table[key];
    if b.pendingItems != [] {
      var j := Job(key, b.jobClass, b.pendingItems, b.sharedArgs);
      forall k
        ensures Delivered(ProcessBatch(sys, key, now), k) == Delivered(sys, k)
      {
        FlushedItemsSnoc(sys.jobs, j, k);
      }
    }
  }

  lemma {:induction false} SweepDelivers<T>(sys: System<T>, ks: seq<string>, now: int)
    requires forall i, j :: 0 <= i < j < |ks| ==> ks[i] != ks[j]
    ensures forall k :: Delivered(Sweep(sys, ks, now), k) == Delivered(sys, k)
    decreases |ks|
  {
    if ks != [] {
      var k := ks[0];
      var sys' := if k in sys.table && Due(sys.table[k], now) then ProcessBatch(sys, k, now) else sys;
      if k in sys.table && Due(sys.table[k], now) {
        ProcessBatchDelivers(sys, k, now);
      }
      SweepDelivers(sys', ks[1..], now);
    }
  }

  /** An add appends the item to what its key has delivered, and nothing to any other key. */
  lemma AddDelivers<T>(sys: System<T>, key: string, jobClass: string, item: T, args: Args,
                       size: int, window: int, now: int)
    ensures var r := AddToBatch(sys, key, jobClass, item, args, size, window, now);
            && Delivered(r, key) == Delivered(sys, key) + [item]
            && forall k :: k != key ==> Delivered(r, k) == Delivered(sys, k)
  {
    var b := FindOrCreate(sys, key, jobClass, args, size, window, now);
    var items := b.pendingItems + [item];
    var b' := b.(pendingItems := items, pendingCount := |items|);
    var keys := if key in sys.table then sys.keys else sys.keys + [key];
    var sys' := System(keys, sys.table[key := b'], sys.jobs);
    assert Delivered(sys', key) == Delivered(sys, key) + [item];
    if b'.pendingCount >= b'.batchSize {
      ProcessBatchDelivers(sys', key, now);
    }
  }

  /** The operations on the batches: an add, or the periodic sweep. */
  datatype Op<T> =
    | Add(key: string, jobClass: string, item: T, args: Args, size: int, window: int, at: int)
    | Tick(at: int)

  function Step<T>(sys: System<T>, op: Op<T>): (r: System<T>)
    requires WellFormed(sys)
    ensures WellFormed(r)
  {
    match op
    case Add(key, jobClass, item, args, size, window, at) =>
      AddWellFormed(sys, key, jobClass, item, args, size, window, at);
      AddToBatch(sys, key, jobClass, item, args, size, window, at)
    case Tick(at) =>
      PendingWellFormed(sys, at);
      ProcessPendingBatches(sys, at)
  }

  /** The state after a run of operations from no batches at all. */
  function Run<T>(ops: seq<Op<T>>): (r: System<T>)
    ensures WellFormed(r)
    decreases |ops|
  {
    if ops == [] then Empty() else Step(Run(ops[..|ops| - 1]), ops[|ops| - 1])
  }

  /** The items added under a key, in order. */
  function Added<T>(ops: seq<Op<T>>, key: string): seq<T>
    decreases |ops|
  {
    if ops == [] then []
    else
      var op := ops[|ops| - 1];
      Added(ops[..|ops| - 1], key) + (if op.Add? && op.key == key then [op.item] else [])
  }

  /**
   * Conservation: the items of every job flushed for a key, followed by the
   * items still pending, are exactly the items added to that key, in order.
   */
  lemma {:induction false} Conservation<T>(ops: seq<Op<T>>, key: string)
    ensures Delivered(Run(ops), key) == Added(ops, key)
    decreases |ops|
  {
    if ops != [] {
      var prev := ops[..|ops| - 1];
      var sys := Run(prev);
      Conservation(prev, key);
      match ops[|ops| - 1]
      case Add(k, jobClass, item, args, size, window, at) =>
        AddDelivers(sys, k, jobClass, item, args, size, window, at);
      case Tick(at) =>
        SweepDelivers(sys, sys.keys, at);
    }
  }
}
