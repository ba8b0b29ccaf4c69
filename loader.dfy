/**
 * The search-engine loaders: each drains records from the shared channel, converts every record
 * into an index request and sends a bulk request as soon as it holds Limit actions; the rest goes
 * out in one last bulk when the channel is closed.
 */
module Loader {
  import opened Base
  import opened Records
  import opened Batches
  import opened Counters

  /** Limit is a uint16. */
  const MaxLimit: nat := 0xFFFF

  /**
   * The size a bulk has when it is flushed: the buffer is checked right after each add, so with
   * a Limit of 0 every single action is flushed on its own.
   */
  function BatchSize(limit: nat): (k: nat)
    ensures k > 0 && (limit > 0 ==> k == limit)
  {
    if limit == 0 then 1 else limit
  }

  predicate AllConvertible(records: seq<Record>, source: Source)
  {
    forall i :: 0 <= i < |records| ==> Convertible(records[i], source)
  }

  /** The index requests made of the records, in order, for the given suggestion orders. */
  function Ops(records: seq<Record>, source: Source, orders: seq<seq<string>>): (ops: seq<Op>)
    requires AllConvertible(records, source) && |orders| == |records|
    ensures |ops| == |records|
  {
    if records == [] then []
    else Ops(Init(records), source, Init(orders)) + [OpOf(Last(records), source, Last(orders))]
  }

  ghost predicate OrdersFor(records: seq<Record>, orders: seq<seq<string>>)
  {
    |orders| == |records| && forall i :: 0 <= i < |records| ==> OrderFor(records[i], orders[i])
  }

  /** Each request is the conversion of the record at the same position. */
  lemma {:induction false} OpsAt(records: seq<Record>, source: Source, orders: seq<seq<string>>, i: nat)
    requires AllConvertible(records, source) && |orders| == |records| && i < |records|
    ensures Ops(records, source, orders)[i] == OpOf(records[i], source, orders[i])
    decreases |records|
  {
    if i < |records| - 1 {
      OpsAt(Init(records), source, Init(orders), i);
    }
  }

  /** Converting one more record appends its request. */
  lemma OpsSnoc(records: seq<Record>, i: nat, source: Source, orders: seq<seq<string>>, order: seq<string>)
    requires i < |records| && AllConvertible(records, source) && OrdersFor(records[..i], orders)
    requires OrderFor(records[i], order)
    ensures AllConvertible(records[..i + 1], source) && OrdersFor(records[..i + 1], orders + [order])
    ensures Ops(records[..i + 1], source, orders + [order])
      == Ops(records[..i], source, orders) + [OpOf(records[i], source, order)]
  {
    assert Init(records[..i + 1]) == records[..i] && Last(records[..i + 1]) == records[i];
    assert Init(orders + [order]) == orders;
  }

  /** A flush of k actions moves the counter on by k, modulo 2^64. */
  lemma CountStep(v: nat, flushed: nat, k: nat, value: nat)
    requires value == (Wrap(v + flushed) + k) % U64
    ensures value == Wrap(v + (flushed + k))
  {
    WrapIsMod(v + flushed);
    WrapIsMod(v + (flushed + k));
    ModAdd(v + flushed, k);
  }

  /**
   * Adds one action to the buffer and, when that brings it to the batch size, sends it as a bulk
   * and counts its actions.
   */
  method Push<T>(ops: seq<T>, bulks: seq<seq<T>>, bulk: seq<T>, x: T, limit: nat, totalSend: Counter,
                 ghost flushed: nat, ghost c: nat, ghost v: nat)
    returns (bulks': seq<seq<T>>, bulk': seq<T>, ghost flushed': nat, ghost c': nat)
    requires limit <= MaxLimit && Buffered(ops, bulks, bulk, flushed, c, BatchSize(limit))
    requires Counting(totalSend, v, flushed)
    modifies totalSend
    ensures Buffered(ops + [x], bulks', bulk', flushed', c', BatchSize(limit))
    ensures Counting(totalSend, v, flushed')
  {
    var k := BatchSize(limit);
    if |bulk| + 1 >= limit {
      FlushStep(ops, bulks, bulk, flushed, c, k, x, ops + [x]);
      bulk' := bulk + [x];
      totalSend.Add(|bulk'|);
      CountStep(v, flushed, k, totalSend.value);
      bulks' := bulks + [bulk'];
      c' := c + 1;
      flushed' := flushed + k;
      bulk' := [];
    } else {
      KeepStep(ops, bulks, bulk, flushed, c, k, x, ops + [x]);
      bulks' := bulks;
      bulk' := bulk + [x];
      c' := c;
      flushed' := flushed;
    }
  }

  /** Converts the next record: its request joins those of the records before it. */
  method ConvertNext(records: seq<Record>, i: nat, source: Source, ops: seq<Op>, ghost orders: seq<seq<string>>)
    returns (op: Op, ghost order: seq<string>)
    requires i < |records| && AllConvertible(records, source)
    requires OrdersFor(records[..i], orders) && ops == Ops(records[..i], source, orders)
    ensures OrdersFor(records[..i + 1], orders + [order]) && ops + [op] == Ops(records[..i + 1], source, orders + [order])
  {
    op, order := Convert(records[i], source);
    OpsSnoc(records, i, source, orders, order);
  }

  /**
   * One loader over the records it receives, in order. Returns the bulks it sends, which are
   * the records' conversions cut into batches of BatchSize(limit); the send counter grows by the
   * actions of the full bulks only: the last, short bulk is sent without being counted.
   */
  method ProcessFetchedRecords(records: seq<Record>, limit: nat, source: Source, totalSend: Counter)
    returns (ops: seq<Op>, bulks: seq<seq<Op>>, ghost orders: seq<seq<string>>)
    requires AllConvertible(records, source)
    requires limit <= MaxLimit && totalSend.Valid()
    modifies totalSend
    ensures OrdersFor(records, orders) && ops == Ops(records, source, orders)
    ensures bulks == Chunks(ops, BatchSize(limit))
    ensures totalSend.Valid()
    ensures totalSend.value == (old(totalSend.value) + FullBatches(|records|, BatchSize(limit))) % U64
  {
    ghost var flushed;
    ops, bulks, orders, flushed := LoadAll(records, limit, source, totalSend, totalSend.value);
    WrapIsMod(old(totalSend.value) + flushed);
  }

  /** The counter holds its start value v plus the `flushed` actions counted so far, wrapped at 2^64. */
  ghost predicate Counting(counter: Counter, v: nat, flushed: nat)
    reads counter
  {
    counter.Valid() && counter.value == Wrap(v + flushed)
  }

  /** The loop of processFetchedRecords, with `flushed` the actions counted. */
  method LoadAll(records: seq<Record>, limit: nat, source: Source, totalSend: Counter, ghost v: nat)
    returns (ops: seq<Op>, bulks: seq<seq<Op>>, ghost orders: seq<seq<string>>, ghost flushed: nat)
    requires AllConvertible(records, source)
    requires limit <= MaxLimit && totalSend.Valid() && totalSend.value == v
    modifies totalSend
    ensures OrdersFor(records, orders) && ops == Ops(records, source, orders)
    ensures bulks == Chunks(ops, BatchSize(limit))
    ensures Counting(totalSend, v, flushed)
    ensures flushed == FullBatches(|records|, BatchSize(limit))
  {
    ops := [];
    bulks := [];
    orders := [];
    var bulk: seq<Op> := [];
    ghost var c: nat := 0;
    flushed := 0;
    var i := 0;
    LoadStart(records, source, limit, v);
    while i < |records|
      invariant i <= |records| && Loading(records[..i], source, limit, ops, bulks, bulk, orders, flushed, c)
      invariant Counting(totalSend, v, flushed)
    {
      ops, bulks, bulk, orders, flushed, c := LoadNext(records, i, source, limit, totalSend, ops, bulks, bulk, orders, flushed, c, v);
      i := i + 1;
    }
    assert records[..i] == records;
    LoadFinished(records, source, limit, ops, bulks, bulk, orders, flushed, c);
    if |bulk| > 0 {
      bulks := bulks + [bulk];
    }
  }

  /**
   * A loader after some records: their actions, in order, flushed in full bulks with the short
   * rest in the buffer.
   */
  ghost predicate Loading(done: seq<Record>, source: Source, limit: nat, ops: seq<Op>, bulks: seq<seq<Op>>,
                          bulk: seq<Op>, orders: seq<seq<string>>, flushed: nat, c: nat)
  {
    AllConvertible(done, source) && OrdersFor(done, orders) && ops == Ops(done, source, orders)
    && Buffered(ops, bulks, bulk, flushed, c, BatchSize(limit))
  }

  /** Before the first record: nothing converted, nothing flushed, the counter as it was. */
  lemma LoadStart(records: seq<Record>, source: Source, limit: nat, v: nat)
    requires v < U64
    ensures Loading(records[..0], source, limit, [], [], [], [], 0, 0)
    ensures v == Wrap(v + 0)
  {
    assert v + 0 == v;
    assert records[..0] == [];
    assert Times(0, BatchSize(limit)) == 0;
  }

  /** One record received: convert it and push its action. */
  method LoadNext(records: seq<Record>, i: nat, source: Source, limit: nat, totalSend: Counter,
                  ops: seq<Op>, bulks: seq<seq<Op>>, bulk: seq<Op>, ghost orders: seq<seq<string>>,
                  ghost flushed: nat, ghost c: nat, ghost v: nat)
    returns (ops': seq<Op>, bulks': seq<seq<Op>>, bulk': seq<Op>, ghost orders': seq<seq<string>>,
             ghost flushed': nat, ghost c': nat)
    requires i < |records| && AllConvertible(records, source) && limit <= MaxLimit
    requires Loading(records[..i], source, limit, ops, bulks, bulk, orders, flushed, c)
    requires Counting(totalSend, v, flushed)
    modifies totalSend
    ensures Loading(records[..i + 1], source, limit, ops', bulks', bulk', orders', flushed', c')
    ensures Counting(totalSend, v, flushed')
  {
    var op, order := ConvertNext(records, i, source, ops, orders);
    bulks', bulk', flushed', c' := Push(ops, bulks, bulk, op, limit, totalSend, flushed, c, v);
    ops' := ops + [op];
    orders' := orders + [order];
  }

  /** When the records end: all of them converted, and the counter has every full bulk. */
  lemma LoadFinished(records: seq<Record>, source: Source, limit: nat, ops: seq<Op>, bulks: seq<seq<Op>>, bulk: seq<Op>,
                     orders: seq<seq<string>>, flushed: nat, c: nat)
    requires Loading(records, source, limit, ops, bulks, bulk, orders, flushed, c)
    ensures (if |bulk| > 0 then bulks + [bulk] else bulks) == Chunks(ops, BatchSize(limit))
    ensures flushed == FullBatches(|records|, BatchSize(limit))
  {
    LastFlush(ops, bulks, bulk, flushed, c, BatchSize(limit));
    assert |ops| == |records|;
    FullBatchesFloor(|records|, BatchSize(limit));
  }

  /** What one loader did with the records it received. */
  ghost predicate Loaded(records: seq<Record>, source: Source, limit: nat, ops: seq<Op>, bulks: seq<seq<Op>>,
                         orders: seq<seq<string>>)
  {
    AllConvertible(records, source) && OrdersFor(records, orders) && ops == Ops(records, source, orders)
    && bulks == Chunks(ops, BatchSize(limit))
  }

  /** The actions each loader counts into totalSend: its full bulks, loader by loader. */
  function CountedPerLoader(received: seq<seq<Record>>, limit: nat): (counts: seq<nat>)
    ensures |counts| == |received|
    ensures forall t :: 0 <= t < |received| ==> counts[t] == FullBatches(|received[t]|, BatchSize(limit))
  {
    seq(|received|, t requires 0 <= t < |received| => FullBatches(|received[t]|, BatchSize(limit)))
  }

  /** One more loader waited for: the shared counter has its full bulks added, modulo 2^64. */
  lemma CountedStep(received: seq<seq<Record>>, limit: nat, t: nat, start: nat, value: nat, value': nat)
    requires t < |received| && value == AfterAdds(start, CountedPerLoader(received[..t], limit))
    requires value' == (value + FullBatches(|received[t]|, BatchSize(limit))) % U64
    ensures value' == AfterAdds(start, CountedPerLoader(received[..t + 1], limit))
  {
    var counts := CountedPerLoader(received[..t + 1], limit);
    assert Init(counts) == CountedPerLoader(received[..t], limit);
  }

  /** The first t loaders are done, each with exactly the records it received. */
  ghost predicate LoadersDone(received: seq<seq<Record>>, source: Source, limit: nat, t: nat, ops: seq<seq<Op>>,
                              bulks: seq<seq<seq<Op>>>, orders: seq<seq<seq<string>>>)
  {
    t <= |received| && |ops| == t && |bulks| == t && |orders| == t
    && forall u :: 0 <= u < t ==> Loaded(received[u], source, limit, ops[u], bulks[u], orders[u])
  }

  /** One more loader waited for. */
  lemma LoadersStep(received: seq<seq<Record>>, source: Source, limit: nat, t: nat, ops: seq<seq<Op>>,
                    bulks: seq<seq<seq<Op>>>, orders: seq<seq<seq<string>>>,
                    converted: seq<Op>, sent: seq<seq<Op>>, order: seq<seq<string>>)
    requires t < |received| && LoadersDone(received, source, limit, t, ops, bulks, orders)
    requires Loaded(received[t], source, limit, converted, sent, order)
    ensures LoadersDone(received, source, limit, t + 1, ops + [converted], bulks + [sent], orders + [order])
  {
    var ops', bulks', orders' := ops + [converted], bulks + [sent], orders + [order];
    forall u | 0 <= u < t + 1
      ensures Loaded(received[u], source, limit, ops'[u], bulks'[u], orders'[u])
    {
      if u < t {
        assert ops'[u] == ops[u] && bulks'[u] == bulks[u] && orders'[u] == orders[u];
      }
    }
  }

  /**
   * The loaders started for a run, waited for in turn. Which records each loader receives is
   * up to the scheduler: `received` holds, per loader, the records it took off the channel.
   */
  method StartProcessing(received: seq<seq<Record>>, limit: nat, source: Source, totalSend: Counter)
    returns (ops: seq<seq<Op>>, bulks: seq<seq<seq<Op>>>, ghost orders: seq<seq<seq<string>>>)
    requires forall t :: 0 <= t < |received| ==> AllConvertible(received[t], source)
    requires limit <= MaxLimit && totalSend.Valid()
    modifies totalSend
    ensures |ops| == |received| && |bulks| == |received| && |orders| == |received|
    ensures forall t :: 0 <= t < |received| ==> Loaded(received[t], source, limit, ops[t], bulks[t], orders[t])
    ensures totalSend.Valid()
    ensures totalSend.value == AfterAdds(old(totalSend.value), CountedPerLoader(received, limit))
    ensures totalSend.value == (old(totalSend.value) + Sum(CountedPerLoader(received, limit))) % U64
  {
    ops := [];
    bulks := [];
    orders := [];
    ghost var start := totalSend.value;
    var t := 0;
    while t < |received|
      invariant LoadersDone(received, source, limit, t, ops, bulks, orders)
      invariant totalSend.Valid()
      invariant totalSend.value == AfterAdds(start, CountedPerLoader(received[..t], limit))
    {
      ghost var value := totalSend.value;
      var converted, sent, order := ProcessFetchedRecords(received[t], limit, source, totalSend);
      CountedStep(received, limit, t, start, value, totalSend.value);
      assert Loaded(received[t], source, limit, converted, sent, order);
      LoadersStep(received, source, limit, t, ops, bulks, orders, converted, sent, order);
      ops := ops + [converted];
      bulks := bulks + [sent];
      orders := orders + [order];
      t := t + 1;
    }
    assert received[..t] == received;
    AfterAddsIsSum(start, CountedPerLoader(received, limit));
  }

  /**
   * Nothing is lost or reordered: a loader's bulks, concatenated, hold one request per record,
   * the i-th made of the i-th record.
   */
  lemma BulksCoverRecords(records: seq<Record>, source: Source, orders: seq<seq<string>>, limit: nat)
    requires AllConvertible(records, source) && |orders| == |records|
    ensures Flatten(Chunks(Ops(records, source, orders), BatchSize(limit))) == Ops(records, source, orders)
    ensures forall i :: 0 <= i < |records| ==>
      Ops(records, source, orders)[i] == OpOf(records[i], source, orders[i])
  {
    ChunksFlatten(Ops(records, source, orders), BatchSize(limit));
    forall i | 0 <= i < |records|
      ensures Ops(records, source, orders)[i] == OpOf(records[i], source, orders[i])
    {
      OpsAt(records, source, orders, i);
    }
  }
}
