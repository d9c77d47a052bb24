/**
 * The batching discipline shared by the two dumps: rows are appended to a
 * builder, the builder is flushed as one batch whenever it reaches the
 * dump batch size limit, and whatever remains is flushed as a final batch,
 * possibly empty.
 */
module Batches {

  /** All rows of the batches, in order. */
  function Concat<T>(bs: seq<seq<T>>): seq<T>
  {
    if bs == [] then [] else Concat(bs[..|bs| - 1]) + bs[|bs| - 1]
  }

  /** Every batch yielded while rows are still coming holds exactly `limit` rows. */
  predicate FullBatches<T>(bs: seq<seq<T>>, limit: nat)
  {
    forall i :: 0 <= i < |bs| ==> |bs[i]| == limit
  }

  /** The shape of a finished dump: full batches, then one final batch
      shorter than the limit. */
  predicate DumpShape<T>(bs: seq<seq<T>>, limit: nat)
  {
    && |bs| > 0
    && FullBatches(bs[..|bs| - 1], limit)
    && |bs[|bs| - 1]| < limit
  }

  lemma {:induction false} ConcatOfFull<T>(bs: seq<seq<T>>, limit: nat)
    requires FullBatches(bs, limit)
    ensures |Concat(bs)| == |bs| * limit
  {
    if bs != [] {
      var front := bs[..|bs| - 1];
      ConcatOfFull(front, limit);
      assert |Concat(bs)| == |front| * limit + limit;
      assert |front| * limit + limit == (|front| + 1) * limit;
    }
  }

  /** A finished dump holds `limit` rows per batch except the last, which
      holds the remainder. */
  lemma BatchCount<T>(bs: seq<seq<T>>, limit: nat)
    requires DumpShape(bs, limit)
    ensures |Concat(bs)| == (|bs| - 1) * limit + |bs[|bs| - 1]|
  {
    ConcatOfFull(bs[..|bs| - 1], limit);
  }

  /** Flushing the builder keeps the rows seen so far, in order. */
  lemma ConcatFlush<T>(bs: seq<seq<T>>, b: seq<T>)
    ensures Concat(bs + [b]) == Concat(bs) + b
  {
    assert (bs + [b])[..|bs + [b]| - 1] == bs;
  }

  /** Yielding a full builder keeps every yielded batch full. */
  lemma FlushKeepsFull<T>(bs: seq<seq<T>>, b: seq<T>, limit: nat)
    requires FullBatches(bs, limit) && |b| == limit
    ensures FullBatches(bs + [b], limit)
  {
  }

  /** Adds one row to the open batch and yields the batch once it holds
      `limit` rows. */
  method Push<T>(batches: seq<seq<T>>, builder: seq<T>, x: T, limit: nat)
    returns (batches': seq<seq<T>>, builder': seq<T>)
    requires limit > 0 && FullBatches(batches, limit) && |builder| < limit
    ensures FullBatches(batches', limit) && |builder'| < limit
    ensures Concat(batches') + builder' == Concat(batches) + builder + [x]
  {
    builder' := builder + [x];
    batches' := batches;
    if |builder'| >= limit {
      ConcatFlush(batches', builder');
      FlushKeepsFull(batches', builder', limit);
      batches' := batches' + [builder'];
      builder' := [];
    }
  }

  /** The final, possibly empty, batch closes the dump. */
  lemma Finish<T>(batches: seq<seq<T>>, builder: seq<T>, limit: nat)
    requires FullBatches(batches, limit) && |builder| < limit
    ensures DumpShape(batches + [builder], limit)
    ensures Concat(batches + [builder]) == Concat(batches) + builder
  {
    ConcatFlush(batches, builder);
    assert (batches + [builder])[..|batches|] == batches;
  }
}
