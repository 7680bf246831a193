/**
 * Vector-id assignment of `VectorIndexer`: the FAISS flat index is modelled as the
 * growing sequence of the vectors added to it, and a vector's id is its position.
 */
module VectorIndexing {
  import opened Seqs

  /** Dimension of the embedding model's vectors. */
  const VectorDim: nat := 1024

  type Vector = seq<real>

  /** Every vector of the batch has the embedding dimension. */
  predicate Dimensioned(batch: seq<Vector>) {
    forall v :: v in batch ==> |v| == VectorDim
  }

  class VectorIndexer {
    const indexPath: string
    /** The vectors held by the index, in insertion order; `ntotal` is their number. */
    var vectors: seq<Vector>

    function NTotal(): nat
      reads this
    {
      |vectors|
    }

    /** A new indexer holds an empty index. */
    constructor(indexPath: string)
      ensures this.indexPath == indexPath
      ensures vectors == []
    {
      this.indexPath := indexPath;
      vectors := [];
    }

    /** `add_vectors`: append the batch and return the ids it received, `range(start_id, end_id)`. */
    method AddVectors(batch: seq<Vector>) returns (ids: seq<int>)
      requires Dimensioned(batch)
      modifies this
      ensures vectors == old(vectors) + batch
      ensures ids == Range(old(NTotal()), NTotal())
      ensures |ids| == |batch| && NTotal() == old(NTotal()) + |batch|
    {
      var startId := |vectors|;
      vectors := vectors + batch;
      var endId := |vectors|;
      ids := Range(startId, endId);
    }
  }

  /** Two adjacent id ranges together form one range. */
  lemma {:induction false} RangeAppend(a: int, b: int, c: int)
    requires a <= b <= c
    ensures Range(a, b) + Range(b, c) == Range(a, c)
    decreases b - a
  {
    if a < b {
      RangeAppend(a + 1, b, c);
    }
  }

  /** Total number of vectors in a sequence of batch sizes. */
  function Total(sizes: seq<nat>): nat {
    if sizes == [] then 0 else Total(sizes[..|sizes| - 1]) + sizes[|sizes| - 1]
  }

  /** The ids handed out for each batch when the batches go, in order, into a fresh index. */
  function BatchIds(sizes: seq<nat>): (r: seq<seq<int>>)
    ensures |r| == |sizes|
    ensures forall i :: 0 <= i < |sizes| ==> r[i] == Range(Total(sizes[..i]), Total(sizes[..i + 1]))
  {
    if sizes == [] then []
    else
      var p := sizes[..|sizes| - 1];
      assert forall i {:trigger sizes[..i]} :: 0 <= i <= |p| ==> p[..i] == sizes[..i];
      assert sizes[..|p|] == p && sizes[..|p| + 1] == sizes;
      BatchIds(p) + [Range(Total(p), Total(p) + sizes[|sizes| - 1])]
  }

  function Flatten<T>(ss: seq<seq<T>>): seq<T> {
    if ss == [] then [] else Flatten(ss[..|ss| - 1]) + ss[|ss| - 1]
  }

  /** Successive batches into a fresh index receive one contiguous range of ids from 0, without repeats. */
  lemma {:induction false} BatchIdsContiguous(sizes: seq<nat>)
    ensures Flatten(BatchIds(sizes)) == Range(0, Total(sizes))
    ensures Distinct(Flatten(BatchIds(sizes)))
  {
    if sizes != [] {
      var p := sizes[..|sizes| - 1];
      BatchIdsContiguous(p);
      RangeAppend(0, Total(p), Total(sizes));
    }
  }

  /** The size of each batch. */
  function Sizes(batches: seq<seq<Vector>>): (r: seq<nat>)
    ensures |r| == |batches| && forall i :: 0 <= i < |batches| ==> r[i] == |batches[i]|
  {
    seq(|batches|, i requires 0 <= i < |batches| => |batches[i]|)
  }

  /** The batches together hold as many vectors as their sizes add up to. */
  lemma {:induction false} FlattenTotal(batches: seq<seq<Vector>>)
    ensures |Flatten(batches)| == Total(Sizes(batches))
  {
    if batches != [] {
      var p := batches[..|batches| - 1];
      FlattenTotal(p);
      assert Sizes(batches)[..|p|] == Sizes(p);
    }
  }

  /** The ids of all batches number their vectors from 0 without gaps or repeats. */
  lemma BatchesNumbered(batches: seq<seq<Vector>>)
    ensures Flatten(BatchIds(Sizes(batches))) == Range(0, |Flatten(batches)|)
    ensures Distinct(Flatten(BatchIds(Sizes(batches))))
  {
    FlattenTotal(batches);
    BatchIdsContiguous(Sizes(batches));
  }

  /** One batch more: its vectors follow the earlier ones and it receives the next block of ids. */
  lemma BatchStep(batches: seq<seq<Vector>>, i: nat)
    requires i < |batches|
    ensures Flatten(batches[..i + 1]) == Flatten(batches[..i]) + batches[i]
    ensures BatchIds(Sizes(batches[..i + 1])) ==
      BatchIds(Sizes(batches[..i])) + [Range(|Flatten(batches[..i])|, |Flatten(batches[..i + 1])|)]
  {
    assert batches[..i + 1][..i] == batches[..i];
    assert Sizes(batches[..i + 1])[..i] == Sizes(batches[..i]);
    FlattenTotal(batches[..i]);
  }

  /** One call of `add_vectors` in the sequence: batch i goes in and its ids are recorded. */
  method AddNextBatch(indexer: VectorIndexer, batches: seq<seq<Vector>>, i: nat, ids: seq<seq<int>>)
    returns (next: seq<seq<int>>)
    requires i < |batches| && Dimensioned(batches[i])
    requires indexer.vectors == Flatten(batches[..i]) && ids == BatchIds(Sizes(batches[..i]))
    modifies indexer
    ensures indexer.vectors == Flatten(batches[..i + 1]) && next == BatchIds(Sizes(batches[..i + 1]))
  {
    BatchStep(batches, i);
    var batchIds := indexer.AddVectors(batches[i]);
    next := ids + [batchIds];
  }

  /**
   * `add_vectors` called on a fresh indexer once per batch, in order: every call returns
   * the next block of ids, the blocks together number the vectors 0, 1, 2, ... without
   * gaps or repeats, and the index holds all the batches in order.
   */
  method IndexBatches(indexPath: string, batches: seq<seq<Vector>>) returns (indexer: VectorIndexer, ids: seq<seq<int>>)
    requires forall i :: 0 <= i < |batches| ==> Dimensioned(batches[i])
    ensures fresh(indexer)
    ensures indexer.vectors == Flatten(batches)
    ensures ids == BatchIds(Sizes(batches))
    ensures Flatten(ids) == Range(0, |indexer.vectors|)
  {
    indexer := new VectorIndexer(indexPath);
    ids := [];
    for i := 0 to |batches|
      invariant indexer.vectors == Flatten(batches[..i])
      invariant ids == BatchIds(Sizes(batches[..i]))
    {
      ids := AddNextBatch(indexer, batches, i, ids);
    }
    assert batches[..|batches|] == batches;
    BatchesNumbered(batches);
  }
}
