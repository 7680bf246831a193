/**
  Hybrid retrieval with Reciprocal Rank Fusion (retrieval/hybrid_retriever.py).

  FAISS and BM25Okapi are outside the model: a search receives FAISS's `indices[0]`
  and the reversed `np.argsort` of the BM25 scores as inputs, and the metadata
  store's `fetch_by_vector_ids` as a function. Scores are exact reals.
*/
module HybridRetrieval {
  import opened Wrappers
  import opened Seqs
  import opened Text
  import opened PyDict

  /** A row of `SELECT vector_id, chunk_text, document_name FROM document_chunks ORDER BY vector_id`. */
  datatype CorpusRow = CorpusRow(vectorId: int, chunkText: string, documentName: string)

  /** What `chunk_map` stores per vector id. */
  datatype ChunkInfo = ChunkInfo(text: string, documentName: string)

  /** A `document_chunks` row as `fetch_by_vector_ids` returns it. */
  datatype ChunkRow = ChunkRow(
    chunkId: string,
    vectorId: int,
    documentName: string,
    pageOrSection: Option<string>,
    chunkText: string)

  /** Ranks are 1-based (`enumerate(..., start=1)`). */
  type Rank = r: int | r >= 1 witness 1

  /** The candidate pool each method contributes before fusion. */
  const CandidatePool: nat := 20

  /** `k_retrieve = min(20, self.index.ntotal)`. */
  function KRetrieve(ntotal: nat): nat { Min(CandidatePool, ntotal) }

  /** `chunk_text.lower().split()`. */
  function Tokens(text: string): seq<string> { Split(Lower(text)) }

  // ---------------------------------------------------------------------------
  // _load_bm25_index
  // ---------------------------------------------------------------------------

  function RowIds(rows: seq<CorpusRow>): (ids: seq<int>)
    ensures |ids| == |rows| && forall i :: 0 <= i < |rows| ==> ids[i] == rows[i].vectorId
  {
    if rows == [] then [] else RowIds(rows[..|rows| - 1]) + [rows[|rows| - 1].vectorId]
  }

  /** `self.chunk_map` after the loading loop: later rows overwrite earlier ones with the same id. */
  function ChunkMapOf(rows: seq<CorpusRow>): (d: Dict<int, ChunkInfo>)
    ensures PyDict.Valid(d)
  {
    if rows == [] then Empty()
    else
      var r := rows[|rows| - 1];
      var prev := ChunkMapOf(rows[..|rows| - 1]);
      PutValid(prev, r.vectorId, ChunkInfo(r.chunkText, r.documentName));
      Put(prev, r.vectorId, ChunkInfo(r.chunkText, r.documentName))
  }

  /** `tokenized_corpus`: one token list per row, in row order. */
  function TokenizedCorpus(rows: seq<CorpusRow>): (c: seq<seq<string>>)
    ensures |c| == |rows|
  {
    if rows == [] then [] else TokenizedCorpus(rows[..|rows| - 1]) + [Tokens(rows[|rows| - 1].chunkText)]
  }

  lemma {:induction false} TokenizedCorpusAt(rows: seq<CorpusRow>, i: nat)
    requires i < |rows|
    ensures TokenizedCorpus(rows)[i] == Tokens(rows[i].chunkText)
  {
    if i < |rows| - 1 {
      TokenizedCorpusAt(rows[..|rows| - 1], i);
    }
  }

  /** One more row extends the chunk map and the token lists by that row. */
  lemma LoadStep(rows: seq<CorpusRow>, i: nat)
    requires i < |rows|
    ensures ChunkMapOf(rows[..i + 1])
         == Put(ChunkMapOf(rows[..i]), rows[i].vectorId, ChunkInfo(rows[i].chunkText, rows[i].documentName))
    ensures TokenizedCorpus(rows[..i + 1]) == TokenizedCorpus(rows[..i]) + [Tokens(rows[i].chunkText)]
  {
    assert rows[..i + 1][..i] == rows[..i];
  }

  /** `list(self.chunk_map.keys())` lists each vector id once, at its first occurrence. */
  lemma {:induction false} ChunkMapKeys(rows: seq<CorpusRow>)
    ensures ChunkMapOf(rows).keys == FirstOccurrences(RowIds(rows))
  {
    if rows != [] {
      var p := rows[..|rows| - 1];
      ChunkMapKeys(p);
      var r := rows[|rows| - 1];
      PutKeys(ChunkMapOf(p), r.vectorId, ChunkInfo(r.chunkText, r.documentName));
      assert RowIds(rows)[..|rows| - 1] == RowIds(p);
    }
  }

  /** With distinct ids, position i of `vector_ids` holds row i's id and `chunk_map` holds row i's text. */
  lemma {:induction false} ChunkMapOfDistinct(rows: seq<CorpusRow>)
    requires Distinct(RowIds(rows))
    ensures ChunkMapOf(rows).keys == RowIds(rows)
    ensures forall i :: 0 <= i < |rows| ==>
      ChunkMapOf(rows).values[rows[i].vectorId] == ChunkInfo(rows[i].chunkText, rows[i].documentName)
  {
    ChunkMapKeys(rows);
    FirstOccurrencesIdentityIff(RowIds(rows));
    if rows != [] {
      var n := |rows|;
      var p := rows[..n - 1];
      var ids := RowIds(rows);
      assert RowIds(p) == ids[..n - 1];
      ChunkMapOfDistinct(p);
      forall i | 0 <= i < n
        ensures ChunkMapOf(rows).values[rows[i].vectorId] == ChunkInfo(rows[i].chunkText, rows[i].documentName)
      {
        if i < n - 1 {
          assert ids[i] != ids[n - 1];
          assert p[i] == rows[i];
        }
      }
    }
  }

  /** `chunk_map` never has more entries than there are rows. */
  lemma ChunkMapNoLonger(rows: seq<CorpusRow>)
    ensures |ChunkMapOf(rows).keys| <= |rows|
  {
    ChunkMapKeys(rows);
    FirstOccurrencesSpec(RowIds(rows));
  }

  /** A sequence with a repeat has fewer distinct elements than entries. */
  lemma {:induction false} RepeatShrinks<T>(s: seq<T>)
    requires !Distinct(s)
    ensures |Elems(s)| < |s|
  {
    var p := s[..|s| - 1];
    assert Elems(s) == Elems(p) + {s[|s| - 1]};
    if Distinct(p) {
      DistinctCard(p);
      var i, j :| 0 <= i < j < |s| && s[i] == s[j];
      assert j == |s| - 1;
      assert s[|s| - 1] == p[i];
      assert Elems(s) == Elems(p);
    } else {
      RepeatShrinks(p);
    }
  }

  /**
    BM25 corpus position i corresponds to `vector_ids[i]` for every i exactly when the
    loaded vector ids are distinct; otherwise `vector_ids` is shorter than the corpus.
  */
  lemma CorpusAlignment(rows: seq<CorpusRow>)
    ensures |ChunkMapOf(rows).keys| <= |TokenizedCorpus(rows)|
    ensures |ChunkMapOf(rows).keys| == |TokenizedCorpus(rows)| <==> Distinct(RowIds(rows))
    ensures Distinct(RowIds(rows)) ==> forall i :: 0 <= i < |rows| ==>
      var id := ChunkMapOf(rows).keys[i];
      id == rows[i].vectorId &&
      TokenizedCorpus(rows)[i] == Tokens(ChunkMapOf(rows).values[id].text)
  {
    ChunkMapKeys(rows);
    FirstOccurrencesSpec(RowIds(rows));
    if Distinct(RowIds(rows)) {
      ChunkMapOfDistinct(rows);
      forall i | 0 <= i < |rows| ensures TokenizedCorpus(rows)[i] == Tokens(rows[i].chunkText) {
        TokenizedCorpusAt(rows, i);
      }
    } else {
      var keys := ChunkMapOf(rows).keys;
      DistinctCard(keys);
      RepeatShrinks(RowIds(rows));
    }
  }

  // ---------------------------------------------------------------------------
  // Rank maps built in search
  // ---------------------------------------------------------------------------

  /** `vector_ranks` after the loop over FAISS's result slots: slot numbers from 1, -1 skipped. */
  function VectorRanksOf(indices: seq<int>): (d: Dict<int, Rank>)
    ensures PyDict.Valid(d)
  {
    if indices == [] then Empty()
    else
      var n := |indices|;
      var prev := VectorRanksOf(indices[..n - 1]);
      if indices[n - 1] != -1 then PutValid(prev, indices[n - 1], n); Put(prev, indices[n - 1], n) else prev
  }

  /** The ranked ids are exactly the non-empty FAISS slots, and there are no more of them than slots. */
  lemma VectorRanksKeys(indices: seq<int>)
    ensures Elems(VectorRanksOf(indices).keys) == Elems(indices) - {-1}
    ensures |VectorRanksOf(indices).keys| <= |indices|
  {
    VectorRanksDomain(indices);
    var d := VectorRanksOf(indices);
    DistinctCard(d.keys);
    ElemsCard(indices);
    SubsetCard(Elems(d.keys), Elems(indices));
  }

  lemma {:induction false} VectorRanksDomain(indices: seq<int>)
    ensures VectorRanksOf(indices).values.Keys == Elems(indices) - {-1}
  {
    if indices != [] {
      var n := |indices|;
      var p := indices[..n - 1];
      VectorRanksDomain(p);
      assert indices == p + [indices[n - 1]];
      ElemsAppend(p, [indices[n - 1]]);
    }
  }

  /** An id's rank is the number of a slot holding it: slots are not renumbered around -1 entries. */
  lemma {:induction false} VectorRanksSlot(indices: seq<int>)
    ensures forall id :: id in VectorRanksOf(indices).values ==>
      VectorRanksOf(indices).values[id] <= |indices| && indices[VectorRanksOf(indices).values[id] - 1] == id
  {
    if indices != [] {
      var n := |indices|;
      var p := indices[..n - 1];
      VectorRanksSlot(p);
    }
  }

  /** Without repeated ids, the id in slot i (when not -1) has rank i + 1. */
  lemma {:induction false} VectorRanksDistinct(indices: seq<int>)
    requires Distinct(indices)
    ensures forall i :: 0 <= i < |indices| && indices[i] != -1 ==>
      indices[i] in VectorRanksOf(indices).values && VectorRanksOf(indices).values[indices[i]] == i + 1
  {
    if indices != [] {
      var n := |indices|;
      var p := indices[..n - 1];
      assert Distinct(p);
      VectorRanksDistinct(p);
      forall i | 0 <= i < n - 1 && indices[i] != -1
        ensures indices[i] in VectorRanksOf(indices).values && VectorRanksOf(indices).values[indices[i]] == i + 1
      {
        assert indices[i] != indices[n - 1];
        assert p[i] == indices[i];
      }
    }
  }

  method BuildVectorRanks(indices: seq<int>) returns (ranks: Dict<int, Rank>)
    ensures ranks == VectorRanksOf(indices)
  {
    ranks := Empty();
    var i := 0;
    while i < |indices|
      invariant 0 <= i <= |indices|
      invariant ranks == VectorRanksOf(indices[..i])
    {
      assert indices[..i + 1][..i] == indices[..i];
      if indices[i] != -1 {
        ranks := Put(ranks, indices[i], i + 1);
      }
      i := i + 1;
    }
    assert indices[..i] == indices;
  }

  /** `bm25_ranks` after the loop over the top BM25 positions; IndexError when `vector_ids[idx]` does not exist. */
  function Bm25RanksOf(top: seq<nat>, vectorIds: seq<int>): (r: Result<Dict<int, Rank>>)
    ensures r.Success? ==> PyDict.Valid(r.value)
  {
    if top == [] then Success(Empty())
    else
      var n := |top|;
      match Bm25RanksOf(top[..n - 1], vectorIds)
      case Failure(e) => Failure(e)
      case Success(prev) =>
        if top[n - 1] < |vectorIds| then
          PutValid(prev, vectorIds[top[n - 1]], n);
          Success(Put(prev, vectorIds[top[n - 1]], n))
        else Failure(IndexError)
  }

  /** The BM25 ranks fail exactly when some top position has no entry in `vector_ids`. */
  lemma {:induction false} Bm25RanksSucceed(top: seq<nat>, vectorIds: seq<int>)
    ensures Bm25RanksOf(top, vectorIds).Success? <==> forall i :: 0 <= i < |top| ==> top[i] < |vectorIds|
  {
    if top != [] {
      var n := |top|;
      var p := top[..n - 1];
      Bm25RanksSucceed(p, vectorIds);
      assert forall i :: 0 <= i < n - 1 ==> top[i] == p[i];
    }
  }

  /** The vector ids at the given corpus positions. */
  function PositionIds(top: seq<nat>, vectorIds: seq<int>): (ids: seq<int>)
    requires forall i :: 0 <= i < |top| ==> top[i] < |vectorIds|
    ensures |ids| == |top| && forall i :: 0 <= i < |top| ==> ids[i] == vectorIds[top[i]]
  {
    seq(|top|, i requires 0 <= i < |top| => vectorIds[top[i]])
  }

  /**
    When every position exists, ranking succeeds and ranks each position's vector id
    (no score threshold), in order of first appearance, and nothing else.
  */
  lemma {:induction false} Bm25RanksKeys(top: seq<nat>, vectorIds: seq<int>)
    requires forall i :: 0 <= i < |top| ==> top[i] < |vectorIds|
    ensures Bm25RanksOf(top, vectorIds).Success?
    ensures Bm25RanksOf(top, vectorIds).value.keys == FirstOccurrences(PositionIds(top, vectorIds))
  {
    if top != [] {
      var n := |top|;
      var p := top[..n - 1];
      Bm25RanksKeys(p, vectorIds);
      var ids := PositionIds(top, vectorIds);
      assert ids[..n - 1] == PositionIds(p, vectorIds);
      var prev := Bm25RanksOf(p, vectorIds).value;
      var id := vectorIds[top[n - 1]];
      assert Bm25RanksOf(top, vectorIds) == Success(Put(prev, id, n));
      PutKeys(prev, id, n);
      assert ids[n - 1] == id;
    }
  }

  /** An id's BM25 rank is the number of a top position holding it. */
  lemma Bm25RanksSlot(top: seq<nat>, vectorIds: seq<int>)
    requires Bm25RanksOf(top, vectorIds).Success?
    ensures var d := Bm25RanksOf(top, vectorIds).value;
      forall id :: id in d.values ==>
        (d.values[id] <= |top| && top[d.values[id] - 1] < |vectorIds| && vectorIds[top[d.values[id] - 1]] == id)
  {
    forall id | id in Bm25RanksOf(top, vectorIds).value.values {
      Bm25RankSlot(top, vectorIds, id);
    }
  }

  lemma {:induction false} Bm25RankSlot(top: seq<nat>, vectorIds: seq<int>, id: int)
    requires Bm25RanksOf(top, vectorIds).Success? && id in Bm25RanksOf(top, vectorIds).value.values
    ensures var r := Bm25RanksOf(top, vectorIds).value.values[id];
      r <= |top| && top[r - 1] < |vectorIds| && vectorIds[top[r - 1]] == id
  {
    var n := |top|;
    var p := top[..n - 1];
    Bm25RanksStep(top, vectorIds);
    var d, prev := Bm25RanksOf(top, vectorIds).value, Bm25RanksOf(p, vectorIds).value;
    var last := vectorIds[top[n - 1]];
    assert d.values == prev.values[last := n];
    if id == last {
      assert d.values[id] == n;
    } else {
      Bm25RankSlot(p, vectorIds, id);
      var r := prev.values[id];
      assert d.values[id] == r;
      assert p[r - 1] == top[r - 1];
    }
  }

  /** A successful rank dict extends the one of the shorter prefix by the last position's id. */
  lemma Bm25RanksStep(top: seq<nat>, vectorIds: seq<int>)
    requires top != [] && Bm25RanksOf(top, vectorIds).Success?
    ensures Bm25RanksOf(top[..|top| - 1], vectorIds).Success? && top[|top| - 1] < |vectorIds|
    ensures Bm25RanksOf(top, vectorIds).value ==
      Put(Bm25RanksOf(top[..|top| - 1], vectorIds).value, vectorIds[top[|top| - 1]], |top|)
  {
  }

  /** With distinct positions and distinct ids every position's id gets its own rank. */
  lemma Bm25RanksCount(top: seq<nat>, vectorIds: seq<int>)
    requires forall i :: 0 <= i < |top| ==> top[i] < |vectorIds|
    requires Distinct(top) && Distinct(vectorIds)
    ensures Bm25RanksOf(top, vectorIds).Success?
    ensures Bm25RanksOf(top, vectorIds).value.keys == PositionIds(top, vectorIds)
  {
    Bm25RanksKeys(top, vectorIds);
    var ids := PositionIds(top, vectorIds);
    assert Distinct(ids) by {
      forall i, j | 0 <= i < j < |ids| ensures ids[i] != ids[j] {
        assert top[i] != top[j];
      }
    }
    FirstOccurrencesIdentityIff(ids);
  }

  /** With distinct positions and distinct ids the BM25 ranks are exactly 1..n in position order. */
  lemma {:induction false} Bm25RanksDistinct(top: seq<nat>, vectorIds: seq<int>)
    requires forall i :: 0 <= i < |top| ==> top[i] < |vectorIds|
    requires Distinct(top) && Distinct(vectorIds)
    ensures Bm25RanksOf(top, vectorIds).Success?
    ensures forall i :: 0 <= i < |top| ==>
      vectorIds[top[i]] in Bm25RanksOf(top, vectorIds).value.values &&
      Bm25RanksOf(top, vectorIds).value.values[vectorIds[top[i]]] == i + 1
  {
    Bm25RanksSucceed(top, vectorIds);
    if top != [] {
      var n := |top|;
      var p := top[..n - 1];
      assert Distinct(p);
      Bm25RanksDistinct(p, vectorIds);
      var prev := Bm25RanksOf(p, vectorIds).value;
      var id := vectorIds[top[n - 1]];
      assert Bm25RanksOf(top, vectorIds) == Success(Put(prev, id, n));
      forall i | 0 <= i < n - 1
        ensures vectorIds[top[i]] in Bm25RanksOf(top, vectorIds).value.values
        ensures Bm25RanksOf(top, vectorIds).value.values[vectorIds[top[i]]] == i + 1
      {
        assert p[i] == top[i];
        assert top[i] != top[n - 1];
      }
    }
  }

  method BuildBm25Ranks(top: seq<nat>, vectorIds: seq<int>) returns (r: Result<Dict<int, Rank>>)
    ensures r == Bm25RanksOf(top, vectorIds)
  {
    var ranks: Dict<int, Rank> := Empty();
    var i := 0;
    while i < |top|
      invariant 0 <= i <= |top|
      invariant Bm25RanksOf(top[..i], vectorIds) == Success(ranks)
    {
      assert top[..i + 1][..i] == top[..i];
      if top[i] >= |vectorIds| {
        BadPositionFails(top, vectorIds, i + 1);
        return Failure(IndexError);
      }
      ranks := Put(ranks, vectorIds[top[i]], i + 1);
      i := i + 1;
    }
    assert top[..i] == top;
    r := Success(ranks);
  }

  /** Once a prefix fails, every longer prefix fails with the same error. */
  lemma {:induction false} BadPositionFails(top: seq<nat>, vectorIds: seq<int>, n: nat)
    requires 0 < n <= |top| && top[n - 1] >= |vectorIds|
    ensures Bm25RanksOf(top, vectorIds) == Failure(IndexError)
    decreases |top| - n
  {
    if n == |top| {
      assert top[..n - 1] == top[..|top| - 1];
      match Bm25RanksOf(top[..n - 1], vectorIds)
      case Failure(e) => FailureIsIndexError(top[..n - 1], vectorIds);
      case Success(_) =>
    } else {
      var q := top[..|top| - 1];
      assert q[n - 1] == top[n - 1];
      BadPositionFails(q, vectorIds, n);
    }
  }

  lemma {:induction false} FailureIsIndexError(top: seq<nat>, vectorIds: seq<int>)
    ensures Bm25RanksOf(top, vectorIds).Failure? ==> Bm25RanksOf(top, vectorIds).error == IndexError
  {
    if top != [] {
      FailureIsIndexError(top[..|top| - 1], vectorIds);
    }
  }

  // ---------------------------------------------------------------------------
  // _reciprocal_rank_fusion
  // ---------------------------------------------------------------------------

  /** `1.0 / (self.rrf_k + rank)`. */
  function Reciprocal(rrfK: nat, rank: Rank): (r: real)
    ensures 0.0 < r <= 1.0
  {
    1.0 / (rrfK + rank) as real
  }

  /** What one method's rank map adds to an id's fused score: nothing when it did not rank the id. */
  function Contribution(ranks: Dict<int, Rank>, rrfK: nat, id: int): real
  {
    if id in ranks.values then Reciprocal(rrfK, ranks.values[id]) else 0.0
  }

  /** The Reciprocal Rank Fusion score of an id (Cormack, Clarke and Buettcher). */
  function RrfScore(vectorRanks: Dict<int, Rank>, bm25Ranks: Dict<int, Rank>, rrfK: nat, id: int): real
  {
    Contribution(vectorRanks, rrfK, id) + Contribution(bm25Ranks, rrfK, id)
  }

  /** `rrf_scores` after the first n items of the vector loop. */
  function VectorPass(vr: Dict<int, Rank>, rrfK: nat, n: nat): (d: Dict<int, real>)
    requires PyDict.Valid(vr) && n <= |vr.keys|
  {
    if n == 0 then Empty()
    else
      var id := vr.keys[n - 1];
      assert id in Elems(vr.keys);
      Put(VectorPass(vr, rrfK, n - 1), id, Reciprocal(rrfK, vr.values[id]))
  }

  /** `rrf_scores` after the first n items of the BM25 loop, starting from d. */
  function Bm25Pass(d: Dict<int, real>, br: Dict<int, Rank>, rrfK: nat, n: nat): (r: Dict<int, real>)
    requires PyDict.Valid(br) && n <= |br.keys|
  {
    if n == 0 then d
    else
      var prev := Bm25Pass(d, br, rrfK, n - 1);
      var id := br.keys[n - 1];
      assert id in Elems(br.keys);
      var c := Reciprocal(rrfK, br.values[id]);
      if id in prev.values then Put(prev, id, prev.values[id] + c) else Put(prev, id, c)
  }

  /** The complete `rrf_scores` dict. */
  function RrfScores(vr: Dict<int, Rank>, br: Dict<int, Rank>, rrfK: nat): (d: Dict<int, real>)
    requires PyDict.Valid(vr) && PyDict.Valid(br)
    ensures PyDict.Valid(d)
  {
    PassesValid(vr, br, rrfK, |br.keys|);
    Bm25Pass(VectorPass(vr, rrfK, |vr.keys|), br, rrfK, |br.keys|)
  }

  lemma {:induction false} PassesValid(vr: Dict<int, Rank>, br: Dict<int, Rank>, rrfK: nat, n: nat)
    requires PyDict.Valid(vr) && PyDict.Valid(br) && n <= |br.keys|
    ensures PyDict.Valid(Bm25Pass(VectorPass(vr, rrfK, |vr.keys|), br, rrfK, n))
  {
    if n == 0 {
      VectorPassValid(vr, rrfK, |vr.keys|);
    } else {
      PassesValid(vr, br, rrfK, n - 1);
      var prev := Bm25Pass(VectorPass(vr, rrfK, |vr.keys|), br, rrfK, n - 1);
      var id := br.keys[n - 1];
      PutValid(prev, id, 0.0);
      assert Put(prev, id, 0.0).keys == Bm25Pass(VectorPass(vr, rrfK, |vr.keys|), br, rrfK, n).keys;
    }
  }

  lemma {:induction false} VectorPassValid(vr: Dict<int, Rank>, rrfK: nat, n: nat)
    requires PyDict.Valid(vr) && n <= |vr.keys|
    ensures PyDict.Valid(VectorPass(vr, rrfK, n))
  {
    if n > 0 {
      VectorPassValid(vr, rrfK, n - 1);
      PutValid(VectorPass(vr, rrfK, n - 1), vr.keys[n - 1], 0.0);
      assert Put(VectorPass(vr, rrfK, n - 1), vr.keys[n - 1], 0.0).keys == VectorPass(vr, rrfK, n).keys;
    }
  }

  /** Ids of s that m does not map, in order. */
  function Unranked(s: seq<int>, m: map<int, Rank>): (r: seq<int>)
    ensures forall x :: x in r <==> x in s && x !in m
  {
    if s == [] then []
    else Unranked(s[..|s| - 1], m) + (if s[|s| - 1] in m then [] else [s[|s| - 1]])
  }

  /** Insertion order of `rrf_scores`: FAISS-ranked ids first, then BM25-only ids in BM25 order. */
  function FusionOrder(vr: Dict<int, Rank>, br: Dict<int, Rank>): seq<int>
  {
    vr.keys + Unranked(br.keys, vr.values)
  }

  /** The vector loop inserts the FAISS-ranked ids in rank-map order. */
  lemma {:induction false} VectorPassKeys(vr: Dict<int, Rank>, rrfK: nat, n: nat)
    requires PyDict.Valid(vr) && n <= |vr.keys|
    ensures VectorPass(vr, rrfK, n).keys == vr.keys[..n]
  {
    if n > 0 {
      VectorPassKeys(vr, rrfK, n - 1);
      var id := vr.keys[n - 1];
      assert vr.keys[..n] == vr.keys[..n - 1] + [id];
      assert id !in vr.keys[..n - 1];
      assert id in Elems(vr.keys);
      VectorPassValid(vr, rrfK, n - 1);
      PutKeys(VectorPass(vr, rrfK, n - 1), id, Reciprocal(rrfK, vr.values[id]));
    }
  }

  /** After the vector loop each FAISS-ranked id holds its vector contribution. */
  lemma {:induction false} VectorPassValues(vr: Dict<int, Rank>, rrfK: nat, n: nat)
    requires PyDict.Valid(vr) && n <= |vr.keys|
    ensures forall id :: id in VectorPass(vr, rrfK, n).values ==>
      id in vr.values && VectorPass(vr, rrfK, n).values[id] == Reciprocal(rrfK, vr.values[id])
  {
    if n > 0 {
      VectorPassValues(vr, rrfK, n - 1);
      assert vr.keys[n - 1] in Elems(vr.keys);
    }
  }

  /** After n BM25 items the scored ids are the FAISS-ranked ids and the first n BM25 ids. */
  lemma {:induction false} Bm25PassDomain(vr: Dict<int, Rank>, br: Dict<int, Rank>, rrfK: nat, n: nat)
    requires PyDict.Valid(vr) && PyDict.Valid(br) && n <= |br.keys|
    ensures Bm25Pass(VectorPass(vr, rrfK, |vr.keys|), br, rrfK, n).values.Keys == vr.values.Keys + Elems(br.keys[..n])
  {
    if n == 0 {
      VectorPassKeys(vr, rrfK, |vr.keys|);
      VectorPassValid(vr, rrfK, |vr.keys|);
      assert vr.keys[..|vr.keys|] == vr.keys;
    } else {
      Bm25PassDomain(vr, br, rrfK, n - 1);
      assert br.keys[..n] == br.keys[..n - 1] + [br.keys[n - 1]];
    }
  }

  /** After n BM25 items each scored id holds its vector contribution plus, if among those items, its BM25 one. */
  lemma {:induction false} Bm25PassValues(vr: Dict<int, Rank>, br: Dict<int, Rank>, rrfK: nat, n: nat)
    requires PyDict.Valid(vr) && PyDict.Valid(br) && n <= |br.keys|
    ensures var d := Bm25Pass(VectorPass(vr, rrfK, |vr.keys|), br, rrfK, n);
      forall id :: id in d.values ==>
        d.values[id] == Contribution(vr, rrfK, id) + (if id in br.keys[..n] then Contribution(br, rrfK, id) else 0.0)
  {
    var d0 := VectorPass(vr, rrfK, |vr.keys|);
    if n == 0 {
      VectorPassValues(vr, rrfK, |vr.keys|);
    } else {
      Bm25PassValues(vr, br, rrfK, n - 1);
      Bm25PassDomain(vr, br, rrfK, n - 1);
      forall x | x in Bm25Pass(d0, br, rrfK, n).values
        ensures Bm25Pass(d0, br, rrfK, n).values[x]
             == Contribution(vr, rrfK, x) + (if x in br.keys[..n] then Contribution(br, rrfK, x) else 0.0)
      {
        Bm25PassValueStep(vr, br, rrfK, n, x);
      }
    }
  }

  /** The value of one id after n BM25 items, given the values after n - 1. */
  lemma Bm25PassValueStep(vr: Dict<int, Rank>, br: Dict<int, Rank>, rrfK: nat, n: nat, x: int)
    requires PyDict.Valid(vr) && PyDict.Valid(br) && 0 < n <= |br.keys|
    requires var prev := Bm25Pass(VectorPass(vr, rrfK, |vr.keys|), br, rrfK, n - 1);
      forall id :: id in prev.values ==>
        prev.values[id] == Contribution(vr, rrfK, id) + (if id in br.keys[..n - 1] then Contribution(br, rrfK, id) else 0.0)
    requires Bm25Pass(VectorPass(vr, rrfK, |vr.keys|), br, rrfK, n - 1).values.Keys == vr.values.Keys + Elems(br.keys[..n - 1])
    requires x in Bm25Pass(VectorPass(vr, rrfK, |vr.keys|), br, rrfK, n).values
    ensures Bm25Pass(VectorPass(vr, rrfK, |vr.keys|), br, rrfK, n).values[x]
      == Contribution(vr, rrfK, x) + (if x in br.keys[..n] then Contribution(br, rrfK, x) else 0.0)
  {
    var d0 := VectorPass(vr, rrfK, |vr.keys|);
    var prev := Bm25Pass(d0, br, rrfK, n - 1);
    var id := br.keys[n - 1];
    assert br.keys[..n] == br.keys[..n - 1] + [id];
    assert id !in br.keys[..n - 1];
    assert id in Elems(br.keys);
    if x != id {
      assert x in br.keys[..n] <==> x in br.keys[..n - 1];
    } else if id !in prev.values {
      assert id !in vr.values;
    }
  }

  /** The BM25 loop appends the BM25-only ids, in BM25 order, after the FAISS-ranked ids. */
  lemma {:induction false} Bm25PassKeys(vr: Dict<int, Rank>, br: Dict<int, Rank>, rrfK: nat, n: nat)
    requires PyDict.Valid(vr) && PyDict.Valid(br) && n <= |br.keys|
    ensures Bm25Pass(VectorPass(vr, rrfK, |vr.keys|), br, rrfK, n).keys == vr.keys + Unranked(br.keys[..n], vr.values)
  {
    var d0 := VectorPass(vr, rrfK, |vr.keys|);
    if n == 0 {
      VectorPassKeys(vr, rrfK, |vr.keys|);
      assert vr.keys[..|vr.keys|] == vr.keys;
      assert br.keys[..0] == [];
    } else {
      Bm25PassKeys(vr, br, rrfK, n - 1);
      Bm25PassDomain(vr, br, rrfK, n - 1);
      DistinctNotBefore(br.keys, n);
      Bm25PassKeysStep(d0, vr, br, rrfK, n);
    }
  }

  lemma Bm25PassKeysStep(d0: Dict<int, real>, vr: Dict<int, Rank>, br: Dict<int, Rank>, rrfK: nat, n: nat)
    requires PyDict.Valid(br) && 0 < n <= |br.keys|
    requires Bm25Pass(d0, br, rrfK, n - 1).keys == vr.keys + Unranked(br.keys[..n - 1], vr.values)
    requires br.keys[n - 1] in Bm25Pass(d0, br, rrfK, n - 1).values <==> br.keys[n - 1] in vr.values
    ensures Bm25Pass(d0, br, rrfK, n).keys == vr.keys + Unranked(br.keys[..n], vr.values)
  {
    var prev := Bm25Pass(d0, br, rrfK, n - 1);
    var id := br.keys[n - 1];
    var u := Unranked(br.keys[..n - 1], vr.values);
    var s := br.keys[..n];
    assert s[..|s| - 1] == br.keys[..n - 1] && s[|s| - 1] == id;
    var r := Bm25Pass(d0, br, rrfK, n);
    if id in vr.values {
      assert r.keys == prev.keys;
      assert Unranked(s, vr.values) == u;
    } else {
      assert r.keys == prev.keys + [id];
      assert Unranked(s, vr.values) == u + [id];
      assert vr.keys + u + [id] == vr.keys + (u + [id]);
    }
  }

  /**
    The fused score computed by the two loops is the RRF sum of both contributions, and
    `rrf_scores` is ordered FAISS ids first, then BM25-only ids.
  */
  lemma RrfScoresSpec(vr: Dict<int, Rank>, br: Dict<int, Rank>, rrfK: nat)
    requires PyDict.Valid(vr) && PyDict.Valid(br)
    ensures RrfScores(vr, br, rrfK).keys == FusionOrder(vr, br)
    ensures Elems(FusionOrder(vr, br)) == vr.values.Keys + br.values.Keys
    ensures forall id :: id in RrfScores(vr, br, rrfK).values ==>
      RrfScores(vr, br, rrfK).values[id] == RrfScore(vr, br, rrfK, id)
  {
    var n := |br.keys|;
    Bm25PassKeys(vr, br, rrfK, n);
    Bm25PassValues(vr, br, rrfK, n);
    Bm25PassDomain(vr, br, rrfK, n);
    assert br.keys[..n] == br.keys;
    var d := RrfScores(vr, br, rrfK);
    forall id | id in d.values ensures d.values[id] == RrfScore(vr, br, rrfK, id) {
      assert id in br.keys <==> id in Elems(br.keys);
    }
  }

  // ---------------------------------------------------------------------------
  // sorted(rrf_scores.items(), key=score, reverse=True): a stable sort
  // ---------------------------------------------------------------------------

  ghost predicate NonIncreasing(s: seq<int>, key: int -> real) {
    forall i, j :: 0 <= i < j < |s| ==> key(s[i]) >= key(s[j])
  }

  /** Places x after every element whose key is at least x's. */
  function InsertByScore(x: int, s: seq<int>, key: int -> real): (r: seq<int>)
    ensures multiset(r) == multiset(s) + multiset{x}
  {
    if s == [] then [x]
    else if key(s[0]) < key(x) then [x] + s
    else
      assert s == [s[0]] + s[1..];
      [s[0]] + InsertByScore(x, s[1..], key)
  }

  /** Python's stable `sorted(..., reverse=True)` by key. */
  function SortByScore(s: seq<int>, key: int -> real): (r: seq<int>)
    ensures multiset(r) == multiset(s)
  {
    if s == [] then []
    else
      assert s == s[..|s| - 1] + [s[|s| - 1]];
      InsertByScore(s[|s| - 1], SortByScore(s[..|s| - 1], key), key)
  }

  lemma {:induction false} InsertSorted(x: int, s: seq<int>, key: int -> real)
    requires NonIncreasing(s, key)
    ensures NonIncreasing(InsertByScore(x, s, key), key)
  {
    if s != [] && key(s[0]) >= key(x) {
      var t := InsertByScore(x, s[1..], key);
      InsertSorted(x, s[1..], key);
      forall j | 0 <= j < |t| ensures key(s[0]) >= key(t[j]) {
        assert t[j] in multiset(t);
        if t[j] != x {
          assert t[j] in s[1..];
          var k := IndexOf(s[1..], t[j]);
          assert s[k + 1] == t[j];
        }
      }
      var r := [s[0]] + t;
      assert forall j :: 0 < j < |r| ==> r[j] == t[j - 1];
    }
  }

  /** The sorted list is ordered by non-increasing key. */
  lemma {:induction false} SortSorted(s: seq<int>, key: int -> real)
    ensures NonIncreasing(SortByScore(s, key), key)
  {
    if s != [] {
      SortSorted(s[..|s| - 1], key);
      InsertSorted(s[|s| - 1], SortByScore(s[..|s| - 1], key), key);
    }
  }

  /** A sequence without repeats holds each element exactly once. */
  lemma {:induction false} DistinctMultiplicity(s: seq<int>)
    ensures Distinct(s) <==> forall x :: multiset(s)[x] <= 1
  {
    if s != [] {
      var p := s[..|s| - 1];
      var y := s[|s| - 1];
      DistinctMultiplicity(p);
      assert s == p + [y];
      assert multiset(s) == multiset(p) + multiset{y};
      if Distinct(s) {
        assert Distinct(p);
        assert y !in p;
      }
      if forall x :: multiset(s)[x] <= 1 {
        assert forall x :: multiset(p)[x] <= 1 by {
          forall x ensures multiset(p)[x] <= 1 {
            assert multiset(p)[x] <= multiset(s)[x];
          }
        }
        assert multiset(s)[y] == multiset(p)[y] + 1;
        assert multiset(p)[y] == 0;
        forall i, j | 0 <= i < j < |s| ensures s[i] != s[j] {
          if j < |s| - 1 {
            assert p[i] == s[i] && p[j] == s[j];
          } else {
            assert s[i] in p;
          }
        }
      }
    }
  }

  /** A permutation of a sequence without repeats has none either. */
  lemma PermutationDistinct(a: seq<int>, b: seq<int>)
    requires multiset(a) == multiset(b) && Distinct(a)
    ensures Distinct(b)
  {
    DistinctMultiplicity(a);
    DistinctMultiplicity(b);
  }

  /** The elements of s whose key is v, in order. */
  function WithScore(s: seq<int>, key: int -> real, v: real): (r: seq<int>)
    ensures |r| <= |s|
  {
    if s == [] then []
    else WithScore(s[..|s| - 1], key, v) + (if key(s[|s| - 1]) == v then [s[|s| - 1]] else [])
  }

  lemma {:induction false} WithScoreAppend(a: seq<int>, b: seq<int>, key: int -> real, v: real)
    ensures WithScore(a + b, key, v) == WithScore(a, key, v) + WithScore(b, key, v)
  {
    if b != [] {
      var b' := b[..|b| - 1];
      WithScoreAppend(a, b', key, v);
      assert (a + b)[..|a + b| - 1] == a + b';
    } else {
      assert a + b == a;
    }
  }

  lemma {:induction false} WithScoreNone(s: seq<int>, key: int -> real, v: real)
    requires forall i :: 0 <= i < |s| ==> key(s[i]) != v
    ensures WithScore(s, key, v) == []
  {
    if s != [] {
      WithScoreNone(s[..|s| - 1], key, v);
    }
  }

  /** x goes in front when its key beats the head's: ties with v are unaffected. */
  lemma InsertFrontKeepsTies(x: int, s: seq<int>, key: int -> real, v: real)
    requires NonIncreasing(s, key) && s != [] && key(s[0]) < key(x)
    ensures WithScore([x] + s, key, v) == WithScore(s, key, v) + (if key(x) == v then [x] else [])
  {
    WithScoreAppend([x], s, key, v);
    assert WithScore([x], key, v) == WithScore([], key, v) + (if key(x) == v then [x] else []);
    if key(x) == v {
      WithScoreNone(s, key, v);
    }
  }

  /** x goes after the head: the head's tie status is unchanged and the rest follows by induction. */
  lemma InsertLaterKeepsTies(x: int, s: seq<int>, key: int -> real, v: real)
    requires s != []
    requires WithScore(InsertByScore(x, s[1..], key), key, v) == WithScore(s[1..], key, v) + (if key(x) == v then [x] else [])
    ensures WithScore([s[0]] + InsertByScore(x, s[1..], key), key, v) == WithScore(s, key, v) + (if key(x) == v then [x] else [])
  {
    WithScoreAppend([s[0]], InsertByScore(x, s[1..], key), key, v);
    WithScoreAppend([s[0]], s[1..], key, v);
    assert s == [s[0]] + s[1..];
  }

  lemma {:induction false} InsertKeepsTies(x: int, s: seq<int>, key: int -> real, v: real)
    requires NonIncreasing(s, key)
    ensures WithScore(InsertByScore(x, s, key), key, v) == WithScore(s, key, v) + (if key(x) == v then [x] else [])
  {
    if s == [] {
      assert WithScore([x], key, v) == WithScore([], key, v) + (if key(x) == v then [x] else []);
    } else if key(s[0]) < key(x) {
      InsertFrontKeepsTies(x, s, key, v);
    } else {
      assert NonIncreasing(s[1..], key);
      InsertKeepsTies(x, s[1..], key, v);
      InsertLaterKeepsTies(x, s, key, v);
    }
  }

  /** The sort is stable: elements with equal keys keep their input order. */
  lemma {:induction false} SortIsStable(s: seq<int>, key: int -> real, v: real)
    ensures WithScore(SortByScore(s, key), key, v) == WithScore(s, key, v)
  {
    if s != [] {
      var p := s[..|s| - 1];
      SortIsStable(p, key, v);
      SortSorted(p, key);
      InsertKeepsTies(s[|s| - 1], SortByScore(p, key), key, v);
    }
  }

  lemma WithScoreTake(s: seq<int>, key: int -> real, k: int, v: real)
    ensures WithScore(Take(s, k), key, v) <= WithScore(s, key, v)
  {
    var t := Take(s, k);
    assert s == t + s[|t|..];
    WithScoreAppend(t, s[|t|..], key, v);
  }

  /** The sort key `lambda x: x[1]` over the items of a score dict. */
  function ScoreKey(scores: map<int, real>): int -> real
  {
    id => if id in scores then scores[id] else 0.0
  }

  /** `sorted(rrf_scores.items(), key=lambda x: x[1], reverse=True)`, as ids. */
  function SortedFusion(vr: Dict<int, Rank>, br: Dict<int, Rank>, rrfK: nat): seq<int>
    requires PyDict.Valid(vr) && PyDict.Valid(br)
  {
    var scores := RrfScores(vr, br, rrfK);
    SortByScore(scores.keys, ScoreKey(scores.values))
  }

  /** The fusion result: ids sorted by fused score (stable), first `top_k` of them. */
  function Fuse(vr: Dict<int, Rank>, br: Dict<int, Rank>, rrfK: nat, topK: int): seq<int>
    requires PyDict.Valid(vr) && PyDict.Valid(br)
  {
    Take(SortedFusion(vr, br, rrfK), topK)
  }

  /** The full sorted fusion list holds each ranked id exactly once. */
  lemma SortedFusionMembers(vr: Dict<int, Rank>, br: Dict<int, Rank>, rrfK: nat)
    requires PyDict.Valid(vr) && PyDict.Valid(br)
    ensures var sorted := SortedFusion(vr, br, rrfK);
      && Distinct(sorted)
      && |sorted| == |vr.values.Keys + br.values.Keys|
      && (forall id :: id in sorted <==> id in vr.values || id in br.values)
  {
    var scores := RrfScores(vr, br, rrfK);
    var key := ScoreKey(scores.values);
    RrfScoresSpec(vr, br, rrfK);
    var sorted := SortByScore(scores.keys, key);
    PermutationDistinct(scores.keys, sorted);
    DistinctCard(scores.keys);
    assert |sorted| == |scores.keys| by {
      assert |multiset(sorted)| == |multiset(scores.keys)|;
    }
    forall id ensures id in sorted <==> id in scores.values {
      assert id in sorted <==> id in multiset(sorted);
      assert id in scores.keys <==> id in multiset(scores.keys);
      assert id in scores.keys <==> id in Elems(scores.keys);
    }
  }

  /** The full sorted fusion list is ordered by non-increasing RRF score. */
  lemma SortedFusionOrder(vr: Dict<int, Rank>, br: Dict<int, Rank>, rrfK: nat)
    requires PyDict.Valid(vr) && PyDict.Valid(br)
    ensures var sorted := SortedFusion(vr, br, rrfK);
      forall i, j :: 0 <= i < j < |sorted| ==> RrfScore(vr, br, rrfK, sorted[i]) >= RrfScore(vr, br, rrfK, sorted[j])
  {
    var scores := RrfScores(vr, br, rrfK);
    var key := ScoreKey(scores.values);
    RrfScoresSpec(vr, br, rrfK);
    SortedFusionMembers(vr, br, rrfK);
    var sorted := SortByScore(scores.keys, key);
    SortSorted(scores.keys, key);
    forall i, j | 0 <= i < j < |sorted|
      ensures RrfScore(vr, br, rrfK, sorted[i]) >= RrfScore(vr, br, rrfK, sorted[j])
    {
      assert sorted[i] in sorted && sorted[j] in sorted;
      assert key(sorted[i]) >= key(sorted[j]);
    }
  }

  /**
    The fused list has no repeats, holds only ids ranked by at least one method and, for
    a non-negative `top_k`, has length min(top_k, number of ranked ids).
  */
  lemma FuseMembers(vr: Dict<int, Rank>, br: Dict<int, Rank>, rrfK: nat, topK: int)
    requires PyDict.Valid(vr) && PyDict.Valid(br)
    ensures var out := Fuse(vr, br, rrfK, topK);
      && Distinct(out)
      && (forall id :: id in out ==> id in vr.values || id in br.values)
      && |out| <= |vr.values.Keys + br.values.Keys|
      && (0 <= topK ==> |out| == Min(topK, |vr.values.Keys + br.values.Keys|))
  {
    var sorted := SortedFusion(vr, br, rrfK);
    SortedFusionMembers(vr, br, rrfK);
    var out := Fuse(vr, br, rrfK, topK);
    TakeDistinct(sorted, topK);
  }

  /** The fused list is ordered by non-increasing RRF score. */
  lemma FuseOrdered(vr: Dict<int, Rank>, br: Dict<int, Rank>, rrfK: nat, topK: int)
    requires PyDict.Valid(vr) && PyDict.Valid(br)
    ensures var out := Fuse(vr, br, rrfK, topK);
      forall i, j :: 0 <= i < j < |out| ==> RrfScore(vr, br, rrfK, out[i]) >= RrfScore(vr, br, rrfK, out[j])
  {
    var sorted := SortedFusion(vr, br, rrfK);
    SortedFusionOrder(vr, br, rrfK);
    var out := Fuse(vr, br, rrfK, topK);
    assert out == sorted[..|out|];
    forall i, j | 0 <= i < j < |out| ensures RrfScore(vr, br, rrfK, out[i]) >= RrfScore(vr, br, rrfK, out[j]) {
      assert out[i] == sorted[i] && out[j] == sorted[j] && j < |sorted|;
      assert RrfScore(vr, br, rrfK, sorted[i]) >= RrfScore(vr, br, rrfK, sorted[j]);
    }
  }

  /** Top-k selection: no ranked id left out of the fused list scores higher than one kept in it. */
  lemma FuseSelectsTop(vr: Dict<int, Rank>, br: Dict<int, Rank>, rrfK: nat, topK: int, i: nat, id: int)
    requires PyDict.Valid(vr) && PyDict.Valid(br)
    requires i < |Fuse(vr, br, rrfK, topK)|
    requires id in vr.values || id in br.values
    requires id !in Fuse(vr, br, rrfK, topK)
    ensures RrfScore(vr, br, rrfK, Fuse(vr, br, rrfK, topK)[i]) >= RrfScore(vr, br, rrfK, id)
  {
    var sorted := SortedFusion(vr, br, rrfK);
    SortedFusionMembers(vr, br, rrfK);
    SortedFusionOrder(vr, br, rrfK);
    var out := Fuse(vr, br, rrfK, topK);
    assert out == sorted[..|out|];
    var j := IndexOf(sorted, id);
    assert j >= |out|;
    assert sorted[i] == out[i];
  }

  /**
    Ties keep `rrf_scores` insertion order: for every score v, the fused ids scoring v
    are a prefix of the FAISS-then-BM25-only ids scoring v.
  */
  lemma FuseKeepsTies(vr: Dict<int, Rank>, br: Dict<int, Rank>, rrfK: nat, topK: int, v: real)
    requires PyDict.Valid(vr) && PyDict.Valid(br)
    ensures var key := ScoreKey(RrfScores(vr, br, rrfK).values);
      WithScore(Fuse(vr, br, rrfK, topK), key, v) <= WithScore(FusionOrder(vr, br), key, v)
  {
    var scores := RrfScores(vr, br, rrfK);
    RrfScoresSpec(vr, br, rrfK);
    WithScoreTake(SortByScore(scores.keys, ScoreKey(scores.values)), ScoreKey(scores.values), topK, v);
    SortIsStable(scores.keys, ScoreKey(scores.values), v);
  }

  /** The fused scores of the worked example: vector {A:1, B:2}, BM25 {B:1, C:2}, rrf_k 60. */
  lemma ExampleScores(vr: Dict<int, Rank>, br: Dict<int, Rank>)
    requires vr == Dict([1, 2], map[1 := 1, 2 := 2]) && br == Dict([2, 3], map[2 := 1, 3 := 2])
    ensures PyDict.Valid(vr) && PyDict.Valid(br)
    ensures RrfScores(vr, br, 60) == Dict([1, 2, 3], map[1 := 1.0 / 61.0, 2 := 1.0 / 62.0 + 1.0 / 61.0, 3 := 1.0 / 62.0])
  {
    assert Elems(vr.keys) == vr.values.Keys && Elems(br.keys) == br.values.Keys;
    var d1 := VectorPass(vr, 60, 1);
    assert d1 == Put(Empty(), 1, 1.0 / 61.0);
    assert d1 == Dict([1], map[1 := 1.0 / 61.0]);
    var d0 := VectorPass(vr, 60, 2);
    assert d0 == Put(d1, 2, 1.0 / 62.0);
    assert d0 == Dict([1, 2], map[1 := 1.0 / 61.0, 2 := 1.0 / 62.0]);
    var b1 := Bm25Pass(d0, br, 60, 1);
    assert b1 == Put(d0, 2, 1.0 / 62.0 + 1.0 / 61.0);
    assert b1 == Dict([1, 2], map[1 := 1.0 / 61.0, 2 := 1.0 / 62.0 + 1.0 / 61.0]);
    assert Bm25Pass(d0, br, 60, 2) == Put(b1, 3, 1.0 / 62.0);
    assert RrfScores(vr, br, 60) == Bm25Pass(d0, br, 60, 2);
  }

  /** Sorting A, B, C where B scores above A and A above C gives B, A, C. */
  lemma SortThree(key: int -> real)
    requires key(2) > key(1) > key(3)
    ensures SortByScore([1, 2, 3], key) == [2, 1, 3]
  {
    assert [1, 2, 3][..2] == [1, 2];
    assert [1, 2][..1] == [1];
    assert SortByScore([1], key) == [1];
    assert SortByScore([1, 2], key) == [2, 1];
    assert InsertByScore(3, [1], key) == [1, 3];
  }

  /** In the worked example B scores highest, then A, then C. */
  lemma ExampleOrder(vr: Dict<int, Rank>, br: Dict<int, Rank>)
    requires vr == Dict([1, 2], map[1 := 1, 2 := 2]) && br == Dict([2, 3], map[2 := 1, 3 := 2])
    ensures PyDict.Valid(vr) && PyDict.Valid(br)
    ensures var m := ScoreKey(RrfScores(vr, br, 60).values);
      RrfScores(vr, br, 60).keys == [1, 2, 3] && m(2) > m(1) > m(3)
  {
    ExampleScores(vr, br);
  }

  /** Worked check: with rrf_k 60, vector {A:1, B:2} and BM25 {B:1, C:2} fuse to B, A, C. */
  lemma FuseWorkedExample(vr: Dict<int, Rank>, br: Dict<int, Rank>)
    requires vr == Dict([1, 2], map[1 := 1, 2 := 2]) && br == Dict([2, 3], map[2 := 1, 3 := 2])
    ensures PyDict.Valid(vr) && PyDict.Valid(br)
    ensures Fuse(vr, br, 60, 5) == [2, 1, 3]
  {
    ExampleOrder(vr, br);
    SortThree(ScoreKey(RrfScores(vr, br, 60).values));
  }

  // ---------------------------------------------------------------------------
  // Re-ordering the fetched metadata rows
  // ---------------------------------------------------------------------------

  /** `{r['vector_id']: r for r in results}`: a later row with the same id replaces an earlier one. */
  function RowsById(rows: seq<ChunkRow>): (m: map<int, ChunkRow>)
    ensures forall id :: id in m <==> exists i :: 0 <= i < |rows| && rows[i].vectorId == id
    ensures forall id :: id in m ==> m[id].vectorId == id && m[id] in rows
  {
    if rows == [] then map[]
    else
      var last := rows[|rows| - 1];
      var prev := RowsById(rows[..|rows| - 1]);
      assert forall i :: 0 <= i < |rows| - 1 ==> rows[..|rows| - 1][i] == rows[i];
      prev[last.vectorId := last]
  }

  /** `[results_dict[vid] for vid in top_vector_ids if vid in results_dict]`. */
  function Reorder(rows: seq<ChunkRow>, order: seq<int>): (r: seq<ChunkRow>)
    ensures |r| <= |order|
  {
    if order == [] then []
    else
      var m := RowsById(rows);
      var vid := order[|order| - 1];
      Reorder(rows, order[..|order| - 1]) + (if vid in m then [m[vid]] else [])
  }

  /** The ids of `order` for which some row was fetched, in order. */
  function Fetched(rows: seq<ChunkRow>, order: seq<int>): (r: seq<int>)
    ensures |r| <= |order|
  {
    if order == [] then []
    else
      var vid := order[|order| - 1];
      Fetched(rows, order[..|order| - 1]) + (if vid in RowsById(rows) then [vid] else [])
  }

  /**
    The re-ordered results follow the fusion order: the k-th result is the last fetched row
    for the k-th fused id that has a row; ids without a row are dropped.
  */
  lemma {:induction false} ReorderSpec(rows: seq<ChunkRow>, order: seq<int>)
    ensures |Reorder(rows, order)| == |Fetched(rows, order)|
    ensures forall k :: 0 <= k < |Reorder(rows, order)| ==>
      Fetched(rows, order)[k] in RowsById(rows) &&
      Reorder(rows, order)[k] == RowsById(rows)[Fetched(rows, order)[k]] &&
      Reorder(rows, order)[k].vectorId == Fetched(rows, order)[k] &&
      Reorder(rows, order)[k] in rows
  {
    if order != [] {
      ReorderSpec(rows, order[..|order| - 1]);
    }
  }

  /** An id is kept exactly when it is fused and some row was fetched for it; no id is kept twice when the fused ids are distinct. */
  lemma FetchedSpec(rows: seq<ChunkRow>, order: seq<int>)
    ensures forall id :: id in Fetched(rows, order) <==> id in order && id in RowsById(rows)
    ensures Distinct(order) ==> Distinct(Fetched(rows, order))
  {
    FetchedMembers(rows, order);
    if Distinct(order) {
      FetchedDistinct(rows, order);
    }
  }

  lemma {:induction false} FetchedMembers(rows: seq<ChunkRow>, order: seq<int>)
    ensures forall id :: id in Fetched(rows, order) <==> id in order && id in RowsById(rows)
  {
    if order != [] {
      FetchedMembers(rows, order[..|order| - 1]);
    }
  }

  lemma {:induction false} FetchedDistinct(rows: seq<ChunkRow>, order: seq<int>)
    requires Distinct(order)
    ensures Distinct(Fetched(rows, order))
  {
    if order != [] {
      var p := order[..|order| - 1];
      DistinctNotBefore(order, |order|);
      FetchedDistinct(rows, p);
      FetchedMembers(rows, p);
    }
  }

  /** The row kept for an id is the last fetched row with that id. */
  lemma {:induction false} RowsByIdLast(rows: seq<ChunkRow>, i: nat)
    requires i < |rows|
    requires forall j :: i < j < |rows| ==> rows[j].vectorId != rows[i].vectorId
    ensures RowsById(rows)[rows[i].vectorId] == rows[i]
  {
    if i < |rows| - 1 {
      RowsByIdLast(rows[..|rows| - 1], i);
    }
  }

  // ---------------------------------------------------------------------------
  // search
  // ---------------------------------------------------------------------------

  /** `np.argsort(bm25_scores)[::-1]` orders every corpus position exactly once. */
  ghost predicate IsPositionOrder(order: seq<nat>, n: nat) {
    |order| == n && Distinct(order) && forall i :: 0 <= i < |order| ==> order[i] < n
  }

  /**
    What `search` returns, from FAISS's result slots, the top BM25 corpus positions and the
    metadata store's answer: an IndexError when a BM25 position has no vector id, no rows
    when fusion ranks nothing, else the fetched rows in fusion order.
  */
  function SearchOutcome(topK: int, rrfK: nat, vectorIds: seq<int>, faissIndices: seq<int>, bm25Top: seq<nat>,
                         fetch: seq<int> -> seq<ChunkRow>): Result<seq<ChunkRow>>
  {
    match Bm25RanksOf(bm25Top, vectorIds)
    case Failure(e) => Failure(e)
    case Success(br) =>
      var vr := VectorRanksOf(faissIndices);
      var top := Fuse(vr, br, rrfK, topK);
      if top == [] then Success([]) else Success(Reorder(fetch(top), top))
  }

  /** Search fails exactly when a top BM25 position lies beyond `vector_ids`, and then with IndexError. */
  lemma SearchFailsIff(topK: int, rrfK: nat, vectorIds: seq<int>, faissIndices: seq<int>, bm25Top: seq<nat>,
                       fetch: seq<int> -> seq<ChunkRow>)
    ensures SearchOutcome(topK, rrfK, vectorIds, faissIndices, bm25Top, fetch).Failure?
        <==> exists i :: 0 <= i < |bm25Top| && bm25Top[i] >= |vectorIds|
    ensures SearchOutcome(topK, rrfK, vectorIds, faissIndices, bm25Top, fetch).Failure? ==>
      SearchOutcome(topK, rrfK, vectorIds, faissIndices, bm25Top, fetch).error == IndexError
  {
    Bm25RanksSucceed(bm25Top, vectorIds);
    FailureIsIndexError(bm25Top, vectorIds);
  }

  /**
    A successful search returns at most `top_k` rows, each a fetched row for a fused id, one
    per fused id that has a row, in fusion order, with no vector id repeated.
  */
  lemma SearchResultSpec(topK: int, rrfK: nat, vectorIds: seq<int>, faissIndices: seq<int>, bm25Top: seq<nat>,
                         fetch: seq<int> -> seq<ChunkRow>)
    requires SearchOutcome(topK, rrfK, vectorIds, faissIndices, bm25Top, fetch).Success?
    ensures var r := SearchOutcome(topK, rrfK, vectorIds, faissIndices, bm25Top, fetch).value;
      var br := Bm25RanksOf(bm25Top, vectorIds).value;
      var top := Fuse(VectorRanksOf(faissIndices), br, rrfK, topK);
      && (0 <= topK ==> |r| <= topK)
      && |r| == |Fetched(fetch(top), top)|
      && (forall k :: 0 <= k < |r| ==> r[k] in fetch(top) && r[k].vectorId == Fetched(fetch(top), top)[k])
      && (forall id :: id in Fetched(fetch(top), top) <==> id in top && id in RowsById(fetch(top)))
      && Distinct(Fetched(fetch(top), top))
  {
    var br := Bm25RanksOf(bm25Top, vectorIds).value;
    var vr := VectorRanksOf(faissIndices);
    var top := Fuse(vr, br, rrfK, topK);
    FuseMembers(vr, br, rrfK, topK);
    ReorderSpec(fetch(top), top);
    FetchedSpec(fetch(top), top);
  }

  /** When the vector ids are aligned with the BM25 corpus, search cannot fail. */
  lemma AlignedSearchSucceeds(topK: int, rrfK: nat, vectorIds: seq<int>, corpusSize: nat, faissIndices: seq<int>,
                              bm25Order: seq<nat>, k: nat, fetch: seq<int> -> seq<ChunkRow>)
    requires IsPositionOrder(bm25Order, corpusSize) && |vectorIds| == corpusSize
    ensures SearchOutcome(topK, rrfK, vectorIds, faissIndices, Take(bm25Order, k), fetch).Success?
  {
    Bm25RanksSucceed(Take(bm25Order, k), vectorIds);
  }

  /** With nothing ranked by either method search returns no rows. */
  lemma NothingRankedNoRows(topK: int, rrfK: nat, vectorIds: seq<int>, faissIndices: seq<int>,
                            fetch: seq<int> -> seq<ChunkRow>)
    requires forall i :: 0 <= i < |faissIndices| ==> faissIndices[i] == -1
    ensures SearchOutcome(topK, rrfK, vectorIds, faissIndices, [], fetch) == Success([])
  {
    var vr := VectorRanksOf(faissIndices);
    VectorRanksKeys(faissIndices);
    assert Elems(faissIndices) - {-1} == {};
    var br: Dict<int, Rank> := Empty();
    FuseMembers(vr, br, rrfK, topK);
    assert vr.values.Keys == {};
  }

  /** The loop of `_load_bm25_index` over the fetched rows: tokenize each chunk, record it under its vector id. */
  method ReadRows(rows: seq<CorpusRow>) returns (chunks: Dict<int, ChunkInfo>, corpus: seq<seq<string>>)
    ensures chunks == ChunkMapOf(rows) && corpus == TokenizedCorpus(rows)
  {
    chunks := Empty();
    corpus := [];
    for i := 0 to |rows|
      invariant chunks == ChunkMapOf(rows[..i])
      invariant corpus == TokenizedCorpus(rows[..i])
    {
      LoadStep(rows, i);
      var row := rows[i];
      corpus := corpus + [Tokens(row.chunkText)];
      chunks := Put(chunks, row.vectorId, ChunkInfo(row.chunkText, row.documentName));
    }
    assert rows[..|rows|] == rows;
  }

  /** The retriever: a FAISS index, the BM25 corpus built from MySQL, and the RRF settings. */
  class HybridRetriever {
    /** `self.index.ntotal`: the number of vectors in the FAISS index. */
    const ntotal: nat
    const topK: int
    const rrfK: nat
    var chunkMap: Dict<int, ChunkInfo>
    /** The token lists `self.bm25` was built from. */
    var tokenizedCorpus: seq<seq<string>>
    var vectorIds: seq<int>

    ghost predicate Valid()
      reads this
    {
      PyDict.Valid(chunkMap) && vectorIds == chunkMap.keys && |vectorIds| <= |tokenizedCorpus|
    }

    /** `HybridRetriever(top_k, rrf_k)` over a FAISS index of `ntotal` vectors and the stored chunks `rows`. */
    constructor(ntotal: nat, topK: int, rrfK: nat, rows: seq<CorpusRow>)
      ensures Valid()
      ensures this.ntotal == ntotal && this.topK == topK && this.rrfK == rrfK
      ensures chunkMap == ChunkMapOf(rows) && tokenizedCorpus == TokenizedCorpus(rows)
      ensures vectorIds == ChunkMapOf(rows).keys
    {
      this.ntotal := ntotal;
      this.topK := topK;
      this.rrfK := rrfK;
      chunkMap := Empty();
      tokenizedCorpus := [];
      vectorIds := [];
      new;
      LoadBm25Index(rows);
    }

    /** `_load_bm25_index`: one token list per row, `chunk_map` keyed by vector id, `vector_ids` its keys. */
    method LoadBm25Index(rows: seq<CorpusRow>)
      modifies this
      ensures Valid()
      ensures chunkMap == ChunkMapOf(rows) && tokenizedCorpus == TokenizedCorpus(rows)
      ensures vectorIds == chunkMap.keys
    {
      var chunks, corpus := ReadRows(rows);
      chunkMap := chunks;
      tokenizedCorpus := corpus;
      vectorIds := chunks.keys;
      ChunkMapNoLonger(rows);
    }

    /** `_reciprocal_rank_fusion`: the two scoring loops, then the stable sort and the `top_k` cut. */
    method ReciprocalRankFusion(vectorRanks: Dict<int, Rank>, bm25Ranks: Dict<int, Rank>) returns (ids: seq<int>)
      requires PyDict.Valid(vectorRanks) && PyDict.Valid(bm25Ranks)
      ensures ids == Fuse(vectorRanks, bm25Ranks, rrfK, topK)
      ensures Distinct(ids) && forall id :: id in ids ==> id in vectorRanks.values || id in bm25Ranks.values
    {
      var scores: Dict<int, real> := Empty();
      for i := 0 to |vectorRanks.keys|
        invariant scores == VectorPass(vectorRanks, rrfK, i)
      {
        var id := vectorRanks.keys[i];
        assert id in Elems(vectorRanks.keys);
        scores := Put(scores, id, Reciprocal(rrfK, vectorRanks.values[id]));
      }
      for i := 0 to |bm25Ranks.keys|
        invariant scores == Bm25Pass(VectorPass(vectorRanks, rrfK, |vectorRanks.keys|), bm25Ranks, rrfK, i)
      {
        var id := bm25Ranks.keys[i];
        assert id in Elems(bm25Ranks.keys);
        var c := Reciprocal(rrfK, bm25Ranks.values[id]);
        if id in scores.values {
          scores := Put(scores, id, scores.values[id] + c);
        } else {
          scores := Put(scores, id, c);
        }
      }
      var sorted := SortByScore(scores.keys, ScoreKey(scores.values));
      ids := Take(sorted, topK);
      FuseMembers(vectorRanks, bm25Ranks, rrfK, topK);
    }

    /**
      `search`: FAISS's result slots for the query vector, BM25's corpus positions by
      descending score, and the metadata store's `fetch_by_vector_ids` come in as inputs.
    */
    method Search(faissIndices: seq<int>, bm25Order: seq<nat>, fetch: seq<int> -> seq<ChunkRow>)
      returns (r: Result<seq<ChunkRow>>)
      requires Valid()
      requires |faissIndices| == KRetrieve(ntotal)
      requires IsPositionOrder(bm25Order, |tokenizedCorpus|)
      ensures r == SearchOutcome(topK, rrfK, vectorIds, faissIndices, Take(bm25Order, KRetrieve(ntotal)), fetch)
      ensures |vectorIds| == |tokenizedCorpus| ==> r.Success?
      ensures r.Success? && 0 <= topK ==> |r.value| <= topK
    {
      var kRetrieve := Min(CandidatePool, ntotal);
      if |vectorIds| == |tokenizedCorpus| {
        AlignedSearchSucceeds(topK, rrfK, vectorIds, |tokenizedCorpus|, faissIndices, bm25Order, kRetrieve, fetch);
      }
      var vectorRanks := BuildVectorRanks(faissIndices);
      var bm25Top := Take(bm25Order, kRetrieve);
      var bm25Ranks := BuildBm25Ranks(bm25Top, vectorIds);
      if bm25Ranks.Failure? {
        FailureIsIndexError(bm25Top, vectorIds);
        return Failure(bm25Ranks.error);
      }
      var topVectorIds := ReciprocalRankFusion(vectorRanks, bm25Ranks.value);
      if topVectorIds == [] {
        return Success([]);
      }
      var results := fetch(topVectorIds);
      r := Success(Reorder(results, topVectorIds));
      SearchResultSpec(topK, rrfK, vectorIds, faissIndices, bm25Top, fetch);
    }
  }
}
