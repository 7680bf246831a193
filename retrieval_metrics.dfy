/**
 * The per-query logic of `RetrievalEvaluator`: document-level deduplication of the
 * retrieved chunks, hit counting, averaged metrics and mean reciprocal rank.
 * The retrieval pipeline's output for each test query is taken as given.
 */
module RetrievalEvaluation {
  import opened Wrappers
  import opened Seqs
  import opened PerformanceMetrics

  /** One test query: its relevant document names, and the document names of the retrieved chunks in rank order. */
  datatype Judged<T> = Judged(relevant: set<T>, retrieved: seq<T>)

  /** How the list of first occurrences grows by one element. */
  lemma FirstOccurrencesStep<T>(s: seq<T>, i: nat)
    requires i < |s|
    ensures FirstOccurrences(s[..i + 1]) ==
      if s[i] in Elems(FirstOccurrences(s[..i])) then FirstOccurrences(s[..i])
      else FirstOccurrences(s[..i]) + [s[i]]
  {
    assert s[..i + 1][..i] == s[..i];
  }

  /** The deduplication loop of `calculate_hit_rate`: keep each document name at its first rank. */
  method DedupDocuments<T(==)>(raw: seq<T>) returns (docs: seq<T>)
    ensures docs == FirstOccurrences(raw)
    ensures Distinct(docs) && Elems(docs) == Elems(raw)
    ensures |docs| <= |raw|
  {
    docs := [];
    var seen: set<T> := {};
    for i := 0 to |raw|
      invariant docs == FirstOccurrences(raw[..i])
      invariant seen == Elems(docs)
    {
      FirstOccurrencesStep(raw, i);
      var doc := raw[i];
      if doc !in seen {
        docs := docs + [doc];
        seen := seen + {doc};
      }
    }
    assert raw[..|raw|] == raw;
    FirstOccurrencesSpec(raw);
  }

  /** The documents the metrics are computed on for one query. */
  function Deduped<T>(q: Judged<T>): seq<T> {
    FirstOccurrences(q.retrieved)
  }

  /** `len(relevant_docs & set(retrieved_docs)) > 0`. */
  predicate IsHit<T>(relevant: set<T>, docs: seq<T>) {
    relevant * Elems(docs) != {}
  }

  /** A query is a hit iff some retrieved chunk comes from a relevant document; deduplication does not change that. */
  lemma HitIff<T>(q: Judged<T>)
    ensures IsHit(q.relevant, Deduped(q)) <==> exists j :: 0 <= j < |q.retrieved| && q.retrieved[j] in q.relevant
  {
    FirstOccurrencesSpec(q.retrieved);
    if IsHit(q.relevant, Deduped(q)) {
      var x :| x in q.relevant * Elems(q.retrieved);
      var j :| 0 <= j < |q.retrieved| && q.retrieved[j] == x;
    }
    if exists j :: 0 <= j < |q.retrieved| && q.retrieved[j] in q.relevant {
      var j :| 0 <= j < |q.retrieved| && q.retrieved[j] in q.relevant;
      assert q.retrieved[j] in q.relevant * Elems(q.retrieved);
    }
  }

  /** The number of hit queries. */
  function HitCount<T>(qs: seq<Judged<T>>): (n: nat)
    ensures n <= |qs|
  {
    if qs == [] then 0
    else HitCount(qs[..|qs| - 1]) + (if IsHit(qs[|qs| - 1].relevant, Deduped(qs[|qs| - 1])) then 1 else 0)
  }

  /** The metrics of one query, computed on its deduplicated documents with k = top_k. */
  function QueryMetrics<T>(q: Judged<T>, k: int): Metrics {
    Metrics(PrecisionAtK(Deduped(q), q.relevant, k), RecallAtK(Deduped(q), q.relevant, k),
            F1AtK(Deduped(q), q.relevant, k), AveragePrecisionOf(Deduped(q), q.relevant),
            ReciprocalRankOf(Deduped(q), q.relevant))
  }

  function PrecisionField(m: Metrics): real { m.precision }
  function RecallField(m: Metrics): real { m.recall }
  function F1Field(m: Metrics): real { m.f1 }
  function AveragePrecisionField(m: Metrics): real { m.averagePrecision }

  /** One of the lists `all_precision`, `all_recall`, `all_f1`, `all_ap`: a metric per query, in order. */
  function Column<T>(qs: seq<Judged<T>>, k: int, field: Metrics -> real): (r: seq<real>)
    ensures |r| == |qs|
    ensures forall i :: 0 <= i < |qs| ==> r[i] == field(QueryMetrics(qs[i], k))
  {
    seq(|qs|, i requires 0 <= i < |qs| => field(QueryMetrics(qs[i], k)))
  }

  function Mean(xs: seq<real>): real
    requires xs != []
  {
    Sum(xs) / |xs| as real
  }

  /** The mean of numbers in [lo, hi] is in [lo, hi]. */
  lemma MeanBounds(xs: seq<real>, lo: real, hi: real)
    requires xs != []
    requires forall i :: 0 <= i < |xs| ==> lo <= xs[i] <= hi
    ensures lo <= Mean(xs) <= hi
  {
    SumBounds(xs, lo, hi);
    var n := |xs| as real;
    assert n * lo == lo * n && n * hi == hi * n;
    QuotientBounds(lo, hi, Sum(xs), n);
  }

  /** The summary returned by `calculate_hit_rate`, without `avg_ndcg` and the per-query details. */
  datatype HitReport = HitReport(
    hitRate: real, totalQueries: nat, totalHits: nat, k: int,
    avgPrecision: real, avgRecall: real, avgF1: real, meanAveragePrecision: real)

  /** Counting one query more adds one exactly when it is a hit. */
  lemma HitCountStep<T>(qs: seq<Judged<T>>, i: nat)
    requires i < |qs|
    ensures HitCount(qs[..i + 1]) == HitCount(qs[..i]) + (if IsHit(qs[i].relevant, Deduped(qs[i])) then 1 else 0)
  {
    assert qs[..i + 1][..i] == qs[..i];
  }

  /** A column's first i + 1 values are its first i and the metric of query i. */
  lemma ColumnPrefixStep<T>(qs: seq<Judged<T>>, k: int, field: Metrics -> real, i: nat)
    requires i < |qs|
    ensures Column(qs, k, field)[..i + 1] == Column(qs, k, field)[..i] + [field(QueryMetrics(qs[i], k))]
  {
  }

  /** The body of the per-query loop: deduplicate, test for a hit, compute the metrics. */
  method EvaluateQuery<T(==)>(item: Judged<T>, topK: int) returns (hit: bool, m: Metrics)
    ensures hit <==> IsHit(item.relevant, Deduped(item))
    ensures m == QueryMetrics(item, topK)
  {
    var retrievedDocs := DedupDocuments(item.retrieved);
    hit := |item.relevant * Elems(retrievedDocs)| > 0;
    m := CalculateAllMetrics(retrievedDocs, item.relevant, topK);
  }

  /** Every per-query metric lies in [0, 1]; average precision does because the documents are deduplicated. */
  lemma QueryMetricsBounds<T>(q: Judged<T>, k: int)
    ensures 0.0 <= QueryMetrics(q, k).precision <= 1.0 && 0.0 <= QueryMetrics(q, k).recall <= 1.0
    ensures 0.0 <= QueryMetrics(q, k).f1 <= 1.0 && 0.0 <= QueryMetrics(q, k).averagePrecision <= 1.0
  {
    FirstOccurrencesSpec(q.retrieved);
    AveragePrecisionBounds(Deduped(q), q.relevant);
  }

  /** Means of per-query metrics lie in [0, 1]. */
  lemma ColumnMeanBounds<T>(qs: seq<Judged<T>>, k: int, field: Metrics -> real)
    requires qs != []
    requires field == PrecisionField || field == RecallField || field == F1Field || field == AveragePrecisionField
    ensures 0.0 <= Mean(Column(qs, k, field)) <= 1.0
  {
    var c := Column(qs, k, field);
    forall i | 0 <= i < |c|
      ensures 0.0 <= c[i] <= 1.0
    {
      QueryMetricsBounds(qs[i], k);
    }
    MeanBounds(c, 0.0, 1.0);
  }

  /** `calculate_hit_rate`: count hits and collect metrics per query, then average; no queries divides by zero. */
  method CalculateHitRate<T(==)>(queries: seq<Judged<T>>, topK: int) returns (r: Result<HitReport>)
    ensures queries == [] <==> r == Failure(ZeroDivisionError)
    ensures r.Success? ==>
      r.value.totalQueries == |queries| && r.value.totalHits == HitCount(queries) && r.value.k == topK &&
      r.value.hitRate == HitCount(queries) as real / |queries| as real * 100.0 &&
      r.value.avgPrecision == Mean(Column(queries, topK, PrecisionField)) &&
      r.value.avgRecall == Mean(Column(queries, topK, RecallField)) &&
      r.value.avgF1 == Mean(Column(queries, topK, F1Field)) &&
      r.value.meanAveragePrecision == Mean(Column(queries, topK, AveragePrecisionField))
    ensures r.Success? ==>
      0.0 <= r.value.hitRate <= 100.0 && r.value.totalHits <= r.value.totalQueries &&
      0.0 <= r.value.avgPrecision <= 1.0 && 0.0 <= r.value.avgRecall <= 1.0 &&
      0.0 <= r.value.avgF1 <= 1.0 && 0.0 <= r.value.meanAveragePrecision <= 1.0
  {
    var totalQueries := |queries|;
    var hits := 0;
    var allPrecision: seq<real> := [];
    var allRecall: seq<real> := [];
    var allF1: seq<real> := [];
    var allAp: seq<real> := [];
    for i := 0 to |queries|
      invariant hits == HitCount(queries[..i])
      invariant allPrecision == Column(queries, topK, PrecisionField)[..i]
      invariant allRecall == Column(queries, topK, RecallField)[..i]
      invariant allF1 == Column(queries, topK, F1Field)[..i]
      invariant allAp == Column(queries, topK, AveragePrecisionField)[..i]
    {
      HitCountStep(queries, i);
      var hit, metricsDetail := EvaluateQuery(queries[i], topK);
      if hit {
        hits := hits + 1;
      }
      ColumnPrefixStep(queries, topK, PrecisionField, i);
      ColumnPrefixStep(queries, topK, RecallField, i);
      ColumnPrefixStep(queries, topK, F1Field, i);
      ColumnPrefixStep(queries, topK, AveragePrecisionField, i);
      allPrecision := allPrecision + [metricsDetail.precision];
      allRecall := allRecall + [metricsDetail.recall];
      allF1 := allF1 + [metricsDetail.f1];
      allAp := allAp + [metricsDetail.averagePrecision];
    }
    assert queries[..|queries|] == queries;
    assert allPrecision == Column(queries, topK, PrecisionField);
    assert allRecall == Column(queries, topK, RecallField);
    assert allF1 == Column(queries, topK, F1Field);
    assert allAp == Column(queries, topK, AveragePrecisionField);
    if totalQueries == 0 {
      return Failure(ZeroDivisionError);
    }
    var hitRate := hits as real / totalQueries as real * 100.0;
    FractionBounds(hits, totalQueries);
    ColumnMeanBounds(queries, topK, PrecisionField);
    ColumnMeanBounds(queries, topK, RecallField);
    ColumnMeanBounds(queries, topK, F1Field);
    ColumnMeanBounds(queries, topK, AveragePrecisionField);
    r := Success(HitReport(hitRate, totalQueries, hits, topK,
      Mean(allPrecision), Mean(allRecall), Mean(allF1), Mean(allAp)));
  }

  /** The rank `calculate_mrr` finds: 1-based position of the first relevant document after deduplication, or 0. */
  function RankOf<T>(docs: seq<T>, relevant: set<T>): nat
  {
    if FirstRelevant(docs, relevant) < |docs| then FirstRelevant(docs, relevant) + 1 else 0
  }

  /** A relevant element right after an irrelevant prefix is the first relevant one. */
  lemma FirstRelevantAt<T>(s: seq<T>, d: seq<T>, x: T, relevant: set<T>)
    requires d + [x] <= s && x in relevant
    requires forall j :: 0 <= j < |d| ==> d[j] !in relevant
    ensures RankOf(s, relevant) == |d| + 1
  {
    assert s[|d|] == x;
    assert forall j :: 0 <= j < |d| ==> s[j] == d[j];
  }

  /** The inner loop of `calculate_mrr`: skip repeated documents, count ranks, stop at the first relevant one. */
  method FirstRelevantRank<T(==)>(raw: seq<T>, relevant: set<T>) returns (rank: nat)
    ensures rank == RankOf(FirstOccurrences(raw), relevant)
  {
    var seen: set<T> := {};
    var currentRank := 1;
    for i := 0 to |raw|
      invariant seen == Elems(FirstOccurrences(raw[..i]))
      invariant currentRank == |FirstOccurrences(raw[..i])| + 1
      invariant forall j :: 0 <= j < |FirstOccurrences(raw[..i])| ==> FirstOccurrences(raw[..i])[j] !in relevant
    {
      var docName := raw[i];
      FirstOccurrencesStep(raw, i);
      if docName in seen {
        continue;
      }
      seen := seen + {docName};
      if docName in relevant {
        FirstOccurrencesPrefix(raw, i + 1);
        FirstRelevantAt(FirstOccurrences(raw), FirstOccurrences(raw[..i]), docName, relevant);
        return currentRank;
      }
      currentRank := currentRank + 1;
    }
    assert raw[..|raw|] == raw;
    return 0;
  }

  /** The reciprocal rank `calculate_mrr` records for a query: `reciprocal_rank` of the deduplicated documents. */
  function QueryReciprocalRank<T>(q: Judged<T>): (rr: real)
    ensures rr == ReciprocalRankOf(Deduped(q), q.relevant)
    ensures 0.0 <= rr <= 1.0
  {
    var rank := RankOf(Deduped(q), q.relevant);
    if rank > 0 then 1.0 / rank as real else 0.0
  }

  /** The list `reciprocal_ranks`. */
  function ReciprocalRanks<T>(qs: seq<Judged<T>>): (r: seq<real>)
    ensures |r| == |qs|
    ensures forall i :: 0 <= i < |qs| ==> r[i] == QueryReciprocalRank(qs[i])
  {
    if qs == [] then [] else ReciprocalRanks(qs[..|qs| - 1]) + [QueryReciprocalRank(qs[|qs| - 1])]
  }

  /** `calculate_mrr`: 100 times the mean reciprocal rank; no queries divides by zero. */
  method CalculateMrr<T(==)>(queries: seq<Judged<T>>) returns (r: Result<real>)
    ensures queries == [] <==> r == Failure(ZeroDivisionError)
    ensures r.Success? ==> r.value == Mean(ReciprocalRanks(queries)) * 100.0
    ensures r.Success? ==> 0.0 <= r.value <= 100.0
  {
    var reciprocalRanks: seq<real> := [];
    for i := 0 to |queries|
      invariant reciprocalRanks == ReciprocalRanks(queries[..i])
    {
      assert queries[..i + 1][..i] == queries[..i];
      var item := queries[i];
      var rank := FirstRelevantRank(item.retrieved, item.relevant);
      if rank > 0 {
        reciprocalRanks := reciprocalRanks + [1.0 / rank as real];
      } else {
        reciprocalRanks := reciprocalRanks + [0.0];
      }
    }
    assert queries[..|queries|] == queries;
    if |reciprocalRanks| == 0 {
      return Failure(ZeroDivisionError);
    }
    var mrr := Sum(reciprocalRanks) / |reciprocalRanks| as real;
    MeanBounds(reciprocalRanks, 0.0, 1.0);
    return Success(mrr * 100.0);
  }
}
