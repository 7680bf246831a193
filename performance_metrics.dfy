/**
 * Ranked-retrieval metrics of `PerformanceMetrics`: precision@k, recall@k, F1@k,
 * average precision and reciprocal rank, over exact rationals.
 * Documents are of any type with equality; the worked examples use numbers for "docN".
 */
module PerformanceMetrics {
  import opened Seqs

  /** The number of distinct documents of `retrieved[:k]` that are relevant. */
  function RelevantInTopK<T>(retrieved: seq<T>, relevant: set<T>, k: int): (n: nat)
    ensures n <= |relevant|
    ensures n <= |Take(retrieved, k)|
  {
    var top := Elems(Take(retrieved, k));
    SubsetCard(top * relevant, relevant);
    SubsetCard(top * relevant, top);
    ElemsCard(Take(retrieved, k));
    |top * relevant|
  }

  /** A count over a count at least as large is a fraction in [0, 1]. */
  lemma FractionBounds(n: nat, d: nat)
    requires 0 < d && n <= d
    ensures 0.0 <= n as real / d as real <= 1.0
  {
    var q := n as real / d as real;
    assert q * d as real == n as real;
  }

  /** Dividing by a positive number keeps the order. */
  lemma DivMonotone(a: real, b: real, d: real)
    requires a <= b && 0.0 < d
    ensures a / d <= b / d
  {
    assert (b / d - a / d) * d == b - a;
  }

  lemma MulNonNegative(a: real, b: real)
    requires 0.0 <= a && 0.0 <= b
    ensures 0.0 <= a * b
  {
  }

  /** A count over a positive count is 1 exactly when the two counts are equal. */
  lemma FractionOneIff(n: nat, d: nat)
    requires 0 < d
    ensures n as real / d as real == 1.0 <==> n == d
  {
    var q := n as real / d as real;
    assert q * d as real == n as real;
  }

  /** Cancelling a positive factor keeps the order. */
  lemma CancelFactor(a: real, b: real, s: real)
    requires 0.0 < s && a * s <= b * s
    ensures a <= b
  {
    assert (b - a) * s >= 0.0;
  }

  /** `precision_at_k`: relevant hits among the first k, over k (not over the number retrieved). */
  function PrecisionAtK<T>(retrieved: seq<T>, relevant: set<T>, k: int): (p: real)
    ensures 0.0 <= p <= 1.0
    ensures k <= 0 ==> p == 0.0
  {
    if k > 0 then
      var n := RelevantInTopK(retrieved, relevant, k);
      FractionBounds(n, k);
      n as real / k as real
    else 0.0
  }

  /** With fewer than k documents retrieved, precision@k cannot reach 1: the denominator stays k. */
  lemma PrecisionShortList<T>(retrieved: seq<T>, relevant: set<T>, k: int)
    requires 0 < k && |retrieved| < k
    ensures PrecisionAtK(retrieved, relevant, k) <= |retrieved| as real / k as real < 1.0
  {
    var n := RelevantInTopK(retrieved, relevant, k);
    assert n <= |retrieved|;
    DivMonotone(n as real, |retrieved| as real, k as real);
    FractionBounds(|retrieved|, k);
    assert |retrieved| as real / k as real != 1.0 by {
      assert (|retrieved| as real / k as real) * k as real == |retrieved| as real;
    }
  }

  /** `recall_at_k`: relevant hits among the first k, over the number of relevant documents. */
  function RecallAtK<T>(retrieved: seq<T>, relevant: set<T>, k: int): (r: real)
    ensures 0.0 <= r <= 1.0
    ensures relevant == {} ==> r == 0.0
  {
    if |relevant| > 0 then
      var n := RelevantInTopK(retrieved, relevant, k);
      FractionBounds(n, |relevant|);
      n as real / |relevant| as real
    else 0.0
  }

  /** Recall is 1 exactly when every relevant document is among the first k. */
  lemma RecallFullIff<T>(retrieved: seq<T>, relevant: set<T>, k: int)
    requires relevant != {}
    ensures RecallAtK(retrieved, relevant, k) == 1.0 <==> relevant <= Elems(Take(retrieved, k))
  {
    var top := Elems(Take(retrieved, k));
    var n := RelevantInTopK(retrieved, relevant, k);
    assert n == |top * relevant|;
    FractionOneIff(n, |relevant|);
    if n == |relevant| {
      if !(relevant <= top) {
        var x :| x in relevant && x !in top;
        SubsetCard(top * relevant, relevant - {x});
      }
    }
    if relevant <= top {
      assert top * relevant == relevant;
    }
  }

  /**
   * The F1 combination of a precision and a recall, 0 when both are 0. It vanishes when
   * either input does, and two equal inputs give that value back.
   */
  function F1(p: real, r: real): (f: real)
    ensures p == 0.0 || r == 0.0 ==> f == 0.0
    ensures p == r ==> f == p
  {
    if p + r == 0.0 then 0.0
    else
      assert p == r ==> 2.0 * (p * r) == p * (p + r);
      2.0 * (p * r) / (p + r)
  }

  /** For 0 <= p <= r: p(p + r) <= 2pr <= r(p + r). */
  lemma HarmonicProducts(p: real, r: real)
    requires 0.0 <= p <= r
    ensures p * (p + r) <= 2.0 * (p * r) <= r * (p + r)
  {
    MulNonNegative(r - p, p);
    MulNonNegative(r - p, r);
    assert (r - p) * p == r * p - p * p;
    assert (r - p) * r == r * r - p * r;
  }

  /** For 0 <= p <= r, not both 0: p <= F1(p, r) <= r. */
  lemma F1Ordered(p: real, r: real)
    requires 0.0 <= p <= r && p + r != 0.0
    ensures p <= F1(p, r) <= r
  {
    HarmonicProducts(p, r);
    QuotientBounds(p, r, 2.0 * (p * r), p + r);
  }

  /** A quotient whose numerator lies between a * s and b * s lies between a and b. */
  lemma QuotientBounds(a: real, b: real, x: real, s: real)
    requires 0.0 < s && a * s <= x <= b * s
    ensures a <= x / s <= b
  {
    var q := x / s;
    assert q * s == x;
    CancelFactor(a, q, s);
    CancelFactor(q, b, s);
  }

  /** The harmonic mean of two non-negative numbers lies between them. */
  lemma F1Between(p: real, r: real)
    requires 0.0 <= p && 0.0 <= r && p + r != 0.0
    ensures Min2(p, r) <= F1(p, r) <= Max2(p, r)
  {
    if p <= r {
      F1Ordered(p, r);
    } else {
      F1Ordered(r, p);
      assert F1(p, r) == F1(r, p) by {
        assert p * r == r * p;
      }
    }
  }

  function Min2(a: real, b: real): real { if a <= b then a else b }
  function Max2(a: real, b: real): real { if a >= b then a else b }

  /** `f1_at_k`: F1 of precision@k and recall@k. */
  function F1AtK<T>(retrieved: seq<T>, relevant: set<T>, k: int): (f: real)
    ensures 0.0 <= f <= 1.0
    ensures PrecisionAtK(retrieved, relevant, k) + RecallAtK(retrieved, relevant, k) == 0.0 ==> f == 0.0
    ensures PrecisionAtK(retrieved, relevant, k) + RecallAtK(retrieved, relevant, k) != 0.0 ==>
      Min2(PrecisionAtK(retrieved, relevant, k), RecallAtK(retrieved, relevant, k)) <= f <=
      Max2(PrecisionAtK(retrieved, relevant, k), RecallAtK(retrieved, relevant, k))
  {
    var p, r := PrecisionAtK(retrieved, relevant, k), RecallAtK(retrieved, relevant, k);
    if p + r == 0.0 then F1(p, r) else F1Between(p, r); F1(p, r)
  }

  /** Positions of `s` holding a relevant document (the running `num_relevant`). */
  function Hits<T>(s: seq<T>, relevant: set<T>): (n: nat)
    ensures n <= |s|
  {
    if s == [] then 0
    else Hits(s[..|s| - 1], relevant) + (if s[|s| - 1] in relevant then 1 else 0)
  }

  /** The running `sum_precisions`: at each relevant position i (1-based), hits so far over i. */
  function PrecisionSum<T>(s: seq<T>, relevant: set<T>): real
  {
    if s == [] then 0.0
    else
      PrecisionSum(s[..|s| - 1], relevant) +
      (if s[|s| - 1] in relevant then Hits(s, relevant) as real / |s| as real else 0.0)
  }

  /** Average precision as the source defines it. */
  function AveragePrecisionOf<T>(retrieved: seq<T>, relevant: set<T>): real
  {
    if relevant == {} || retrieved == [] then 0.0
    else if Hits(retrieved, relevant) == 0 then 0.0
    else PrecisionSum(retrieved, relevant) / |relevant| as real
  }

  /** `average_precision`: one pass accumulating hits and precisions at hit positions. */
  method AveragePrecision<T>(retrieved: seq<T>, relevant: set<T>) returns (ap: real)
    ensures ap == AveragePrecisionOf(retrieved, relevant)
  {
    if relevant == {} || retrieved == [] {
      return 0.0;
    }
    var numRelevant := 0;
    var sumPrecisions := 0.0;
    for i := 1 to |retrieved| + 1
      invariant numRelevant == Hits(retrieved[..i - 1], relevant)
      invariant sumPrecisions == PrecisionSum(retrieved[..i - 1], relevant)
    {
      var doc := retrieved[i - 1];
      assert retrieved[..i][..i - 1] == retrieved[..i - 1];
      if doc in relevant {
        numRelevant := numRelevant + 1;
        var precisionAtI := numRelevant as real / i as real;
        sumPrecisions := sumPrecisions + precisionAtI;
      }
    }
    assert retrieved[..|retrieved|] == retrieved;
    var totalRelevant := |relevant|;
    if numRelevant == 0 {
      return 0.0;
    }
    return sumPrecisions / totalRelevant as real;
  }

  /** Each term of the sum is at most 1, so the sum is at most the number of hits. */
  lemma {:induction false} PrecisionSumBounds<T>(s: seq<T>, relevant: set<T>)
    ensures 0.0 <= PrecisionSum(s, relevant) <= Hits(s, relevant) as real
  {
    if s != [] {
      PrecisionSumBounds(s[..|s| - 1], relevant);
      if s[|s| - 1] in relevant {
        assert Hits(s, relevant) as real / |s| as real <= 1.0;
      }
    }
  }

  /** On a list without repeats the hits are the distinct relevant documents retrieved. */
  lemma {:induction false} HitsDistinct<T>(s: seq<T>, relevant: set<T>)
    requires Distinct(s)
    ensures Hits(s, relevant) == |Elems(s) * relevant|
  {
    if s != [] {
      var p := s[..|s| - 1];
      var x := s[|s| - 1];
      HitsDistinct(p, relevant);
      DistinctNotBefore(s, |s|);
      assert s == p + [x];
      ElemsAppend(p, [x]);
      if x in relevant {
        assert Elems(s) * relevant == (Elems(p) * relevant) + {x};
      } else {
        assert Elems(s) * relevant == Elems(p) * relevant;
      }
    }
  }

  /** Average precision lies in [0, 1] when the retrieved list has no repeats. */
  lemma AveragePrecisionBounds<T>(retrieved: seq<T>, relevant: set<T>)
    requires Distinct(retrieved)
    ensures 0.0 <= AveragePrecisionOf(retrieved, relevant) <= 1.0
  {
    if relevant != {} && retrieved != [] && Hits(retrieved, relevant) != 0 {
      PrecisionSumBounds(retrieved, relevant);
      HitsDistinct(retrieved, relevant);
      SubsetCard(Elems(retrieved) * relevant, relevant);
      var n := |relevant| as real;
      assert PrecisionSum(retrieved, relevant) <= n;
      assert 0.0 * n == 0.0 && 1.0 * n == n;
      QuotientBounds(0.0, 1.0, PrecisionSum(retrieved, relevant), n);
    }
  }

  /** With a repeated relevant document the bound fails: ["a", "a"] against {"a"} scores 2. */
  lemma AveragePrecisionRepeat<T>(a: T)
    ensures AveragePrecisionOf([a, a], {a}) == 2.0
  {
    assert [a, a][..1] == [a];
    assert [a][..0] == [];
    assert Hits([a], {a}) == 1;
    assert Hits([a, a], {a}) == 2;
    assert PrecisionSum([a], {a}) == 1.0;
    assert PrecisionSum([a, a], {a}) == 2.0;
  }

  /** Average precision is 0 exactly when nothing relevant was retrieved. */
  lemma AveragePrecisionZeroIff<T>(retrieved: seq<T>, relevant: set<T>)
    ensures AveragePrecisionOf(retrieved, relevant) == 0.0 <==> Hits(retrieved, relevant) == 0
  {
    if Hits(retrieved, relevant) != 0 {
      PositiveSum(retrieved, relevant);
      assert relevant != {};
    }
  }

  /** A relevant position adds a positive term. */
  lemma {:induction false} PositiveSum<T>(s: seq<T>, relevant: set<T>)
    requires Hits(s, relevant) != 0
    ensures PrecisionSum(s, relevant) > 0.0
  {
    var p := s[..|s| - 1];
    PrecisionSumBounds(p, relevant);
    if s[|s| - 1] !in relevant {
      PositiveSum(p, relevant);
    }
  }

  /** The 0-based index of the first relevant document, or |s| if there is none. */
  function FirstRelevant<T>(s: seq<T>, relevant: set<T>): (i: nat)
    ensures i <= |s|
    ensures forall j :: 0 <= j < i ==> s[j] !in relevant
    ensures i < |s| ==> s[i] in relevant
  {
    if s == [] then 0
    else if s[0] in relevant then 0
    else 1 + FirstRelevant(s[1..], relevant)
  }

  /** Reciprocal rank as the source defines it. */
  function ReciprocalRankOf<T>(retrieved: seq<T>, relevant: set<T>): (rr: real)
    ensures 0.0 <= rr <= 1.0
    ensures rr == 0.0 <==> forall j :: 0 <= j < |retrieved| ==> retrieved[j] !in relevant
    ensures rr == 1.0 <==> retrieved != [] && retrieved[0] in relevant
  {
    var i := FirstRelevant(retrieved, relevant);
    if i < |retrieved| then 1.0 / (i + 1) as real else 0.0
  }

  /** `reciprocal_rank`: scan in order and stop at the first relevant document. */
  method ReciprocalRank<T>(retrieved: seq<T>, relevant: set<T>) returns (rr: real)
    ensures rr == ReciprocalRankOf(retrieved, relevant)
  {
    for i := 1 to |retrieved| + 1
      invariant forall j :: 0 <= j < i - 1 ==> retrieved[j] !in relevant
    {
      if retrieved[i - 1] in relevant {
        assert FirstRelevant(retrieved, relevant) == i - 1;
        return 1.0 / i as real;
      }
    }
    return 0.0;
  }

  /** The dictionary returned by `calculate_all_metrics`, without its `ndcg@k` entry. */
  datatype Metrics = Metrics(precision: real, recall: real, f1: real, averagePrecision: real, reciprocalRank: real)

  /** `calculate_all_metrics`: every metric of one ranked list against one relevant set. */
  method CalculateAllMetrics<T>(retrieved: seq<T>, relevant: set<T>, k: int) returns (m: Metrics)
    ensures m.precision == PrecisionAtK(retrieved, relevant, k)
    ensures m.recall == RecallAtK(retrieved, relevant, k)
    ensures m.f1 == F1AtK(retrieved, relevant, k)
    ensures m.averagePrecision == AveragePrecisionOf(retrieved, relevant)
    ensures m.reciprocalRank == ReciprocalRankOf(retrieved, relevant)
    ensures 0.0 <= m.precision <= 1.0 && 0.0 <= m.recall <= 1.0 && 0.0 <= m.f1 <= 1.0
    ensures 0.0 <= m.reciprocalRank <= 1.0
    ensures Distinct(retrieved) ==> 0.0 <= m.averagePrecision <= 1.0
  {
    var ap := AveragePrecision(retrieved, relevant);
    var rr := ReciprocalRank(retrieved, relevant);
    if Distinct(retrieved) {
      AveragePrecisionBounds(retrieved, relevant);
    }
    m := Metrics(PrecisionAtK(retrieved, relevant, k), RecallAtK(retrieved, relevant, k),
                 F1AtK(retrieved, relevant, k), ap, rr);
  }

  /** Test 1 of the module ("docN" written N): every relevant document ranked first. */
  lemma WorkedExampleOne(retrieved: seq<int>, relevant: set<int>)
    requires retrieved == [2, 4, 6, 1, 3] && relevant == {2, 4, 6}
    ensures PrecisionAtK(retrieved, relevant, 5) == 0.6
    ensures RecallAtK(retrieved, relevant, 5) == 1.0
    ensures F1AtK(retrieved, relevant, 5) == 0.75
    ensures ReciprocalRankOf(retrieved, relevant) == 1.0
  {
    assert Take(retrieved, 5) == retrieved;
    assert Elems(retrieved) * relevant == relevant;
    assert |relevant| == 3;
  }

  /** One position of the running sums. */
  lemma SumsStep<T>(s: seq<T>, relevant: set<T>, k: nat)
    requires 0 < k <= |s|
    ensures Hits(s[..k], relevant) == Hits(s[..k - 1], relevant) + (if s[k - 1] in relevant then 1 else 0)
    ensures PrecisionSum(s[..k], relevant) == PrecisionSum(s[..k - 1], relevant) +
      (if s[k - 1] in relevant then Hits(s[..k], relevant) as real / k as real else 0.0)
  {
    assert s[..k][..k - 1] == s[..k - 1];
  }

  /** Test 1, average precision: hits at ranks 1, 2 and 3 each score 1. */
  lemma WorkedExampleOneAveragePrecision(retrieved: seq<int>, relevant: set<int>)
    requires retrieved == [2, 4, 6, 1, 3] && relevant == {2, 4, 6}
    ensures AveragePrecisionOf(retrieved, relevant) == 1.0
  {
    var r := retrieved;
    assert r[..0] == [] && r[..5] == r;
    SumsStep(r, relevant, 1);
    SumsStep(r, relevant, 2);
    SumsStep(r, relevant, 3);
    SumsStep(r, relevant, 4);
    SumsStep(r, relevant, 5);
    assert PrecisionSum(r[..3], relevant) == 3.0;
    assert |relevant| == 3;
  }

  /** Test 2 of the module: relevant documents at ranks 2 and 4, and one never retrieved. */
  lemma WorkedExampleTwo(retrieved: seq<int>, relevant: set<int>)
    requires retrieved == [1, 2, 3, 4, 5] && relevant == {2, 4, 6}
    ensures PrecisionAtK(retrieved, relevant, 5) == 0.4
    ensures RecallAtK(retrieved, relevant, 5) == 2.0 / 3.0
    ensures F1AtK(retrieved, relevant, 5) == 0.5
    ensures ReciprocalRankOf(retrieved, relevant) == 0.5
  {
    assert Take(retrieved, 5) == retrieved;
    assert Elems(retrieved) * relevant == {2, 4};
    assert |relevant| == 3;
    assert FirstRelevant(retrieved, relevant) == 1;
  }

  /** Test 2, average precision: (1/2 + 2/4) over three relevant documents. */
  lemma WorkedExampleTwoAveragePrecision(retrieved: seq<int>, relevant: set<int>)
    requires retrieved == [1, 2, 3, 4, 5] && relevant == {2, 4, 6}
    ensures AveragePrecisionOf(retrieved, relevant) == 1.0 / 3.0
  {
    var r := retrieved;
    assert r[..0] == [] && r[..5] == r;
    SumsStep(r, relevant, 1);
    SumsStep(r, relevant, 2);
    SumsStep(r, relevant, 3);
    SumsStep(r, relevant, 4);
    SumsStep(r, relevant, 5);
    assert PrecisionSum(r[..4], relevant) == 1.0;
    assert |relevant| == 3;
  }
}
