/** `calculate_average_scores`: per-field means of the evaluations of one
    category. The means are exact; the source rounds them to two decimals. */
module Averaging {
  import opened Model

  /** The sum of one field over the entries, an absent field counting 0. */
  function Total(data: seq<Evaluation>, f: Field): int {
    if |data| == 0 then 0
    else Total(data[..|data| - 1], f) + FieldValue(data[|data| - 1], f)
  }

  /** The mean of one field; no entries gives 0. */
  function Mean(data: seq<Evaluation>, f: Field): real {
    if |data| == 0 then 0.0 else Total(data, f) as real / |data| as real
  }

  /** The four means, as the result dict holds them. */
  function AverageScores(data: seq<Evaluation>): Averages {
    Averages(Mean(data, Accuracy), Mean(data, Relevance), Mean(data, Coherence), Mean(data, Fluency))
  }

  /** The loop of `calculate_average_scores`: one pass accumulating the four
      totals, then a division by the number of entries. */
  method CalculateAverageScores(data: seq<Evaluation>) returns (averages: Averages)
    ensures |data| == 0 ==> averages == ZeroAverages
    ensures averages == AverageScores(data)
  {
    if |data| == 0 {
      return ZeroAverages;
    }
    var accuracy, relevance, coherence, fluency := 0, 0, 0, 0;
    var i := 0;
    while i < |data|
      invariant 0 <= i <= |data|
      invariant accuracy == Total(data[..i], Accuracy)
      invariant relevance == Total(data[..i], Relevance)
      invariant coherence == Total(data[..i], Coherence)
      invariant fluency == Total(data[..i], Fluency)
    {
      assert data[..i + 1][..i] == data[..i];
      accuracy := accuracy + FieldValue(data[i], Accuracy);
      relevance := relevance + FieldValue(data[i], Relevance);
      coherence := coherence + FieldValue(data[i], Coherence);
      fluency := fluency + FieldValue(data[i], Fluency);
      i := i + 1;
    }
    assert data[..i] == data;
    var n := |data| as real;
    averages := Averages(accuracy as real / n, relevance as real / n, coherence as real / n, fluency as real / n);
  }

  /** Each reported average times the number of entries gives the field's
      total, an error entry counting 0 in it. */
  lemma AverageTimesCount(data: seq<Evaluation>, f: Field)
    ensures AverageScores(data).Get(f) * |data| as real == Total(data, f) as real
  {
    assert AverageScores(data).Get(f) == Mean(data, f);
    if |data| > 0 {
      QuotientTimes(Total(data, f), |data|);
    }
  }

  lemma QuotientTimes(t: int, n: int)
    requires n > 0
    ensures t as real / n as real * n as real == t as real
  {
  }

  /** Totals split over concatenation. */
  lemma {:induction false} TotalAppend(a: seq<Evaluation>, b: seq<Evaluation>, f: Field)
    ensures Total(a + b, f) == Total(a, f) + Total(b, f)
    decreases |b|
  {
    if |b| == 0 {
      assert a + b == a;
    } else {
      var n := |b| - 1;
      assert (a + b)[..|a + b| - 1] == a + b[..n];
      TotalAppend(a, b[..n], f);
    }
  }

  /** Every per-entry value lies in [lo, hi], so the total lies in [lo*n, hi*n]. */
  lemma {:induction false} TotalWithin(data: seq<Evaluation>, f: Field, lo: int, hi: int)
    requires forall i :: 0 <= i < |data| ==> lo <= FieldValue(data[i], f) <= hi
    ensures lo * |data| <= Total(data, f) <= hi * |data|
  {
    if |data| > 0 {
      var n := |data| - 1;
      assert forall i :: 0 <= i < n ==> data[..n][i] == data[i];
      TotalWithin(data[..n], f, lo, hi);
      var v := FieldValue(data[n], f);
      assert Total(data, f) == Total(data[..n], f) + v;
      assert lo * |data| == lo * n + lo;
      assert hi * |data| == hi * n + hi;
    }
  }

  /** A quotient by a positive count keeps the bounds of the dividend, scaled. */
  lemma QuotientWithin(t: int, n: int, lo: int, hi: int)
    requires n > 0 && lo * n <= t <= hi * n
    ensures lo as real <= t as real / n as real <= hi as real
  {
    var q := t as real / n as real;
    assert q * n as real == t as real;
    assert (lo * n) as real == lo as real * n as real;
    assert (hi * n) as real == hi as real * n as real;
    assert (q - lo as real) * n as real == t as real - lo as real * n as real;
    assert (hi as real - q) * n as real == hi as real * n as real - t as real;
  }

  /** The unrounded mean lies between the least and the greatest per-entry value. */
  lemma MeanWithin(data: seq<Evaluation>, f: Field, lo: int, hi: int)
    requires |data| > 0
    requires forall i :: 0 <= i < |data| ==> lo <= FieldValue(data[i], f) <= hi
    ensures lo as real <= Mean(data, f) <= hi as real
  {
    TotalWithin(data, f, lo, hi);
    QuotientWithin(Total(data, f), |data|, lo, hi);
  }

  /** An error entry adds nothing to any total but one to the divisor. */
  lemma ErrorEntryOnlyCounts(a: seq<Evaluation>, b: seq<Evaluation>, message: string, f: Field)
    ensures Total(a + [ErrorEntry(message)] + b, f) == Total(a + b, f)
    ensures |a + [ErrorEntry(message)] + b| == |a + b| + 1
  {
    TotalAppend(a, [ErrorEntry(message)], f);
    TotalAppend(a + [ErrorEntry(message)], b, f);
    TotalAppend(a, b, f);
    assert Total([ErrorEntry(message)], f) == Total([], f) + 0 by {
      assert [ErrorEntry(message)][..0] == [];
    }
  }

  /** The worked example: scores (8,9,7,9) and (6,7,9,8) average to (7, 8, 8, 8.5). */
  lemma WorkedExample()
    ensures AverageScores([Scored(RubricScore(8, 9, 7, 9, "")), Scored(RubricScore(6, 7, 9, 8, ""))])
         == Averages(7.0, 8.0, 8.0, 8.5)
  {
    var a := Scored(RubricScore(8, 9, 7, 9, ""));
    var b := Scored(RubricScore(6, 7, 9, 8, ""));
    assert [a, b][..1] == [a];
    assert [a][..0] == [];
    forall f | true
      ensures Total([a, b], f) == FieldValue(a, f) + FieldValue(b, f)
    {
      assert Total([a], f) == FieldValue(a, f);
    }
    assert Mean([a, b], Accuracy) == 14.0 / 2.0;
    assert Mean([a, b], Relevance) == 16.0 / 2.0;
    assert Mean([a, b], Coherence) == 16.0 / 2.0;
    assert Mean([a, b], Fluency) == 17.0 / 2.0;
  }
}
