/**
 * The performance store of the recommendation engine: for each model and
 * category a running-average score and a sample count, seeded from a
 * static table and folded forward one observed score at a time.
 */
module PerformanceHistory {
  import opened Catalog
  import opened Selection

  datatype Record = Record(avgScore: real, sampleSize: nat)

  type History = map<Model, map<Category, Record>>

  /** The four models' rows over the five categories, in one sample size per category. */
  function Row(ev: real, ai: real, climate: real, business: real, general: real): (row: map<Category, Record>)
    ensures forall c :: c in row
  {
    AllCategoriesComplete();
    var row := map[
      ElectricVehicles := Record(ev, 15),
      AITechnology := Record(ai, 12),
      ClimateEnvironment := Record(climate, 8),
      BusinessEconomics := Record(business, 10),
      GeneralTechnical := Record(general, 18)];
    assert row.Keys == AllCategories;
    row
  }

  /** The table the engine is seeded with. */
  function DefaultHistory(): History {
    map[
      GPT2 := Row(0.785, 0.820, 0.756, 0.792, 0.778),
      DistilGPT2 := Row(0.720, 0.745, 0.701, 0.734, 0.715),
      T5Small := Row(0.698, 0.712, 0.723, 0.687, 0.705),
      BertBase := Row(0.665, 0.689, 0.678, 0.671, 0.682)]
  }

  /** Every model has a record for every category in the seeded table. */
  lemma DefaultHistoryComplete()
    ensures forall m: Model :: m in DefaultHistory()
    ensures forall m: Model, c: Category :: c in DefaultHistory()[m]
  {
    forall m: Model ensures m in DefaultHistory() {
      assert m == ModelOrder[ModelIndex(m)];
    }
  }

  /** The sum of the scores a record stands for: avg * n. */
  function Total(r: Record): real {
    r.avgScore * r.sampleSize as real
  }

  /**
   * One step of the running mean: (avg * n + score) / (n + 1) and n + 1.
   * The total avg * n grows by exactly the folded score.
   */
  function Fold(r: Record, score: real): (r': Record)
    ensures r'.sampleSize == r.sampleSize + 1
    ensures Total(r') == Total(r) + score
  {
    var total := r.avgScore * r.sampleSize as real + score;
    var n := r.sampleSize + 1;
    var avg := total / n as real;
    assert avg * n as real == total;
    Record(avg, n)
  }

  /** The folded record is the new mean over one more sample. */
  lemma FoldUnfold(r: Record, score: real)
    ensures Fold(r, score) == Record((r.avgScore * r.sampleSize as real + score) / (r.sampleSize + 1) as real, r.sampleSize + 1)
  {
  }

  /**
   * update_performance_history for an already categorized prompt: the one
   * entry (m, c) is folded forward, or created as {score, 1}; every other
   * entry of the table is left as it was.
   */
  function Updated(h: History, c: Category, m: Model, score: real): (h': History)
    ensures h'.Keys == h.Keys + {m}
    ensures forall m' :: m' in h && m' != m ==> h'[m'] == h[m']
    ensures h'[m].Keys == (if m in h then h[m].Keys else {}) + {c}
    ensures forall c' :: c' in h'[m] && c' != c ==> h'[m][c'] == h[m][c']
    ensures h'[m][c] == if m in h && c in h[m] then Fold(h[m][c], score) else Record(score, 1)
  {
    var row := if m in h then h[m] else map[];
    var rec := if c in row then Fold(row[c], score) else Record(score, 1);
    h[m := row[c := rec]]
  }

  /** A score in [0, 1] folded into an average in [0, 1] keeps it in [0, 1]. */
  lemma FoldInUnitRange(r: Record, score: real)
    requires 0.0 <= r.avgScore <= 1.0 && 0.0 <= score <= 1.0
    ensures 0.0 <= Fold(r, score).avgScore <= 1.0
  {
    var n := r.sampleSize as real;
    ScaledUnit(r.avgScore, n);
    var r' := Fold(r, score);
    var total := r.avgScore * n + score;
    assert r'.sampleSize as real == n + 1.0;
    assert Total(r') == total;
    QuotientUnit(r'.avgScore, n + 1.0, total);
  }

  lemma ScaledUnit(a: real, n: real)
    requires 0.0 <= a <= 1.0 && 0.0 <= n
    ensures 0.0 <= a * n <= n
  {
  }

  /** The entries of a table all hold averages in [0, 1]. */
  ghost predicate InUnitRange(h: History) {
    forall m, c :: m in h && c in h[m] ==> 0.0 <= h[m][c].avgScore <= 1.0
  }

  /** Updating with a score in [0, 1] keeps every average in [0, 1]. */
  lemma UpdatedInUnitRange(h: History, c: Category, m: Model, score: real)
    requires InUnitRange(h) && 0.0 <= score <= 1.0
    ensures InUnitRange(Updated(h, c, m, score))
  {
    if m in h && c in h[m] {
      FoldInUnitRange(h[m][c], score);
    }
  }

  /** Repeated update_performance_history calls for one model and category. */
  function UpdatedAll(h: History, c: Category, m: Model, scores: seq<real>): History {
    if scores == [] then h
    else Updated(UpdatedAll(h, c, m, scores[..|scores| - 1]), c, m, scores[|scores| - 1])
  }

  /**
   * Folding scores s1..sk one at a time into an existing record (avg, n)
   * ends with the total avg * n + s1 + ... + sk over n + k samples.
   */
  lemma {:induction false} UpdatedAllExisting(h: History, c: Category, m: Model, scores: seq<real>)
    requires m in h && c in h[m]
    ensures var h' := UpdatedAll(h, c, m, scores);
      && m in h' && c in h'[m]
      && h'[m][c].sampleSize == h[m][c].sampleSize + |scores|
      && Total(h'[m][c]) == Total(h[m][c]) + Sum(scores)
  {
    if scores != [] {
      var init := scores[..|scores| - 1];
      UpdatedAllExisting(h, c, m, init);
      StepTotal(h, c, m, scores);
    }
  }

  /**
   * Folding scores s1..sk one at a time into a record that did not exist
   * ends with the total s1 + ... + sk over k samples.
   */
  lemma {:induction false} UpdatedAllFresh(h: History, c: Category, m: Model, scores: seq<real>)
    requires |scores| > 0
    requires m !in h || c !in h[m]
    ensures var h' := UpdatedAll(h, c, m, scores);
      && m in h' && c in h'[m]
      && h'[m][c].sampleSize == |scores|
      && Total(h'[m][c]) == Sum(scores)
  {
    var init := scores[..|scores| - 1];
    if init == [] {
      FirstScore(h, c, m, scores);
    } else {
      UpdatedAllFresh(h, c, m, init);
      StepTotal(h, c, m, scores);
    }
  }

  /** A single score folded into an absent record is the whole total, over one sample. */
  lemma FirstScore(h: History, c: Category, m: Model, scores: seq<real>)
    requires |scores| == 1
    requires m !in h || c !in h[m]
    ensures var h' := UpdatedAll(h, c, m, scores);
      && m in h' && c in h'[m]
      && h'[m][c] == Record(scores[0], 1)
      && Total(h'[m][c]) == Sum(scores)
  {
    var h' := UpdatedAll(h, c, m, scores);
    assert h' == Updated(h, c, m, scores[0]) by {
      assert scores[..0] == [];
    }
    assert Total(Record(scores[0], 1)) == scores[0];
    assert Sum(scores) == scores[0] by {
      assert scores[..0] == [];
    }
  }

  /** The last fold adds the last score to the total of the ones before it. */
  lemma StepTotal(h: History, c: Category, m: Model, scores: seq<real>)
    requires |scores| > 0
    requires var h0 := UpdatedAll(h, c, m, scores[..|scores| - 1]); m in h0 && c in h0[m]
    ensures var before := UpdatedAll(h, c, m, scores[..|scores| - 1])[m][c];
      var after := UpdatedAll(h, c, m, scores)[m][c];
      && after.sampleSize == before.sampleSize + 1
      && Total(after) == Total(before) + scores[|scores| - 1]
  {
    var init := scores[..|scores| - 1];
    var before := UpdatedAll(h, c, m, init)[m][c];
    assert UpdatedAll(h, c, m, scores) == Updated(UpdatedAll(h, c, m, init), c, m, scores[|scores| - 1]);
    assert UpdatedAll(h, c, m, scores)[m][c] == Fold(before, scores[|scores| - 1]);
  }

  /** The running mean of scores folded into an absent record is their mean. */
  lemma RunningMeanIsMean(h: History, c: Category, m: Model, scores: seq<real>)
    requires |scores| > 0
    requires m !in h || c !in h[m]
    ensures var h' := UpdatedAll(h, c, m, scores);
      m in h' && c in h'[m] && h'[m][c] == Record(Mean(scores), |scores|)
  {
    UpdatedAllFresh(h, c, m, scores);
  }

  /** Three scores of 1.0 for a new pair leave avg 1.0 over 3 samples. */
  lemma ThreePerfectScores(h: History, c: Category, m: Model)
    requires m !in h || c !in h[m]
    ensures UpdatedAll(h, c, m, [1.0, 1.0, 1.0])[m][c] == Record(1.0, 3)
  {
    RunningMeanIsMean(h, c, m, [1.0, 1.0, 1.0]);
    assert Sum([1.0, 1.0, 1.0]) == 3.0 by {
      assert [1.0, 1.0, 1.0][..2] == [1.0, 1.0];
      assert [1.0, 1.0][..1] == [1.0];
      assert [1.0][..0] == [];
    }
  }
}
