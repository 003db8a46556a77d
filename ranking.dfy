/**
 * The ranking half of the recommendation engine, as specification
 * functions: the candidates of one category read off the performance
 * table, the preference and complexity boosts, the stable descending sort,
 * the single recommendation and the diversified multi-model list.
 */
module Ranking {
  import opened Wrappers
  import opened Catalog
  import opened Selection
  import opened PromptAnalysis
  import opened PerformanceHistory

  /** One entry of category_performance: score, confidence and sample size. */
  datatype Candidate = Candidate(model: Model, score: real, confidence: real, sampleSize: nat)

  /** min(sample_size / 10, 1.0) */
  function Confidence(n: nat): (r: real)
    ensures 0.0 <= r <= 1.0
    ensures r == 1.0 <==> n >= 10
  {
    if (n as real) / 10.0 < 1.0 then (n as real) / 10.0 else 1.0
  }

  predicate HasRecord(h: History, m: Model, c: Category) {
    m in h && c in h[m]
  }

  function FromRecord(m: Model, r: Record): Candidate {
    Candidate(m, r.avgScore, Confidence(r.sampleSize), r.sampleSize)
  }

  /** The candidates of the first k models of ModelOrder that hold a record for c. */
  function CandidatesUpTo(h: History, c: Category, k: nat): seq<Candidate>
    requires k <= |ModelOrder|
  {
    if k == 0 then []
    else
      var m := ModelOrder[k - 1];
      CandidatesUpTo(h, c, k - 1) + if HasRecord(h, m, c) then [FromRecord(m, h[m][c])] else []
  }

  /** category_performance before any boost, in the table's model order. */
  function CategoryCandidates(h: History, c: Category): seq<Candidate> {
    CandidatesUpTo(h, c, |ModelOrder|)
  }

  /** The models of a candidate list, in order (Picked is the same projection over suggestions). */
  function Models(cs: seq<Candidate>): (ms: seq<Model>)
    ensures |ms| == |cs|
    ensures forall i :: 0 <= i < |cs| ==> ms[i] == cs[i].model
  {
    seq(|cs|, i requires 0 <= i < |cs| => cs[i].model)
  }

  function Scores(cs: seq<Candidate>): (xs: seq<real>)
    ensures |xs| == |cs|
    ensures forall i :: 0 <= i < |cs| ==> xs[i] == cs[i].score
  {
    seq(|cs|, i requires 0 <= i < |cs| => cs[i].score)
  }

  /** Candidates listed in the table's model order, so no model twice. */
  ghost predicate ModelOrdered(cs: seq<Candidate>) {
    forall i, j :: 0 <= i < j < |cs| ==> ModelIndex(cs[i].model) < ModelIndex(cs[j].model)
  }

  /** Every candidate is read off its own record of the table. */
  ghost predicate ReadOff(h: History, c: Category, cs: seq<Candidate>) {
    forall i :: 0 <= i < |cs| ==>
      HasRecord(h, cs[i].model, c) && cs[i] == FromRecord(cs[i].model, h[cs[i].model][c])
  }

  lemma {:induction false} CandidatesUpToSpec(h: History, c: Category, k: nat)
    requires k <= |ModelOrder|
    ensures var cs := CandidatesUpTo(h, c, k);
      && ModelOrdered(cs)
      && ReadOff(h, c, cs)
      && (forall i :: 0 <= i < |cs| ==> ModelIndex(cs[i].model) < k)
  {
    if k > 0 {
      CandidatesUpToSpec(h, c, k - 1);
      ModelIndexInverse();
      var prev := CandidatesUpTo(h, c, k - 1);
      var m := ModelOrder[k - 1];
      var cs := CandidatesUpTo(h, c, k);
      assert forall i :: 0 <= i < |prev| ==> cs[i] == prev[i];
      assert ModelIndex(m) == k - 1;
    }
  }

  lemma {:induction false} CandidatesUpToComplete(h: History, c: Category, k: nat)
    requires k <= |ModelOrder|
    ensures forall m :: ModelIndex(m) < k && HasRecord(h, m, c) ==> m in Models(CandidatesUpTo(h, c, k))
  {
    if k > 0 {
      CandidatesUpToComplete(h, c, k - 1);
      var prev := CandidatesUpTo(h, c, k - 1);
      var cs := CandidatesUpTo(h, c, k);
      forall m | ModelIndex(m) < k && HasRecord(h, m, c) ensures m in Models(cs) {
        if ModelIndex(m) < k - 1 {
          var p :| 0 <= p < |prev| && Models(prev)[p] == m;
          assert Models(cs)[p] == m;
        } else {
          assert Models(cs)[|cs| - 1] == m;
        }
      }
    }
  }

  /**
   * category_performance holds exactly the models with a record for the
   * category, in table order, each with its average, sample size and
   * confidence min(n / 10, 1).
   */
  lemma CategoryCandidatesSpec(h: History, c: Category)
    ensures var cs := CategoryCandidates(h, c);
      && ModelOrdered(cs)
      && ReadOff(h, c, cs)
      && (forall m :: m in Models(cs) <==> HasRecord(h, m, c))
  {
    CandidatesUpToSpec(h, c, |ModelOrder|);
    CandidatesUpToComplete(h, c, |ModelOrder|);
  }

  datatype Preferences = Preferences(preferSpeed: bool, preferDetail: bool, preferStructure: bool)

  const NoPreferences := Preferences(false, false, false)

  /** Adds delta to the score of m's entry, when there is one. */
  function Boost(cs: seq<Candidate>, m: Model, delta: real): seq<Candidate> {
    seq(|cs|, i requires 0 <= i < |cs| =>
      if cs[i].model == m then cs[i].(score := cs[i].score + delta) else cs[i])
  }

  /** The boosts in the order the engine applies them. */
  function Adjusted(cs: seq<Candidate>, prefs: Preferences, cx: Complexity): seq<Candidate> {
    var speed := if prefs.preferSpeed then Boost(cs, DistilGPT2, 0.05) else cs;
    var detail := if prefs.preferDetail then Boost(speed, GPT2, 0.05) else speed;
    var structure := if prefs.preferStructure then Boost(detail, T5Small, 0.05) else detail;
    if cx.score > 0.7 then Boost(structure, GPT2, 0.03)
    else if cx.score < 0.3 then Boost(structure, DistilGPT2, 0.03)
    else structure
  }

  /**
   * The total bonus a model receives: +0.05 per preference naming it, and
   * +0.03 for GPT2 above complexity 0.7 or for DistilGPT2 below 0.3.
   */
  function Bonus(m: Model, prefs: Preferences, cx: Complexity): real {
    (if prefs.preferSpeed && m == DistilGPT2 then 0.05 else 0.0)
    + (if prefs.preferDetail && m == GPT2 then 0.05 else 0.0)
    + (if prefs.preferStructure && m == T5Small then 0.05 else 0.0)
    + (if cx.score > 0.7 && m == GPT2 then 0.03
       else if cx.score < 0.3 && m == DistilGPT2 then 0.03
       else 0.0)
  }

  /**
   * The boosts only add each candidate's own bonus to its score: the list
   * keeps its length, order, models, confidences and sample sizes.
   */
  lemma AdjustedScores(cs: seq<Candidate>, prefs: Preferences, cx: Complexity)
    ensures |Adjusted(cs, prefs, cx)| == |cs|
    ensures forall i :: 0 <= i < |cs| ==>
      Adjusted(cs, prefs, cx)[i] == cs[i].(score := cs[i].score + Bonus(cs[i].model, prefs, cx))
  {
  }

  /** The score a model with a record is ranked by. */
  function AdjustedScore(h: History, c: Category, m: Model, prefs: Preferences, cx: Complexity): real {
    if HasRecord(h, m, c) then h[m][c].avgScore + Bonus(m, prefs, cx) else 0.0
  }

  /** Sort key of the stable descending sort: higher score, then earlier model. */
  predicate Precedes(x: Candidate, y: Candidate) {
    x.score > y.score || (x.score == y.score && ModelIndex(x.model) < ModelIndex(y.model))
  }

  /**
   * sorted(..., key=score, reverse=True): repeatedly take the first entry
   * with the highest score. Python's sort is stable, so entries with equal
   * scores keep their order, which is what taking the first maximum does.
   */
  function Ranked(cs: seq<Candidate>): (r: seq<Candidate>)
    ensures |r| == |cs|
    decreases |cs|
  {
    if cs == [] then []
    else
      var k := ArgMax(Scores(cs));
      [cs[k]] + Ranked(cs[..k] + cs[k + 1..])
  }

  lemma {:induction false} RankedPermutation(cs: seq<Candidate>)
    ensures multiset(Ranked(cs)) == multiset(cs)
    decreases |cs|
  {
    if cs != [] {
      var k := ArgMax(Scores(cs));
      var rest := cs[..k] + cs[k + 1..];
      RankedPermutation(rest);
      MultisetSplit(cs, k);
      assert Ranked(cs) == [cs[k]] + Ranked(rest);
    }
  }

  /** Every candidate precedes the next ones and carries another model. */
  ghost predicate SortedByModelScore(r: seq<Candidate>) {
    forall i, j :: 0 <= i < j < |r| ==> Precedes(r[i], r[j]) && r[i].model != r[j].model
  }

  /** x precedes every candidate of rest and carries another model. */
  ghost predicate HeadOver(x: Candidate, rest: seq<Candidate>) {
    forall p :: 0 <= p < |rest| ==> Precedes(x, rest[p]) && x.model != rest[p].model
  }

  /** Taking one candidate out keeps the others in test-model order. */
  lemma DropModelOrdered(cs: seq<Candidate>, k: nat)
    requires ModelOrdered(cs) && k < |cs|
    ensures ModelOrdered(cs[..k] + cs[k + 1..])
  {
    DropAt(cs, k);
  }

  /** The first maximum precedes every other candidate and has another model. */
  lemma HeadPrecedes(cs: seq<Candidate>, k: nat)
    requires ModelOrdered(cs) && |cs| > 0 && k == ArgMax(Scores(cs))
    ensures ModelOrdered(cs[..k] + cs[k + 1..])
    ensures HeadOver(cs[k], cs[..k] + cs[k + 1..])
  {
    var rest := cs[..k] + cs[k + 1..];
    DropAt(cs, k);
    DropModelOrdered(cs, k);
    forall p | 0 <= p < |rest| ensures Precedes(cs[k], rest[p]) && cs[k].model != rest[p].model {
      if p < k {
        assert Scores(cs)[p] < Scores(cs)[k];
        assert ModelIndex(cs[p].model) < ModelIndex(cs[k].model);
      } else {
        assert Scores(cs)[p + 1] <= Scores(cs)[k];
        assert ModelIndex(cs[k].model) < ModelIndex(cs[p + 1].model);
      }
    }
  }

  lemma HeadOverPermutation(x: Candidate, rest: seq<Candidate>, tail: seq<Candidate>)
    requires HeadOver(x, rest) && multiset(tail) == multiset(rest)
    ensures HeadOver(x, tail)
  {
    forall q | 0 <= q < |tail| ensures Precedes(x, tail[q]) && x.model != tail[q].model {
      assert tail[q] in multiset(rest);
      var p :| 0 <= p < |rest| && rest[p] == tail[q];
    }
  }

  lemma ConsSorted(x: Candidate, tail: seq<Candidate>)
    requires HeadOver(x, tail) && SortedByModelScore(tail)
    ensures SortedByModelScore([x] + tail)
  {
    var r := [x] + tail;
    forall i, j | 0 <= i < j < |r| ensures Precedes(r[i], r[j]) && r[i].model != r[j].model {
      if i == 0 {
        assert r[j] == tail[j - 1];
      } else {
        assert r[i] == tail[i - 1] && r[j] == tail[j - 1];
      }
    }
  }

  /**
   * On candidates in table order the ranking is the permutation sorted by
   * descending score with ties in table order, and no model appears twice.
   */
  lemma {:induction false} RankedOrder(cs: seq<Candidate>)
    requires ModelOrdered(cs)
    ensures SortedByModelScore(Ranked(cs))
    decreases |cs|
  {
    if cs != [] {
      var k := ArgMax(Scores(cs));
      var rest := cs[..k] + cs[k + 1..];
      HeadPrecedes(cs, k);
      RankedOrder(rest);
      RankedPermutation(rest);
      HeadOverPermutation(cs[k], rest, Ranked(rest));
      ConsSorted(cs[k], Ranked(rest));
      assert Ranked(cs) == [cs[k]] + Ranked(rest);
    }
  }

  datatype Details = Details(profile: ModelProfile, expectedResponseLength: nat, allScores: map<Model, real>)

  /** What get_model_recommendation returns, less the reason text. */
  datatype Recommendation = Recommendation(
    model: Model,
    confidence: real,
    category: Category,
    alternatives: seq<Model>,
    complexity: Complexity,
    details: Option<Details>)

  /** dict.get(m, d) on a table listed as candidates: the first entry for m. */
  function ScoreOr(cs: seq<Candidate>, m: Model, d: real): real {
    if cs == [] then d
    else if cs[0].model == m then cs[0].score
    else ScoreOr(cs[1..], m, d)
  }

  lemma {:induction false} ScoreOrAt(cs: seq<Candidate>, m: Model, d: real, i: nat)
    requires ModelOrdered(cs) && i < |cs| && cs[i].model == m
    ensures ScoreOr(cs, m, d) == cs[i].score
  {
    if i > 0 {
      assert ModelIndex(cs[0].model) < ModelIndex(cs[i].model);
      ScoreOrAt(cs[1..], m, d, i - 1);
    }
  }

  /** The all_scores dict: every candidate's adjusted score. */
  function AllScores(cs: seq<Candidate>): map<Model, real> {
    map m | m in Models(cs) :: ScoreOr(cs, m, 0.0)
  }

  function MinNat(a: nat, b: nat): nat {
    if a < b then a else b
  }

  /** get_model_recommendation for a categorized and analyzed prompt. */
  function RecommendFor(h: History, c: Category, cx: Complexity, prefs: Preferences): Recommendation {
    var adjusted := Adjusted(CategoryCandidates(h, c), prefs, cx);
    var ranked := Ranked(adjusted);
    if ranked == [] then
      Recommendation(GPT2, 0.5, c, [DistilGPT2, T5Small], cx, None)
    else
      var best := ranked[0];
      var profile := Characteristics(best.model);
      Recommendation(best.model, best.confidence, c, Models(ranked[1..MinNat(3, |ranked|)]), cx,
        Some(Details(profile, profile.avgLength, AllScores(adjusted))))
  }

  /** get_model_recommendation */
  function Recommend(h: History, prompt: string, prefs: Preferences): Recommendation {
    RecommendFor(h, Categorize(prompt), ComplexityOf(prompt), prefs)
  }

  /** Model a is ranked above model b: higher adjusted score, or equal and earlier. */
  predicate RankedAbove(h: History, c: Category, prefs: Preferences, cx: Complexity, a: Model, b: Model) {
    var sa, sb := AdjustedScore(h, c, a, prefs, cx), AdjustedScore(h, c, b, prefs, cx);
    sa > sb || (sa == sb && ModelIndex(a) < ModelIndex(b))
  }

  /** Each entry has a record and carries its adjusted score and its confidence. */
  ghost predicate Scored(h: History, c: Category, prefs: Preferences, cx: Complexity, xs: seq<Candidate>) {
    forall i :: 0 <= i < |xs| ==>
      && HasRecord(h, xs[i].model, c)
      && xs[i].score == AdjustedScore(h, c, xs[i].model, prefs, cx)
      && xs[i].confidence == Confidence(h[xs[i].model][c].sampleSize)
  }

  /** The entries name exactly the models with a record for c. */
  ghost predicate Covers(h: History, c: Category, xs: seq<Candidate>) {
    forall m :: HasRecord(h, m, c) <==> m in Models(xs)
  }

  lemma AdjustedFacts(h: History, c: Category, prefs: Preferences, cx: Complexity)
    ensures var adjusted := Adjusted(CategoryCandidates(h, c), prefs, cx);
      ModelOrdered(adjusted) && Scored(h, c, prefs, cx, adjusted) && Covers(h, c, adjusted)
  {
    var cs := CategoryCandidates(h, c);
    CategoryCandidatesSpec(h, c);
    AdjustedScores(cs, prefs, cx);
    assert Models(Adjusted(cs, prefs, cx)) == Models(cs);
  }

  lemma ScoredPermutation(h: History, c: Category, prefs: Preferences, cx: Complexity, xs: seq<Candidate>, ys: seq<Candidate>)
    requires multiset(xs) == multiset(ys)
    requires Scored(h, c, prefs, cx, xs) && Covers(h, c, xs)
    ensures Scored(h, c, prefs, cx, ys) && Covers(h, c, ys)
  {
    forall i | 0 <= i < |ys| ensures
      && HasRecord(h, ys[i].model, c)
      && ys[i].score == AdjustedScore(h, c, ys[i].model, prefs, cx)
      && ys[i].confidence == Confidence(h[ys[i].model][c].sampleSize)
    {
      assert ys[i] in multiset(xs);
      var p :| 0 <= p < |xs| && xs[p] == ys[i];
    }
    forall m | HasRecord(h, m, c) ensures m in Models(ys) {
      var p :| 0 <= p < |xs| && Models(xs)[p] == m;
      assert xs[p] in multiset(ys);
      var q :| 0 <= q < |ys| && ys[q] == xs[p];
      assert Models(ys)[q] == m;
    }
  }

  /**
   * The ranked list holds exactly the models with a record, each once, each
   * with its adjusted score and its confidence, in RankedAbove order.
   */
  lemma RankedCandidates(h: History, c: Category, prefs: Preferences, cx: Complexity)
    ensures var r := Ranked(Adjusted(CategoryCandidates(h, c), prefs, cx));
      && |r| == |CategoryCandidates(h, c)|
      && Scored(h, c, prefs, cx, r)
      && Covers(h, c, r)
      && (forall i, j :: 0 <= i < j < |r| ==>
            r[i].model != r[j].model && RankedAbove(h, c, prefs, cx, r[i].model, r[j].model))
  {
    var adjusted := Adjusted(CategoryCandidates(h, c), prefs, cx);
    AdjustedFacts(h, c, prefs, cx);
    AdjustedScores(CategoryCandidates(h, c), prefs, cx);
    RankedOrder(adjusted);
    RankedPermutation(adjusted);
    var r := Ranked(adjusted);
    ScoredPermutation(h, c, prefs, cx, adjusted, r);
    forall i, j | 0 <= i < j < |r|
      ensures r[i].model != r[j].model && RankedAbove(h, c, prefs, cx, r[i].model, r[j].model)
    {
      assert Precedes(r[i], r[j]);
    }
  }

  /** With no record for the category the fixed GPT2 fallback is returned. */
  lemma RecommendFallback(h: History, c: Category, cx: Complexity, prefs: Preferences)
    ensures RecommendFor(h, c, cx, prefs).details == None <==> forall m :: !HasRecord(h, m, c)
    ensures (forall m :: !HasRecord(h, m, c)) ==>
      RecommendFor(h, c, cx, prefs) == Recommendation(GPT2, 0.5, c, [DistilGPT2, T5Small], cx, None)
  {
    RankedCandidates(h, c, prefs, cx);
    var r := Ranked(Adjusted(CategoryCandidates(h, c), prefs, cx));
    if r != [] {
      assert HasRecord(h, r[0].model, c);
    }
  }

  /** A list of distinct models in RankedAbove order. */
  ghost predicate InRankedOrder(h: History, c: Category, prefs: Preferences, cx: Complexity, r: seq<Candidate>) {
    forall i, j :: 0 <= i < j < |r| ==>
      r[i].model != r[j].model && RankedAbove(h, c, prefs, cx, r[i].model, r[j].model)
  }

  /** The head of a ranking is ranked above every other model with a record. */
  lemma HeadOfRanking(h: History, c: Category, prefs: Preferences, cx: Complexity, r: seq<Candidate>)
    requires r != [] && Covers(h, c, r) && InRankedOrder(h, c, prefs, cx, r)
    ensures forall m :: HasRecord(h, m, c) && m != r[0].model ==> RankedAbove(h, c, prefs, cx, r[0].model, m)
  {
    forall m | HasRecord(h, m, c) && m != r[0].model ensures RankedAbove(h, c, prefs, cx, r[0].model, m) {
      var q :| 0 <= q < |r| && Models(r)[q] == m;
    }
  }

  /** Where the alternatives sit in a ranking: positions 1 up to 2, and every later model is past them. */
  lemma RunnersUpPositions(r: seq<Candidate>)
    requires r != []
    ensures var alts := Models(r[1..MinNat(3, |r|)]);
      && |alts| == MinNat(3, |r|) - 1
      && (forall i :: 0 <= i < |alts| ==> alts[i] == r[i + 1].model)
      && (forall q :: 1 <= q < |r| && r[q].model !in alts ==> q > |alts|)
  {
    var alts := Models(r[1..MinNat(3, |r|)]);
    forall p | 1 <= p <= |alts| ensures r[p].model in alts {
      assert alts[p - 1] == r[p].model;
    }
  }

  /** The next at most two entries of a ranking are ranked above every model after them. */
  lemma RunnersUpOfRanking(h: History, c: Category, prefs: Preferences, cx: Complexity, r: seq<Candidate>)
    requires r != [] && Covers(h, c, r) && InRankedOrder(h, c, prefs, cx, r)
    ensures var alts := Models(r[1..MinNat(3, |r|)]);
      && r[0].model !in alts
      && (forall i, j :: 0 <= i < j < |alts| ==> RankedAbove(h, c, prefs, cx, alts[i], alts[j]))
      && (forall m, i :: HasRecord(h, m, c) && m != r[0].model && m !in alts && 0 <= i < |alts| ==>
            RankedAbove(h, c, prefs, cx, alts[i], m))
  {
    var alts := Models(r[1..MinNat(3, |r|)]);
    RunnersUpPositions(r);
    forall m, i | HasRecord(h, m, c) && m != r[0].model && m !in alts && 0 <= i < |alts|
      ensures RankedAbove(h, c, prefs, cx, alts[i], m)
    {
      var q :| 0 <= q < |r| && Models(r)[q] == m;
      assert r[i + 1].model == alts[i];
    }
  }

  /**
   * With some record for the category: the recommended model is ranked
   * above every other model with a record (highest adjusted score, ties to
   * the earlier model); its confidence is min(n / 10, 1) of its own record;
   * the alternatives are the next at most two models in ranked order, never
   * the winner, and every model left out is ranked below them.
   */
  lemma RecommendWinner(h: History, c: Category, cx: Complexity, prefs: Preferences)
    requires exists m :: HasRecord(h, m, c)
    ensures var rec := RecommendFor(h, c, cx, prefs);
      var alts := rec.alternatives;
      && HasRecord(h, rec.model, c)
      && rec.confidence == Confidence(h[rec.model][c].sampleSize)
      && (forall m :: HasRecord(h, m, c) && m != rec.model ==> RankedAbove(h, c, prefs, cx, rec.model, m))
      && |alts| + 1 == MinNat(3, |CategoryCandidates(h, c)|)
      && rec.model !in alts
      && (forall i :: 0 <= i < |alts| ==> HasRecord(h, alts[i], c))
      && (forall i, j :: 0 <= i < j < |alts| ==> RankedAbove(h, c, prefs, cx, alts[i], alts[j]))
      && (forall m, i :: HasRecord(h, m, c) && m != rec.model && m !in alts && 0 <= i < |alts| ==>
            RankedAbove(h, c, prefs, cx, alts[i], m))
      && rec.details == Some(Details(Characteristics(rec.model), Characteristics(rec.model).avgLength,
           AllScores(Adjusted(CategoryCandidates(h, c), prefs, cx))))
  {
    RankedCandidates(h, c, prefs, cx);
    var r := Ranked(Adjusted(CategoryCandidates(h, c), prefs, cx));
    var w :| HasRecord(h, w, c);
    assert w in Models(r);
    HeadOfRanking(h, c, prefs, cx, r);
    RunnersUpOfRanking(h, c, prefs, cx, r);
    RunnersUpPositions(r);
  }

  /** The recommended model has a record and is ranked above every other model with one. */
  lemma RecommendTop(h: History, c: Category, cx: Complexity, prefs: Preferences)
    requires exists m :: HasRecord(h, m, c)
    ensures var rec := RecommendFor(h, c, cx, prefs);
      && HasRecord(h, rec.model, c)
      && forall m :: HasRecord(h, m, c) && m != rec.model ==> RankedAbove(h, c, prefs, cx, rec.model, m)
  {
    RecommendWinner(h, c, cx, prefs);
  }

  /** A table whose Electric Vehicles row holds the seeded scores for every model. */
  ghost predicate SeededElectricRow(h: History) {
    && (forall m :: HasRecord(h, m, ElectricVehicles))
    && HasRecord(h, GPT2, ElectricVehicles) && HasRecord(h, DistilGPT2, ElectricVehicles)
    && HasRecord(h, T5Small, ElectricVehicles) && HasRecord(h, BertBase, ElectricVehicles)
    && h[GPT2][ElectricVehicles].avgScore == 0.785
    && h[DistilGPT2][ElectricVehicles].avgScore == 0.720
    && h[T5Small][ElectricVehicles].avgScore == 0.698
    && h[BertBase][ElectricVehicles].avgScore == 0.665
  }

  lemma SeededElectricVehicles()
    ensures SeededElectricRow(DefaultHistory())
  {
    DefaultHistoryComplete();
  }

  /** On the seeded Electric Vehicles scores without preferences, GPT2 wins whatever the complexity. */
  lemma ElectricVehiclesGoToGPT2(h: History, cx: Complexity)
    requires SeededElectricRow(h)
    ensures RecommendFor(h, ElectricVehicles, cx, NoPreferences).model == GPT2
  {
    assert HasRecord(h, GPT2, ElectricVehicles);
    RecommendTop(h, ElectricVehicles, cx, NoPreferences);
    assert AdjustedScore(h, ElectricVehicles, GPT2, NoPreferences, cx) >= 0.785;
    forall m | m != GPT2 ensures !RankedAbove(h, ElectricVehicles, NoPreferences, cx, m, GPT2) {
      assert AdjustedScore(h, ElectricVehicles, m, NoPreferences, cx) <= 0.75;
    }
  }

  /** Without preferences, on the seeded table GPT2 wins Electric Vehicles whatever the complexity. */
  lemma SeededElectricVehiclesGoToGPT2(cx: Complexity)
    ensures RecommendFor(DefaultHistory(), ElectricVehicles, cx, NoPreferences).model == GPT2
  {
    SeededElectricVehicles();
    ElectricVehiclesGoToGPT2(DefaultHistory(), cx);
  }

  /**
   * A speed preference on a simple prompt lifts DistilGPT2 from 0.720 to
   * 0.800, past GPT2's 0.785, on the seeded Electric Vehicles scores.
   */
  lemma SpeedPreferenceOvertakes(h: History, cx: Complexity)
    requires SeededElectricRow(h) && cx.score < 0.3
    ensures RecommendFor(h, ElectricVehicles, cx, Preferences(true, false, false)).model == DistilGPT2
  {
    var prefs := Preferences(true, false, false);
    assert HasRecord(h, DistilGPT2, ElectricVehicles);
    RecommendTop(h, ElectricVehicles, cx, prefs);
    assert AdjustedScore(h, ElectricVehicles, DistilGPT2, prefs, cx) == 0.800;
    forall m | m != DistilGPT2 ensures !RankedAbove(h, ElectricVehicles, prefs, cx, m, DistilGPT2) {
      assert AdjustedScore(h, ElectricVehicles, m, prefs, cx) <= 0.785;
    }
  }

  /** On the seeded table, a speed preference on a simple prompt gives Electric Vehicles to DistilGPT2. */
  lemma SeededSpeedPreferenceOvertakes(cx: Complexity)
    requires cx.score < 0.3
    ensures RecommendFor(DefaultHistory(), ElectricVehicles, cx, Preferences(true, false, false)).model == DistilGPT2
  {
    SeededElectricVehicles();
    SpeedPreferenceOvertakes(DefaultHistory(), cx);
  }

  /** Why a model is on the multi-model list. */
  datatype Reason = HighestPerformance | FastestResponse | BestStructured | AlternativePerspective

  /** One entry of the multi-model list, less the reason text. */
  datatype Suggestion = Suggestion(model: Model, reason: Reason, expectedScore: real, characteristics: ModelProfile)

  datatype MultiRecommendation = MultiRecommendation(
    suggestions: seq<Suggestion>,
    category: Category,
    complexity: Complexity)

  /** The models of a suggestion list, in order: Models over Suggestion records rather than candidates. */
  function Picked(ss: seq<Suggestion>): (ms: seq<Model>)
    ensures |ms| == |ss|
    ensures forall i :: 0 <= i < |ss| ==> ms[i] == ss[i].model
  {
    seq(|ss|, i requires 0 <= i < |ss| => ss[i].model)
  }

  /** An entry whose expected score is model_scores.get(m, 0.7). */
  function Suggest(cs: seq<Candidate>, m: Model, reason: Reason): Suggestion {
    Suggestion(m, reason, ScoreOr(cs, m, 0.7), Characteristics(m))
  }

  /** Moves m from the remaining models to the list when it is there and there is room. */
  function PickIfRoom(cs: seq<Candidate>, picked: seq<Suggestion>, rest: seq<Model>, m: Model, reason: Reason,
                      maxModels: int): (seq<Suggestion>, seq<Model>)
  {
    if m in rest && |picked| < maxModels then (picked + [Suggest(cs, m, reason)], Remove(rest, m))
    else (picked, rest)
  }

  /** The best performer, the list's first entry. */
  function BestSuggestion(best: Candidate): Suggestion {
    Suggestion(best.model, HighestPerformance, best.score, Characteristics(best.model))
  }

  /**
   * The best performer followed by the speed and the structure picks, and
   * the models still remaining after them.
   */
  function Picks(cs: seq<Candidate>, maxModels: int): (seq<Suggestion>, seq<Model>)
    requires Ranked(cs) != []
  {
    var sorted := Ranked(cs);
    var fast := PickIfRoom(cs, [BestSuggestion(sorted[0])], Models(sorted[1..]), DistilGPT2, FastestResponse, maxModels);
    PickIfRoom(cs, fast.0, fast.1, T5Small, BestStructured, maxModels)
  }

  /** The entries that fill the remaining slots. */
  function Alternatives(cs: seq<Candidate>, ms: seq<Model>): (ss: seq<Suggestion>)
    ensures Picked(ss) == ms
  {
    seq(|ms|, i requires 0 <= i < |ms| => Suggest(cs, ms[i], AlternativePerspective))
  }

  lemma AlternativesSnoc(cs: seq<Candidate>, ms: seq<Model>, m: Model)
    ensures Alternatives(cs, ms + [m]) == Alternatives(cs, ms) + [Suggest(cs, m, AlternativePerspective)]
  {
    assert forall i :: 0 <= i < |ms| ==> (ms + [m])[i] == ms[i];
  }

  /** get_multi_model_recommendation for a categorized and analyzed prompt. */
  function MultiFor(h: History, c: Category, cx: Complexity, maxModels: int): MultiRecommendation {
    if Ranked(CategoryCandidates(h, c)) == [] then MultiRecommendation([], c, cx)
    else
      var (picked, rest) := Picks(CategoryCandidates(h, c), maxModels);
      var fill := SliceTo(rest, maxModels - |picked|);
      MultiRecommendation(picked + Alternatives(CategoryCandidates(h, c), fill), c, cx)
  }

  /** get_multi_model_recommendation */
  function MultiRecommend(h: History, prompt: string, maxModels: int): MultiRecommendation {
    MultiFor(h, Categorize(prompt), ComplexityOf(prompt), maxModels)
  }

  /** A complexity that earns no model the complexity bonus. */
  const Moderate := Complexity(0.5, 0, 1, 0, 0.0)

  /** The multi-model list ranks by the raw averages: no boost applies. */
  lemma RawRanking(h: History, c: Category)
    ensures Adjusted(CategoryCandidates(h, c), NoPreferences, Moderate) == CategoryCandidates(h, c)
    ensures forall m :: HasRecord(h, m, c) ==> AdjustedScore(h, c, m, NoPreferences, Moderate) == h[m][c].avgScore
  {
    AdjustedScores(CategoryCandidates(h, c), NoPreferences, Moderate);
  }

  /** Every suggestion names a model with a record and carries its average and its profile. */
  ghost predicate ReadOffSuggestions(h: History, c: Category, ss: seq<Suggestion>) {
    forall i :: 0 <= i < |ss| ==>
      && HasRecord(h, ss[i].model, c)
      && ss[i].expectedScore == h[ss[i].model][c].avgScore
      && ss[i].characteristics == Characteristics(ss[i].model)
  }

  /** model_scores.get(m, 0.7) never falls back to 0.7 for a model with a record. */
  lemma SuggestReadOff(h: History, c: Category, m: Model, reason: Reason)
    requires HasRecord(h, m, c)
    ensures Suggest(CategoryCandidates(h, c), m, reason).expectedScore == h[m][c].avgScore
  {
    var cs := CategoryCandidates(h, c);
    CategoryCandidatesSpec(h, c);
    var p :| 0 <= p < |cs| && Models(cs)[p] == m;
    ScoreOrAt(cs, m, 0.7, p);
  }

  /**
   * One conditional pick moves m from the remaining models to the list when
   * m is there and there is room, and otherwise changes nothing; the chosen
   * models followed by the remaining ones stay free of repeats, and the list
   * never grows past maxModels.
   */
  lemma PickIfRoomShape(cs: seq<Candidate>, picked: seq<Suggestion>, rest: seq<Model>,
                        m: Model, reason: Reason, maxModels: int)
    requires Distinct(Picked(picked) + rest)
    ensures var next := PickIfRoom(cs, picked, rest, m, reason, maxModels);
      && Distinct(Picked(next.0) + next.1)
      && |picked| <= |next.0| && next.0[..|picked|] == picked
      && (|picked| <= maxModels ==> |next.0| <= maxModels)
      && (m in rest && |picked| < maxModels ==> next == (picked + [Suggest(cs, m, reason)], Remove(rest, m)))
      && (!(m in rest && |picked| < maxModels) ==> next == (picked, rest))
  {
    if m in rest && |picked| < maxModels {
      var s := Suggest(cs, m, reason);
      assert Picked(picked + [s]) == Picked(picked) + [m];
      MoveKeepsDistinct(Picked(picked), rest, m);
      assert (picked + [s])[..|picked|] == picked;
    }
  }

  /** Every model left after list.remove was there before. */
  lemma RemoveKeepsRecords(h: History, c: Category, rest: seq<Model>, m: Model)
    requires m in rest
    requires forall i :: 0 <= i < |rest| ==> HasRecord(h, rest[i], c)
    ensures forall i :: 0 <= i < |Remove(rest, m)| ==> HasRecord(h, Remove(rest, m)[i], c)
  {
    var r' := Remove(rest, m);
    forall i | 0 <= i < |r'| ensures HasRecord(h, r'[i], c) {
      assert r'[i] in multiset(r');
      assert r'[i] in multiset(rest);
    }
  }

  /** One conditional pick takes only models with a record, each with its own average. */
  lemma PickIfRoomReadOff(h: History, c: Category, picked: seq<Suggestion>, rest: seq<Model>,
                          m: Model, reason: Reason, maxModels: int)
    requires ReadOffSuggestions(h, c, picked)
    requires forall i :: 0 <= i < |rest| ==> HasRecord(h, rest[i], c)
    ensures var next := PickIfRoom(CategoryCandidates(h, c), picked, rest, m, reason, maxModels);
      && ReadOffSuggestions(h, c, next.0)
      && (forall i :: 0 <= i < |next.1| ==> HasRecord(h, next.1[i], c))
  {
    if m in rest && |picked| < maxModels {
      SuggestReadOff(h, c, m, reason);
      RemoveKeepsRecords(h, c, rest, m);
    }
  }

  /** A prefix of a repeat-free list is repeat-free, and the models it holds are among those before. */
  lemma DistinctPrefix(a: seq<Model>, b: seq<Model>, n: nat)
    requires Distinct(a + b) && n <= |b|
    ensures Distinct(a + b[..n])
  {
    assert forall i :: 0 <= i < |a + b[..n]| ==> (a + b[..n])[i] == (a + b)[i];
  }

  /** The ranked candidates, listed by model, hold the models with a record once each. */
  lemma SortedModelsShape(h: History, c: Category)
    requires exists m :: HasRecord(h, m, c)
    ensures var sorted := Ranked(CategoryCandidates(h, c));
      && sorted != []
      && Distinct(Models(sorted))
      && Models(sorted) == [sorted[0].model] + Models(sorted[1..])
      && (forall m :: HasRecord(h, m, c) <==> m in Models(sorted))
  {
    RankedCandidates(h, c, NoPreferences, Moderate);
    RawRanking(h, c);
    var sorted := Ranked(CategoryCandidates(h, c));
    assert Ranked(Adjusted(CategoryCandidates(h, c), NoPreferences, Moderate)) == sorted;
    var w :| HasRecord(h, w, c);
    assert w in Models(sorted);
    ModelsCons(sorted);
  }

  /** Listing the models of a non-empty list: its head's model, then the rest. */
  lemma ModelsCons(xs: seq<Candidate>)
    requires xs != []
    ensures Models(xs) == [xs[0].model] + Models(xs[1..])
  {
  }

  /**
   * The ranked candidates, listed by model, hold the models with a record
   * once each, and the first has the highest raw average.
   */
  lemma SortedModels(h: History, c: Category)
    requires exists m :: HasRecord(h, m, c)
    ensures var sorted := Ranked(CategoryCandidates(h, c));
      && sorted != []
      && Distinct(Models(sorted))
      && Models(sorted) == [sorted[0].model] + Models(sorted[1..])
      && (forall m :: HasRecord(h, m, c) <==> m in Models(sorted))
      && HasRecord(h, sorted[0].model, c)
      && sorted[0].score == h[sorted[0].model][c].avgScore
      && (forall m :: HasRecord(h, m, c) && m != sorted[0].model ==>
            RankedAbove(h, c, NoPreferences, Moderate, sorted[0].model, m))
  {
    SortedModelsShape(h, c);
    RawRanking(h, c);
    RankedCandidates(h, c, NoPreferences, Moderate);
    var sorted := Ranked(CategoryCandidates(h, c));
    HeadOfRanking(h, c, NoPreferences, Moderate, sorted);
  }

  /**
   * The first entry is the model with the highest raw average (ties to the
   * earlier model), with that average as its expected score.
   */
  lemma MultiFirstIsBest(h: History, c: Category, cx: Complexity, maxModels: int)
    requires exists m :: HasRecord(h, m, c)
    ensures var ss := MultiFor(h, c, cx, maxModels).suggestions;
      && |ss| >= 1
      && ss[0].reason == HighestPerformance
      && HasRecord(h, ss[0].model, c)
      && ss[0].expectedScore == h[ss[0].model][c].avgScore
      && (forall m :: HasRecord(h, m, c) && m != ss[0].model ==>
            RankedAbove(h, c, NoPreferences, Moderate, ss[0].model, m))
  {
    SortedModels(h, c);
  }

  /**
   * The picks hold the best performer first, never repeat a model together
   * with the models still remaining, and stay within max_models when it is
   * at least 1; all of them, picked or remaining, have a record.
   */
  lemma PicksFacts(h: History, c: Category, maxModels: int)
    requires exists m :: HasRecord(h, m, c)
    ensures Ranked(CategoryCandidates(h, c)) != []
    ensures var p := Picks(CategoryCandidates(h, c), maxModels);
      && Distinct(Picked(p.0) + p.1)
      && ReadOffSuggestions(h, c, p.0)
      && (forall i :: 0 <= i < |p.1| ==> HasRecord(h, p.1[i], c))
      && |p.0| >= 1
      && p.0[0] == BestSuggestion(Ranked(CategoryCandidates(h, c))[0])
      && (maxModels >= 1 ==> |p.0| <= maxModels)
  {
    SortedModels(h, c);
    PicksUnfold(h, c, maxModels);
    var cs := CategoryCandidates(h, c);
    var sorted := Ranked(cs);
    var first := [BestSuggestion(sorted[0])];
    var rest0 := Models(sorted[1..]);
    assert Picked(first) + rest0 == Models(sorted);
    forall i | 0 <= i < |rest0| ensures HasRecord(h, rest0[i], c) {
      assert rest0[i] == Models(sorted)[i + 1];
    }
    TwoPicksShape(cs, first, rest0, maxModels);
    TwoPicksReadOff(h, c, first, rest0, maxModels);
  }

  /** The two conditional picks after a one-entry list keep it first, repeat-free and bounded. */
  lemma TwoPicksShape(cs: seq<Candidate>, first: seq<Suggestion>, rest0: seq<Model>, maxModels: int)
    requires |first| == 1 && Distinct(Picked(first) + rest0)
    ensures var fast := PickIfRoom(cs, first, rest0, DistilGPT2, FastestResponse, maxModels);
      var p := PickIfRoom(cs, fast.0, fast.1, T5Small, BestStructured, maxModels);
      && Distinct(Picked(p.0) + p.1)
      && |p.0| >= 1 && p.0[0] == first[0]
      && (maxModels >= 1 ==> |p.0| <= maxModels)
  {
    PickIfRoomShape(cs, first, rest0, DistilGPT2, FastestResponse, maxModels);
    var fast := PickIfRoom(cs, first, rest0, DistilGPT2, FastestResponse, maxModels);
    PickIfRoomShape(cs, fast.0, fast.1, T5Small, BestStructured, maxModels);
    assert fast.0[0] == first[0];
  }

  /** The two conditional picks take only models with a record, each with its own average. */
  lemma TwoPicksReadOff(h: History, c: Category, first: seq<Suggestion>, rest0: seq<Model>, maxModels: int)
    requires ReadOffSuggestions(h, c, first)
    requires forall i :: 0 <= i < |rest0| ==> HasRecord(h, rest0[i], c)
    ensures var cs := CategoryCandidates(h, c);
      var fast := PickIfRoom(cs, first, rest0, DistilGPT2, FastestResponse, maxModels);
      var p := PickIfRoom(cs, fast.0, fast.1, T5Small, BestStructured, maxModels);
      && ReadOffSuggestions(h, c, p.0)
      && (forall i :: 0 <= i < |p.1| ==> HasRecord(h, p.1[i], c))
  {
    var cs := CategoryCandidates(h, c);
    PickIfRoomReadOff(h, c, first, rest0, DistilGPT2, FastestResponse, maxModels);
    var fast := PickIfRoom(cs, first, rest0, DistilGPT2, FastestResponse, maxModels);
    PickIfRoomReadOff(h, c, fast.0, fast.1, T5Small, BestStructured, maxModels);
  }

  /** Without any record for the category the list is empty. */
  lemma MultiEmpty(h: History, c: Category, cx: Complexity, maxModels: int)
    requires forall m :: !HasRecord(h, m, c)
    ensures MultiFor(h, c, cx, maxModels).suggestions == []
  {
    RankedCandidates(h, c, NoPreferences, Moderate);
    RawRanking(h, c);
    var r := Ranked(CategoryCandidates(h, c));
    assert |r| > 0 ==> HasRecord(h, r[0].model, c);
    assert r == [];
  }

  /** Filling the remaining slots keeps the list repeat-free, read off the table and bounded. */
  lemma FillKeeps(h: History, c: Category, picked: seq<Suggestion>, rest: seq<Model>, maxModels: int)
    requires Distinct(Picked(picked) + rest)
    requires ReadOffSuggestions(h, c, picked)
    requires forall i :: 0 <= i < |rest| ==> HasRecord(h, rest[i], c)
    ensures var ss := picked + Alternatives(CategoryCandidates(h, c), SliceTo(rest, maxModels - |picked|));
      && Distinct(Picked(ss))
      && ReadOffSuggestions(h, c, ss)
      && (|picked| <= maxModels ==> |ss| <= maxModels)
  {
    var fill := SliceTo(rest, maxModels - |picked|);
    var tail := Alternatives(CategoryCandidates(h, c), fill);
    DistinctPrefix(Picked(picked), rest, |fill|);
    assert Picked(picked + tail) == Picked(picked) + fill;
    forall i | 0 <= i < |tail|
      ensures HasRecord(h, tail[i].model, c) && tail[i].expectedScore == h[tail[i].model][c].avgScore
    {
      assert fill[i] == rest[i];
      SuggestReadOff(h, c, fill[i], AlternativePerspective);
    }
  }

  /**
   * One conditional pick keeps the remaining models equal to the starting
   * ones minus the chosen ones, in their order, and moves one model at most.
   */
  lemma PickIfRoomRest(cs: seq<Candidate>, picked: seq<Suggestion>, rest: seq<Model>, rest0: seq<Model>,
                       m: Model, reason: Reason, maxModels: int)
    requires Distinct(rest0) && rest == Without(rest0, Picked(picked))
    ensures var next := PickIfRoom(cs, picked, rest, m, reason, maxModels);
      && next.1 == Without(rest0, Picked(next.0))
      && |next.0| + |next.1| == |picked| + |rest|
  {
    if m in rest && |picked| < maxModels {
      assert Picked(picked + [Suggest(cs, m, reason)]) == Picked(picked) + [m];
      RemoveWithout(rest0, Picked(picked), m);
    }
  }

  /**
   * The models left after the picks are the ranked models after the best
   * performer, minus the picked ones, in ranked order; picks and remaining
   * models together number the candidates.
   */
  lemma PicksRest(h: History, c: Category, maxModels: int)
    requires exists m :: HasRecord(h, m, c)
    ensures Ranked(CategoryCandidates(h, c)) != []
    ensures var cs := CategoryCandidates(h, c);
      var p := Picks(cs, maxModels);
      && p.1 == Without(Models(Ranked(cs)[1..]), Picked(p.0))
      && |p.0| + |p.1| == |cs|
  {
    PicksUnfold(h, c, maxModels);
    var cs := CategoryCandidates(h, c);
    var sorted := Ranked(cs);
    var first := [BestSuggestion(sorted[0])];
    var rest0 := Models(sorted[1..]);
    DistinctTail([sorted[0].model] + rest0);
    assert ([sorted[0].model] + rest0)[1..] == rest0;
    assert Picked(first) == [sorted[0].model];
    WithoutNone(rest0, Picked(first));
    TwoPicksRest(cs, first, rest0, maxModels);
  }

  /** The two conditional picks keep the remaining models equal to the starting ones minus the chosen ones. */
  lemma TwoPicksRest(cs: seq<Candidate>, first: seq<Suggestion>, rest0: seq<Model>, maxModels: int)
    requires Distinct(rest0) && rest0 == Without(rest0, Picked(first))
    ensures var fast := PickIfRoom(cs, first, rest0, DistilGPT2, FastestResponse, maxModels);
      var p := PickIfRoom(cs, fast.0, fast.1, T5Small, BestStructured, maxModels);
      && p.1 == Without(rest0, Picked(p.0))
      && |p.0| + |p.1| == |first| + |rest0|
  {
    PickIfRoomRest(cs, first, rest0, rest0, DistilGPT2, FastestResponse, maxModels);
    var fast := PickIfRoom(cs, first, rest0, DistilGPT2, FastestResponse, maxModels);
    PickIfRoomRest(cs, fast.0, fast.1, rest0, T5Small, BestStructured, maxModels);
  }

  /**
   * For max_models of at least 1, the slots after the picks are filled by
   * the leading remaining models in ranked order, as many as there is room
   * for, so the list holds min(max_models, number of candidates) entries.
   */
  lemma MultiFill(h: History, c: Category, cx: Complexity, maxModels: int)
    requires exists m :: HasRecord(h, m, c)
    requires maxModels >= 1
    ensures Ranked(CategoryCandidates(h, c)) != []
    ensures var cs := CategoryCandidates(h, c);
      var p := Picks(cs, maxModels);
      var ss := MultiFor(h, c, cx, maxModels).suggestions;
      && |p.0| <= maxModels && |p.0| <= |ss|
      && |ss| == (if maxModels < |cs| then maxModels else |cs|)
      && ss[..|p.0|] == p.0
      && ss[|p.0|..] == Alternatives(cs, p.1[..if maxModels - |p.0| < |p.1| then maxModels - |p.0| else |p.1|])
      && p.1 == Without(Models(Ranked(cs)[1..]), Picked(p.0))
  {
    PicksFacts(h, c, maxModels);
    PicksRest(h, c, maxModels);
    var cs := CategoryCandidates(h, c);
    var p := Picks(cs, maxModels);
    var fill := SliceTo(p.1, maxModels - |p.0|);
    var ss := p.0 + Alternatives(cs, fill);
    assert MultiFor(h, c, cx, maxModels).suggestions == ss;
    assert ss[..|p.0|] == p.0 && ss[|p.0|..] == Alternatives(cs, fill);
  }

  /**
   * The list never names a model twice, names only models with a record,
   * and takes every expected score from the model's own average. For
   * max_models of at least 1 it has at most max_models entries.
   */
  lemma MultiDistinctAndBounded(h: History, c: Category, cx: Complexity, maxModels: int)
    ensures var ss := MultiFor(h, c, cx, maxModels).suggestions;
      && Distinct(Picked(ss))
      && ReadOffSuggestions(h, c, ss)
      && (maxModels >= 1 ==> |ss| <= maxModels)
  {
    if exists m :: HasRecord(h, m, c) {
      PicksFacts(h, c, maxModels);
      var cs := CategoryCandidates(h, c);
      var p := Picks(cs, maxModels);
      FillKeeps(h, c, p.0, p.1, maxModels);
      assert MultiFor(h, c, cx, maxModels).suggestions == p.0 + Alternatives(cs, SliceTo(p.1, maxModels - |p.0|));
    } else {
      MultiEmpty(h, c, cx, maxModels);
    }
  }

  /** The picks unfolded: the best performer, then the speed pick, then the structure pick. */
  lemma PicksUnfold(h: History, c: Category, maxModels: int)
    requires exists m :: HasRecord(h, m, c)
    ensures Ranked(CategoryCandidates(h, c)) != []
    ensures var cs := CategoryCandidates(h, c);
      var sorted := Ranked(cs);
      var rest0 := Models(sorted[1..]);
      var fast := PickIfRoom(cs, [BestSuggestion(sorted[0])], rest0, DistilGPT2, FastestResponse, maxModels);
      && Distinct([sorted[0].model] + rest0)
      && (forall m :: HasRecord(h, m, c) <==> m in [sorted[0].model] + rest0)
      && |rest0| + 1 == |cs|
      && Picks(CategoryCandidates(h, c), maxModels) == PickIfRoom(cs, fast.0, fast.1, T5Small, BestStructured, maxModels)
  {
    SortedModels(h, c);
  }

  /** Whether the speed pick happens: DistilGPT2 has a record, is not the best performer, and there is room. */
  predicate FastPicked(h: History, c: Category, best: Model, maxModels: int) {
    HasRecord(h, DistilGPT2, c) && best != DistilGPT2 && maxModels >= 2
  }

  /** The two conditional picks after a one-entry list, on any remaining models. */
  lemma TwoPicks(cs: seq<Candidate>, first: seq<Suggestion>, rest0: seq<Model>, maxModels: int)
    requires |first| == 1 && Distinct(Picked(first) + rest0)
    ensures var fast := PickIfRoom(cs, first, rest0, DistilGPT2, FastestResponse, maxModels);
      var p := PickIfRoom(cs, fast.0, fast.1, T5Small, BestStructured, maxModels).0;
      var fp := DistilGPT2 in rest0 && maxModels >= 2;
      var k := if fp then 2 else 1;
      && |p| >= 1 && p[0] == first[0]
      && (fp ==> |p| >= 2 && p[1] == Suggest(cs, DistilGPT2, FastestResponse))
      && (T5Small in rest0 && maxModels > k ==> |p| > k && p[k] == Suggest(cs, T5Small, BestStructured))
  {
    var fast := PickIfRoom(cs, first, rest0, DistilGPT2, FastestResponse, maxModels);
    if DistilGPT2 in rest0 && maxModels >= 2 {
      if T5Small in rest0 && maxModels > 2 {
        RemoveKeeps(rest0, DistilGPT2, T5Small);
      }
      Appended(first, Suggest(cs, DistilGPT2, FastestResponse));
      PickOnto(cs, fast.0, fast.1, T5Small, BestStructured, maxModels);
    } else {
      PickOnto(cs, first, rest0, T5Small, BestStructured, maxModels);
    }
  }

  /** A conditional pick extends the list by the pick when it happens, and leaves it alone otherwise. */
  lemma PickOnto(cs: seq<Candidate>, picked: seq<Suggestion>, rest: seq<Model>, m: Model, reason: Reason, maxModels: int)
    ensures var p := PickIfRoom(cs, picked, rest, m, reason, maxModels).0;
      && |picked| <= |p| && p[..|picked|] == picked
      && (m in rest && |picked| < maxModels ==> |p| == |picked| + 1 && p[|picked|] == Suggest(cs, m, reason))
  {
    if m in rest && |picked| < maxModels {
      Appended(picked, Suggest(cs, m, reason));
    }
  }

  /** Appending one entry keeps the list before it. */
  lemma Appended(xs: seq<Suggestion>, x: Suggestion)
    ensures (xs + [x])[..|xs|] == xs && (xs + [x])[|xs|] == x
  {
  }

  /** The speed pick and the structure pick, on the picks alone. */
  lemma PicksPreferred(h: History, c: Category, maxModels: int)
    requires exists m :: HasRecord(h, m, c)
    ensures Ranked(CategoryCandidates(h, c)) != []
    ensures var p := Picks(CategoryCandidates(h, c), maxModels).0;
      var best := Ranked(CategoryCandidates(h, c))[0].model;
      var k := if FastPicked(h, c, best, maxModels) then 2 else 1;
      && |p| >= 1 && p[0].model == best
      && (FastPicked(h, c, best, maxModels) ==> |p| >= 2 && p[1] == Suggest(CategoryCandidates(h, c), DistilGPT2, FastestResponse))
      && (HasRecord(h, T5Small, c) && best != T5Small && maxModels > k ==>
            |p| > k && p[k] == Suggest(CategoryCandidates(h, c), T5Small, BestStructured))
  {
    PicksUnfold(h, c, maxModels);
    var cs := CategoryCandidates(h, c);
    var sorted := Ranked(cs);
    var first := [BestSuggestion(sorted[0])];
    var rest0 := Models(sorted[1..]);
    assert Picked(first) + rest0 == [sorted[0].model] + rest0;
    TwoPicks(cs, first, rest0, maxModels);
    InTail(DistilGPT2, sorted[0].model, rest0);
    InTail(T5Small, sorted[0].model, rest0);
  }

  lemma InTail(x: Model, head: Model, rest: seq<Model>)
    requires Distinct([head] + rest)
    ensures x in rest <==> x in [head] + rest && x != head
  {
    if x in rest {
      var i :| 0 <= i < |rest| && rest[i] == x;
      assert ([head] + rest)[i + 1] == x && ([head] + rest)[0] == head;
    }
  }

  /**
   * DistilGPT2 and then T5-Small come right after the best performer, each
   * when it has a record, is not the best performer itself, and there is
   * room for it under max_models.
   */
  lemma MultiPreferred(h: History, c: Category, cx: Complexity, maxModels: int)
    requires exists m :: HasRecord(h, m, c)
    ensures var ss := MultiFor(h, c, cx, maxModels).suggestions;
      && |ss| >= 1
      && var k := if FastPicked(h, c, ss[0].model, maxModels) then 2 else 1;
      && (FastPicked(h, c, ss[0].model, maxModels) ==>
            |ss| >= 2 && ss[1] == Suggestion(DistilGPT2, FastestResponse, h[DistilGPT2][c].avgScore, Characteristics(DistilGPT2)))
      && (HasRecord(h, T5Small, c) && ss[0].model != T5Small && maxModels > k ==>
            |ss| > k && ss[k] == Suggestion(T5Small, BestStructured, h[T5Small][c].avgScore, Characteristics(T5Small)))
  {
    PicksPreferred(h, c, maxModels);
    var p := Picks(CategoryCandidates(h, c), maxModels).0;
    var ss := MultiFor(h, c, cx, maxModels).suggestions;
    assert ss[..|p|] == p;
    if HasRecord(h, DistilGPT2, c) {
      SuggestReadOff(h, c, DistilGPT2, FastestResponse);
    }
    if HasRecord(h, T5Small, c) {
      SuggestReadOff(h, c, T5Small, BestStructured);
    }
  }

  /**
   * For max_models of 0 or less neither preferred pick has room, and the
   * slice remaining[:max_models - 1] counts from the end: the list holds
   * the best performer and then all but the last 2 - max_models of the
   * remaining models, so it is never empty and can exceed max_models.
   */
  lemma MultiNonPositive(h: History, c: Category, cx: Complexity, maxModels: int)
    requires exists m :: HasRecord(h, m, c)
    requires maxModels <= 0
    ensures var n := |CategoryCandidates(h, c)|;
      |MultiFor(h, c, cx, maxModels).suggestions| == 1 + (if n + maxModels - 2 > 0 then n + maxModels - 2 else 0)
  {
    PicksUnfold(h, c, maxModels);
    var cs := CategoryCandidates(h, c);
    var sorted := Ranked(cs);
    var first := [BestSuggestion(sorted[0])];
    var rest0 := Models(sorted[1..]);
    assert Picks(CategoryCandidates(h, c), maxModels) == (first, rest0);
  }

  /** A table with a record for every model yields one candidate per model. */
  lemma {:induction false} AllRecordsAllCandidates(h: History, c: Category, k: nat)
    requires k <= |ModelOrder|
    requires forall m :: HasRecord(h, m, c)
    ensures |CandidatesUpTo(h, c, k)| == k
  {
    if k > 0 {
      AllRecordsAllCandidates(h, c, k - 1);
    }
  }

  /** On the seeded table max_models = 0 still yields three suggestions. */
  lemma SeededZeroMaxGivesThree(c: Category, cx: Complexity)
    ensures |MultiFor(DefaultHistory(), c, cx, 0).suggestions| == 3
  {
    DefaultHistoryComplete();
    forall m ensures HasRecord(DefaultHistory(), m, c) {
      assert m in DefaultHistory() && c in DefaultHistory()[m];
    }
    AllRecordsAllCandidates(DefaultHistory(), c, |ModelOrder|);
    MultiNonPositive(DefaultHistory(), c, cx, 0);
  }
}
