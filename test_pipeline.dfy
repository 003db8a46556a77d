/**
 * The batch test pipeline (tests/test_pipeline.py): every test prompt is
 * sent to every test model, the responses are scored, the best-scoring
 * model of each prompt is recorded, and the collected results are
 * aggregated into win counts, average scores, an overall winner and a
 * winner per topic. Generation itself is an input: one outcome per model.
 */
module Pipeline {
  import opened Wrappers
  import opened Strings
  import opened Catalog
  import opened Selection
  import opened PromptAnalysis
  import opened Metrics

  // ---------------------------------------------------------------------
  // The pipeline's own topic classifier
  // ---------------------------------------------------------------------

  /** The substrings the pipeline looks for, per topic; the fallback topic has none. */
  function TopicWords(c: Category): seq<string> {
    match c
    case ElectricVehicles => ["electric", "ev", "vehicle", "automotive", "car"]
    case AITechnology => ["ai", "artificial", "intelligence", "machine", "learning"]
    case ClimateEnvironment => ["climate", "environment", "renewable", "sustainability", "energy"]
    case BusinessEconomics => ["business", "enterprise", "startup", "economic", "finance"]
    case GeneralTechnical => []
  }

  /**
   * _categorize_prompt: the first topic, in declaration order, one of whose
   * words occurs anywhere inside the lower-cased prompt (not necessarily as
   * a whole word), and General Technical when none does.
   */
  function CategorizeByTopic(prompt: string): (c: Category)
    ensures c != GeneralTechnical ==> ContainsAny(LowerStr(prompt), TopicWords(c))
    ensures forall d :: CategoryIndex(d) < CategoryIndex(c) ==> !ContainsAny(LowerStr(prompt), TopicWords(d))
  {
    var s := LowerStr(prompt);
    if ContainsAny(s, TopicWords(ElectricVehicles)) then ElectricVehicles
    else if ContainsAny(s, TopicWords(AITechnology)) then AITechnology
    else if ContainsAny(s, TopicWords(ClimateEnvironment)) then ClimateEnvironment
    else if ContainsAny(s, TopicWords(BusinessEconomics)) then BusinessEconomics
    else GeneralTechnical
  }

  /** The two properties of CategorizeByTopic pin the topic down: it is the first match. */
  lemma FirstMatchUnique(prompt: string, c: Category)
    requires c != GeneralTechnical ==> ContainsAny(LowerStr(prompt), TopicWords(c))
    requires forall d :: CategoryIndex(d) < CategoryIndex(c) ==> !ContainsAny(LowerStr(prompt), TopicWords(d))
    ensures CategorizeByTopic(prompt) == c
  {
    var t := CategorizeByTopic(prompt);
    assert t == CategoryOrder[CategoryIndex(t)];
  }

  /** "explain" is in none of the engine's keyword lists. */
  lemma ExplainIsNoKeyword(c: Category)
    ensures "explain" !in Keywords(c)
  {
  }

  /** None of the vehicle words occurs inside "explain". */
  lemma ExplainHasNoVehicleWord(k: nat)
    requires k < |TopicWords(ElectricVehicles)|
    ensures !Contains("explain", TopicWords(ElectricVehicles)[k])
  {
    var s, w := "explain", TopicWords(ElectricVehicles)[k];
    forall i: nat ensures !OccursAt(s, w, i) {
      if i + |w| <= |s| {
        assert s[i..i + |w|][0] == s[i] && s[i..i + |w|][1] == s[i + 1];
      }
    }
    NotContains(s, w);
  }

  /** "ai" occurs inside "explain", so the pipeline files it under AI/Technology. */
  lemma ExplainTopic(s: string)
    requires s == "explain"
    ensures CategorizeByTopic(s) == AITechnology
  {
    assert LowerStr(s) == s;
    ContainsAt(s, "ai", 4);
    assert Contains(LowerStr(s), TopicWords(AITechnology)[0]);
    forall k | 0 <= k < |TopicWords(ElectricVehicles)| ensures !Contains(LowerStr(s), TopicWords(ElectricVehicles)[k]) {
      ExplainHasNoVehicleWord(k);
    }
  }

  /** The engine sees the single token "explain", which is no keyword, so it falls back. */
  lemma ExplainEngine(s: string)
    requires s == "explain"
    ensures Categorize(s) == GeneralTechnical
  {
    assert LowerStr(s) == s;
    SingleRun(s);
    forall c ensures s !in Keywords(c) { ExplainIsNoKeyword(c); }
    CategorizeWithoutKeywords(s);
  }

  /**
   * The two classifiers disagree on "explain": substring matching finds
   * "ai" inside it, whole-token matching finds nothing.
   */
  lemma ExplainDisagrees()
    ensures CategorizeByTopic("explain") == AITechnology
    ensures Categorize("explain") == GeneralTechnical
  {
    ExplainTopic("explain");
    ExplainEngine("explain");
  }

  /** "carbon" is a keyword of Climate/Environment and of no other category. */
  lemma CarbonIsNoOtherKeyword(c: Category)
    ensures "carbon" in Keywords(c) <==> c == ClimateEnvironment
  {
  }

  /** "car" occurs inside "carbon", so the pipeline files it under Electric Vehicles. */
  lemma CarbonTopic(s: string)
    requires s == "carbon"
    ensures CategorizeByTopic(s) == ElectricVehicles
  {
    assert LowerStr(s) == s;
    ContainsAt(s, "car", 0);
    assert Contains(LowerStr(s), TopicWords(ElectricVehicles)[4]);
  }

  /** The engine counts one Climate/Environment hit for "carbon" and nothing else. */
  lemma CarbonEngine(s: string)
    requires s == "carbon"
    ensures Categorize(s) == ClimateEnvironment
  {
    assert LowerStr(s) == s;
    SingleRun(s);
    var ws := [s];
    var counts := Counts(ws);
    forall c ensures counts[c] == if c == ClimateEnvironment then 1 else 0 {
      CarbonIsNoOtherKeyword(c);
      KeywordHitsStep(ws, 0, c);
      assert ws[..1] == ws && ws[..0] == [];
    }
    BestCategoryIsFirstMax(counts);
    var r := BestCategory(counts);
    assert counts[ClimateEnvironment] <= counts[r];
    assert Categorize(s) == r;
  }

  /**
   * The two classifiers disagree on "carbon": the pipeline sees "car" in
   * it, the engine sees the climate keyword.
   */
  lemma CarbonDisagrees()
    ensures CategorizeByTopic("carbon") == ElectricVehicles
    ensures Categorize("carbon") == ClimateEnvironment
  {
    CarbonTopic("carbon");
    CarbonEngine("carbon");
  }

  // ---------------------------------------------------------------------
  // Python dicts and max(): key order, lookups with a default, first best
  // ---------------------------------------------------------------------

  /** dict.get(k, default) */
  function Get<K, V>(t: map<K, V>, k: K, default: V): V {
    if k in t then t[k] else default
  }

  /**
   * The key order of a dict whose keys were `keys` once the models `ms` are
   * stored in turn: a model that is not a key yet joins at the end, one
   * that is keeps its place.
   */
  function WithNewKeys(keys: seq<Model>, ms: seq<Model>): (r: seq<Model>)
    requires Distinct(keys)
    ensures Distinct(r)
    ensures forall m :: m in r <==> m in keys || m in ms
    ensures |keys| <= |r| && r[..|keys|] == keys
  {
    if ms == [] then keys
    else
      var n := |ms| - 1;
      assert ms == ms[..n] + [ms[n]];
      var init := WithNewKeys(keys, ms[..n]);
      assert (init + [ms[n]])[..|keys|] == init[..|keys|];
      if ms[n] in init then init else init + [ms[n]]
  }

  /** A model met in the first n entries has its first occurrence there. */
  lemma FirstIndexPrefix(ms: seq<Model>, n: nat, m: Model)
    requires n <= |ms| && m in ms[..n]
    ensures m in ms && FirstIndex(ms, m) == FirstIndex(ms[..n], m)
  {
    var i := FirstIndex(ms[..n], m);
    assert ms[i] == m;
  }

  /**
   * The models that join the keys come after them in the order of their
   * first occurrence in `ms`, which with the key set and the absence of
   * repeats fixes WithNewKeys(keys, ms) completely.
   */
  lemma {:induction false} WithNewKeysOrder(keys: seq<Model>, ms: seq<Model>)
    requires Distinct(keys)
    ensures forall i :: |keys| <= i < |WithNewKeys(keys, ms)| ==> WithNewKeys(keys, ms)[i] in ms
    ensures forall i, j :: |keys| <= i < j < |WithNewKeys(keys, ms)| ==>
      FirstIndex(ms, WithNewKeys(keys, ms)[i]) < FirstIndex(ms, WithNewKeys(keys, ms)[j])
  {
    var r := WithNewKeys(keys, ms);
    forall i | |keys| <= i < |r| ensures r[i] in ms {
      assert r[i] !in r[..|keys|];
    }
    if ms != [] {
      var n := |ms| - 1;
      var init := WithNewKeys(keys, ms[..n]);
      WithNewKeysOrder(keys, ms[..n]);
      assert ms == ms[..n] + [ms[n]];
      forall i, j | |keys| <= i < j < |r| ensures FirstIndex(ms, r[i]) < FirstIndex(ms, r[j]) {
        assert r[i] == init[i];
        FirstIndexPrefix(ms, n, r[i]);
        if j < |init| {
          assert r[j] == init[j];
          FirstIndexPrefix(ms, n, r[j]);
        } else {
          assert r[j] == ms[n] && ms[n] !in ms[..n];
          FirstIndexLast(ms);
        }
      }
    }
  }

  /** A last entry met nowhere before has its first occurrence at the end. */
  lemma FirstIndexLast(ms: seq<Model>)
    requires ms != [] && ms[|ms| - 1] !in ms[..|ms| - 1]
    ensures FirstIndex(ms, ms[|ms| - 1]) == |ms| - 1
  {
  }

  /** Storing `a` and then `b` gives the key order of storing `a + b`. */
  lemma {:induction false} WithNewKeysAppend(keys: seq<Model>, a: seq<Model>, b: seq<Model>)
    requires Distinct(keys)
    ensures WithNewKeys(WithNewKeys(keys, a), b) == WithNewKeys(keys, a + b)
  {
    if b == [] {
      assert a + b == a;
    } else {
      var n := |b| - 1;
      WithNewKeysAppend(keys, a, b[..n]);
      assert b == b[..n] + [b[n]];
      assert a + b == (a + b[..n]) + [b[n]];
      WithNewKeysSnoc(WithNewKeys(keys, a), b[..n], b[n]);
      WithNewKeysSnoc(keys, a + b[..n], b[n]);
    }
  }

  /** Storing one more model: it joins at the end unless it is a key already. */
  lemma WithNewKeysSnoc(keys: seq<Model>, ms: seq<Model>, m: Model)
    requires Distinct(keys)
    ensures WithNewKeys(keys, ms + [m])
      == if m in WithNewKeys(keys, ms) then WithNewKeys(keys, ms) else WithNewKeys(keys, ms) + [m]
  {
    assert (ms + [m])[..|ms|] == ms;
  }

  /** Storing models without repeats into an empty dict lists them in their own order. */
  lemma {:induction false} WithNewKeysOfDistinct(ms: seq<Model>)
    requires Distinct(ms)
    ensures WithNewKeys([], ms) == ms
  {
    if ms != [] {
      var n := |ms| - 1;
      WithNewKeysOfDistinct(ms[..n]);
      assert ms == ms[..n] + [ms[n]];
    }
  }

  /** The values of the listed keys, in order. */
  function Values(key: map<Model, real>, ms: seq<Model>): (xs: seq<real>)
    requires forall i :: 0 <= i < |ms| ==> ms[i] in key
    ensures |xs| == |ms|
    ensures forall i :: 0 <= i < |ms| ==> xs[i] == key[ms[i]]
  {
    seq(|ms|, i requires 0 <= i < |ms| => key[ms[i]])
  }

  /**
   * max(ms, key=lambda m: key[m]): a model with the highest value, the
   * first in `ms` among equals.
   */
  function FirstBest(key: map<Model, real>, ms: seq<Model>): (b: Model)
    requires |ms| > 0 && Distinct(ms)
    requires forall i :: 0 <= i < |ms| ==> ms[i] in key
    ensures b in ms && b in key
    ensures forall i :: 0 <= i < |ms| ==> key[ms[i]] <= key[b]
    ensures forall i, k :: 0 <= i < k < |ms| && ms[k] == b ==> key[ms[i]] < key[b]
  {
    var w := ArgMax(Values(key, ms));
    assert forall k :: 0 <= k < |ms| && ms[k] == ms[w] ==> k == w;
    ms[w]
  }

  /** When the list names every key, the first best beats every key. */
  lemma FirstBestOfAll(key: map<Model, real>, ms: seq<Model>)
    requires |ms| > 0 && Distinct(ms)
    requires forall m :: m in ms <==> m in key
    ensures forall m :: m in key ==> key[m] <= key[FirstBest(key, ms)]
  {
    forall m | m in key ensures key[m] <= key[FirstBest(key, ms)] {
      var j :| 0 <= j < |ms| && ms[j] == m;
    }
  }

  // ---------------------------------------------------------------------
  // One test: every model's response, scored, and the best of them
  // ---------------------------------------------------------------------

  /** What generating a response for one model came to. */
  datatype Outcome = Generated(text: string) | Failed(message: string)

  /** The text run_single_test stores for an outcome: a failure becomes "Error: <message>". */
  function ResponseText(o: Outcome): string {
    match o
    case Generated(text) => text
    case Failed(message) => "Error: " + message
  }

  /**
   * The responses dict run_single_test fills: one entry per requested
   * model, each set from that model's outcome; a model requested twice keeps
   * its later outcome.
   */
  function Responses(models: seq<Model>, outcomes: seq<Outcome>): (r: map<Model, string>)
    requires |models| == |outcomes|
    ensures forall m :: m in r <==> m in models
  {
    if models == [] then map[]
    else
      var n := |models| - 1;
      assert models == models[..n] + [models[n]];
      Responses(models[..n], outcomes[..n])[models[n] := ResponseText(outcomes[n])]
  }

  /**
   * A model's entry is the text of its own outcome (its error text when it
   * failed); the outcomes of the other models never reach it.
   */
  lemma {:induction false} ResponsesAt(models: seq<Model>, outcomes: seq<Outcome>, i: nat)
    requires |models| == |outcomes| && i < |models|
    requires forall j :: i < j < |models| ==> models[j] != models[i]
    ensures Responses(models, outcomes)[models[i]] == ResponseText(outcomes[i])
  {
    var n := |models| - 1;
    var init := Responses(models[..n], outcomes[..n]);
    assert Responses(models, outcomes) == init[models[n] := ResponseText(outcomes[n])];
    if i < n {
      ResponsesAt(models[..n], outcomes[..n], i);
      assert models[..n][i] == models[i];
      assert models[n] != models[i];
    }
  }

  /** One more requested model stores its own outcome's text over the responses so far. */
  lemma ResponsesStep(models: seq<Model>, outcomes: seq<Outcome>, i: nat)
    requires |models| == |outcomes| && i < |models|
    ensures Responses(models[..i + 1], outcomes[..i + 1])
      == Responses(models[..i], outcomes[..i])[models[i] := ResponseText(outcomes[i])]
  {
    assert models[..i + 1][..i] == models[..i];
    assert outcomes[..i + 1][..i] == outcomes[..i];
  }

  /** One more requested model joins the key order at the end, unless it is a key already. */
  lemma KeysStep(models: seq<Model>, i: nat)
    requires i < |models|
    ensures var keys := WithNewKeys([], models[..i]);
      WithNewKeys([], models[..i + 1]) == if models[i] in keys then keys else keys + [models[i]]
  {
    assert models[..i + 1][..i] == models[..i];
  }

  /** The TestResult record, without its wall-clock time and timestamp. */
  datatype TestResult = TestResult(
    prompt: string,
    modelResponses: map<Model, string>,
    metrics: map<Model, ResponseMetrics>,
    keyOrder: seq<Model>,
    bestModel: Model,
    bestScore: real)

  /** What every recorded result satisfies: its metrics keys, listed once each in dict order, and a winner among them. */
  ghost predicate WellFormed(r: TestResult) {
    && |r.keyOrder| > 0
    && Distinct(r.keyOrder)
    && (forall m :: m in r.metrics <==> m in r.keyOrder)
    && r.bestModel in r.metrics
  }

  ghost predicate AllWellFormed(rs: seq<TestResult>) {
    forall i :: 0 <= i < |rs| ==> WellFormed(rs[i])
  }

  /** Each model's overall score. */
  function OverallScores(metrics: map<Model, ResponseMetrics>): map<Model, real> {
    map m | m in metrics :: metrics[m].overallScore
  }

  /**
   * max(keys, key=overall_score): a key with the highest overall score, the
   * first in dict order among equals.
   */
  function Winner(metrics: map<Model, ResponseMetrics>, ks: seq<Model>): (b: Model)
    requires |ks| > 0 && Distinct(ks)
    requires forall i :: 0 <= i < |ks| ==> ks[i] in metrics
    ensures b in ks
    ensures forall i :: 0 <= i < |ks| ==> metrics[ks[i]].overallScore <= metrics[b].overallScore
    ensures forall i, k :: 0 <= i < k < |ks| && ks[k] == b ==> metrics[ks[i]].overallScore < metrics[b].overallScore
  {
    FirstBest(OverallScores(metrics), ks)
  }

  /**
   * run_single_test: the responses, their metrics, and the winner among
   * them. Python's max fails on an empty model list, so at least one model
   * is required.
   */
  function SingleTest(ratio: Ratio, prompt: string, models: seq<Model>, outcomes: seq<Outcome>): TestResult
    requires |models| > 0 && |models| == |outcomes|
  {
    var responses := Responses(models, outcomes);
    var metrics := Evaluate(ratio, prompt, responses);
    var ks := WithNewKeys([], models);
    assert models[0] in ks;
    assert forall m :: m in ks <==> m in metrics;
    var best := Winner(metrics, ks);
    TestResult(prompt, responses, metrics, ks, best, metrics[best].overallScore)
  }

  /**
   * Every requested model has a response and a metrics entry, computed from
   * its own response, error texts included.
   */
  lemma SingleTestEntries(ratio: Ratio, prompt: string, models: seq<Model>, outcomes: seq<Outcome>)
    requires |models| > 0 && |models| == |outcomes|
    ensures var r := SingleTest(ratio, prompt, models, outcomes);
      && WellFormed(r)
      && r.prompt == prompt
      && (forall m :: m in r.modelResponses <==> m in models)
      && r.metrics.Keys == r.modelResponses.Keys
      && (forall m :: m in r.metrics ==> r.metrics[m] == Score(ratio, prompt, r.modelResponses[m]))
  {
  }

  /**
   * The best model is a requested one with the maximal overall score, and
   * every model listed before it scores strictly less.
   */
  lemma SingleTestWinner(ratio: Ratio, prompt: string, models: seq<Model>, outcomes: seq<Outcome>)
    requires |models| > 0 && |models| == |outcomes|
    ensures var r := SingleTest(ratio, prompt, models, outcomes);
      && r.bestModel in models
      && r.bestModel in r.metrics
      && r.bestScore == r.metrics[r.bestModel].overallScore
      && (forall m :: m in r.metrics ==> r.metrics[m].overallScore <= r.bestScore)
      && (forall i, k :: 0 <= i < k < |r.keyOrder| && r.keyOrder[k] == r.bestModel ==>
            r.keyOrder[i] in r.metrics && r.metrics[r.keyOrder[i]].overallScore < r.bestScore)
  {
    var responses := Responses(models, outcomes);
    var metrics := Evaluate(ratio, prompt, responses);
    var ks := WithNewKeys([], models);
    assert models[0] in ks;
    assert forall m :: m in ks <==> m in metrics;
    var b := Winner(metrics, ks);
    assert SingleTest(ratio, prompt, models, outcomes) == TestResult(prompt, responses, metrics, ks, b, metrics[b].overallScore);
    WinnerOfAll(metrics, ks);
  }

  /** When the keys list every entry of the table, the winner beats every entry. */
  lemma WinnerOfAll(metrics: map<Model, ResponseMetrics>, ks: seq<Model>)
    requires |ks| > 0 && Distinct(ks)
    requires forall m :: m in ks <==> m in metrics
    ensures var b := Winner(metrics, ks);
      forall m :: m in metrics ==> metrics[m].overallScore <= metrics[b].overallScore
  {
    var b := Winner(metrics, ks);
    forall m | m in metrics ensures metrics[m].overallScore <= metrics[b].overallScore {
      var j :| 0 <= j < |ks| && ks[j] == m;
    }
  }

  lemma SingleTestWellFormed(ratio: Ratio, prompt: string, models: seq<Model>, outcomes: seq<Outcome>)
    requires |models| > 0 && |models| == |outcomes|
    ensures WellFormed(SingleTest(ratio, prompt, models, outcomes))
  {
    SingleTestEntries(ratio, prompt, models, outcomes);
  }

  lemma AppendWellFormed(rs: seq<TestResult>, r: TestResult)
    requires AllWellFormed(rs) && WellFormed(r)
    ensures AllWellFormed(rs + [r])
  {
  }

  /** Models requested without repeats are listed, and so tie-broken, in the order requested. */
  lemma SingleTestKeyOrder(ratio: Ratio, prompt: string, models: seq<Model>, outcomes: seq<Outcome>)
    requires |models| > 0 && |models| == |outcomes| && Distinct(models)
    ensures SingleTest(ratio, prompt, models, outcomes).keyOrder == models
  {
    assert SingleTest(ratio, prompt, models, outcomes).keyOrder == WithNewKeys([], models);
    WithNewKeysOfDistinct(models);
  }

  /**
   * A model whose generation failed is scored on its error text, like any
   * other response (unless it is requested again later).
   */
  lemma FailedModelIsScored(ratio: Ratio, prompt: string, models: seq<Model>, outcomes: seq<Outcome>, i: nat)
    requires |models| == |outcomes| && i < |models| && outcomes[i].Failed?
    requires forall j :: i < j < |models| ==> models[j] != models[i]
    ensures var r := SingleTest(ratio, prompt, models, outcomes);
      && r.modelResponses[models[i]] == "Error: " + outcomes[i].message
      && r.metrics[models[i]] == Score(ratio, prompt, "Error: " + outcomes[i].message)
  {
    ResponsesAt(models, outcomes, i);
    var r := SingleTest(ratio, prompt, models, outcomes);
    assert r.modelResponses == Responses(models, outcomes);
    SingleTestEntries(ratio, prompt, models, outcomes);
  }

  // ---------------------------------------------------------------------
  // The analysis of the recorded results
  // ---------------------------------------------------------------------

  /** One more win for model b. */
  function AddWin(w: map<Model, nat>, b: Model): map<Model, nat> {
    w[b := Get(w, b, 0) + 1]
  }

  /** model_wins after the results so far: the best model of each result gains a win. */
  function Wins(rs: seq<TestResult>): map<Model, nat> {
    if rs == [] then map[]
    else
      var n := |rs| - 1;
      var w := Wins(rs[..n]);
      AddWin(w, rs[n].bestModel)
  }

  /** The positions of the results that m won. */
  ghost function WonBy(rs: seq<TestResult>, m: Model): set<nat> {
    set i: nat | i < |rs| && rs[i].bestModel == m
  }

  /** A model's win count is the number of results whose best model it is. */
  lemma WonByStep(rs: seq<TestResult>, m: Model)
    requires rs != []
    ensures var n := |rs| - 1;
      && n !in WonBy(rs[..n], m)
      && WonBy(rs, m) == WonBy(rs[..n], m) + if rs[n].bestModel == m then {n} else {}
  {
  }

  lemma {:induction false} WinsCount(rs: seq<TestResult>, m: Model)
    ensures Get(Wins(rs), m, 0) == |WonBy(rs, m)|
  {
    if rs != [] {
      WinsCount(rs[..|rs| - 1], m);
      WonByStep(rs, m);
    }
  }

  /** The win counts of the four models, added up. */
  function TotalWins(w: map<Model, nat>): nat {
    Get(w, GPT2, 0) + Get(w, DistilGPT2, 0) + Get(w, T5Small, 0) + Get(w, BertBase, 0)
  }

  /** One more win for b adds one to the total. */
  lemma TotalWinsStep(w: map<Model, nat>, b: Model)
    ensures TotalWins(AddWin(w, b)) == TotalWins(w) + 1
  {
    match b
    case GPT2 =>
    case DistilGPT2 =>
    case T5Small =>
    case BertBase =>
  }

  /** Every result gives exactly one win, so the wins add up to the number of results. */
  lemma {:induction false} WinsAddUp(rs: seq<TestResult>)
    ensures TotalWins(Wins(rs)) == |rs|
  {
    if rs != [] {
      var n := |rs| - 1;
      WinsAddUp(rs[..n]);
      TotalWinsStep(Wins(rs[..n]), rs[n].bestModel);
    }
  }

  /** Whether result r contributes a score of m under `topic` (under any topic when None). */
  predicate Feeds(r: TestResult, m: Model, topic: Option<Category>) {
    m in r.metrics && (topic.None? || CategorizeByTopic(r.prompt) == topic.value)
  }

  /** Reference definition: m's overall scores, in result order, from the results that feed it. */
  function ScoresOf(rs: seq<TestResult>, m: Model, topic: Option<Category>): seq<real> {
    if rs == [] then []
    else
      var n := |rs| - 1;
      ScoresOf(rs[..n], m, topic) + if Feeds(rs[n], m, topic) then [rs[n].metrics[m].overallScore] else []
  }

  /** The positions of the results that feed m's scores under `topic`. */
  ghost function FedBy(rs: seq<TestResult>, m: Model, topic: Option<Category>): set<nat> {
    set i: nat | i < |rs| && Feeds(rs[i], m, topic)
  }

  lemma FedByStep(rs: seq<TestResult>, m: Model, topic: Option<Category>)
    requires rs != []
    ensures var n := |rs| - 1;
      && n !in FedBy(rs[..n], m, topic)
      && FedBy(rs, m, topic) == FedBy(rs[..n], m, topic) + if Feeds(rs[n], m, topic) then {n} else {}
  {
  }

  /** m has one score for each result that feeds it. */
  lemma {:induction false} ScoresOfCount(rs: seq<TestResult>, m: Model, topic: Option<Category>)
    ensures |ScoresOf(rs, m, topic)| == |FedBy(rs, m, topic)|
  {
    if rs != [] {
      ScoresOfCount(rs[..|rs| - 1], m, topic);
      FedByStep(rs, m, topic);
    }
  }

  /** The score lists once the overall scores of r for the keys `ks` are appended in turn. */
  function AddScores(t: map<Model, seq<real>>, r: TestResult, ks: seq<Model>): map<Model, seq<real>>
    requires forall i :: 0 <= i < |ks| ==> ks[i] in r.metrics
  {
    if ks == [] then t
    else
      var n := |ks| - 1;
      var t0 := AddScores(t, r, ks[..n]);
      t0[ks[n] := Get(t0, ks[n], []) + [r.metrics[ks[n]].overallScore]]
  }

  /** model_scores after the results so far. */
  function ScoreTable(rs: seq<TestResult>): map<Model, seq<real>>
    requires AllWellFormed(rs)
  {
    if rs == [] then map[]
    else
      var n := |rs| - 1;
      AddScores(ScoreTable(rs[..n]), rs[n], rs[n].keyOrder)
  }

  /** The key order of model_scores after the results so far. */
  function SeenOrder(rs: seq<TestResult>): (ks: seq<Model>)
    ensures Distinct(ks)
  {
    if rs == [] then []
    else
      var n := |rs| - 1;
      WithNewKeys(SeenOrder(rs[..n]), rs[n].keyOrder)
  }

  /** The metrics key orders of the results, one after the other. */
  function AllKeyOrders(rs: seq<TestResult>): (ms: seq<Model>)
    ensures forall m :: m in ms <==> exists k :: 0 <= k < |rs| && m in rs[k].keyOrder
  {
    if rs == [] then []
    else
      var n := |rs| - 1;
      var init := AllKeyOrders(rs[..n]);
      assert forall k :: 0 <= k < n ==> rs[..n][k] == rs[k];
      init + rs[n].keyOrder
  }

  /** model_scores lists the models as first met going through the results, each in its metrics key order. */
  lemma {:induction false} SeenOrderFlat(rs: seq<TestResult>)
    ensures SeenOrder(rs) == WithNewKeys([], AllKeyOrders(rs))
  {
    if rs != [] {
      var n := |rs| - 1;
      SeenOrderFlat(rs[..n]);
      WithNewKeysAppend([], AllKeyOrders(rs[..n]), rs[n].keyOrder);
    }
  }

  /**
   * model_scores lists exactly the models of the results, without repeats,
   * in the order in which they are first met: by the first result that
   * scores them and, within that result, by its metrics key order.
   */
  lemma SeenOrderFirstSeen(rs: seq<TestResult>)
    ensures forall m :: m in SeenOrder(rs) <==> m in AllKeyOrders(rs)
    ensures forall i, j :: 0 <= i < j < |SeenOrder(rs)| ==>
      FirstIndex(AllKeyOrders(rs), SeenOrder(rs)[i]) < FirstIndex(AllKeyOrders(rs), SeenOrder(rs)[j])
  {
    SeenOrderFlat(rs);
    WithNewKeysOrder([], AllKeyOrders(rs));
  }

  /** Result k is the first that lists m among its metrics keys. */
  predicate FirstScoredIn(rs: seq<TestResult>, m: Model, k: nat) {
    k < |rs| && m in rs[k].keyOrder && forall l :: 0 <= l < k ==> m !in rs[l].keyOrder
  }

  /**
   * Of two models, the one whose first scoring result comes earlier, or
   * that comes earlier in the metrics key order of the same first result,
   * is listed earlier in model_scores.
   */
  lemma SeenOrderByResult(rs: seq<TestResult>, a: Model, ka: nat, b: Model, kb: nat)
    requires FirstScoredIn(rs, a, ka) && FirstScoredIn(rs, b, kb)
    requires ka < kb || (ka == kb && FirstIndex(rs[ka].keyOrder, a) < FirstIndex(rs[ka].keyOrder, b))
    ensures a in SeenOrder(rs) && b in SeenOrder(rs)
    ensures forall i, j :: 0 <= i < |SeenOrder(rs)| && 0 <= j < |SeenOrder(rs)| && SeenOrder(rs)[i] == a && SeenOrder(rs)[j] == b ==> i < j
  {
    SeenOrderFirstSeen(rs);
    FirstScoredEarlier(rs, a, ka, b, kb);
    var so, all := SeenOrder(rs), AllKeyOrders(rs);
    forall i, j | 0 <= i < |so| && 0 <= j < |so| && so[i] == a && so[j] == b ensures i < j {
      assert FirstIndex(all, so[i]) < FirstIndex(all, so[j]);
    }
  }

  /** The ordering premise of SeenOrderByResult, read on the concatenated key orders. */
  lemma FirstScoredEarlier(rs: seq<TestResult>, a: Model, ka: nat, b: Model, kb: nat)
    requires FirstScoredIn(rs, a, ka) && FirstScoredIn(rs, b, kb)
    requires ka < kb || (ka == kb && FirstIndex(rs[ka].keyOrder, a) < FirstIndex(rs[ka].keyOrder, b))
    ensures a in AllKeyOrders(rs) && b in AllKeyOrders(rs)
    ensures FirstIndex(AllKeyOrders(rs), a) < FirstIndex(AllKeyOrders(rs), b)
  {
    FirstIndexOfResult(rs, a, ka);
    FirstIndexOfResult(rs, b, kb);
    if ka < kb {
      KeyOrdersGrow(rs, ka + 1, kb);
      assert AllKeyOrders(rs[..ka + 1]) == AllKeyOrders(rs[..ka]) + rs[ka].keyOrder by {
        assert rs[..ka + 1][..ka] == rs[..ka];
      }
    }
  }

  /** The first occurrence of m among all key orders lies in its first scoring result, after the key orders before it. */
  lemma {:induction false} FirstIndexOfResult(rs: seq<TestResult>, m: Model, k: nat)
    requires FirstScoredIn(rs, m, k)
    ensures m in AllKeyOrders(rs)
    ensures FirstIndex(AllKeyOrders(rs), m) == |AllKeyOrders(rs[..k])| + FirstIndex(rs[k].keyOrder, m)
  {
    var n := |rs| - 1;
    var init := AllKeyOrders(rs[..n]);
    assert AllKeyOrders(rs) == init + rs[n].keyOrder;
    if k == n {
      assert m !in init;
      FirstIndexConcat(init, rs[n].keyOrder, m);
    } else {
      assert FirstScoredIn(rs[..n], m, k);
      FirstIndexOfResult(rs[..n], m, k);
      assert rs[..n][..k] == rs[..k];
      assert (init + rs[n].keyOrder)[..|init|] == init;
      FirstIndexPrefix(init + rs[n].keyOrder, |init|, m);
    }
  }

  /** A model absent from x is first met in x + y where it is first met in y. */
  lemma FirstIndexConcat(x: seq<Model>, y: seq<Model>, m: Model)
    requires m !in x && m in y
    ensures FirstIndex(x + y, m) == |x| + FirstIndex(y, m)
  {
    var i := |x| + FirstIndex(y, m);
    forall j | 0 <= j < i ensures (x + y)[j] != m {
      if j >= |x| {
        assert (x + y)[j] == y[j - |x|];
      }
    }
    FirstIndexUnique(x + y, m, i);
  }

  /** The key orders of a longer run of results are at least as long. */
  lemma {:induction false} KeyOrdersGrow(rs: seq<TestResult>, j: nat, l: nat)
    requires j <= l <= |rs|
    ensures |AllKeyOrders(rs[..j])| <= |AllKeyOrders(rs[..l])|
    decreases l - j
  {
    if j < l {
      KeyOrdersGrow(rs, j, l - 1);
      assert rs[..l][..l - 1] == rs[..l - 1];
    }
  }

  /**
   * The score lists per model and topic once the scores of r for the keys
   * `ks` are appended in turn under r's topic.
   */
  function AddTopicScores(t: map<Model, map<Category, seq<real>>>, r: TestResult, topic: Category, ks: seq<Model>)
    : map<Model, map<Category, seq<real>>>
    requires forall i :: 0 <= i < |ks| ==> ks[i] in r.metrics
  {
    if ks == [] then t
    else
      var n := |ks| - 1;
      var t0 := AddTopicScores(t, r, topic, ks[..n]);
      var row := Get(t0, ks[n], map[]);
      t0[ks[n] := row[topic := Get(row, topic, []) + [r.metrics[ks[n]].overallScore]]]
  }

  /** model_categories after the results so far. */
  function TopicTable(rs: seq<TestResult>): map<Model, map<Category, seq<real>>>
    requires AllWellFormed(rs)
  {
    if rs == [] then map[]
    else
      var n := |rs| - 1;
      AddTopicScores(TopicTable(rs[..n]), rs[n], CategorizeByTopic(rs[n].prompt), rs[n].keyOrder)
  }

  /** The scores filed for m under c in a topic table; none when it has none. */
  function TopicScores(t: map<Model, map<Category, seq<real>>>, m: Model, c: Category): seq<real> {
    if m in t && c in t[m] then t[m][c] else []
  }

  lemma {:induction false} AddScoresAt(t: map<Model, seq<real>>, r: TestResult, ks: seq<Model>, m: Model)
    requires forall i :: 0 <= i < |ks| ==> ks[i] in r.metrics
    requires Distinct(ks)
    ensures m in AddScores(t, r, ks) <==> m in t || m in ks
    ensures Get(AddScores(t, r, ks), m, []) == Get(t, m, []) + if m in ks then [r.metrics[m].overallScore] else []
  {
    if ks != [] {
      var n := |ks| - 1;
      assert ks == ks[..n] + [ks[n]];
      AddScoresAt(t, r, ks[..n], m);
      if m == ks[n] {
        assert m !in ks[..n];
      }
    }
  }

  lemma {:induction false} AddTopicScoresKeys(
    t: map<Model, map<Category, seq<real>>>, r: TestResult, topic: Category, ks: seq<Model>, m: Model, c: Category)
    requires forall i :: 0 <= i < |ks| ==> ks[i] in r.metrics
    ensures var t1 := AddTopicScores(t, r, topic, ks);
      m in t1 && c in t1[m] <==> (m in t && c in t[m]) || (m in ks && c == topic)
  {
    if ks != [] {
      var n := |ks| - 1;
      assert ks == ks[..n] + [ks[n]];
      AddTopicScoresKeys(t, r, topic, ks[..n], m, c);
    }
  }

  /** Filing one score for m0 under topic touches only that model's list for that topic. */
  lemma FileTopicScore(t: map<Model, map<Category, seq<real>>>, m0: Model, topic: Category, score: real, m: Model, c: Category)
    ensures var row := Get(t, m0, map[]);
      TopicScores(t[m0 := row[topic := Get(row, topic, []) + [score]]], m, c)
        == TopicScores(t, m, c) + if m == m0 && c == topic then [score] else []
  {
  }

  lemma {:induction false} AddTopicScoresAt(
    t: map<Model, map<Category, seq<real>>>, r: TestResult, topic: Category, ks: seq<Model>, m: Model, c: Category)
    requires forall i :: 0 <= i < |ks| ==> ks[i] in r.metrics
    requires Distinct(ks)
    ensures TopicScores(AddTopicScores(t, r, topic, ks), m, c)
      == TopicScores(t, m, c) + if m in ks && c == topic then [r.metrics[m].overallScore] else []
  {
    if ks != [] {
      var n := |ks| - 1;
      assert ks == ks[..n] + [ks[n]];
      AddTopicScoresAt(t, r, topic, ks[..n], m, c);
      FileTopicScore(AddTopicScores(t, r, topic, ks[..n]), ks[n], topic, r.metrics[ks[n]].overallScore, m, c);
      if m == ks[n] {
        assert m !in ks[..n];
      }
    }
  }

  /**
   * model_scores has a key exactly for the models seen so far, and holds for
   * each the overall scores of the results that list it, in result order.
   */
  lemma {:induction false} ScoreTableAt(rs: seq<TestResult>, m: Model)
    requires AllWellFormed(rs)
    ensures Get(ScoreTable(rs), m, []) == ScoresOf(rs, m, None)
    ensures m in ScoreTable(rs) <==> m in SeenOrder(rs)
    ensures m in SeenOrder(rs) <==> ScoresOf(rs, m, None) != []
  {
    if rs != [] {
      var n := |rs| - 1;
      ScoreTableAt(rs[..n], m);
      AddScoresAt(ScoreTable(rs[..n]), rs[n], rs[n].keyOrder, m);
    }
  }

  /**
   * model_categories files each model's score of each result under the
   * result's topic, in result order, and has an entry exactly where a score
   * was filed.
   */
  lemma {:induction false} TopicTableAt(rs: seq<TestResult>, m: Model, c: Category)
    requires AllWellFormed(rs)
    ensures TopicScores(TopicTable(rs), m, c) == ScoresOf(rs, m, Some(c))
    ensures m in TopicTable(rs) && c in TopicTable(rs)[m] <==> ScoresOf(rs, m, Some(c)) != []
  {
    if rs != [] {
      var n := |rs| - 1;
      var r := rs[n];
      var topic := CategorizeByTopic(r.prompt);
      TopicTableAt(rs[..n], m, c);
      AddTopicScoresKeys(TopicTable(rs[..n]), r, topic, r.keyOrder, m, c);
      AddTopicScoresAt(TopicTable(rs[..n]), r, topic, r.keyOrder, m, c);
      assert Feeds(r, m, Some(c)) <==> m in r.keyOrder && c == topic;
    }
  }

  /** One more result extends each table by that result's entries. */
  lemma TablesStep(rs: seq<TestResult>, i: nat)
    requires AllWellFormed(rs) && i < |rs|
    ensures AllWellFormed(rs[..i]) && AllWellFormed(rs[..i + 1])
    ensures var r := rs[i];
      && Wins(rs[..i + 1]) == AddWin(Wins(rs[..i]), r.bestModel)
      && ScoreTable(rs[..i + 1]) == AddScores(ScoreTable(rs[..i]), r, r.keyOrder)
      && TopicTable(rs[..i + 1]) == AddTopicScores(TopicTable(rs[..i]), r, CategorizeByTopic(r.prompt), r.keyOrder)
      && SeenOrder(rs[..i + 1]) == WithNewKeys(SeenOrder(rs[..i]), r.keyOrder)
  {
    assert rs[..i + 1][..i] == rs[..i];
  }

  ghost predicate NonEmptyLists(t: map<Model, seq<real>>) {
    forall m :: m in t ==> t[m] != []
  }

  ghost predicate NonEmptyRows(t: map<Model, map<Category, seq<real>>>) {
    forall m, c :: m in t && c in t[m] ==> t[m][c] != []
  }

  lemma ScoreTableShape(rs: seq<TestResult>)
    requires AllWellFormed(rs)
    ensures NonEmptyLists(ScoreTable(rs))
    ensures forall m :: m in ScoreTable(rs) <==> m in SeenOrder(rs)
    ensures rs != [] ==> |SeenOrder(rs)| > 0
  {
    forall m ensures (m in ScoreTable(rs) ==> ScoreTable(rs)[m] != []) && (m in ScoreTable(rs) <==> m in SeenOrder(rs)) {
      ScoreTableAt(rs, m);
    }
    if rs != [] {
      assert rs[|rs| - 1].keyOrder[0] in SeenOrder(rs);
    }
  }

  lemma TopicTableShape(rs: seq<TestResult>)
    requires AllWellFormed(rs)
    ensures NonEmptyRows(TopicTable(rs))
  {
    forall m, c | m in TopicTable(rs) && c in TopicTable(rs)[m] ensures TopicTable(rs)[m][c] != [] {
      TopicTableAt(rs, m, c);
    }
  }

  /** sum(scores) / len(scores) for every list of a table. */
  function Averages(t: map<Model, seq<real>>): map<Model, real>
    requires NonEmptyLists(t)
  {
    map m | m in t :: Mean(t[m])
  }

  /**
   * The keys of category_scores for topic c after the first k test models:
   * those with a score under c, in test-model order.
   */
  function ScoredModels(t: map<Model, map<Category, seq<real>>>, c: Category, k: nat): (r: seq<Model>)
    requires k <= |ModelOrder|
    ensures forall m :: m in r <==> ModelIndex(m) < k && m in t && c in t[m]
    ensures forall i, j :: 0 <= i < j < |r| ==> ModelIndex(r[i]) < ModelIndex(r[j])
  {
    if k == 0 then []
    else
      ModelIndexInverse();
      var m := ModelOrder[k - 1];
      ScoredModels(t, c, k - 1) + if m in t && c in t[m] then [m] else []
  }

  /** category_scores for topic c after the first k test models. */
  function TopicAverages(t: map<Model, map<Category, seq<real>>>, c: Category, k: nat): (r: map<Model, real>)
    requires NonEmptyRows(t) && k <= |ModelOrder|
    ensures forall m :: m in r <==> ModelIndex(m) < k && m in t && c in t[m]
    ensures forall m :: m in r ==> r[m] == Mean(t[m][c])
  {
    if k == 0 then map[]
    else
      ModelIndexInverse();
      var m := ModelOrder[k - 1];
      var prev := TopicAverages(t, c, k - 1);
      if m in t && c in t[m] then prev[m := Mean(t[m][c])] else prev
  }

  datatype CategoryRecommendation = CategoryRecommendation(
    category: Category,
    bestModel: Model,
    score: real,
    allScores: map<Model, real>)

  /** The recommendation for topic c, when some test model has a score under it. */
  function Recommend(t: map<Model, map<Category, seq<real>>>, c: Category): (r: Option<CategoryRecommendation>)
    requires NonEmptyRows(t)
    ensures r.Some? ==> r.value.category == c
  {
    var ms := ScoredModels(t, c, |ModelOrder|);
    if ms == [] then None
    else
      var avg := TopicAverages(t, c, |ModelOrder|);
      var best := FirstBest(avg, ms);
      Some(CategoryRecommendation(c, best, avg[best], avg))
  }

  /** category_recommendations, in the order of the topics `cs`. */
  function Recommendations(t: map<Model, map<Category, seq<real>>>, cs: seq<Category>): seq<CategoryRecommendation>
    requires NonEmptyRows(t)
  {
    if cs == [] then []
    else
      var n := |cs| - 1;
      Recommendations(t, cs[..n]) + match Recommend(t, cs[n]) case None => [] case Some(x) => [x]
  }

  /** A topic gets a recommendation exactly when some model has a score under it. */
  lemma RecommendWhen(t: map<Model, map<Category, seq<real>>>, c: Category)
    requires NonEmptyRows(t)
    ensures Recommend(t, c).Some? <==> exists m :: m in t && c in t[m]
  {
    if exists m :: m in t && c in t[m] {
      var m :| m in t && c in t[m];
      assert m in ScoredModels(t, c, |ModelOrder|);
    }
  }

  /** In a sorted list of models, a model of lower rank sits earlier. */
  lemma SortedPositions(ms: seq<Model>, i: nat, k: nat)
    requires forall p, q :: 0 <= p < q < |ms| ==> ModelIndex(ms[p]) < ModelIndex(ms[q])
    requires i < |ms| && k < |ms| && ModelIndex(ms[i]) < ModelIndex(ms[k])
    ensures i < k
  {
  }

  /**
   * A recommendation lists the average of every model with scores under
   * its topic, names one with the highest average, and every model before
   * it in test-model order averages strictly less.
   */
  lemma RecommendEntry(t: map<Model, map<Category, seq<real>>>, c: Category)
    requires NonEmptyRows(t) && Recommend(t, c).Some?
    ensures var x := Recommend(t, c).value;
      && x.category == c
      && (forall m :: m in x.allScores <==> m in t && c in t[m])
      && (forall m :: m in x.allScores ==> x.allScores[m] == Mean(t[m][c]))
      && x.bestModel in x.allScores && x.score == x.allScores[x.bestModel]
      && (forall m :: m in x.allScores ==> x.allScores[m] <= x.score)
      && (forall m :: m in x.allScores && ModelIndex(m) < ModelIndex(x.bestModel) ==> x.allScores[m] < x.score)
  {
    var ms := ScoredModels(t, c, |ModelOrder|);
    var x := Recommend(t, c).value;
    var avg := x.allScores;
    forall m | m in avg ensures avg[m] <= x.score && (ModelIndex(m) < ModelIndex(x.bestModel) ==> avg[m] < x.score) {
      var i :| 0 <= i < |ms| && ms[i] == m;
      var k :| 0 <= k < |ms| && ms[k] == x.bestModel;
      if ModelIndex(m) < ModelIndex(x.bestModel) {
        SortedPositions(ms, i, k);
      }
    }
  }

  /** The recommendations for the topics `cs` are those for the last topic added after those for the rest. */
  lemma RecommendationsUnfold(t: map<Model, map<Category, seq<real>>>, cs: seq<Category>)
    requires NonEmptyRows(t) && cs != []
    ensures var n := |cs| - 1;
      Recommendations(t, cs) == Recommendations(t, cs[..n]) +
        match Recommend(t, cs[n]) case None => [] case Some(x) => [x]
  {
  }

  lemma RecommendationsPrefixStep(t: map<Model, map<Category, seq<real>>>, cs: seq<Category>, k: nat)
    requires NonEmptyRows(t) && k < |cs|
    ensures Recommendations(t, cs[..k + 1]) == Recommendations(t, cs[..k]) +
      match Recommend(t, cs[k]) case None => [] case Some(x) => [x]
  {
    assert cs[..k + 1][..k] == cs[..k];
    RecommendationsUnfold(t, cs[..k + 1]);
  }

  /** Every recommendation is for a topic of `cs`. */
  lemma {:induction false} RecommendationsTopics(t: map<Model, map<Category, seq<real>>>, cs: seq<Category>)
    requires NonEmptyRows(t)
    ensures var rec := Recommendations(t, cs);
      forall k :: 0 <= k < |rec| ==> rec[k].category in cs
  {
    if cs != [] {
      var n := |cs| - 1;
      RecommendationsTopics(t, cs[..n]);
      RecommendationsUnfold(t, cs);
      var rec0 := Recommendations(t, cs[..n]);
      var extra := match Recommend(t, cs[n]) case None => [] case Some(x) => [x];
      assert forall k :: 0 <= k < |extra| ==> extra[k].category == cs[n];
      assert forall c :: c in cs[..n] ==> c in cs;
      AppendTopics(rec0, extra, cs, n);
    }
  }

  lemma AppendTopics(rec0: seq<CategoryRecommendation>, extra: seq<CategoryRecommendation>, cs: seq<Category>, n: nat)
    requires n < |cs|
    requires forall k :: 0 <= k < |rec0| ==> rec0[k].category in cs[..n]
    requires forall k :: 0 <= k < |extra| ==> extra[k].category == cs[n]
    ensures var rec := rec0 + extra;
      forall k :: 0 <= k < |rec| ==> rec[k].category in cs
  {
    assert forall c :: c in cs[..n] ==> c in cs;
  }

  /** Every recommendation is the one for its topic, a topic of `cs`. */
  lemma {:induction false} RecommendationsSound(t: map<Model, map<Category, seq<real>>>, cs: seq<Category>)
    requires NonEmptyRows(t)
    ensures var rec := Recommendations(t, cs);
      forall k :: 0 <= k < |rec| ==> rec[k].category in cs && Recommend(t, rec[k].category) == Some(rec[k])
  {
    RecommendationsTopics(t, cs);
    RecommendationsMatch(t, cs);
  }

  /** Every recommendation is the one for its topic. */
  lemma {:induction false} RecommendationsMatch(t: map<Model, map<Category, seq<real>>>, cs: seq<Category>)
    requires NonEmptyRows(t)
    ensures var rec := Recommendations(t, cs);
      forall k :: 0 <= k < |rec| ==> Recommend(t, rec[k].category) == Some(rec[k])
  {
    if cs != [] {
      var n := |cs| - 1;
      RecommendationsMatch(t, cs[..n]);
      RecommendationsUnfold(t, cs);
      var rec0 := Recommendations(t, cs[..n]);
      var rec := Recommendations(t, cs);
      var o := Recommend(t, cs[n]);
      forall k | 0 <= k < |rec| ensures Recommend(t, rec[k].category) == Some(rec[k]) {
        if k < |rec0| {
          assert rec[k] == rec0[k];
        } else {
          assert o.Some? && rec[k] == o.value;
        }
      }
    }
  }

  /** The recommendations come in the order of the topics `cs`. */
  lemma {:induction false} RecommendationsOrdered(t: map<Model, map<Category, seq<real>>>, cs: seq<Category>)
    requires NonEmptyRows(t)
    requires forall i, j :: 0 <= i < j < |cs| ==> CategoryIndex(cs[i]) < CategoryIndex(cs[j])
    ensures var rec := Recommendations(t, cs);
      forall k, l :: 0 <= k < l < |rec| ==> CategoryIndex(rec[k].category) < CategoryIndex(rec[l].category)
  {
    if cs != [] {
      var n := |cs| - 1;
      RecommendationsOrdered(t, cs[..n]);
      RecommendationsTopics(t, cs[..n]);
      RecommendationsUnfold(t, cs);
      var rec0 := Recommendations(t, cs[..n]);
      var extra := match Recommend(t, cs[n]) case None => [] case Some(x) => [x];
      ExtraTopic(t, cs[n]);
      EarlierTopics(rec0, cs);
      AppendOrdered(rec0, extra, cs[n]);
    }
  }

  /** The optional recommendation for topic `c` is at most one, for `c`. */
  lemma ExtraTopic(t: map<Model, map<Category, seq<real>>>, c: Category)
    requires NonEmptyRows(t)
    ensures var extra := match Recommend(t, c) case None => [] case Some(x) => [x];
      |extra| <= 1 && forall k :: 0 <= k < |extra| ==> extra[k].category == c
  {
  }

  /** Over increasing topics, whatever names a topic before the last names a smaller one. */
  lemma EarlierTopics(rec0: seq<CategoryRecommendation>, cs: seq<Category>)
    requires cs != []
    requires forall i, j :: 0 <= i < j < |cs| ==> CategoryIndex(cs[i]) < CategoryIndex(cs[j])
    requires forall k :: 0 <= k < |rec0| ==> rec0[k].category in cs[..|cs| - 1]
    ensures forall k :: 0 <= k < |rec0| ==> CategoryIndex(rec0[k].category) < CategoryIndex(cs[|cs| - 1])
  {
    var n := |cs| - 1;
    forall k | 0 <= k < |rec0| ensures CategoryIndex(rec0[k].category) < CategoryIndex(cs[n]) {
      var c := rec0[k].category;
      assert c in cs[..n];
      var i :| 0 <= i < |cs[..n]| && cs[..n][i] == c;
      assert cs[i] == c;
    }
  }

  lemma AppendOrdered(rec0: seq<CategoryRecommendation>, extra: seq<CategoryRecommendation>, c: Category)
    requires forall k, l :: 0 <= k < l < |rec0| ==> CategoryIndex(rec0[k].category) < CategoryIndex(rec0[l].category)
    requires forall k :: 0 <= k < |rec0| ==> CategoryIndex(rec0[k].category) < CategoryIndex(c)
    requires |extra| <= 1 && forall k :: 0 <= k < |extra| ==> extra[k].category == c
    ensures var rec := rec0 + extra;
      forall k, l :: 0 <= k < l < |rec| ==> CategoryIndex(rec[k].category) < CategoryIndex(rec[l].category)
  {
  }

  /** A topic is listed in a list of recommendations. */
  predicate Listed(rec: seq<CategoryRecommendation>, c: Category) {
    exists k :: 0 <= k < |rec| && rec[k].category == c
  }

  lemma ListedAppend(rec0: seq<CategoryRecommendation>, extra: seq<CategoryRecommendation>, c: Category)
    requires Listed(rec0, c)
    ensures Listed(rec0 + extra, c)
  {
    var k :| 0 <= k < |rec0| && rec0[k].category == c;
    assert (rec0 + extra)[k] == rec0[k];
  }

  lemma ListedLast(rec0: seq<CategoryRecommendation>, x: CategoryRecommendation)
    ensures Listed(rec0 + [x], x.category)
  {
    assert (rec0 + [x])[|rec0|] == x;
  }

  lemma InInit<T>(xs: seq<T>, x: T)
    requires x in xs && x != xs[|xs| - 1]
    ensures x in xs[..|xs| - 1]
  {
    assert xs == xs[..|xs| - 1] + [xs[|xs| - 1]];
  }

  /** Every topic of `cs` that has a recommendation is listed. */
  lemma {:induction false} RecommendationsComplete(t: map<Model, map<Category, seq<real>>>, cs: seq<Category>, c: Category)
    requires NonEmptyRows(t)
    requires c in cs && Recommend(t, c).Some?
    ensures Listed(Recommendations(t, cs), c)
  {
    var n := |cs| - 1;
    RecommendationsUnfold(t, cs);
    var rec0 := Recommendations(t, cs[..n]);
    if c == cs[n] {
      ListedLast(rec0, Recommend(t, c).value);
    } else {
      InInit(cs, c);
      RecommendationsComplete(t, cs[..n], c);
      ListedAppend(rec0, match Recommend(t, cs[n]) case None => [] case Some(x) => [x], c);
    }
  }

  /** analyze_results' report; NoResults is its error dict. */
  datatype Analysis =
    | NoResults
    | Report(
        totalTests: nat,
        modelsTested: nat,
        bestOverallModel: Model,
        bestOverallScore: real,
        wins: map<Model, nat>,
        averageScores: map<Model, real>,
        totalScores: map<Model, nat>,
        categoryRecommendations: seq<CategoryRecommendation>)

  /**
   * analyze_results without its execution-time statistics: there is a
   * report exactly when some result has been recorded.
   */
  function Analyze(rs: seq<TestResult>): (a: Analysis)
    requires AllWellFormed(rs)
    ensures a.NoResults? <==> rs == []
    ensures a.Report? ==> a.totalTests == |rs| && a.modelsTested == |ModelOrder|
  {
    if rs == [] then NoResults
    else
      ScoreTableShape(rs);
      TopicTableShape(rs);
      var table := ScoreTable(rs);
      var avg := Averages(table);
      var best := BestOverall(rs);
      Report(|rs|, |ModelOrder|, best, avg[best], Wins(rs), avg,
        ScoreCounts(table),
        Recommendations(TopicTable(rs), CategoryOrder))
  }

  /** The number of scores of each model. */
  function ScoreCounts(t: map<Model, seq<real>>): map<Model, nat> {
    map m | m in t :: |t[m]|
  }

  /** best_overall: the first model seen among those with the highest average. */
  function BestOverall(rs: seq<TestResult>): (b: Model)
    requires AllWellFormed(rs) && rs != []
    ensures b in ScoreTable(rs)
  {
    ScoreTableShape(rs);
    FirstBest(Averages(ScoreTable(rs)), SeenOrder(rs))
  }

  /** The score parts of a report, each given by its own table. */
  lemma AnalyzeScores(rs: seq<TestResult>)
    requires AllWellFormed(rs) && rs != []
    ensures NonEmptyLists(ScoreTable(rs))
    ensures var a := Analyze(rs);
      && a.Report?
      && a.averageScores == Averages(ScoreTable(rs))
      && a.totalScores == ScoreCounts(ScoreTable(rs))
  {
    ScoreTableShape(rs);
  }

  /** The wins of a report. */
  lemma AnalyzeWins(rs: seq<TestResult>)
    requires AllWellFormed(rs) && rs != []
    ensures Analyze(rs).Report? && Analyze(rs).wins == Wins(rs)
  {
  }

  /** The overall best of a report and its score. */
  lemma AnalyzeBest(rs: seq<TestResult>)
    requires AllWellFormed(rs) && rs != []
    ensures NonEmptyLists(ScoreTable(rs))
    ensures var a := Analyze(rs);
      && a.Report?
      && a.averageScores == Averages(ScoreTable(rs))
      && a.bestOverallModel == BestOverall(rs)
      && a.bestOverallModel in a.averageScores
      && a.bestOverallScore == a.averageScores[a.bestOverallModel]
  {
    ScoreTableShape(rs);
  }

  /** The topic part of a report: the recommendations over the topic table, in topic order. */
  lemma AnalyzeTopics(rs: seq<TestResult>)
    requires AllWellFormed(rs) && rs != []
    ensures NonEmptyRows(TopicTable(rs))
    ensures Analyze(rs).Report? && Analyze(rs).categoryRecommendations == Recommendations(TopicTable(rs), CategoryOrder)
  {
    TopicTableShape(rs);
  }

  /** Each model's win count is the number of results it won, and the counts add up to the number of results. */
  lemma AnalysisWins(rs: seq<TestResult>, m: Model)
    requires AllWellFormed(rs) && rs != []
    ensures Get(Analyze(rs).wins, m, 0) == |WonBy(rs, m)|
    ensures TotalWins(Analyze(rs).wins) == |rs|
  {
    WinsCount(rs, m);
    WinsAddUp(rs);
  }

  /**
   * A model has an average and a score count exactly when some result
   * scored it; the average is the mean of its scores and the count is the
   * number of results that scored it.
   */
  lemma AnalysisAverages(rs: seq<TestResult>, m: Model)
    requires AllWellFormed(rs) && rs != []
    ensures var a := Analyze(rs);
      && (m in a.averageScores <==> ScoresOf(rs, m, None) != [])
      && (m in a.averageScores ==> a.averageScores[m] == Mean(ScoresOf(rs, m, None)))
      && (m in a.totalScores <==> m in a.averageScores)
      && (m in a.totalScores ==> a.totalScores[m] == |set i: nat | i < |rs| && m in rs[i].metrics|)
  {
    AnalyzeScores(rs);
    ScoreSummary(rs, m);
  }

  /** The average and the count the score table gives a model. */
  lemma ScoreSummary(rs: seq<TestResult>, m: Model)
    requires AllWellFormed(rs) && NonEmptyLists(ScoreTable(rs))
    ensures var avg, counts := Averages(ScoreTable(rs)), ScoreCounts(ScoreTable(rs));
      && (m in avg <==> ScoresOf(rs, m, None) != [])
      && (m in avg ==> avg[m] == Mean(ScoresOf(rs, m, None)))
      && (m in counts <==> m in avg)
      && (m in counts ==> counts[m] == |set i: nat | i < |rs| && m in rs[i].metrics|)
  {
    ScoreTableAt(rs, m);
    ScoresOfCount(rs, m, None);
    assert FedBy(rs, m, None) == set i: nat | i < |rs| && m in rs[i].metrics;
  }

  /**
   * The overall best model has the highest average of all, its score is
   * that average, and every model seen before it averages strictly less.
   */
  lemma AnalysisBestOverall(rs: seq<TestResult>)
    requires AllWellFormed(rs) && rs != []
    ensures var a := Analyze(rs);
      && a.bestOverallModel in a.averageScores
      && a.bestOverallScore == a.averageScores[a.bestOverallModel]
      && (forall m :: m in a.averageScores ==> a.averageScores[m] <= a.bestOverallScore)
      && (forall i, k :: 0 <= i < k < |SeenOrder(rs)| && SeenOrder(rs)[k] == a.bestOverallModel ==>
            SeenOrder(rs)[i] in a.averageScores && a.averageScores[SeenOrder(rs)[i]] < a.bestOverallScore)
  {
    AnalyzeBest(rs);
    BestOverallIsBest(rs);
  }

  /** The overall best beats every average, and every model seen before it averages strictly less. */
  lemma BestOverallIsBest(rs: seq<TestResult>)
    requires AllWellFormed(rs) && rs != [] && NonEmptyLists(ScoreTable(rs))
    ensures var avg, b, seen := Averages(ScoreTable(rs)), BestOverall(rs), SeenOrder(rs);
      && b in avg
      && (forall m :: m in avg ==> avg[m] <= avg[b])
      && (forall i, k :: 0 <= i < k < |seen| && seen[k] == b ==> seen[i] in avg && avg[seen[i]] < avg[b])
  {
    ScoreTableShape(rs);
    FirstBestOfAll(Averages(ScoreTable(rs)), SeenOrder(rs));
  }

  /**
   * Over the topics in declaration order, a topic is recommended for
   * exactly when some model has scores under it, and its entry is the
   * recommendation for that topic.
   */
  lemma RecommendationFor(t: map<Model, map<Category, seq<real>>>, c: Category)
    requires NonEmptyRows(t)
    ensures var rec := Recommendations(t, CategoryOrder);
      && (Listed(rec, c) <==> exists m :: m in t && c in t[m])
      && forall k :: 0 <= k < |rec| && rec[k].category == c ==> Recommend(t, c) == Some(rec[k])
  {
    RecommendWhen(t, c);
    RecommendationsSound(t, CategoryOrder);
    assert CategoryOrder[CategoryIndex(c)] == c;
    if Recommend(t, c).Some? {
      RecommendationsComplete(t, CategoryOrder, c);
    }
  }

  /** The row of one topic in model_categories, model by model. */
  lemma TopicTableColumn(rs: seq<TestResult>, c: Category)
    requires AllWellFormed(rs)
    ensures forall m :: TopicScores(TopicTable(rs), m, c) == ScoresOf(rs, m, Some(c))
    ensures forall m :: m in TopicTable(rs) && c in TopicTable(rs)[m] <==> ScoresOf(rs, m, Some(c)) != []
  {
    forall m ensures TopicScores(TopicTable(rs), m, c) == ScoresOf(rs, m, Some(c))
      && (m in TopicTable(rs) && c in TopicTable(rs)[m] <==> ScoresOf(rs, m, Some(c)) != [])
    {
      TopicTableAt(rs, m, c);
    }
  }

  /** A topic is in the recommendations exactly when some model has a score under it. */
  lemma AnalysisRecommended(rs: seq<TestResult>, c: Category)
    requires AllWellFormed(rs) && rs != []
    ensures Listed(Analyze(rs).categoryRecommendations, c) <==> exists m :: ScoresOf(rs, m, Some(c)) != []
  {
    AnalyzeTopics(rs);
    TopicListed(rs, c);
  }

  /** Over the topic table of the results, a topic is listed exactly when some model has a score under it. */
  lemma TopicListed(rs: seq<TestResult>, c: Category)
    requires AllWellFormed(rs) && NonEmptyRows(TopicTable(rs))
    ensures Listed(Recommendations(TopicTable(rs), CategoryOrder), c) <==> exists m :: ScoresOf(rs, m, Some(c)) != []
  {
    var t := TopicTable(rs);
    TopicTableColumn(rs, c);
    RecommendationFor(t, c);
    if exists m :: ScoresOf(rs, m, Some(c)) != [] {
      var m :| ScoresOf(rs, m, Some(c)) != [];
      assert m in t && c in t[m];
    }
    if exists m :: m in t && c in t[m] {
      var m :| m in t && c in t[m];
      assert ScoresOf(rs, m, Some(c)) != [];
    }
  }

  /**
   * The entry of a recommended topic holds the mean score under that topic
   * of each model that has any, and a model with the highest of them, no
   * model before it in test-model order being as high.
   */
  lemma AnalysisRecommendation(rs: seq<TestResult>, k: nat)
    requires AllWellFormed(rs) && rs != [] && k < |Analyze(rs).categoryRecommendations|
    ensures var x := Analyze(rs).categoryRecommendations[k];
      && (forall m :: m in x.allScores <==> ScoresOf(rs, m, Some(x.category)) != [])
      && (forall m :: m in x.allScores ==> x.allScores[m] == Mean(ScoresOf(rs, m, Some(x.category))))
      && x.bestModel in x.allScores && x.score == x.allScores[x.bestModel]
      && (forall m :: m in x.allScores ==> x.allScores[m] <= x.score)
      && (forall m :: m in x.allScores && ModelIndex(m) < ModelIndex(x.bestModel) ==> x.allScores[m] < x.score)
  {
    AnalyzeTopics(rs);
    var x := Analyze(rs).categoryRecommendations[k];
    var t := TopicTable(rs);
    TopicTableColumn(rs, x.category);
    RecommendationsSound(t, CategoryOrder);
    assert Recommend(t, x.category) == Some(x);
    RecommendEntry(t, x.category);
  }

  /** The recommendations come in topic declaration order, one per topic at most. */
  lemma AnalysisRecommendationOrder(rs: seq<TestResult>)
    requires AllWellFormed(rs) && rs != []
    ensures var rec := Analyze(rs).categoryRecommendations;
      forall k, l :: 0 <= k < l < |rec| ==> CategoryIndex(rec[k].category) < CategoryIndex(rec[l].category)
  {
    AnalyzeTopics(rs);
    RecommendationsInTopicOrder(TopicTable(rs));
  }

  /** Recommendations over the declared topics come in declaration order. */
  lemma RecommendationsInTopicOrder(t: map<Model, map<Category, seq<real>>>)
    requires NonEmptyRows(t)
    ensures var rec := Recommendations(t, CategoryOrder);
      forall k, l :: 0 <= k < l < |rec| ==> CategoryIndex(rec[k].category) < CategoryIndex(rec[l].category)
  {
    CategoryOrderIncreasing();
    RecommendationsOrdered(t, CategoryOrder);
  }

  /** One more model of a result added to the three tables analyze_results keeps. */
  lemma AddStep(scores: map<Model, seq<real>>, topics: map<Model, map<Category, seq<real>>>, seen: seq<Model>,
    r: TestResult, topic: Category, ks: seq<Model>, j: nat)
    requires Distinct(seen) && j < |ks| && forall i :: 0 <= i < |ks| ==> ks[i] in r.metrics
    ensures var t0 := AddScores(scores, r, ks[..j]);
      AddScores(scores, r, ks[..j + 1]) == t0[ks[j] := Get(t0, ks[j], []) + [r.metrics[ks[j]].overallScore]]
    ensures var t0 := AddTopicScores(topics, r, topic, ks[..j]); var row := Get(t0, ks[j], map[]);
      AddTopicScores(topics, r, topic, ks[..j + 1]) == t0[ks[j] := row[topic := Get(row, topic, []) + [r.metrics[ks[j]].overallScore]]]
    ensures var s0 := WithNewKeys(seen, ks[..j]);
      WithNewKeys(seen, ks[..j + 1]) == if ks[j] in s0 then s0 else s0 + [ks[j]]
  {
    assert ks[..j + 1][..j] == ks[..j];
  }

  // ---------------------------------------------------------------------
  // The pipeline object
  // ---------------------------------------------------------------------

  const TestPrompts: seq<string> := [
    "Explain the future of electric vehicles and their impact on the automotive industry.",
    "What are the main challenges facing electric vehicle adoption globally?",
    "Compare the environmental benefits of electric vehicles versus traditional cars.",
    "How is artificial intelligence transforming healthcare?",
    "Explain the potential risks and benefits of machine learning in finance.",
    "What role will AI play in education over the next decade?",
    "Describe renewable energy solutions for sustainable development.",
    "How can businesses reduce their carbon footprint effectively?",
    "Explain the role of technology in fighting climate change.",
    "What factors drive successful digital transformation in enterprises?",
    "Analyze the impact of remote work on business productivity.",
    "How do startups compete with established corporations?",
    "Explain quantum computing in simple terms.",
    "What are the key principles of cybersecurity?",
    "How does blockchain technology work and what are its applications?"
  ]

  /** One more prompt run extends the results of the prompts before it. */
  lemma SuiteStep(ratio: Ratio, prompts: seq<string>, outcomes: seq<seq<Outcome>>, rs: seq<TestResult>, r: TestResult)
    requires |outcomes| == |prompts| && |rs| < |prompts|
    requires forall i :: 0 <= i < |outcomes| ==> |outcomes[i]| == |ModelOrder|
    requires forall j :: 0 <= j < |rs| ==> rs[j] == SingleTest(ratio, prompts[j], ModelOrder, outcomes[j])
    requires r == SingleTest(ratio, prompts[|rs|], Chosen(None), outcomes[|rs|])
    ensures forall j :: 0 <= j < |rs| + 1 ==> (rs + [r])[j] == SingleTest(ratio, prompts[j], ModelOrder, outcomes[j])
  {
  }

  lemma AppendAssoc<T>(a: seq<T>, b: seq<T>, x: T)
    ensures a + b + [x] == a + (b + [x])
  {
  }

  /** The models a test runs: the ones given, or the default test models. */
  function Chosen(models: Option<seq<Model>>): seq<Model> {
    match models
    case None => ModelOrder
    case Some(ms) => ms
  }

  class TestPipeline {
    var testResults: seq<TestResult>
    const testPrompts: seq<string> := TestPrompts
    const testModels: seq<Model> := ModelOrder

    ghost predicate Valid()
      reads this
    {
      AllWellFormed(testResults)
    }

    constructor()
      ensures testResults == []
      ensures Valid()
    {
      testResults := [];
    }

    /** The responses loop of run_single_test, with the key order the dict keeps. */
    static method CollectResponses(models: seq<Model>, outcomes: seq<Outcome>)
      returns (responses: map<Model, string>, keys: seq<Model>)
      requires |models| == |outcomes|
      ensures responses == Responses(models, outcomes)
      ensures keys == WithNewKeys([], models)
    {
      responses, keys := map[], [];
      var i := 0;
      while i < |models|
        invariant 0 <= i <= |models|
        invariant responses == Responses(models[..i], outcomes[..i])
        invariant keys == WithNewKeys([], models[..i])
      {
        ResponsesStep(models, outcomes, i);
        KeysStep(models, i);
        if models[i] !in keys {
          keys := keys + [models[i]];
        }
        responses := responses[models[i] := ResponseText(outcomes[i])];
        i := i + 1;
      }
      assert models[..i] == models;
      assert outcomes[..i] == outcomes;
    }

    /** The responses, their metrics and the winner of one test. */
    static method Evaluated(ratio: Ratio, prompt: string, models: seq<Model>, outcomes: seq<Outcome>)
      returns (result: TestResult)
      requires |models| > 0 && |models| == |outcomes|
      ensures result == SingleTest(ratio, prompt, models, outcomes)
    {
      var responses, keys := CollectResponses(models, outcomes);
      var metrics := EvaluateResponses(ratio, prompt, responses);
      EvaluateUnique(ratio, prompt, responses, metrics);
      var best := Winner(metrics, keys);
      result := TestResult(prompt, responses, metrics, keys, best, metrics[best].overallScore);
    }

    /** run_single_test: one more result, appended to testResults and returned. */
    method RunSingleTest(ratio: Ratio, prompt: string, models: Option<seq<Model>>, outcomes: seq<Outcome>)
      returns (result: TestResult)
      requires Valid()
      requires |Chosen(models)| > 0 && |Chosen(models)| == |outcomes|
      modifies this
      ensures Valid()
      ensures result == SingleTest(ratio, prompt, Chosen(models), outcomes)
      ensures testResults == old(testResults) + [result]
    {
      var ms := if models.None? then testModels else models.value;
      assert ms == Chosen(models);
      result := Evaluated(ratio, prompt, ms, outcomes);
      SingleTestWellFormed(ratio, prompt, ms, outcomes);
      AppendWellFormed(testResults, result);
      testResults := testResults + [result];
    }

    /** run_full_test_suite: one result per test prompt, in prompt order, each with the default models. */
    method RunFullTestSuite(ratio: Ratio, outcomes: seq<seq<Outcome>>) returns (results: seq<TestResult>)
      requires Valid()
      requires |outcomes| == |TestPrompts|
      requires forall i :: 0 <= i < |outcomes| ==> |outcomes[i]| == |ModelOrder|
      modifies this
      ensures Valid()
      ensures |results| == |TestPrompts|
      ensures forall i :: 0 <= i < |results| ==> results[i] == SingleTest(ratio, TestPrompts[i], ModelOrder, outcomes[i])
      ensures testResults == old(testResults) + results
    {
      results := RunPrompts(ratio, testPrompts, outcomes);
    }

    /** The loop of run_full_test_suite, over any list of prompts. */
    method RunPrompts(ratio: Ratio, prompts: seq<string>, outcomes: seq<seq<Outcome>>) returns (results: seq<TestResult>)
      requires Valid()
      requires |outcomes| == |prompts|
      requires forall i :: 0 <= i < |outcomes| ==> |outcomes[i]| == |ModelOrder|
      modifies this
      ensures Valid()
      ensures |results| == |prompts|
      ensures forall i :: 0 <= i < |results| ==> results[i] == SingleTest(ratio, prompts[i], ModelOrder, outcomes[i])
      ensures testResults == old(testResults) + results
    {
      results := [];
      var i := 0;
      while i < |prompts|
        invariant 0 <= i <= |prompts|
        invariant Valid()
        invariant |results| == i
        invariant forall j :: 0 <= j < i ==> results[j] == SingleTest(ratio, prompts[j], ModelOrder, outcomes[j])
        invariant testResults == old(testResults) + results
      {
        var result := RunSingleTest(ratio, prompts[i], None, outcomes[i]);
        SuiteStep(ratio, prompts, outcomes, results, result);
        AppendAssoc(old(testResults), results, result);
        results := results + [result];
        i := i + 1;
      }
    }

    /** The body of analyze_results' loop: one result's win, and its scores filed per model and per topic. */
    static method AddResult(wins: map<Model, nat>,
      scores: map<Model, seq<real>>, topics: map<Model, map<Category, seq<real>>>, seen: seq<Model>, r: TestResult)
      returns (wins1: map<Model, nat>,
        scores1: map<Model, seq<real>>, topics1: map<Model, map<Category, seq<real>>>, seen1: seq<Model>)
      requires WellFormed(r) && Distinct(seen)
      ensures wins1 == AddWin(wins, r.bestModel)
      ensures scores1 == AddScores(scores, r, r.keyOrder)
      ensures topics1 == AddTopicScores(topics, r, CategorizeByTopic(r.prompt), r.keyOrder)
      ensures seen1 == WithNewKeys(seen, r.keyOrder)
    {
      wins1 := wins[r.bestModel := Get(wins, r.bestModel, 0) + 1];
      assert wins1 == AddWin(wins, r.bestModel);
      scores1, topics1, seen1 := scores, topics, seen;
      var ks := r.keyOrder;
      var category := CategorizeByTopic(r.prompt);
      var j := 0;
      while j < |ks|
        invariant 0 <= j <= |ks|
        invariant scores1 == AddScores(scores, r, ks[..j])
        invariant topics1 == AddTopicScores(topics, r, category, ks[..j])
        invariant seen1 == WithNewKeys(seen, ks[..j])
      {
        AddStep(scores, topics, seen, r, category, ks, j);
        var m := ks[j];
        var score := r.metrics[m].overallScore;
        if m !in seen1 {
          seen1 := seen1 + [m];
        }
        scores1 := scores1[m := Get(scores1, m, []) + [score]];
        var row := Get(topics1, m, map[]);
        topics1 := topics1[m := row[category := Get(row, category, []) + [score]]];
        j := j + 1;
      }
      assert ks[..j] == ks;
    }

    /** category_scores for one topic: the mean score under it of each test model that has any. */
    static method TopicScoresFor(topics: map<Model, map<Category, seq<real>>>, c: Category)
      returns (scored: seq<Model>, avg: map<Model, real>)
      requires NonEmptyRows(topics)
      ensures scored == ScoredModels(topics, c, |ModelOrder|)
      ensures avg == TopicAverages(topics, c, |ModelOrder|)
    {
      scored, avg := [], map[];
      var j := 0;
      while j < |ModelOrder|
        invariant 0 <= j <= |ModelOrder|
        invariant scored == ScoredModels(topics, c, j)
        invariant avg == TopicAverages(topics, c, j)
      {
        var m := ModelOrder[j];
        if m in topics && c in topics[m] {
          scored := scored + [m];
          avg := avg[m := Mean(topics[m][c])];
        }
        j := j + 1;
      }
    }

    /** The body of analyze_results' loop over the topics: the best model for topic c, if any model has scores under it. */
    static method RecommendTopic(topics: map<Model, map<Category, seq<real>>>, c: Category)
      returns (rec: Option<CategoryRecommendation>)
      requires NonEmptyRows(topics)
      ensures rec == Recommend(topics, c)
    {
      var scored, avg := TopicScoresFor(topics, c);
      if scored == [] {
        return None;
      }
      var best := FirstBest(avg, scored);
      rec := Some(CategoryRecommendation(c, best, avg[best], avg));
    }

    /** The loop of analyze_results over the topics `cs`. */
    static method RecommendTopics(topics: map<Model, map<Category, seq<real>>>, cs: seq<Category>)
      returns (recs: seq<CategoryRecommendation>)
      requires NonEmptyRows(topics)
      ensures recs == Recommendations(topics, cs)
    {
      recs := [];
      var k := 0;
      while k < |cs|
        invariant 0 <= k <= |cs|
        invariant recs == Recommendations(topics, cs[..k])
      {
        RecommendationsPrefixStep(topics, cs, k);
        var rec := RecommendTopic(topics, cs[k]);
        if rec.Some? {
          recs := recs + [rec.value];
        }
        k := k + 1;
      }
      assert cs[..k] == cs;
    }

    /** The loop of analyze_results over the results: wins, scores per model and per topic, and first-seen order. */
    static method Tabulate(rs: seq<TestResult>)
      returns (wins: map<Model, nat>, scores: map<Model, seq<real>>,
               topics: map<Model, map<Category, seq<real>>>, seen: seq<Model>)
      requires AllWellFormed(rs)
      ensures wins == Wins(rs)
      ensures scores == ScoreTable(rs)
      ensures topics == TopicTable(rs)
      ensures seen == SeenOrder(rs)
    {
      wins, scores, topics, seen := map[], map[], map[], [];
      var i := 0;
      while i < |rs|
        invariant 0 <= i <= |rs|
        invariant AllWellFormed(rs[..i])
        invariant wins == Wins(rs[..i])
        invariant scores == ScoreTable(rs[..i])
        invariant topics == TopicTable(rs[..i])
        invariant seen == SeenOrder(rs[..i])
      {
        TablesStep(rs, i);
        wins, scores, topics, seen := AddResult(wins, scores, topics, seen, rs[i]);
        i := i + 1;
      }
      assert rs[..i] == rs;
    }

    /** analyze_results: wins, averages and recommendations over every recorded result. */
    method AnalyzeResults() returns (analysis: Analysis)
      requires Valid()
      ensures analysis == Analyze(testResults)
    {
      if |testResults| == 0 {
        return NoResults;
      }
      var wins, scores, topics, seen := Tabulate(testResults);
      ScoreTableShape(testResults);
      TopicTableShape(testResults);
      var avg := map m | m in scores :: Mean(scores[m]);
      var best := FirstBest(avg, seen);
      var recs := RecommendTopics(topics, CategoryOrder);
      analysis := Report(|testResults|, |testModels|, best, avg[best], wins, avg,
        map m | m in scores :: |scores[m]|, recs);
    }
  }
}
