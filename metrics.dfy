/**
 * The heuristic response scorer (evaluation/metrics.py): similarity to the
 * prompt, word count, a weighted quality score, and the per-response
 * evaluation table.
 */
module Metrics {
  import opened Strings
  import opened Catalog

  /**
   * The ratio of difflib.SequenceMatcher is not part of this model: it is a
   * parameter, known only to take values in [0, 1].
   */
  type Ratio = f: (string, string) -> real | forall a, b :: 0.0 <= f(a, b) <= 1.0
    witness (a: string, b: string) => 0.0

  /** calculate_similarity_score: the ratio of the two lower-cased texts. */
  function Similarity(ratio: Ratio, text1: string, text2: string): (r: real)
    ensures 0.0 <= r <= 1.0
  {
    ratio(LowerStr(text1), LowerStr(text2))
  }

  /** Similarity depends on the texts only through their lower-cased forms. */
  lemma SimilarityIgnoresCase(ratio: Ratio, a: string, b: string)
    ensures Similarity(ratio, a, b) == Similarity(ratio, LowerStr(a), LowerStr(b))
  {
    LowerStrIdempotent(a);
    LowerStrIdempotent(b);
  }

  /** calculate_response_length: the number of whitespace-separated tokens. */
  function ResponseLength(response: string): (n: nat)
    ensures n == 0 <==> forall i :: 0 <= i < |response| ==> IsSpace(response[i])
  {
    WordsEmptyIff(response);
    |Words(response)|
  }

  /** set(words) */
  function WordSet(ws: seq<string>): set<string> {
    set w | w in ws
  }

  lemma {:induction false} WordSetSize(ws: seq<string>)
    ensures |WordSet(ws)| <= |ws|
    ensures |ws| > 0 ==> |WordSet(ws)| >= 1
  {
    if ws != [] {
      var init := ws[..|ws| - 1];
      WordSetSize(init);
      assert ws == init + [ws[|ws| - 1]];
      assert WordSet(ws) == WordSet(init) + {ws[|ws| - 1]};
    }
  }

  /** min(n / 100, 1.0): grows with the word count and saturates at 100 words. */
  function LengthScore(n: nat): (r: real)
    ensures 0.0 <= r <= 1.0
    ensures r == 1.0 <==> n >= 100
  {
    if (n as real) / 100.0 < 1.0 then (n as real) / 100.0 else 1.0
  }

  /** 1.0 when the stripped response ends in '.', '!' or '?', 0.7 otherwise. */
  function CompletenessScore(response: string): (r: real)
    ensures r == 1.0 || r == 0.7
    ensures r == 1.0 <==> EndsWithTerminal(response)
  {
    if EndsWithTerminal(response) then 1.0 else 0.7
  }

  /** Distinct words over words, and 0 when there are no words. */
  function DiversityScore(ws: seq<string>): (r: real)
    ensures 0.0 <= r <= 1.0
    ensures ws == [] ==> r == 0.0
    ensures ws != [] ==> r * (|ws| as real) == |WordSet(ws)| as real
  {
    WordSetSize(ws);
    if ws == [] then 0.0 else (|WordSet(ws)| as real) / (if |ws| > 1 then |ws| else 1) as real
  }

  /**
   * calculate_response_quality: 0.4 * length + 0.3 * completeness
   * + 0.3 * diversity. Every sub-score is at most 1 and the weights sum to
   * 1, and completeness is never below 0.7, so the score lies in [0.21, 1].
   */
  function Quality(response: string): (q: real)
    ensures 0.21 <= q <= 1.0
  {
    var ws := Words(response);
    LengthScore(|ws|) * 0.4 + CompletenessScore(response) * 0.3 + DiversityScore(ws) * 0.3
  }

  /** With word count and ending fixed, more distinct words never lower quality. */
  lemma QualityMonotoneInDistinctWords(a: string, b: string)
    requires |Words(a)| == |Words(b)|
    requires EndsWithTerminal(a) == EndsWithTerminal(b)
    requires |WordSet(Words(a))| <= |WordSet(Words(b))|
    ensures Quality(a) <= Quality(b)
  {
    DiversityMonotone(Words(a), Words(b));
  }

  lemma DiversityMonotone(wa: seq<string>, wb: seq<string>)
    requires |wa| == |wb|
    requires |WordSet(wa)| <= |WordSet(wb)|
    ensures DiversityScore(wa) <= DiversityScore(wb)
  {
    if wa != [] {
      var n := |wa| as real;
      var da, db := DiversityScore(wa), DiversityScore(wb);
      assert da * n <= db * n;
    }
  }

  /** A blank response scores only its 0.7 completeness share. */
  lemma BlankResponseQuality(response: string)
    requires forall i :: 0 <= i < |response| ==> IsSpace(response[i])
    ensures Quality(response) == 0.21
  {
    WordsEmptyIff(response);
    assert Strip(response) == [];
  }

  datatype ResponseMetrics = ResponseMetrics(
    similarityScore: real,
    qualityScore: real,
    responseLength: nat,
    overallScore: real)

  /** The entry evaluate_responses computes for one response. */
  function Score(ratio: Ratio, prompt: string, response: string): (m: ResponseMetrics)
    ensures 0.147 <= m.overallScore <= 1.0
    ensures m.similarityScore == Similarity(ratio, prompt, response)
    ensures m.qualityScore == Quality(response)
    ensures m.responseLength == ResponseLength(response)
  {
    var similarity := Similarity(ratio, prompt, response);
    var quality := Quality(response);
    ResponseMetrics(similarity, quality, ResponseLength(response), similarity * 0.3 + quality * 0.7)
  }

  /**
   * evaluate_responses: one entry per key of `responses`, each computed from
   * the prompt and that key's response alone.
   */
  function Evaluate(ratio: Ratio, prompt: string, responses: map<Model, string>): (r: map<Model, ResponseMetrics>)
    ensures r.Keys == responses.Keys
    ensures forall m :: m in r ==> r[m] == Score(ratio, prompt, responses[m])
  {
    map m | m in responses :: Score(ratio, prompt, responses[m])
  }

  /** Changing one response leaves every other entry of the table as it was. */
  lemma EvaluateEntryIsLocal(ratio: Ratio, prompt: string, r1: map<Model, string>, r2: map<Model, string>, m: Model)
    requires m in r1 && m in r2 && r1[m] == r2[m]
    ensures Evaluate(ratio, prompt, r1)[m] == Evaluate(ratio, prompt, r2)[m]
  {
  }

  /** evaluate_responses, filling the table one response at a time. */
  method EvaluateResponses(ratio: Ratio, prompt: string, responses: map<Model, string>)
    returns (metrics: map<Model, ResponseMetrics>)
    ensures metrics.Keys == responses.Keys
    ensures forall m :: m in metrics ==> metrics[m] == Score(ratio, prompt, responses[m])
  {
    metrics := map[];
    var todo := responses.Keys;
    while todo != {}
      invariant todo <= responses.Keys
      invariant metrics.Keys == responses.Keys - todo
      invariant forall m :: m in metrics ==> metrics[m] == Score(ratio, prompt, responses[m])
      decreases todo
    {
      var model :| model in todo;
      var response := responses[model];
      var similarity := Similarity(ratio, prompt, response);
      var length := ResponseLength(response);
      var quality := Quality(response);
      var entry := ResponseMetrics(similarity, quality, length, similarity * 0.3 + quality * 0.7);
      assert entry == Score(ratio, prompt, response);
      metrics := metrics[model := entry];
      todo := todo - {model};
    }
  }

  /** A table with the keys of the responses and each entry scored from its own response is the evaluation. */
  lemma EvaluateUnique(ratio: Ratio, prompt: string, responses: map<Model, string>, metrics: map<Model, ResponseMetrics>)
    requires metrics.Keys == responses.Keys
    requires forall m :: m in metrics ==> metrics[m] == Score(ratio, prompt, responses[m])
    ensures metrics == Evaluate(ratio, prompt, responses)
  {
    var r := Evaluate(ratio, prompt, responses);
    forall m | m in metrics
      ensures m in r && metrics[m] == r[m]
    {
      assert r[m] == Score(ratio, prompt, responses[m]);
    }
    assert metrics.Keys == r.Keys;
  }
}
