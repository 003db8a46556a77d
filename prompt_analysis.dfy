/**
 * The prompt analyzer of the recommendation engine: the keyword-counting
 * topic classifier and the complexity estimator, as specification
 * functions. The engine's methods compute the same values with the loops
 * the source uses.
 */
module PromptAnalysis {
  import opened Strings
  import opened Catalog
  import opened Selection

  /** The keyword list of each category, in the source's order. */
  function Keywords(c: Category): seq<string> {
    match c
    case ElectricVehicles =>
      ["electric", "ev", "vehicle", "automotive", "car", "battery", "charging", "tesla", "hybrid"]
    case AITechnology =>
      ["ai", "artificial", "intelligence", "machine", "learning", "neural", "algorithm", "data", "tech", "software"]
    case ClimateEnvironment =>
      ["climate", "environment", "renewable", "sustainability", "carbon", "emission", "green", "energy", "solar", "wind"]
    case BusinessEconomics =>
      ["business", "economy", "market", "finance", "startup", "enterprise", "revenue", "profit", "strategy", "investment"]
    case GeneralTechnical =>
      ["technical", "system", "process", "method", "principle", "concept", "theory", "analysis", "research"]
  }

  /** Every token that is in a category's keyword list adds one to its count. */
  function KeywordHits(ws: seq<string>, c: Category): nat {
    if ws == [] then 0
    else KeywordHits(ws[..|ws| - 1], c) + (if ws[|ws| - 1] in Keywords(c) then 1 else 0)
  }

  /** Counting is additive over concatenated token lists. */
  lemma {:induction false} KeywordHitsConcat(a: seq<string>, b: seq<string>, c: Category)
    ensures KeywordHits(a + b, c) == KeywordHits(a, c) + KeywordHits(b, c)
    decreases |b|
  {
    if b != [] {
      var b' := b[..|b| - 1];
      assert (a + b)[..|a + b| - 1] == a + b';
      KeywordHitsConcat(a, b', c);
    } else {
      assert a + b == a;
    }
  }

  /** One more token adds one to each category whose list holds it. */
  lemma KeywordHitsStep(ws: seq<string>, i: nat, c: Category)
    requires i < |ws|
    ensures KeywordHits(ws[..i + 1], c) == KeywordHits(ws[..i], c) + if ws[i] in Keywords(c) then 1 else 0
  {
    assert ws[..i + 1][..i] == ws[..i];
  }

  /** A token list with no keyword of a category scores zero for it. */
  lemma {:induction false} KeywordHitsZero(ws: seq<string>, c: Category)
    requires forall k :: 0 <= k < |ws| ==> ws[k] !in Keywords(c)
    ensures KeywordHits(ws, c) == 0
  {
    if ws != [] {
      KeywordHitsZero(ws[..|ws| - 1], c);
    }
  }

  /** The per-category counters after the counting loop. */
  function Counts(ws: seq<string>): (counts: map<Category, nat>)
    ensures forall c :: c in counts
    ensures forall c :: counts[c] == KeywordHits(ws, c)
  {
    AllCategoriesComplete();
    map c | c in AllCategories :: KeywordHits(ws, c)
  }

  /** The counters listed in category declaration order. */
  function CountVector(counts: map<Category, nat>): (v: seq<real>)
    requires forall c :: c in counts
    ensures |v| == |CategoryOrder|
    ensures forall k :: 0 <= k < |v| ==> v[k] == counts[CategoryOrder[k]] as real
  {
    seq(|CategoryOrder|, k requires 0 <= k < |CategoryOrder| => counts[CategoryOrder[k]] as real)
  }

  /**
   * max(categories, key=score), then the fallback: the first category with
   * the highest count, or General Technical when that count is zero.
   */
  function BestCategory(counts: map<Category, nat>): Category
    requires forall c :: c in counts
  {
    var best := CategoryOrder[ArgMax(CountVector(counts))];
    if counts[best] == 0 then GeneralTechnical else best
  }

  /** categorize_prompt */
  function Categorize(prompt: string): Category {
    BestCategory(Counts(RegexWords(LowerStr(prompt))))
  }

  /**
   * The chosen category has the highest count; every category declared
   * before it has a strictly lower count; and the fallback is chosen
   * exactly when no category has any hit.
   */
  lemma BestCategoryIsFirstMax(counts: map<Category, nat>)
    requires forall c :: c in counts
    ensures var r := BestCategory(counts);
      && (forall c :: counts[c] <= counts[r])
      && (counts[r] > 0 ==> forall c :: CategoryIndex(c) < CategoryIndex(r) ==> counts[c] < counts[r])
      && (counts[r] == 0 <==> forall c :: counts[c] == 0)
      && (counts[r] == 0 ==> r == GeneralTechnical)
  {
    var v := CountVector(counts);
    var i := ArgMax(v);
    forall c ensures counts[c] <= counts[CategoryOrder[i]] {
      assert v[CategoryIndex(c)] <= v[i];
    }
    forall c | CategoryIndex(c) < i ensures counts[c] < counts[CategoryOrder[i]] {
      assert v[CategoryIndex(c)] < v[i];
    }
    assert CategoryIndex(CategoryOrder[i]) == i;
  }

  /** A prompt without any keyword token is General Technical. */
  lemma CategorizeWithoutKeywords(prompt: string)
    requires var ws := RegexWords(LowerStr(prompt));
      forall k, c :: 0 <= k < |ws| ==> ws[k] !in Keywords(c)
    ensures Categorize(prompt) == GeneralTechnical
  {
    var ws := RegexWords(LowerStr(prompt));
    forall c ensures KeywordHits(ws, c) == 0 {
      KeywordHitsZero(ws, c);
    }
    BestCategoryIsFirstMax(Counts(ws));
  }

  /** Question words and technical terms of the complexity estimator. */
  const QuestionWords: seq<string> :=
    ["how", "why", "what", "when", "where", "explain", "analyze", "compare", "evaluate"]
  const TechnicalTerms: seq<string> :=
    ["system", "process", "methodology", "framework", "implementation", "optimization"]

  /** sum(1 for word in words if word.lower() in terms) */
  function TermCount(ws: seq<string>, terms: seq<string>): (n: nat)
    ensures n <= |ws|
  {
    if ws == [] then 0
    else TermCount(ws[..|ws| - 1], terms) + (if LowerStr(ws[|ws| - 1]) in terms then 1 else 0)
  }

  /** Every listed term is made of lower-case ASCII letters only. */
  predicate AllLetters(w: string) {
    forall i :: 0 <= i < |w| ==> IsAsciiLetter(w[i])
  }

  /**
   * Terms match only whole whitespace tokens: a token carrying a character
   * that is not a letter ("how?", "system,") is never counted.
   */
  lemma PunctuatedTokenNotCounted(w: string)
    requires !AllLetters(w)
    ensures LowerStr(w) !in QuestionWords && LowerStr(w) !in TechnicalTerms
  {
    var i :| 0 <= i < |w| && !IsAsciiLetter(w[i]);
    assert !IsAsciiLetter(LowerStr(w)[i]);
    assert forall k :: 0 <= k < |QuestionWords| ==> AllLetters(QuestionWords[k]);
    assert forall k :: 0 <= k < |TechnicalTerms| ==> AllLetters(TechnicalTerms[k]);
  }

  function Min(x: real, y: real): real {
    if x < y then x else y
  }

  /** 0.3 above 20 words, 0.2 above 10 words, 0.1 otherwise. */
  function LengthBand(n: nat): real {
    if n > 20 then 0.3 else if n > 10 then 0.2 else 0.1
  }

  datatype Complexity = Complexity(
    score: real,
    wordCount: nat,
    sentenceCount: nat,
    questionCount: nat,
    technicalDensity: real)

  /** prompt.count('.') + prompt.count('!') + prompt.count('?') */
  function Terminators(prompt: string): nat {
    CountChar(prompt, '.') + CountChar(prompt, '!') + CountChar(prompt, '?')
  }

  /** The complexity profile built from the counts of one prompt. */
  function ComplexityFrom(wordCount: nat, sentences: nat, questions: nat, technical: nat): Complexity {
    var score := LengthBand(wordCount)
      + Min(questions as real * 0.15, 0.4)
      + Min(technical as real * 0.1, 0.3);
    Complexity(
      Min(score, 1.0),
      wordCount,
      if sentences > 1 then sentences else 1,
      questions,
      if wordCount == 0 then 0.0 else technical as real / wordCount as real)
  }

  /** analyze_prompt_complexity */
  function ComplexityOf(prompt: string): Complexity {
    var ws := Words(prompt);
    ComplexityFrom(|ws|, Terminators(prompt), TermCount(ws, QuestionWords), TermCount(ws, TechnicalTerms))
  }

  /**
   * The score lies in [0.1, 1.0]: the length band gives at least 0.1 and the
   * capped question and technical shares add at most 0.4 and 0.3. There is
   * always at least one sentence, and the technical density is a fraction
   * that is 0 for a prompt without words.
   */
  lemma ComplexityBounds(prompt: string)
    ensures var cx := ComplexityOf(prompt);
      && 0.1 <= cx.score <= 1.0
      && cx.sentenceCount >= 1
      && cx.wordCount == |Words(prompt)|
      && (cx.wordCount == 0 ==> cx.technicalDensity == 0.0)
      && 0.0 <= cx.technicalDensity <= 1.0
  {
    var ws := Words(prompt);
    CountBounds(|ws|, Terminators(prompt), TermCount(ws, QuestionWords), TermCount(ws, TechnicalTerms));
  }

  /** The same bounds for any counts with no more technical terms than words. */
  lemma CountBounds(wordCount: nat, sentences: nat, questions: nat, technical: nat)
    requires technical <= wordCount
    ensures var cx := ComplexityFrom(wordCount, sentences, questions, technical);
      && 0.1 <= cx.score <= 1.0
      && cx.sentenceCount >= 1
      && cx.wordCount == wordCount
      && (wordCount == 0 ==> cx.technicalDensity == 0.0)
      && 0.0 <= cx.technicalDensity <= 1.0
  {
    if wordCount != 0 {
      var n := wordCount as real;
      var d := technical as real / n;
      assert d * n == technical as real;
      QuotientUnit(d, n, technical as real);
    }
  }

  /** The cap at 1.0 never bites: the band and the two capped shares add up to at most 1.0. */
  lemma ComplexityShares(prompt: string)
    ensures var ws := Words(prompt);
      var q := TermCount(ws, QuestionWords);
      var t := TermCount(ws, TechnicalTerms);
      ComplexityOf(prompt).score
        == LengthBand(|ws|) + Min(q as real * 0.15, 0.4) + Min(t as real * 0.1, 0.3)
  {
  }
}
