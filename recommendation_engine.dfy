/**
 * The recommendation engine as an object: the performance table is a field
 * that update_performance_history changes in place, and every other
 * operation computes, with the loops the engine uses, the value its
 * specification function defines.
 */
module Engine {
  import opened Wrappers
  import opened Strings
  import opened Catalog
  import opened Selection
  import opened PromptAnalysis
  import opened PerformanceHistory
  import opened Ranking

  class RecommendationEngine {
    var history: History

    /**
     * Every model keeps its row, so iterating over the table visits the
     * models in ModelOrder, the order in which the seeded table lists them.
     */
    ghost predicate Valid()
      reads this
    {
      forall m :: m in history
    }

    constructor()
      ensures history == DefaultHistory()
      ensures Valid()
    {
      history := DefaultHistory();
      new;
      DefaultHistoryComplete();
    }

    /** The per-category counters of categorize_prompt, filled by the nested word/category loop. */
    static method CountKeywords(words: seq<string>) returns (counts: map<Category, nat>)
      ensures counts == Counts(words)
    {
      AllCategoriesComplete();
      CategoryIndexInverse();
      counts := map c | c in AllCategories :: 0;
      var i := 0;
      while i < |words|
        invariant 0 <= i <= |words|
        invariant forall c :: c in counts
        invariant forall c :: counts[c] == KeywordHits(words[..i], c)
      {
        var k := 0;
        while k < |CategoryOrder|
          invariant 0 <= k <= |CategoryOrder|
          invariant forall c :: c in counts
          invariant forall c :: CategoryIndex(c) < k ==> counts[c] == KeywordHits(words[..i + 1], c)
          invariant forall c :: CategoryIndex(c) >= k ==> counts[c] == KeywordHits(words[..i], c)
        {
          var c := CategoryOrder[k];
          KeywordHitsStep(words, i, c);
          if words[i] in Keywords(c) {
            counts := counts[c := counts[c] + 1];
          }
          k := k + 1;
        }
        i := i + 1;
      }
      assert words[..|words|] == words;
    }

    /** categorize_prompt: the counted category with the most hits, or the fallback. */
    static method CategorizePrompt(prompt: string) returns (category: Category)
      ensures category == Categorize(prompt)
    {
      var counts := CountKeywords(RegexWords(LowerStr(prompt)));
      category := BestCategory(counts);
    }

    /** sum(1 for word in words if word.lower() in terms) */
    static method CountTerms(words: seq<string>, terms: seq<string>) returns (n: nat)
      ensures n == TermCount(words, terms)
    {
      n := 0;
      var i := 0;
      while i < |words|
        invariant 0 <= i <= |words|
        invariant n == TermCount(words[..i], terms)
      {
        assert words[..i + 1][..i] == words[..i];
        if LowerStr(words[i]) in terms {
          n := n + 1;
        }
        i := i + 1;
      }
      assert words[..|words|] == words;
    }

    /** analyze_prompt_complexity: the score accumulated band by band. */
    static method AnalyzePromptComplexity(prompt: string) returns (cx: Complexity)
      ensures cx == ComplexityOf(prompt)
    {
      var words := Words(prompt);
      var sentences := CountChar(prompt, '.') + CountChar(prompt, '!') + CountChar(prompt, '?');
      var score := 0.0;
      if |words| > 20 {
        score := score + 0.3;
      } else if |words| > 10 {
        score := score + 0.2;
      } else {
        score := score + 0.1;
      }
      var questions := CountTerms(words, QuestionWords);
      var technical := CountTerms(words, TechnicalTerms);
      score := score + Min(questions as real * 0.15, 0.4);
      score := score + Min(technical as real * 0.1, 0.3);
      cx := Complexity(
        Min(score, 1.0),
        |words|,
        if sentences > 1 then sentences else 1,
        questions,
        if |words| == 0 then 0.0 else technical as real / |words| as real);
    }

    /** The category_performance entries, one per model with a record, in table order. */
    method CategoryPerformance(category: Category) returns (cs: seq<Candidate>)
      ensures cs == CategoryCandidates(history, category)
    {
      cs := [];
      var k := 0;
      while k < |ModelOrder|
        invariant 0 <= k <= |ModelOrder|
        invariant cs == CandidatesUpTo(history, category, k)
      {
        var m := ModelOrder[k];
        if m in history && category in history[m] {
          cs := cs + [FromRecord(m, history[m][category])];
        }
        k := k + 1;
      }
    }

    /**
     * get_model_recommendation: the boosts are applied to a fresh copy of
     * the category's entries, so the table itself is never changed.
     */
    method GetModelRecommendation(prompt: string, prefs: Preferences) returns (rec: Recommendation)
      ensures rec == Recommend(history, prompt, prefs)
    {
      var category := CategorizePrompt(prompt);
      var cx := AnalyzePromptComplexity(prompt);
      var performance := CategoryPerformance(category);
      performance := ApplyBoosts(performance, prefs, cx);
      var ranked := Ranked(performance);
      if ranked == [] {
        rec := Recommendation(GPT2, 0.5, category, [DistilGPT2, T5Small], cx, None);
      } else {
        var best := ranked[0];
        var profile := Characteristics(best.model);
        rec := Recommendation(best.model, best.confidence, category, Models(ranked[1..MinNat(3, |ranked|)]), cx,
          Some(Details(profile, profile.avgLength, AllScores(performance))));
      }
    }

    /** The preference boosts, then the complexity boost, applied one after another. */
    static method ApplyBoosts(cs: seq<Candidate>, prefs: Preferences, cx: Complexity) returns (adjusted: seq<Candidate>)
      ensures adjusted == Adjusted(cs, prefs, cx)
    {
      adjusted := cs;
      if prefs.preferSpeed {
        adjusted := Boost(adjusted, DistilGPT2, 0.05);
      }
      if prefs.preferDetail {
        adjusted := Boost(adjusted, GPT2, 0.05);
      }
      if prefs.preferStructure {
        adjusted := Boost(adjusted, T5Small, 0.05);
      }
      if cx.score > 0.7 {
        adjusted := Boost(adjusted, GPT2, 0.03);
      } else if cx.score < 0.3 {
        adjusted := Boost(adjusted, DistilGPT2, 0.03);
      }
    }

    /**
     * The best performer, then DistilGPT2 and T5-Small each taken out of the
     * remaining models when it is there and there is room.
     */
    static method PreferredPicks(scores: seq<Candidate>, maxModels: int)
      returns (recommendations: seq<Suggestion>, remaining: seq<Model>)
      requires Ranked(scores) != []
      ensures (recommendations, remaining) == Picks(scores, maxModels)
    {
      var sorted := Ranked(scores);
      recommendations := [BestSuggestion(sorted[0])];
      remaining := Models(sorted[1..]);
      if DistilGPT2 in remaining && |recommendations| < maxModels {
        recommendations := recommendations + [Suggest(scores, DistilGPT2, FastestResponse)];
        remaining := Remove(remaining, DistilGPT2);
      }
      if T5Small in remaining && |recommendations| < maxModels {
        recommendations := recommendations + [Suggest(scores, T5Small, BestStructured)];
        remaining := Remove(remaining, T5Small);
      }
    }

    /** The loop that fills the remaining slots, one alternative at a time. */
    static method FillRemaining(scores: seq<Candidate>, picked: seq<Suggestion>, fill: seq<Model>)
      returns (recommendations: seq<Suggestion>)
      ensures recommendations == picked + Alternatives(scores, fill)
    {
      recommendations := picked;
      var i := 0;
      while i < |fill|
        invariant 0 <= i <= |fill|
        invariant recommendations == picked + Alternatives(scores, fill[..i])
      {
        assert fill[..i + 1] == fill[..i] + [fill[i]];
        AlternativesSnoc(scores, fill[..i], fill[i]);
        recommendations := recommendations + [Suggest(scores, fill[i], AlternativePerspective)];
        i := i + 1;
      }
      assert fill[..|fill|] == fill;
    }

    /**
     * get_multi_model_recommendation: the best performer, then the speed
     * and the structure picks taken out of the remaining models, then the
     * remaining models up to the slice bound.
     */
    method GetMultiModelRecommendation(prompt: string, maxModels: int) returns (multi: MultiRecommendation)
      ensures multi == MultiRecommend(history, prompt, maxModels)
    {
      var category := CategorizePrompt(prompt);
      var cx := AnalyzePromptComplexity(prompt);
      var scores := CategoryPerformance(category);
      var sorted := Ranked(scores);
      var recommendations: seq<Suggestion> := [];
      if sorted != [] {
        var remaining;
        recommendations, remaining := PreferredPicks(scores, maxModels);
        var fill := SliceTo(remaining, maxModels - |recommendations|);
        recommendations := FillRemaining(scores, recommendations, fill);
      }
      multi := MultiRecommendation(recommendations, category, cx);
    }

    /**
     * update_performance_history: the prompt's category entry of the model
     * is folded forward, or created as {score, 1}; nothing else changes.
     */
    method UpdatePerformanceHistory(prompt: string, model: Model, score: real)
      requires Valid()
      modifies this
      ensures Valid()
      ensures history == Updated(old(history), Categorize(prompt), model, score)
    {
      var category := CategorizePrompt(prompt);
      UpdateEntry(category, model, score);
    }

    /** The running-mean step for one (model, category) entry of the table. */
    method UpdateEntry(category: Category, model: Model, score: real)
      modifies this
      ensures history == Updated(old(history), category, model, score)
    {
      var row := if model in history then history[model] else map[];
      if category !in row {
        row := row[category := Record(score, 1)];
      } else {
        var current := row[category];
        var total := current.avgScore * current.sampleSize as real + score;
        var n := current.sampleSize + 1;
        var avg := total / n as real;
        assert Record(avg, n) == Fold(current, score) by {
          FoldUnfold(current, score);
        }
        row := row[category := Record(avg, n)];
      }
      history := history[model := row];
    }
  }
}
