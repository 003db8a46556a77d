# Model Evaluation AI: recommender, text metrics and test pipeline in Dafny

This project models the deterministic core of the Model_Evaluation_AI
repository and proves properties of it. The core has three parts:

- **The recommendation engine.** It puts a prompt into one of five
  categories by counting keyword tokens, and estimates how complex the
  prompt is. It ranks the four generation backends (GPT2, DistilGPT2,
  T5-Small, BERT-Base) by their per-category history, after fixed
  preference and complexity boosts. It also picks a diversified list of
  models for comparison, and keeps a running mean of every
  (model, category) score.
- **The text metrics.** Each response gets a word count, a quality score
  built from length, ending punctuation and lexical diversity, and an
  overall score that mixes in a similarity ratio.
- **The test pipeline.** It runs every test prompt against the models and
  records a result with the winner. The analysis counts wins, averages
  scores per model and per topic, and names the best model overall and
  per topic. Its own substring-based topic classifier sorts the prompts.

The modules follow the source:

- `Catalog` holds the closed sets of models and categories, their order,
  and the static model profiles.
- `Strings` holds Python's `split`, `strip`, `lower`, `count`, substring
  and `\b\w+\b` matching on `seq<char>`.
- `Selection` holds Python's `max(key=...)`, slicing, `list.remove`,
  `sum` and mean.
- `PromptAnalysis` holds the keyword classifier and the complexity
  estimator.
- `PerformanceHistory` holds the table and its running-mean update.
- `Ranking` holds the boosts, the stable descending sort, the
  single-model recommendation and the multi-model list.
- `Engine` holds the `RecommendationEngine` class. Its `history` field is
  changed in place by `UpdatePerformanceHistory`. Its other methods run
  the engine's loops and are proved equal to the specification functions
  above.
- `Metrics` holds the evaluation metrics.
- `Pipeline` holds the `TestPipeline` class, whose `testResults` field
  grows by one result per test. It also holds the analysis, computed both
  by the methods' loops and by reference functions over the list of
  results.

The engine's classifier and the pipeline's classifier are different
functions, and the model keeps them apart. The engine counts whole
`\w+` tokens. The pipeline looks for substrings, in a fixed topic order.
The lemmas `ExplainDisagrees` and `CarbonDisagrees` show two single-word
prompts they file differently:

- "ai" occurs inside "explain";
- "car" occurs inside "carbon".

## Model

| member | source | states |
|---|---|---|
| Catalog.CategoryIndex | tests/recommendation_engine.py:89-110 | every category has a position in the declaration order of the keyword table |
| Catalog.CategoryOrderIncreasing | tests/test_pipeline.py:174 | the topic loop of analyze_results visits the topics in strictly increasing declaration order |
| Catalog.ModelIndex | tests/test_pipeline.py:64 | every model has a position in the test-model order, which is also the order of the seeded table |
| Selection.ArgMax | tests/recommendation_engine.py:120 | Python's max with a key returns a position with the highest value, and every earlier position holds a strictly lower value |
| Selection.ArgMaxUnique | tests/recommendation_engine.py:120 | those two properties determine the position max returns |
| Selection.SliceTo | tests/recommendation_engine.py:304 | xs[:k] is a prefix; its length is min(k, len) for k >= 0, and len + k (at least 0) for a negative k |
| Selection.FirstIndex | tests/recommendation_engine.py:291 | the position list.remove searches for: it holds x and no earlier position does |
| Selection.Remove | tests/recommendation_engine.py:291 | list.remove drops the first occurrence of x and keeps every other element in its order: the result is xs[..i] + xs[i+1..] at the first index i of x, so the length falls by one and the multiset loses one x |
| Selection.RemoveKeeps | tests/recommendation_engine.py:301 | list.remove(x) keeps every element other than x, so T5-Small survives the removal of DistilGPT2 |
| Selection.Without | tests/recommendation_engine.py:281-301 | the models of a list that are not among the chosen ones, in the list's order: exactly those, and nothing else |
| Selection.RemoveWithout | tests/recommendation_engine.py:291-301 | on a repeat-free list, removing a model from the not-yet-chosen ones leaves the models outside the chosen ones plus that model, in order |
| Selection.MoveKeepsDistinct | tests/recommendation_engine.py:284-301 | moving a remaining model onto the chosen list keeps chosen plus remaining free of repeats |
| Selection.MeanBounds | tests/test_pipeline.py:164-167 | sum(scores) / len(scores) of values in [lo, hi] lies in [lo, hi] |
| Strings.Lower | tests/recommendation_engine.py:86 | lower() keeps letters as letters, leaves no upper-case ASCII letter and keeps every character that is not an upper-case ASCII letter |
| Strings.LowerStr | tests/recommendation_engine.py:86 | lower() keeps the length and lowers character by character |
| Strings.LowerStrIdempotent | evaluation/metrics.py:11 | lowering twice is lowering once |
| Strings.Tokens | evaluation/metrics.py:15 | split() and findall yield non-empty tokens that contain no separator (their place in the text is fixed by TokensSplit and TokensUnique) |
| Strings.TokensSplit | evaluation/metrics.py:15 | the text is its separator gaps and its tokens woven back together: tokens are non-empty runs without separators, gaps hold only separators, and the gaps between two tokens are non-empty |
| Strings.TokensUnique | tests/recommendation_engine.py:113 | any such decomposition of the text is exactly its tokens and gaps, so split() and findall return the maximal runs of the text, left to right |
| Strings.WordsEmptyIff | evaluation/metrics.py:15 | split() yields no word exactly when the text is all whitespace |
| Strings.StripRight | evaluation/metrics.py:25 | strip() removes a trailing run of whitespace and keeps a non-space last character |
| Strings.ContainsAt | tests/test_pipeline.py:212 | `w in s` holds when w sits at some offset of s |
| Strings.NotContains | tests/test_pipeline.py:212 | `w in s` fails when w sits at no offset of s |
| Strings.SingleRun | tests/recommendation_engine.py:113 | a text made only of word characters is exactly one `\b\w+\b` match |
| PromptAnalysis.KeywordHitsConcat | tests/recommendation_engine.py:114-117 | the keyword count of a token list is additive over concatenation |
| PromptAnalysis.KeywordHitsStep | tests/recommendation_engine.py:114-117 | each token adds one to every category whose list holds it, and nothing to the others |
| PromptAnalysis.KeywordHitsZero | tests/recommendation_engine.py:114-117 | a token list with no keyword of a category counts zero for it |
| PromptAnalysis.Counts | tests/recommendation_engine.py:113-117 | every category has a counter, equal to the number of its keyword tokens |
| PromptAnalysis.CountVector | tests/recommendation_engine.py:120 | the counters listed in category declaration order |
| PromptAnalysis.BestCategoryIsFirstMax | tests/recommendation_engine.py:120-124 | the chosen category has the highest count and every earlier-declared one counts strictly less; General Technical is returned when every count is zero, and the top count is zero exactly then |
| PromptAnalysis.CategorizeWithoutKeywords | tests/recommendation_engine.py:113-124 | a prompt whose lower-cased `\w+` tokens hold no keyword is General Technical |
| PromptAnalysis.TermCount | tests/recommendation_engine.py:146 | the question or technical count is at most the number of words |
| PromptAnalysis.PunctuatedTokenNotCounted | tests/recommendation_engine.py:145-152 | a whitespace token with a character that is not a letter ("how?") is neither a question word nor a technical term |
| PromptAnalysis.ComplexityBounds | tests/recommendation_engine.py:128-160 | complexity_score lies in [0.1, 1.0], sentence_count >= 1, word_count is the number of words, and technical_density lies in [0, 1] and is 0 without words |
| PromptAnalysis.CountBounds | tests/recommendation_engine.py:134-159 | the same bounds for any counts with no more technical terms than words |
| PromptAnalysis.ComplexityShares | tests/recommendation_engine.py:147-155 | the cap at 1.0 never applies: band plus capped question share plus capped technical share is the score |
| PerformanceHistory.Row | tests/recommendation_engine.py:22-49 | each seeded row has a record for every category |
| PerformanceHistory.DefaultHistoryComplete | tests/recommendation_engine.py:21-50 | the seeded table has every model, and every model has every category |
| PerformanceHistory.Fold | tests/recommendation_engine.py:329-333 | the running-mean step adds one sample and adds exactly the new score to avg * n |
| PerformanceHistory.FoldUnfold | tests/recommendation_engine.py:331-333 | the new record is ((avg * n + score) / (n + 1), n + 1) |
| PerformanceHistory.Updated | tests/recommendation_engine.py:319-338 | only the (model, category) entry changes: it is folded forward, or created as {score, 1}; the model and category are added as keys and every other entry is kept |
| PerformanceHistory.FoldInUnitRange | tests/recommendation_engine.py:331-333 | folding a score in [0, 1] into an average in [0, 1] keeps the average in [0, 1] |
| PerformanceHistory.UpdatedInUnitRange | tests/recommendation_engine.py:319-338 | an update with a score in [0, 1] keeps every average of the table in [0, 1] |
| PerformanceHistory.UpdatedAllExisting | tests/recommendation_engine.py:329-338 | k updates of an existing entry add k samples and add the sum of the scores to avg * n |
| PerformanceHistory.UpdatedAllFresh | tests/recommendation_engine.py:326-338 | k updates of an absent entry leave k samples whose total is the sum of the scores |
| PerformanceHistory.FirstScore | tests/recommendation_engine.py:326-327 | the first update of an absent entry creates {score, 1} |
| PerformanceHistory.StepTotal | tests/recommendation_engine.py:329-338 | each further update adds one sample and its own score to the total |
| PerformanceHistory.RunningMeanIsMean | tests/recommendation_engine.py:319-338 | the running mean of the scores of a new entry is their arithmetic mean, over as many samples as scores |
| PerformanceHistory.ThreePerfectScores | tests/recommendation_engine.py:319-338 | three scores of 1.0 for a new entry leave {1.0, 3} |
| Ranking.Confidence | tests/recommendation_engine.py:176 | min(n / 10, 1.0) lies in [0, 1] and is 1 exactly from 10 samples on |
| Ranking.CandidatesUpToSpec | tests/recommendation_engine.py:171-181 | the candidates of the first k models are in table order, each read off its own record |
| Ranking.CandidatesUpToComplete | tests/recommendation_engine.py:172-173 | every one of the first k models with a record for the category is a candidate |
| Ranking.CategoryCandidatesSpec | tests/recommendation_engine.py:170-181 | category_performance holds exactly the models with a record for the category, in table order, each with its average, sample size and confidence |
| Ranking.AdjustedScores | tests/recommendation_engine.py:183-209 | the boosts add to each entry exactly its bonus (+0.05 per preference that names it; +0.03 for GPT2 above 0.7 or DistilGPT2 below 0.3, nobody in between) and change nothing else |
| Ranking.Ranked | tests/recommendation_engine.py:212-216 | the ranking has as many entries as it was given |
| Ranking.RankedPermutation | tests/recommendation_engine.py:212-216 | the ranking is a permutation of the entries |
| Ranking.HeadPrecedes | tests/recommendation_engine.py:212-216 | the first highest entry precedes every other one: a higher score, or an equal score and an earlier model |
| Ranking.RankedOrder | tests/recommendation_engine.py:212-216 | on entries in table order the ranking is sorted by descending score, ties keep table order, and no model appears twice |
| Ranking.ScoreOrAt | tests/recommendation_engine.py:288 | dict.get on a model that has an entry returns that entry's score |
| Ranking.AdjustedFacts | tests/recommendation_engine.py:171-209 | the boosted entries stay in table order, cover exactly the models with a record, and carry their adjusted scores and confidences |
| Ranking.RankedCandidates | tests/recommendation_engine.py:171-216 | the ranked list holds each model with a record once, with its adjusted score and confidence, each ranked above the ones after it |
| Ranking.RecommendFallback | tests/recommendation_engine.py:218-227 | with no record for the category the answer is exactly GPT2, confidence 0.5, alternatives [DistilGPT2, T5-Small]; details are missing exactly then |
| Ranking.HeadOfRanking | tests/recommendation_engine.py:230 | the head of the ranking is ranked above every other model with a record |
| Ranking.RunnersUpPositions | tests/recommendation_engine.py:231 | the alternatives are the entries at positions 1 and 2 that exist, and every other entry lies past them |
| Ranking.RunnersUpOfRanking | tests/recommendation_engine.py:231 | the alternatives never hold the winner, keep ranked order, and are ranked above every model left out |
| Ranking.RecommendWinner | tests/recommendation_engine.py:162-251 | with some record, the winner has the highest adjusted score (ties to the earlier model); its confidence is min(n / 10, 1) of its record; the alternatives are the next at most two ranked models, never the winner; the details hold its profile, expected length and every adjusted score |
| Ranking.RecommendTop | tests/recommendation_engine.py:212-230 | the recommended model has a record and is ranked above every other model with one |
| Ranking.SeededElectricVehicles | tests/recommendation_engine.py:22-49 | the seeded Electric Vehicles scores are 0.785, 0.720, 0.698 and 0.665 |
| Ranking.ElectricVehiclesGoToGPT2 | tests/recommendation_engine.py:184-230 | without preferences, GPT2 wins Electric Vehicles on those scores at any complexity |
| Ranking.SeededElectricVehiclesGoToGPT2 | tests/recommendation_engine.py:162-230 | the same on the seeded table |
| Ranking.SpeedPreferenceOvertakes | tests/recommendation_engine.py:186-209 | a speed preference on a prompt of complexity below 0.3 lifts DistilGPT2 to 0.800, past GPT2 |
| Ranking.SeededSpeedPreferenceOvertakes | tests/recommendation_engine.py:162-230 | the same on the seeded table |
| Ranking.Alternatives | tests/recommendation_engine.py:304-310 | the fill entries name exactly the given models, in order |
| Ranking.AlternativesSnoc | tests/recommendation_engine.py:304-310 | each loop pass appends one "alternative perspective" entry |
| Ranking.RawRanking | tests/recommendation_engine.py:259-265 | the multi-model list ranks by the raw averages: no boost applies |
| Ranking.SuggestReadOff | tests/recommendation_engine.py:288 | model_scores.get(m, 0.7) never falls back to 0.7 for a model with a record |
| Ranking.PickIfRoomShape | tests/recommendation_engine.py:284-301 | a conditional pick moves the model from remaining to the list when it is there and there is room, and otherwise changes nothing; no repeats, and the list stays within max_models |
| Ranking.RemoveKeepsRecords | tests/recommendation_engine.py:291 | every model left after remove had a record |
| Ranking.PickIfRoomReadOff | tests/recommendation_engine.py:284-301 | a pick takes only models with a record, each with its own average and profile |
| Ranking.SortedModels | tests/recommendation_engine.py:259-265 | the sorted models name each model with a record once; the first has the highest average, ties to the earlier model |
| Ranking.SortedModelsShape | tests/recommendation_engine.py:259-265 | the sorted model list is non-empty, names each model that has a record exactly once, and starts with the head of the ranking |
| Ranking.MultiFirstIsBest | tests/recommendation_engine.py:270-278 | the first entry is the best performer with its raw average as its expected score |
| Ranking.PicksFacts | tests/recommendation_engine.py:270-301 | the picks begin with the best performer, never repeat a model, take only models with a record, and stay within max_models when it is at least 1 |
| Ranking.TwoPicksShape | tests/recommendation_engine.py:283-301 | the speed and structure picks keep the best performer first, repeat-free and bounded |
| Ranking.TwoPicksReadOff | tests/recommendation_engine.py:283-301 | the speed and structure picks take only models with a record, each with its own average |
| Ranking.MultiEmpty | tests/recommendation_engine.py:270 | with no record for the category the list is empty |
| Ranking.PickIfRoomRest | tests/recommendation_engine.py:284-301 | one conditional pick keeps the remaining models equal to the ranked models minus the chosen ones, in ranked order, and moves at most one model |
| Ranking.PicksRest | tests/recommendation_engine.py:281-301 | after the two picks, remaining_models is the ranked models after the best performer minus the picked ones, in ranked order, and picks plus remaining number the candidates |
| Ranking.MultiFill | tests/recommendation_engine.py:303-310 | for max_models >= 1 the entries after the picks are Alternatives of the leading remaining models, as many as there is room for, and the list has min(max_models, number of candidates) entries |
| Ranking.FillKeeps | tests/recommendation_engine.py:303-310 | filling the remaining slots keeps the list repeat-free, read off the table and within max_models |
| Ranking.MultiDistinctAndBounded | tests/recommendation_engine.py:253-317 | the list never names a model twice, names only models with a record with their own averages, and has at most max_models entries when max_models >= 1 |
| Ranking.PicksUnfold | tests/recommendation_engine.py:270-301 | the picks are the best performer, then the speed pick, then the structure pick, over the other models with a record |
| Ranking.TwoPicks | tests/recommendation_engine.py:283-301 | DistilGPT2 follows the first entry when it remains and there is room, and T5-Small follows them when it remains and there is room |
| Ranking.PicksPreferred | tests/recommendation_engine.py:283-301 | the same, stated on the table: a record, not the best performer, and room |
| Ranking.MultiPreferred | tests/recommendation_engine.py:283-301 | DistilGPT2 and then T5-Small come right after the best performer, each when it has a record, is not the best performer, and there is room for it |
| Ranking.MultiNonPositive | tests/recommendation_engine.py:284-304 | for max_models <= 0 the negative slice counts from the end: the list holds 1 + max(n + max_models - 2, 0) entries, so the bound fails |
| Ranking.AllRecordsAllCandidates | tests/recommendation_engine.py:259-262 | with a record for every model, every model is a candidate |
| Ranking.SeededZeroMaxGivesThree | tests/recommendation_engine.py:253-310 | on the seeded table, max_models = 0 still yields three entries |
| Engine.RecommendationEngine.constructor | tests/recommendation_engine.py:17-50 | the engine starts with the seeded table, which has every model |
| Engine.RecommendationEngine.CountKeywords | tests/recommendation_engine.py:113-117 | the nested word/category loop leaves each counter at its category's keyword-token count |
| Engine.RecommendationEngine.CategorizePrompt | tests/recommendation_engine.py:84-126 | the method returns the first category with the highest count, or General Technical (see BestCategoryIsFirstMax) |
| Engine.RecommendationEngine.CountTerms | tests/recommendation_engine.py:146-151 | the counting loop counts the tokens whose lower-cased form is a listed term |
| Engine.RecommendationEngine.AnalyzePromptComplexity | tests/recommendation_engine.py:128-160 | the score accumulated with += is the complexity profile (see ComplexityBounds) |
| Engine.RecommendationEngine.CategoryPerformance | tests/recommendation_engine.py:170-181 | the loop over the table builds category_performance (see CategoryCandidatesSpec) |
| Engine.RecommendationEngine.GetModelRecommendation | tests/recommendation_engine.py:162-251 | it returns the recommendation of RecommendWinner and RecommendFallback, and has no modifies clause, so the table is never changed |
| Engine.RecommendationEngine.ApplyBoosts | tests/recommendation_engine.py:183-209 | the in-place boosts on a fresh copy give the adjusted entries (see AdjustedScores) |
| Engine.RecommendationEngine.PreferredPicks | tests/recommendation_engine.py:270-301 | the appends and removes give the best performer, speed and structure picks (see PicksFacts) |
| Engine.RecommendationEngine.FillRemaining | tests/recommendation_engine.py:303-310 | the fill loop appends one entry per sliced remaining model |
| Engine.RecommendationEngine.GetMultiModelRecommendation | tests/recommendation_engine.py:253-317 | it returns the diversified list (see MultiDistinctAndBounded and MultiPreferred) |
| Engine.RecommendationEngine.UpdatePerformanceHistory | tests/recommendation_engine.py:319-338 | the prompt's category entry of the model is folded forward or created, nothing else changes, and every model keeps its row |
| Engine.RecommendationEngine.UpdateEntry | tests/recommendation_engine.py:323-338 | the in-place update of one entry is the running-mean step of Updated |
| Metrics.Similarity | evaluation/metrics.py:9-11 | the similarity ratio lies in [0, 1] |
| Metrics.SimilarityIgnoresCase | evaluation/metrics.py:11 | similarity depends on the texts only through their lower-cased forms |
| Metrics.ResponseLength | evaluation/metrics.py:13-15 | the word count is 0 exactly when the response is all whitespace |
| Metrics.WordSetSize | evaluation/metrics.py:28 | there are at most as many distinct words as words, and at least one when there are words |
| Metrics.LengthScore | evaluation/metrics.py:22 | min(n / 100, 1.0) lies in [0, 1] and saturates exactly from 100 words |
| Metrics.CompletenessScore | evaluation/metrics.py:25 | 1.0 exactly when the stripped response ends in '.', '!' or '?', and 0.7 otherwise, the empty string included |
| Metrics.DiversityScore | evaluation/metrics.py:27-29 | distinct words over words, in [0, 1], and 0 without words |
| Metrics.Quality | evaluation/metrics.py:17-31 | the quality score lies in [0.21, 1.0] |
| Metrics.QualityMonotoneInDistinctWords | evaluation/metrics.py:27-31 | with word count and ending fixed, more distinct words never lower quality |
| Metrics.DiversityMonotone | evaluation/metrics.py:27-29 | with the word count fixed, more distinct words never lower diversity |
| Metrics.BlankResponseQuality | evaluation/metrics.py:17-31 | a blank response scores exactly 0.21, its completeness share alone |
| Metrics.Score | evaluation/metrics.py:37-53 | one response's entry holds its similarity, quality and length; its overall score 0.3 * similarity + 0.7 * quality lies in [0.147, 1] |
| Metrics.Evaluate | evaluation/metrics.py:33-55 | the table has exactly the keys of the responses, each entry computed from the prompt and its own response |
| Metrics.EvaluateEntryIsLocal | evaluation/metrics.py:37-53 | a model's entry does not depend on the other responses |
| Metrics.EvaluateResponses | evaluation/metrics.py:33-55 | the loop fills exactly the table Evaluate describes |
| Metrics.EvaluateUnique | evaluation/metrics.py:33-55 | any table with exactly the keys of the responses, each entry scored from its own response, is the evaluation |
| Pipeline.CategorizeByTopic | tests/test_pipeline.py:208-221 | the topic is one whose words occur in the lowered prompt (or the fallback), and no earlier topic's words occur |
| Pipeline.FirstMatchUnique | tests/test_pipeline.py:208-221 | those two properties determine the topic: it is the first match |
| Pipeline.ExplainIsNoKeyword | tests/recommendation_engine.py:89-110 | "explain" is in no keyword list of the engine |
| Pipeline.ExplainHasNoVehicleWord | tests/test_pipeline.py:212 | no vehicle word occurs inside "explain" |
| Pipeline.ExplainTopic | tests/test_pipeline.py:212-215 | the pipeline files "explain" under AI/Technology, because "ai" occurs inside it |
| Pipeline.ExplainEngine | tests/recommendation_engine.py:113-124 | the engine files "explain" under General Technical |
| Pipeline.ExplainDisagrees | tests/test_pipeline.py:208-221 | the two classifiers disagree on "explain" |
| Pipeline.CarbonIsNoOtherKeyword | tests/recommendation_engine.py:89-110 | "carbon" is a keyword of Climate/Environment only |
| Pipeline.CarbonTopic | tests/test_pipeline.py:212-213 | the pipeline files "carbon" under Electric Vehicles, because "car" occurs inside it |
| Pipeline.CarbonEngine | tests/recommendation_engine.py:113-126 | the engine files "carbon" under Climate/Environment |
| Pipeline.CarbonDisagrees | tests/test_pipeline.py:208-221 | the two classifiers disagree on "carbon" |
| Pipeline.WithNewKeys | tests/test_pipeline.py:151-152 | dict key order after storing models: repeat-free, with exactly the old keys and the stored models, the old keys first and in their places |
| Pipeline.WithNewKeysOrder | tests/test_pipeline.py:151-152 | the models that join come after the old keys, in the order of their first occurrence among the stored models |
| Pipeline.WithNewKeysAppend | tests/test_pipeline.py:150-152 | storing one list of models and then another orders the keys as storing both lists in one go |
| Pipeline.WithNewKeysOfDistinct | tests/test_pipeline.py:75-80 | storing distinct models into an empty dict lists them in their own order |
| Pipeline.FirstBest | tests/test_pipeline.py:182 | max over the keys returns a key with the highest value, and every key before it is strictly lower |
| Pipeline.FirstBestOfAll | tests/test_pipeline.py:170 | when the list names every key, the first best beats every key |
| Pipeline.Responses | tests/test_pipeline.py:75-84 | exactly the requested models get a response |
| Pipeline.ResponsesAt | tests/test_pipeline.py:75-84 | a model's response is the text of its own outcome, "Error: ..." when it failed; no other model's outcome reaches it |
| Pipeline.Winner | tests/test_pipeline.py:90 | the winner is a key with the highest overall score, and every key before it scores strictly less |
| Pipeline.SingleTestEntries | tests/test_pipeline.py:66-109 | every requested model has a response, the metrics keys are the response keys, each entry scores that model's own response, and the result is well formed |
| Pipeline.SingleTestWinner | tests/test_pipeline.py:89-91 | best_model is requested, has the maximal overall score, with ties to the earliest in dict order, and best_score is its score |
| Pipeline.WinnerOfAll | tests/test_pipeline.py:90 | the winner's score is at least every entry's |
| Pipeline.SingleTestWellFormed | tests/test_pipeline.py:66-109 | every result has a non-empty, repeat-free key order naming its metrics keys, and a winner among them |
| Pipeline.SingleTestKeyOrder | tests/test_pipeline.py:75-80 | models requested without repeats are listed, and tie-broken, in request order |
| Pipeline.FailedModelIsScored | tests/test_pipeline.py:82-87 | a failed model is scored on its "Error: " text like any other response |
| Pipeline.WinsCount | tests/test_pipeline.py:144-147 | a model's win count is the number of results it won |
| Pipeline.TotalWinsStep | tests/test_pipeline.py:147 | one more win adds one to the total |
| Pipeline.WinsAddUp | tests/test_pipeline.py:144-147 | the win counts add up to the number of results |
| Pipeline.ScoresOfCount | tests/test_pipeline.py:150-153 | a model has one score per result that scored it |
| Pipeline.SeenOrder | tests/test_pipeline.py:151-152 | the first-seen order of model_scores never repeats a model (its order is stated in SeenOrderFirstSeen and SeenOrderByResult) |
| Pipeline.SeenOrderFlat | tests/test_pipeline.py:144-152 | the key order of model_scores is that of storing every result's metrics keys, result after result, into an empty dict |
| Pipeline.SeenOrderFirstSeen | tests/test_pipeline.py:144-152 | model_scores lists exactly the models of the results, each where it is first met in the results' key orders taken one after the other |
| Pipeline.SeenOrderByResult | tests/test_pipeline.py:144-152 | a model first scored by an earlier result, or earlier in the key order of the same first result, comes earlier in model_scores, which decides the tie-break of max() at line 170 |
| Pipeline.FirstScoredEarlier | tests/test_pipeline.py:144-152 | a model first scored by an earlier result, or earlier in the key order of the same first result, occurs first earlier in the concatenation of all results' key orders |
| Pipeline.AddScoresAt | tests/test_pipeline.py:150-153 | one result appends its overall score to each listed model's list and to no other |
| Pipeline.AddTopicScoresKeys | tests/test_pipeline.py:156-161 | one result adds entries exactly for its models under its topic |
| Pipeline.FileTopicScore | tests/test_pipeline.py:157-161 | filing a score touches only that model's list for that topic |
| Pipeline.AddTopicScoresAt | tests/test_pipeline.py:155-161 | one result appends each model's score under the result's topic only |
| Pipeline.ScoreTableAt | tests/test_pipeline.py:144-153 | model_scores holds each model's overall scores in result order, and has a key exactly for the models seen |
| Pipeline.TopicTableAt | tests/test_pipeline.py:144-161 | model_categories files each score under its result's topic, in result order, and has an entry exactly where a score was filed |
| Pipeline.TablesStep | tests/test_pipeline.py:144-161 | one more result extends wins, scores, topics and first-seen order by that result's entries |
| Pipeline.ScoreTableShape | tests/test_pipeline.py:150-153 | no score list is empty, the keys are the models seen, and some model is seen once there is a result |
| Pipeline.TopicTableShape | tests/test_pipeline.py:156-161 | no per-topic score list is empty |
| Pipeline.ScoredModels | tests/test_pipeline.py:176-179 | the models scored under a topic, in test-model order |
| Pipeline.TopicAverages | tests/test_pipeline.py:175-179 | category_scores has exactly the test models with scores under the topic, each with the mean of them |
| Pipeline.Recommend | tests/test_pipeline.py:181-187 | a topic's recommendation is for that topic |
| Pipeline.RecommendWhen | tests/test_pipeline.py:181 | a topic gets a recommendation exactly when some model has a score under it |
| Pipeline.RecommendEntry | tests/test_pipeline.py:175-187 | the entry lists every scored model's mean, and names one with the highest mean that no earlier test model reaches |
| Pipeline.RecommendationsUnfold | tests/test_pipeline.py:174-187 | the topic loop appends each topic's recommendation, when there is one |
| Pipeline.RecommendationsTopics | tests/test_pipeline.py:174-187 | every recommendation is for a topic of the loop |
| Pipeline.RecommendationsSound | tests/test_pipeline.py:173-187 | every recommendation is the one for its topic, a topic of the loop |
| Pipeline.RecommendationsMatch | tests/test_pipeline.py:173-187 | every recommendation is the one for its topic |
| Pipeline.RecommendationsOrdered | tests/test_pipeline.py:174 | over increasing topics the recommendations come in increasing topic order |
| Pipeline.RecommendationsComplete | tests/test_pipeline.py:173-187 | every looped topic that has a recommendation is listed |
| Pipeline.Analyze | tests/test_pipeline.py:134-206 | the error dict comes exactly when there is no result; otherwise the report counts the results and the four test models |
| Pipeline.BestOverall | tests/test_pipeline.py:170 | the overall best is a model with scores |
| Pipeline.AnalyzeScores | tests/test_pipeline.py:164-167 | the report's averages and score counts come from model_scores |
| Pipeline.AnalyzeWins | tests/test_pipeline.py:197 | the report's wins are the win table |
| Pipeline.AnalyzeBest | tests/test_pipeline.py:170-194 | the report's overall best has an average, and its score is that average |
| Pipeline.AnalyzeTopics | tests/test_pipeline.py:173-201 | the report's topic part is the recommendations over model_categories, in topic order |
| Pipeline.AnalysisWins | tests/test_pipeline.py:144-147 | each model's wins count the results it won, and the wins add up to the number of results |
| Pipeline.AnalysisAverages | tests/test_pipeline.py:150-199 | a model has an average and a count exactly when some result scored it; the average is the mean of its scores and the count is the number of results that scored it |
| Pipeline.ScoreSummary | tests/test_pipeline.py:164-199 | the same, on the score table alone |
| Pipeline.AnalysisBestOverall | tests/test_pipeline.py:170-194 | best_overall_model has the maximal average, and every model seen before it averages strictly less |
| Pipeline.BestOverallIsBest | tests/test_pipeline.py:170 | the same, on the score table alone |
| Pipeline.RecommendationFor | tests/test_pipeline.py:173-187 | over the declared topics, a topic is listed exactly when some model has scores under it, and its entry is its recommendation |
| Pipeline.TopicTableColumn | tests/test_pipeline.py:155-161 | one topic's column of model_categories, model by model |
| Pipeline.AnalysisRecommended | tests/test_pipeline.py:173-187 | a topic is in category_recommendations exactly when some result scored a model under it |
| Pipeline.TopicListed | tests/test_pipeline.py:155-187 | the same, over the topic table of the results |
| Pipeline.AnalysisRecommendation | tests/test_pipeline.py:175-187 | each entry holds the mean under its topic of every model scored there, and names one with the highest mean that no earlier test model reaches |
| Pipeline.AnalysisRecommendationOrder | tests/test_pipeline.py:173-174 | the recommendations come in topic order, one per topic at most |
| Pipeline.RecommendationsInTopicOrder | tests/test_pipeline.py:174 | recommendations over the declared topics come in declaration order |
| Pipeline.AddStep | tests/test_pipeline.py:150-161 | each model of a result extends model_scores, model_categories and the first-seen order by one entry |
| Pipeline.SuiteStep | tests/test_pipeline.py:120-123 | one more prompt run extends the suite's results of the prompts before it |
| Pipeline.TestPipeline.constructor | tests/test_pipeline.py:30-64 | the pipeline starts with no results |
| Pipeline.TestPipeline.CollectResponses | tests/test_pipeline.py:75-84 | the responses loop builds the responses dict and its key order |
| Pipeline.TestPipeline.Evaluated | tests/test_pipeline.py:86-91 | the evaluation and the winner of one test (see SingleTestWinner) |
| Pipeline.TestPipeline.RunSingleTest | tests/test_pipeline.py:66-109 | exactly one result, for the given or the default models, is appended to test_results and returned |
| Pipeline.TestPipeline.RunFullTestSuite | tests/test_pipeline.py:111-132 | one result per test prompt, in prompt order, with the default models, each also appended to test_results |
| Pipeline.TestPipeline.RunPrompts | tests/test_pipeline.py:120-123 | the suite loop over any list of prompts appends one result per prompt, in order |
| Pipeline.TestPipeline.AddResult | tests/test_pipeline.py:144-161 | one pass of the results loop adds the win, the scores per model and per topic, and the first-seen keys |
| Pipeline.TestPipeline.TopicScoresFor | tests/test_pipeline.py:175-179 | the loop over the test models builds category_scores for one topic (see TopicAverages) |
| Pipeline.TestPipeline.RecommendTopic | tests/test_pipeline.py:175-187 | the best model for one topic, when some model has scores under it (see RecommendEntry) |
| Pipeline.TestPipeline.RecommendTopics | tests/test_pipeline.py:173-187 | the topic loop builds category_recommendations (see RecommendationFor) |
| Pipeline.TestPipeline.Tabulate | tests/test_pipeline.py:144-161 | the results loop builds the win, score and topic tables (see WinsAddUp, ScoreTableAt and TopicTableAt) |
| Pipeline.TestPipeline.AnalyzeResults | tests/test_pipeline.py:134-206 | the analysis of every recorded result (see AnalysisWins, AnalysisAverages, AnalysisBestOverall and AnalysisRecommendation) |

## Left out

- The web front end skips responses that start with "Error:" before it updates the history (app.py:197). `run_single_test` and `analyze_results` (tests/test_pipeline.py:82-91, 150-153) score such texts like any other response. This model follows them, and `FailedModelIsScored` states it.
- Scores are `real`, so IEEE float rounding is not modelled. Agreement with Python floats at the 0.3 and 0.7 thresholds is not claimed.
- `lower()` is modelled on ASCII letters only, and `\w` as `[A-Za-z0-9_]`. Python's Unicode case mapping and Unicode word characters are not modelled. Whitespace is Python's `isspace` set, written out.
- The ratio of `difflib.SequenceMatcher` is a parameter (`Metrics.Ratio`), known only to lie in [0, 1], because its matching heuristics belong to a foreign library.
- Text generation by the model backends (an HTTP client with canned fallbacks, random choice and sleeps) is an input: one outcome per model, a text or a failure message.
- Wall-clock timing (`execution_time`, `execution_stats`), timestamps, the progress prints and the report, summary and reason strings are not modelled. This covers `generate_recommendation_summary`, `generate_recommendation_report`, the reason text of `get_model_recommendation` and the "Highest performance for ..." text of the multi-model list. `Recommendation` and `Suggestion` carry a reason tag instead of the text.
- The database and the `test_recommendation_engine` demo are I/O and are not modelled. So are the web front end, including its rule that skips "Error:" responses before it calls `update_performance_history`.
- Model identities are the four known backends (`Catalog.Model`). `update_performance_history` with an unknown name, which would make the later `model_characteristics` lookup fail, cannot be expressed.
- Dict insertion order is modelled explicitly: the key order of each result's metrics (`keyOrder`), the first-seen order of `model_scores` (`SeenOrder`), and the table order of `performance_history`, which `Valid()` keeps equal to the seeded order.
- `category_recommendations` is a sequence in topic declaration order rather than a dict keyed by topic name. `Listed` and `RecommendationFor` state that it has one entry per recommended topic.
- `run_single_test` with an empty model list crashes in Python, because `max()` of an empty sequence raises. The model therefore requires a non-empty list.
- Ranking.Ranked: states only its length. Its being a permutation sorted by descending score, ties in table order, is proved apart in `RankedPermutation` and `RankedOrder`.
- Pipeline.BestOverall: states only that the model has scores. Its maximality is proved in `BestOverallIsBest` and `AnalysisBestOverall`.
- Pipeline.Recommend: states only the topic of its answer. Its content is proved in `RecommendEntry` and `RecommendWhen`.
