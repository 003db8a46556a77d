/**
 * The closed sets of names the platform works with: the four generation
 * backends and the five topic categories, each in the order in which the
 * source declares them, and the static per-model profile table.
 */
module Catalog {

  datatype Model = GPT2 | DistilGPT2 | T5Small | BertBase

  /** Key order of the performance table and of the default model list. */
  const ModelOrder: seq<Model> := [GPT2, DistilGPT2, T5Small, BertBase]

  function ModelName(m: Model): string {
    match m
    case GPT2 => "GPT2"
    case DistilGPT2 => "DistilGPT2"
    case T5Small => "T5-Small"
    case BertBase => "BERT-Base"
  }

  datatype Category =
    | ElectricVehicles
    | AITechnology
    | ClimateEnvironment
    | BusinessEconomics
    | GeneralTechnical

  /** Declaration order of the categories; the last one is the fallback. */
  const CategoryOrder: seq<Category> :=
    [ElectricVehicles, AITechnology, ClimateEnvironment, BusinessEconomics, GeneralTechnical]

  const AllCategories: set<Category> :=
    {ElectricVehicles, AITechnology, ClimateEnvironment, BusinessEconomics, GeneralTechnical}

  function CategoryName(c: Category): string {
    match c
    case ElectricVehicles => "Electric Vehicles"
    case AITechnology => "AI/Technology"
    case ClimateEnvironment => "Climate/Environment"
    case BusinessEconomics => "Business/Economics"
    case GeneralTechnical => "General Technical"
  }

  /** Position of a category in CategoryOrder. */
  function CategoryIndex(c: Category): (k: nat)
    ensures k < |CategoryOrder| && CategoryOrder[k] == c
  {
    match c
    case ElectricVehicles => 0
    case AITechnology => 1
    case ClimateEnvironment => 2
    case BusinessEconomics => 3
    case GeneralTechnical => 4
  }

  lemma CategoryIndexInverse()
    ensures forall j :: 0 <= j < |CategoryOrder| ==> CategoryIndex(CategoryOrder[j]) == j
  {
  }

  /** Listing the topics in declaration order lists them by strictly increasing index. */
  lemma CategoryOrderIncreasing()
    ensures forall i, j :: 0 <= i < j < |CategoryOrder| ==> CategoryIndex(CategoryOrder[i]) < CategoryIndex(CategoryOrder[j])
  {
    CategoryIndexInverse();
  }

  lemma AllCategoriesComplete()
    ensures forall c: Category :: c in AllCategories
  {
    forall c: Category ensures c in AllCategories {
      assert c == CategoryOrder[CategoryIndex(c)];
    }
  }

  /** Position of a model in ModelOrder. */
  function ModelIndex(m: Model): (k: nat)
    ensures k < |ModelOrder| && ModelOrder[k] == m
  {
    match m
    case GPT2 => 0
    case DistilGPT2 => 1
    case T5Small => 2
    case BertBase => 3
  }

  lemma ModelIndexInverse()
    ensures forall j :: 0 <= j < |ModelOrder| ==> ModelIndex(ModelOrder[j]) == j
  {
  }

  /** Static description of a backend; never changed after start-up. */
  datatype ModelProfile = ModelProfile(
    strengths: seq<string>,
    bestFor: seq<string>,
    responseStyle: string,
    avgLength: nat,
    processingTime: string)

  function Characteristics(m: Model): ModelProfile {
    match m
    case GPT2 => ModelProfile(
      ["comprehensive analysis", "detailed explanations", "versatile reasoning"],
      ["complex topics", "analytical tasks", "creative content"],
      "Detailed and comprehensive", 180, "Medium")
    case DistilGPT2 => ModelProfile(
      ["quick responses", "concise summaries", "efficient processing"],
      ["quick queries", "summaries", "simple explanations"],
      "Concise and direct", 120, "Fast")
    case T5Small => ModelProfile(
      ["structured output", "text transformation", "clear organization"],
      ["structured responses", "technical explanations", "organized content"],
      "Well-structured and organized", 150, "Medium")
    case BertBase => ModelProfile(
      ["context understanding", "semantic analysis", "nuanced responses"],
      ["context-heavy tasks", "semantic understanding", "precise analysis"],
      "Context-aware and precise", 140, "Medium-Slow")
  }
}
