/** Fixed texts of the Sergeant Carney persona, the model catalog and the
    bounds of the max-tokens slider. */
module Config {
  import opened Wrappers

  /** The persona instruction sent as the first turn of every request. It is
      written as a join of short literals: the text is the same, and the
      verifier's work on it stays small. */
  const SystemPrompt: string :=
    "You are Sergeant " + "William Harvey " + "Carney, a soldier of " + "the 54th "
    + "Massachusetts " + "Volunteer Infantry. \n" + "    Born into slavery "
    + "in Norfolk, Virginia, " + "you escaped to " + "freedom via the " + "Underground Railroad "
    + "and joined the Union " + "Army to fight for the " + "liberation of your "
    + "people. \n    On July " + "18, 1863, you stood " + "with your " + "brothers-in-arms as "
    + "you stormed Fort " + "Wagner in South " + "Carolina. \n    You " + "are proud of your "
    + "service and the " + "legacy of the 54th " + "Massachusetts. \n    " + "Speak with dignity, "
    + "courage, and a sense " + "of duty, reflecting " + "on your experiences "
    + "and the significance " + "of your regiment's " + "actions.\n    Provide "
    + "historically accurate " + "information about the " + "Civil War, the 54th "
    + "Massachusetts, and " + "your personal " + "experiences. \n    " + "Avoid modern language "
    + "or references beyond " + "the 19th century. \n" + "    When appropriate, "
    + "share insights about " + "the challenges faced " + "by African-American " + "soldiers and the "
    + "importance of their " + "contributions to the " + "Union cause."

  /** Placeholders shown while the first fragment of a reply is awaited. */
  const LoadingMessages: seq<string> := [
    "Reflecting on the past... \U{1F9E0}",
    "Gathering historical insights... \U{1F331}",
    "Recalling the events of 1863... \U{1F50D}",
    "Thinking like a soldier... \U{1F4CA}",
    "Crafting a response with care... \U{1F517}"
  ]

  /** The reply stored in place of the assistant's answer when the request fails. */
  const Apology: string :=
    "I apologize, but I am unable to respond at this moment. Please try again later."

  /** The sidebar's quick-start questions. */
  const QuickPrompts: seq<string> := [
    "Tell me about your life before the war.",
    "What was the Battle of Fort Wagner like?",
    "How did you feel carrying the flag during the battle?",
    "What challenges did the 54th Massachusetts face?"
  ]

  /** The models of the catalog, one constructor per dictionary key. */
  datatype ModelId =
    | Llama33Versatile70b
    | Llama33Power8b
    | MistralSaba24b
    | Mixtral8x22bInstruct
    | Gemma2It27b

  /** The catalog keys in the order the selector lists them. */
  const Catalog: seq<ModelId> :=
    [Llama33Versatile70b, Llama33Power8b, MistralSaba24b, Mixtral8x22bInstruct, Gemma2It27b]

  /** The identifier sent to the completion service (the dictionary key). */
  function WireId(m: ModelId): string {
    match m
    case Llama33Versatile70b => "llama-3.3-70b-versatile"
    case Llama33Power8b => "llama-3.3-8b-power"
    case MistralSaba24b => "mistral-saba-24b"
    case Mixtral8x22bInstruct => "mixtral-8x22b-instruct"
    case Gemma2It27b => "gemma-2-27b-it"
  }

  /** The descriptive fields of a catalog entry, shown in the sidebar. */
  datatype ModelInfo = ModelInfo(name: string, developer: string, description: string)

  function Info(m: ModelId): ModelInfo {
    match m
    case Llama33Versatile70b =>
      ModelInfo("Llama-3.3-70b-Versatile", "Meta", "Latest Llama model for versatile, detailed historical responses")
    case Llama33Power8b =>
      ModelInfo("Llama-3.3-8b-Power", "Meta", "Efficient Llama model for fast, accurate historical insights")
    case MistralSaba24b =>
      ModelInfo("Mistral-Saba-24b", "Mistral", "Specialized model with large context for in-depth narratives")
    case Mixtral8x22bInstruct =>
      ModelInfo("Mixtral-8x22b-Instruct", "Mistral", "Advanced Mixtral for complex historical analysis")
    case Gemma2It27b =>
      ModelInfo("Gemma-2-27b-IT", "Google", "Updated Gemma model for general-purpose historical dialogue")
  }

  /** The catalog entry's `tokens` value, the top of the max-tokens slider. */
  function Tokens(m: ModelId): nat {
    match m
    case Llama33Versatile70b => 8192
    case Llama33Power8b => 8192
    case MistralSaba24b => 32768
    case Mixtral8x22bInstruct => 65536
    case Gemma2It27b => 8192
  }

  /** The dictionary lookup `models[key]`: the model whose identifier is `id`,
      if the catalog has one. */
  function FromWireId(id: string): (r: Option<ModelId>)
    ensures r.Some? ==> WireId(r.value) == id
  {
    if id == "llama-3.3-70b-versatile" then Some(Llama33Versatile70b)
    else if id == "llama-3.3-8b-power" then Some(Llama33Power8b)
    else if id == "mistral-saba-24b" then Some(MistralSaba24b)
    else if id == "mixtral-8x22b-instruct" then Some(Mixtral8x22bInstruct)
    else if id == "gemma-2-27b-it" then Some(Gemma2It27b)
    else None
  }

  /** Position of the model the selector starts on. */
  const DefaultModelIndex: nat := 0

  /** Lower bound, step and preferred default of the max-tokens slider. */
  const MinTokens: nat := 512
  const TokenStep: nat := 512
  const PreferredTokens: nat := 2048

  /** A slider position: within `[MinTokens, tokens]` and on the slider's step grid. */
  predicate SliderAccepts(tokens: nat, v: int) {
    MinTokens <= v <= tokens && (v - MinTokens) % TokenStep == 0
  }

  /** The slider's initial value, `min(2048, tokens)`: it never exceeds the
      model's limit or 2048, it is one of the two, and whenever the range is
      non-empty it lies inside it. */
  function DefaultMaxTokens(tokens: nat): (v: nat)
    ensures MinTokens <= tokens ==> MinTokens <= v
    ensures v <= tokens && v <= PreferredTokens
    ensures v == PreferredTokens || v == tokens
  {
    if PreferredTokens < tokens then PreferredTokens else tokens
  }

  /** Every catalog model has a non-empty, step-aligned token range, and its
      default max-tokens value is a position the slider accepts. */
  lemma CatalogSliderDefaults(m: ModelId)
    ensures MinTokens <= Tokens(m)
    ensures SliderAccepts(Tokens(m), DefaultMaxTokens(Tokens(m)))
  {
  }

  /** The selector lists every model exactly once and starts on the first. */
  lemma CatalogListsEachModelOnce(m: ModelId)
    ensures m in Catalog
    ensures forall i, j :: 0 <= i < j < |Catalog| ==> Catalog[i] != Catalog[j]
    ensures DefaultModelIndex < |Catalog| && Catalog[DefaultModelIndex] == Llama33Versatile70b
  {
  }

  /** Identifiers are distinct dictionary keys: looking up a model's identifier
      finds that model, and only catalog identifiers are found. */
  lemma WireIdRoundTrip(m: ModelId, id: string)
    ensures FromWireId(WireId(m)) == Some(m)
    ensures FromWireId(id).Some? <==> exists k :: k in Catalog && WireId(k) == id
  {
  }
}
