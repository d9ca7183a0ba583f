/**
 * Summaries and the summariser (backend/pipeline/summarization.py). The
 * summariser's generation and validation are placeholders in the source:
 * it produces a fixed placeholder summary for the group's topic, builds a
 * constant prompt, and accepts every summary.
 */
module Summarization {
  import opened Common
  import opened Comparison

  /** The confidence a summary has unless another is given. */
  const DefaultConfidence: string := "medium"

  /**
   * A generated summary. `sources` and `perspectives` are lists of
   * dictionaries, held as values.
   */
  datatype Summary = Summary(
    topic: string,
    summaryText: string,
    sources: seq<Value>,
    perspectives: seq<Value>,
    createdAt: string,
    confidence: string)

  /** `Summary(...)`: every field stored as given; `confidence` defaults to "medium". */
  function NewSummary(
    topic: string, summaryText: string, sources: seq<Value>, perspectives: seq<Value>,
    createdAt: string, confidence: string := DefaultConfidence): (s: Summary)
    ensures s.topic == topic && s.summaryText == summaryText
    ensures s.sources == sources && s.perspectives == perspectives
    ensures s.createdAt == createdAt && s.confidence == confidence
  {
    Summary(topic, summaryText, sources, perspectives, createdAt, confidence)
  }

  /** A summary made without a confidence has confidence "medium". */
  lemma ConfidenceDefault(
    topic: string, summaryText: string, sources: seq<Value>, perspectives: seq<Value>, createdAt: string)
    ensures NewSummary(topic, summaryText, sources, perspectives, createdAt).confidence == "medium"
  {
  }

  /** The keys of `Summary.to_dict`, in order. */
  const SummaryKeys: seq<string> := ["topic", "summary", "sources", "perspectives", "created_at", "confidence"]

  /** `Summary.to_dict`: the summary text under "summary", every other field under its own name. */
  function SummaryToDict(s: Summary): (d: Value)
    ensures d.Obj? && KeysOf(d.fields) == SummaryKeys
    ensures Field(d, "topic") == Some(Str(s.topic))
    ensures Field(d, "summary") == Some(Str(s.summaryText))
    ensures Field(d, "sources") == Some(List(s.sources))
    ensures Field(d, "perspectives") == Some(List(s.perspectives))
    ensures Field(d, "created_at") == Some(Str(s.createdAt))
    ensures Field(d, "confidence") == Some(Str(s.confidence))
  {
    var fields := [
      ("topic", Str(s.topic)),
      ("summary", Str(s.summaryText)),
      ("sources", List(s.sources)),
      ("perspectives", List(s.perspectives)),
      ("created_at", Str(s.createdAt)),
      ("confidence", Str(s.confidence))];
    GetAt(fields, 0); GetAt(fields, 1); GetAt(fields, 2);
    GetAt(fields, 3); GetAt(fields, 4); GetAt(fields, 5);
    Obj(fields)
  }

  /** Reads a summary back from its dictionary form. */
  function SummaryFromDict(d: Value): Option<Summary>
  {
    var topic := StrField(d, "topic");
    var text := StrField(d, "summary");
    var sources := ListField(d, "sources");
    var perspectives := ListField(d, "perspectives");
    var createdAt := StrField(d, "created_at");
    var confidence := StrField(d, "confidence");
    if topic.Some? && text.Some? && sources.Some? && perspectives.Some?
       && createdAt.Some? && confidence.Some?
    then
      Some(Summary(topic.value, text.value, sources.value, perspectives.value,
                   createdAt.value, confidence.value))
    else
      None
  }

  /** `to_dict` loses nothing: the summary can be read back from it. */
  lemma SummaryDictRoundTrip(s: Summary)
    ensures SummaryFromDict(SummaryToDict(s)) == Some(s)
  {
  }

  /** The model a missing `model` setting defaults to. */
  const DefaultModel: Value := Str("gpt-4")

  /** The temperature a missing `temperature` setting defaults to. */
  const DefaultTemperature: Value := Float(0.3)

  /** A summariser: its configuration and the model settings read from it. */
  datatype ArticleSummarizer = ArticleSummarizer(config: Dict<Value>, model: Value, temperature: Value)

  /**
   * `ArticleSummarizer(config)`: the model and the temperature are the
   * configured ones, or their defaults when a setting is absent.
   */
  function NewSummarizer(config: Dict<Value>): (s: ArticleSummarizer)
    ensures s.config == config
    ensures Get(config, "model") == Some(s.model)
            || (Get(config, "model").None? && s.model == DefaultModel)
    ensures Get(config, "temperature") == Some(s.temperature)
            || (Get(config, "temperature").None? && s.temperature == DefaultTemperature)
  {
    ArticleSummarizer(
      config,
      GetOr(config, "model", DefaultModel),
      GetOr(config, "temperature", DefaultTemperature))
  }

  /** The text of the placeholder summary. */
  const PlaceholderText: string := "Summary not yet generated (implementation pending)"

  /** The fixed creation time of the placeholder summary. */
  const PlaceholderCreatedAt: string := "2026-01-01T00:00:00Z"

  /**
   * `generate_summary`: the generation itself is not implemented; the
   * result is the placeholder summary for the group's topic, with no
   * sources, no perspectives and the default confidence.
   */
  function GenerateSummary(s: ArticleSummarizer, group: ArticleGroup, analysis: Value): (r: Summary)
    ensures r.topic == group.topic
    ensures r.sources == [] && r.perspectives == []
    ensures r.summaryText == PlaceholderText && r.createdAt == PlaceholderCreatedAt
    ensures r.confidence == DefaultConfidence
  {
    var _ := BuildPrompt(s, group, analysis);
    NewSummary(group.topic, PlaceholderText, [], [], PlaceholderCreatedAt)
  }

  /**
   * The generated summary depends on the group's topic alone: not on the
   * summariser's settings, the group's articles or the analysis.
   */
  lemma SummaryDependsOnTopicOnly(
    s1: ArticleSummarizer, g1: ArticleGroup, a1: Value,
    s2: ArticleSummarizer, g2: ArticleGroup, a2: Value)
    requires g1.topic == g2.topic
    ensures GenerateSummary(s1, g1, a1) == GenerateSummary(s2, g2, a2)
    ensures Field(SummaryToDict(GenerateSummary(s1, g1, a1)), "topic") == Some(Str(g1.topic))
  {
  }

  /** The placeholder for the articles in the prompt. */
  const ArticlesSlot: string := "{articles}"

  /** The placeholder for the perspective analysis in the prompt. */
  const PerspectivesSlot: string := "{perspectives}"

  /** The prompt text before the articles placeholder. */
  const PromptHead: string :=
    "\nYou are a news summarization system. Your task is to create a transformative summary\n"
    + "of multiple news articles covering the same story.\n\n"
    + "Requirements:\n"
    + "1. Create ORIGINAL text (not excerpts from sources)\n"
    + "2. Cite EVERY factual claim to a source\n"
    + "3. Include ALL perspectives found in the articles\n"
    + "4. Do NOT add speculation, opinion, or analysis\n"
    + "5. Note conflicting information when present\n"
    + "6. Use neutral, factual language\n\n"
    + "Articles:\n"

  /** The prompt text between the two placeholders. */
  const PromptMiddle: string := "\n\nPerspective Analysis:\n"

  /** The prompt text after the perspectives placeholder. */
  const PromptTail: string := "\n\nGenerate a summary following these requirements.\n"

  /** The prompt template, placeholders included. */
  const PromptTemplate: string := PromptHead + ArticlesSlot + PromptMiddle + PerspectivesSlot + PromptTail

  /**
   * `_build_prompt`: returns the template as it is; neither placeholder is
   * filled in.
   */
  function BuildPrompt(s: ArticleSummarizer, group: ArticleGroup, analysis: Value): (prompt: string)
    ensures Contains(prompt, ArticlesSlot) && Contains(prompt, PerspectivesSlot)
  {
    ContainsInfix(PromptHead, ArticlesSlot, PromptMiddle + PerspectivesSlot + PromptTail);
    assert PromptTemplate == PromptHead + ArticlesSlot + (PromptMiddle + PerspectivesSlot + PromptTail);
    ContainsInfix(PromptHead + ArticlesSlot + PromptMiddle, PerspectivesSlot, PromptTail);
    PromptTemplate
  }

  /** The prompt is the same whatever the summariser, group and analysis. */
  lemma PromptIgnoresInputs(
    s1: ArticleSummarizer, g1: ArticleGroup, a1: Value,
    s2: ArticleSummarizer, g2: ArticleGroup, a2: Value)
    ensures BuildPrompt(s1, g1, a1) == BuildPrompt(s2, g2, a2) == PromptTemplate
  {
  }

  /** `validate_summary`: validation is not implemented; every summary passes. */
  function ValidateSummary(s: ArticleSummarizer, summary: Summary): (valid: bool)
    ensures valid
  {
    true
  }
}
