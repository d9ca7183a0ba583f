# Talk-Less news pipeline: a verified model

Talk-Less gathers news articles from configured sources and documents how
each one is framed. It groups articles that cover the same story, compares
the perspectives within each group, and writes neutral, cited summaries.
The Python package `backend/pipeline` holds the pipeline. Much of it is
still placeholder code, and this project models what that code does today:

- **Articles** (`Ingestion`). The constructor stores every field. The id is
  the first 16 hex digits of the SHA-256 digest of `url|published_at`.
  `to_dict` gives the dictionary form. The ingester reads its sources from
  the configuration. `fetch_all` concatenates each source's articles in
  source order and skips any source whose fetch raises. A source entry that
  is not a dictionary makes `fetch_all` itself raise, because both the
  success path and the error handler log the entry's `name` with `.get`.
- **Groups and the comparer** (`Comparison`). A group keeps its topic, its
  article list and the set of the articles' sources. `to_dict` and
  `compare_perspectives` turn a group into a dictionary. Grouping and
  coverage-gap detection return empty lists.
- **Bias detection** (`BiasDetection`). `detect_bias` runs three checks
  and keeps the indicators they return, in check order. Each check returns
  nothing for an article without content, and as written it returns
  nothing at all. The transparency report counts the articles, the keys of
  the per-article map, and the indicators of each type. It builds the
  per-type counts in a dictionary that it updates in place.
- **Summaries** (`Summarization`). The `Summary` record and its dictionary
  form. The summariser reads its model settings from the configuration and
  returns a placeholder summary for the group's topic. It builds a constant
  prompt and accepts every summary.
- **The run** (`Pipeline`). `run_pipeline` goes through stages 1 to 6:
  1. fetch
  2. detect bias per article
  3. group
  4. analyse each group
  5. summarise each group
  6. build the report

  It stops early when nothing was fetched or nothing was grouped. A group
  whose summary generation or validation raises is skipped. The
  collaborators are parameters of `Pipeline.RunStages`, and
  `Pipeline.RunPipeline` wires in the components as they stand.
- **Text checks** (`TextChecks`). These are the two checks that the
  integration tests apply to summaries: `has_copied_text` (a sliding
  window of `min_length` words) and the `[Source: ...]` citation
  extraction.

Python dictionaries are modelled as insertion-ordered association lists
with distinct keys (`Common.Dict`). `Common.Put` has the semantics of
`d[k] = v`. Dictionary-shaped results (`to_dict`, the perspective analysis)
are `Common.Value` objects, and their contracts are stated through lookups
(`Common.Field`).

The copy check's test at tests/test_integration.py:226-228 expects the
nine-word copy to be flagged. With the default window of ten words the
helper as written does not flag it, since the summary has only nine words.
`TextChecks.NineWordCopyNotFlagged` proves that outcome.
`TextChecks.NineWordCopyFlaggedAtNine` proves that a nine-word window
does flag it.

## Model

| member | source | states |
|---|---|---|
| Common.Put | backend/pipeline/run.py:106 | `d[k] = v`: the keys gain `k`; a new key is appended at the end, after the existing entries in their order |
| Common.PutGet | backend/pipeline/run.py:125 | after `d[k] = v`, `k` holds `v` and every other key holds what it held before |
| Common.GetOr | backend/pipeline/comparison.py:68 | `d.get(k, default)`: the stored value when `k` is present, the default otherwise |
| Common.GetPresent | backend/pipeline/summarization.py:60-61 | a lookup fails exactly for absent keys, and a successful one returns a value stored under that key |
| Common.ContainsInfix | tests/test_integration.py:219 | `sub in s` holds whenever `sub` occurs somewhere in `s` |
| Ingestion.GenerateId | backend/pipeline/ingestion.py:41-44 | the id has 16 characters, all lower-case hex digits, and is a prefix of the digest of `url|published_at` |
| Ingestion.IdentityText | backend/pipeline/ingestion.py:43 | the hashed text is the url, a `|`, then the publication time |
| Ingestion.IdentityTextInjective | backend/pipeline/ingestion.py:43 | for publication times without `|`, as ISO-8601 text is, different (url, time) pairs give different hashed texts |
| Ingestion.NewArticle | backend/pipeline/ingestion.py:22-39 | every field is stored unchanged; the id is computed from the stored url and publication time |
| Ingestion.OptionalFieldsDefault | backend/pipeline/ingestion.py:28-30 | content, author and summary default to `None` |
| Ingestion.IdIgnoresOtherFields | backend/pipeline/ingestion.py:39-44 | two articles with equal url and publication time have equal ids, whatever their title, source, content, author and summary; the id has 16 characters |
| Ingestion.ArticleToDict | backend/pipeline/ingestion.py:46-57 | the eight keys in order, each field under its own key, the id under `article_id`, absent optionals as null |
| Ingestion.ArticleDictRoundTrip | backend/pipeline/ingestion.py:46-57 | the article can be read back from its dictionary: `to_dict` loses nothing |
| Ingestion.NewIngester | backend/pipeline/ingestion.py:63-72 | `sources` is `config.get("sources", [])`, which must have a length: a list gives its entries in order; a dictionary or a string gives entries that are not dictionaries (its keys or characters); an absent key gives none |
| Ingestion.FetchAll | backend/pipeline/ingestion.py:98-117 | raises exactly when some source entry is not a dictionary, because `source_config.get('name')` is logged after each fetch and in the error handler; otherwise the result is the in-order concatenation of what each source returned, with nothing from a source whose fetch raised; no sources give no articles |
| Ingestion.GatheredConcat | backend/pipeline/ingestion.py:105-117 | fetching from two lists of sources one after the other concatenates the two results |
| Ingestion.RaisingSourceSkipped | backend/pipeline/ingestion.py:107-114 | a source that raises contributes nothing, and the sources after it still contribute theirs |
| Ingestion.GatheredMembers | backend/pipeline/ingestion.py:105-117 | an article is in the result exactly when some source that did not raise returned it |
| Ingestion.FetchAsWritten | backend/pipeline/ingestion.py:74-96 | `fetch_from_source` as it stands raises exactly when the entry is not a dictionary (the `.get` lookup of its name), and returns no articles otherwise |
| Ingestion.GatheredAsWrittenEmpty | backend/pipeline/ingestion.py:74-117 | with `fetch_from_source` as it stands, fetching from any list of sources gathers no articles |
| Ingestion.Entries | backend/pipeline/ingestion.py:107 | the entries a `for` loop visits: a list's items, a dictionary's keys, a string's one-character strings |
| Ingestion.NonListSourcesRaise | backend/pipeline/ingestion.py:71-114 | a non-empty dictionary or string under `sources` holds an entry that is not a dictionary, so `fetch_all` raises |
| Comparison.ExtractSources | backend/pipeline/comparison.py:43-45 | a name is a source of the group exactly when some article of the group has it as its source |
| Comparison.NewGroup | backend/pipeline/comparison.py:38-41 | the topic and the article list are kept as given (same order, same length); the sources are derived from the articles |
| Comparison.SourceCountBound | backend/pipeline/comparison.py:43-45 | a group has at most as many distinct sources as articles, and no sources exactly when it has no articles |
| Comparison.Listing | backend/pipeline/comparison.py:52 | `list(set)`: every member of the set appears, exactly once, and nothing else |
| Comparison.ArticleDicts | backend/pipeline/comparison.py:53 | one dictionary per article, in order, each the article's `to_dict` |
| Comparison.GroupToDict | backend/pipeline/comparison.py:47-54 | keys in order; the topic; `article_count` is the number of articles; `sources` lists each source once; `articles` maps `to_dict` over the articles in order |
| Comparison.NewComparer | backend/pipeline/comparison.py:60-68 | the threshold is the configured `similarity_threshold`, or 0.7 when the setting is absent |
| Comparison.GroupByTopic | backend/pipeline/comparison.py:71-92 | no groups, for every input |
| Comparison.ComparePerspectives | backend/pipeline/comparison.py:94-119 | keys in order; the group's topic; `source_count` is the number of distinct sources; empty `perspectives` and `coverage_gaps` |
| Comparison.AnalysisSourceCount | backend/pipeline/comparison.py:112-117 | for a group made from a list of articles, `source_count` is at most the number of articles and is 0 exactly when there are none |
| Comparison.FindCoverageGaps | backend/pipeline/comparison.py:121-140 | no gaps, for every list of groups |
| BiasDetection.IndicatorToDict | backend/pipeline/bias_detection.py:33-40 | keys in order; the indicator type under `type`; description, confidence and examples unchanged under their own names |
| BiasDetection.IndicatorDictRoundTrip | backend/pipeline/bias_detection.py:33-40 | the indicator can be read back from its dictionary |
| BiasDetection.LoadLoadedWords | backend/pipeline/bias_detection.py:58-62 | the loaded-word set starts empty |
| BiasDetection.LoadAttributionPatterns | backend/pipeline/bias_detection.py:64-68 | the attribution-pattern list starts empty |
| BiasDetection.NewDetector | backend/pipeline/bias_detection.py:46-56 | keeps the configuration, whatever value it is; both rule tables are empty |
| BiasDetection.ContentTruthiness | backend/pipeline/bias_detection.py:112 | `not article.content` holds exactly when the content is `None` or the empty string |
| BiasDetection.CheckLoadedLanguage | backend/pipeline/bias_detection.py:102-120 | no indicator for an article whose content is absent or empty, and, as written, none for any article |
| BiasDetection.CheckAttribution | backend/pipeline/bias_detection.py:122-140 | no indicator for an article whose content is absent or empty, and, as written, none for any article |
| BiasDetection.CheckFraming | backend/pipeline/bias_detection.py:142-160 | no indicator for an article whose content is absent or empty, and, as written, none for any article |
| BiasDetection.Present | backend/pipeline/bias_detection.py:82-97 | the indicators are exactly those held by the check results, at most one per result, and none exactly when every result is empty |
| BiasDetection.CollectIndicators | backend/pipeline/bias_detection.py:82-97 | appends loaded language, then attribution, then framing, each only when present; at most 3 indicators |
| BiasDetection.DetectBias | backend/pipeline/bias_detection.py:70-100 | the result is the indicators of the three checks that found one, in check order |
| BiasDetection.NoIndicatorsYet | backend/pipeline/bias_detection.py:102-160 | with the checks as written, every article gets an empty indicator list |
| BiasDetection.CountTypes | backend/pipeline/bias_detection.py:188-191 | the inner loop turns the counts of the types seen so far into the counts of those types followed by this list's types |
| BiasDetection.GenerateTransparencyReport | backend/pipeline/bias_detection.py:162-193 | `total_articles` is the number of articles; `articles_with_indicators` is the number of keys in the map; `indicator_types` counts every indicator's type across all lists; `source_breakdown` is empty |
| BiasDetection.IncrementCounts | backend/pipeline/bias_detection.py:190-191 | one increment raises its type's count by one and leaves every other count alone |
| BiasDetection.IncrementKeys | backend/pipeline/bias_detection.py:190-191 | one increment adds its type to the counted types and adds no other |
| BiasDetection.TallyOccurrences | backend/pipeline/bias_detection.py:186-191 | each type's count is its number of occurrences |
| BiasDetection.TallyKeys | backend/pipeline/bias_detection.py:186-191 | the counted types are exactly the occurring types |
| BiasDetection.TallySum | backend/pipeline/bias_detection.py:186-191 | the counts add up to the number of occurrences |
| BiasDetection.ReportCounts | backend/pipeline/bias_detection.py:186-191 | for a per-article map: each type's count is its number of indicators across all lists, the keys are exactly the occurring types, and the counts sum to the total number of indicators |
| Summarization.NewSummary | backend/pipeline/summarization.py:21-35 | every field is stored unchanged, and confidence is "medium" unless one is given |
| Summarization.ConfidenceDefault | backend/pipeline/summarization.py:28-35 | a summary made without a confidence has confidence "medium" |
| Summarization.SummaryToDict | backend/pipeline/summarization.py:37-46 | keys in order; the summary text under `summary`; every other field under its own name |
| Summarization.SummaryDictRoundTrip | backend/pipeline/summarization.py:37-46 | the summary can be read back from its dictionary |
| Summarization.NewSummarizer | backend/pipeline/summarization.py:52-62 | model and temperature are the configured values, or "gpt-4" and 0.3 when absent |
| Summarization.GenerateSummary | backend/pipeline/summarization.py:64-100 | the placeholder summary for the group's topic: empty sources and perspectives, the fixed text and time, confidence "medium" |
| Summarization.SummaryDependsOnTopicOnly | backend/pipeline/summarization.py:88-100 | groups with the same topic get the same summary, whatever the summariser, the articles or the analysis |
| Summarization.BuildPrompt | backend/pipeline/summarization.py:102-146 | the prompt still holds both `{articles}` and `{perspectives}` placeholders |
| Summarization.PromptIgnoresInputs | backend/pipeline/summarization.py:125-146 | the prompt is the same constant template whatever the summariser, group and analysis |
| Summarization.ValidateSummary | backend/pipeline/summarization.py:148-164 | every summary is valid |
| Pipeline.DetectStage | backend/pipeline/run.py:100-106 | the bias map is built by storing each article's non-empty indicator list under its id, in article order |
| Pipeline.AnalyzeStage | backend/pipeline/run.py:120-125 | each group's analysis is stored under its topic, in group order |
| Pipeline.SummarizeStage | backend/pipeline/run.py:127-141 | the summaries are what each group's attempt keeps, in group order: a produced summary that validation accepted; nothing when generation or validation raised or validation rejected it |
| Pipeline.RunStages | backend/pipeline/run.py:90-162 | raises at ingestion exactly when some source entry is not a dictionary; otherwise stops with no articles exactly when fetching gathered none; a run past ingestion stops with no groups exactly when grouping returned none; a completed run's analyses, summaries and report are built from the fetched articles, the bias map and the groups; the logged counts are the numbers of articles, groups, summaries and map entries |
| Pipeline.SubConfig | backend/pipeline/run.py:86-87 | `configs["pipeline"].get(key, {})` for a dictionary-valued setting |
| Pipeline.RunPipeline | backend/pipeline/run.py:73-163 | with the components as written: raises at ingestion exactly when a source entry is not a dictionary, otherwise stops with no articles exactly when nothing was fetched; never completes; stops after grouping with an empty bias map |
| Pipeline.RunPipelineAsWritten | backend/pipeline/run.py:73-96 | with `fetch_from_source` as it stands, a run either raises at ingestion or stops with no articles, and it raises exactly when a source entry is not a dictionary |
| Pipeline.AnalysisFor | backend/pipeline/run.py:132 | `perspective_analyses.get(group.topic, {})`: the analysis stored under the topic, or an empty dictionary |
| Pipeline.SilentDetectorNoBias | backend/pipeline/run.py:102-106 | a detector that finds nothing leaves the bias map empty |
| Pipeline.BiasMapKeys | backend/pipeline/run.py:102-106 | an id is a key of the bias map exactly when some article with that id got a non-empty indicator list |
| Pipeline.BiasMapValues | backend/pipeline/run.py:102-106 | every stored list is non-empty and is the detector's result for an article with that id |
| Pipeline.IndicatorsFoundCountsArticles | backend/pipeline/run.py:162 | the logged "bias indicators found" is the number of map entries, which is at most the number of indicators |
| Pipeline.AnalysesLookup | backend/pipeline/run.py:122-125 | a topic's stored analysis is the analysis of the last group with that topic |
| Pipeline.AnalysesMissing | backend/pipeline/run.py:122-125 | a topic no group has gets no analysis |
| Pipeline.SummariesConcat | backend/pipeline/run.py:129-141 | summarising two lists of groups one after the other concatenates the two results |
| Pipeline.FailingGroupSkipped | backend/pipeline/run.py:130-141 | a group whose summary generation or validation raises adds nothing, and the groups after it are still summarised |
| Pipeline.SummariesKept | backend/pipeline/run.py:129-139 | a summary is kept exactly when it was produced for some group and validation accepted it without raising; at most one summary per group |
| TextChecks.Words | tests/test_integration.py:214-215 | `split()` yields non-empty words without whitespace |
| TextChecks.WordsSplitAt | tests/test_integration.py:214-215 | `split()` splits at every whitespace character: the words of `x + c + y` for a whitespace `c` are the words of `x` followed by those of `y`; with `WordsOfWord` this fixes the words of every text |
| TextChecks.WordsOfWord | tests/test_integration.py:214-215 | a non-empty text without whitespace is a single word |
| TextChecks.Lower | tests/test_integration.py:214-219 | `lower()` restricted to ASCII: each letter `A`-`Z` becomes its lower-case letter, every other character is kept, and the length is kept |
| TextChecks.JoinPrefix | tests/test_integration.py:218 | `' '.join` of the first words of a list is a prefix of the join of the whole list |
| TextChecks.WordsOfJoin | tests/test_integration.py:214-218 | splitting undoes joining with single spaces, for non-empty words without whitespace |
| TextChecks.HasCopiedText | tests/test_integration.py:213-221 | answers true exactly when some run of `min_length` consecutive lower-cased summary words, joined with single spaces, occurs in the lower-cased original |
| TextChecks.ShortSummaryNotFlagged | tests/test_integration.py:217 | a summary with fewer words than the window is never flagged |
| TextChecks.CaseInsensitive | tests/test_integration.py:214-219 | lower-casing either text beforehand does not change the answer |
| TextChecks.EmptyWindowFlagsAll | tests/test_integration.py:217-220 | with a window of 0 words every summary is flagged |
| TextChecks.ShorterWindowFlagged | tests/test_integration.py:217-220 | a summary flagged with some window is flagged with every shorter non-empty window |
| TextChecks.LeadingCopyFlagged | tests/test_integration.py:213-221 | a summary made of the original's first words is flagged with a window as long as the summary |
| TextChecks.ParaphraseNotFlagged | tests/test_integration.py:209-224 | the seven-word paraphrase is not flagged with the default window |
| TextChecks.NineWordCopyNotFlagged | tests/test_integration.py:226-228 | the nine-word copy is not flagged with the default window of ten words |
| TextChecks.NineWordCopyFlaggedAtNine | tests/test_integration.py:226-228 | the nine-word copy is flagged with a window of nine words |
| TextChecks.Citations | tests/test_integration.py:240 | every extracted citation is non-empty and holds no `]` |
| TextChecks.CitationsOccur | tests/test_integration.py:240 | every extracted citation comes from a whole `[Source: c]` tag in the text |
| TextChecks.CitationsTag | tests/test_integration.py:240 | a well-formed tag yields its name first, and the scan resumes after the tag |
| TextChecks.CitationsSkipPlain | tests/test_integration.py:240 | text without `[` yields no citation and leaves the citations after it unchanged |
| TextChecks.CitedSummaryCitations | tests/test_integration.py:233-244 | the test's summary yields exactly "Source 1" and "Source 2", in that order |

## Left out

- SHA-256 (FIPS 180-4) is a parameter `digest` of the model that returns 64 lower-case hex digits. `datetime.isoformat` is not modelled: an article holds its publication time as that ISO-8601 string.
- Network fetching (`fetch_from_source`) is a parameter that returns articles or raises. `normalize_article` is not part of this model, since the source only raises `NotImplementedError` there.
- Logging has no behavioural effect and is left out. So are `load_config` (YAML file I/O), the `__main__` block with its exit codes, and the stage 7 placeholders. The three configurations are passed in as values.
- Floats (`similarity_threshold`, `temperature`) are only stored. A `real` stands in for each value, with no arithmetic.
- Comparison.GroupToDict: `list(set)` has no specified order in Python, so the model fixes only that each source is listed exactly once. For the same reason the function is ghost.
- TextChecks.HasCopiedText: `min_length` is a natural number. A negative `min_length` is not modelled.
- TextChecks.HasCopiedText: `lower()` is modelled for ASCII letters only. Python's Unicode case mapping is not modelled.
- TextChecks.Lower: Python's Unicode case mapping is not modelled (for instance `Ä` to `ä`), nor its length changes (`İ` lower-cases to two code points). Only `A`-`Z` are mapped.
- Ingestion.IdentityText: a publication time is any string in the model. The hashed text identifies the pair only for times without `|`, which holds for the ISO-8601 text the source produces (`Ingestion.IdentityTextInjective`).
- TextChecks.ParaphraseNotFlagged: the test sentences are written as the single-space joins of their word lists. These are the same strings as in the test, but the literal equality itself is not proved.
- TextChecks.NineWordCopyNotFlagged: the nine-word copy is written as the single-space join of its word list, the same string as in the test; the literal equality itself is not proved.
- TextChecks.NineWordCopyFlaggedAtNine: rests on the same single-space join of the nine-word copy; the literal equality itself is not proved.
- Pipeline.RunStages: exceptions raised by `detect_bias`, `group_by_topic`, `compare_perspectives` and `generate_transparency_report` are not modelled. In the source they end the run. The model has failure results only for `fetch_all` on a non-dictionary source entry, and for the raising paths the source handles without ending the run: summary generation and validation, whose exceptions it catches per group.
- Pipeline.RunPipeline: the sources and pipeline configurations must be mappings, since the source calls `.get` on them. `sources` must be a list, a dictionary or a string when present, since `len` is taken of it. The `comparison` and `summarization` settings must be dictionaries when present, since their components call `.get` on them. The bias configuration may be any value.
- Pipeline.RunPipeline: the fetcher stays a parameter. As written, `fetch_from_source` returns an empty list, so a real run ends with no articles, or raises at ingestion when a source entry is not a dictionary (`Pipeline.RunPipelineAsWritten`).
- BiasDetection.GenerateTransparencyReport: the report is a record rather than a dictionary. Its inputs are values, so "neither the articles nor the map is modified" holds by construction and is not stated as a property.
- The embedding clustering, rule-based bias scoring and LLM prompting that the design describes do not exist in the code and are not modelled.
- The HTTP API, the database layer, the packaging script, and the integration-test assertions on APIs that do not exist are not part of this model.
