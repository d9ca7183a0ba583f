/**
 * The pipeline run (backend/pipeline/run.py, `run_pipeline`, stages 1 to
 * 6): fetch articles, detect bias per article, group, analyse each group,
 * summarise each group, and build the transparency report, stopping early
 * when there are no articles or no groups. The stages' collaborators are
 * parameters; `RunPipeline` wires in the components as they stand.
 */
module Pipeline {
  import opened Common
  import opened Ingestion
  import opened Comparison
  import opened BiasDetection
  import opened Summarization

  /** What summarising one group does: produce a summary, or raise. */
  datatype Attempt = Produced(summary: Summary) | Failed(error: string)

  /** What validating one summary does: answer whether it is valid, or raise. */
  datatype Validation = Validated(valid: bool) | ValidationRaised(error: string)

  /** The counts logged when a run completes. */
  datatype RunStats = RunStats(
    articlesProcessed: nat,
    articleGroups: nat,
    summariesGenerated: nat,
    biasIndicatorsFound: nat)

  /**
   * How a run ends: with `fetch_all` raising, with no articles, with
   * articles but no groups, or having gone through every stage.
   */
  datatype RunOutcome =
    | FetchRaised
    | NoArticles
    | NoGroups(articles: seq<Article>, articleBias: Dict<seq<BiasIndicator>>)
    | Completed(
        articles: seq<Article>,
        articleBias: Dict<seq<BiasIndicator>>,
        groups: seq<ArticleGroup>,
        analyses: Dict<Value>,
        summaries: seq<Summary>,
        report: TransparencyReport,
        stats: RunStats)

  /**
   * The `article_bias` map built from `articles`: each article whose
   * indicator list is non-empty stores it under its id; the others are
   * left out.
   */
  function BiasMap(articles: seq<Article>, detect: Article -> seq<BiasIndicator>): Dict<seq<BiasIndicator>>
  {
    if articles == [] then []
    else
      var m := BiasMap(articles[..|articles| - 1], detect);
      var a := articles[|articles| - 1];
      if detect(a) != [] then Put(m, a.articleId, detect(a)) else m
  }

  /** The `perspective_analyses` map: each group's analysis stored under its topic. */
  function Analyses(groups: seq<ArticleGroup>, analyze: ArticleGroup -> Value): Dict<Value>
  {
    if groups == [] then []
    else
      var g := groups[|groups| - 1];
      Put(Analyses(groups[..|groups| - 1], analyze), g.topic, analyze(g))
  }

  /** `perspective_analyses.get(group.topic, {})`. */
  function AnalysisFor(analyses: Dict<Value>, g: ArticleGroup): (a: Value)
    ensures Get(analyses, g.topic).Some? ==> a == Get(analyses, g.topic).value
    ensures Get(analyses, g.topic).None? ==> a == Obj([])
  {
    GetOr(analyses, g.topic, Obj([]))
  }

  /**
   * What one attempt adds to the summaries: its summary if it was produced
   * and validation answered that it is valid; nothing when generation or
   * validation raised, or validation rejected it.
   */
  function Kept(a: Attempt, validate: Summary -> Validation): seq<Summary>
  {
    match a
    case Produced(s) => if validate(s) == Validated(true) then [s] else []
    case Failed(_) => []
  }

  /** The summaries list: per group in order, what its attempt keeps. */
  function Summaries(
    groups: seq<ArticleGroup>, analyses: Dict<Value>,
    summarize: (ArticleGroup, Value) -> Attempt, validate: Summary -> Validation): seq<Summary>
  {
    if groups == [] then []
    else
      var g := groups[|groups| - 1];
      Summaries(groups[..|groups| - 1], analyses, summarize, validate)
        + Kept(summarize(g, AnalysisFor(analyses, g)), validate)
  }

  /** Stage 2: runs the detector on every article and records the non-empty results. */
  method DetectStage(articles: seq<Article>, detect: Article -> seq<BiasIndicator>)
    returns (articleBias: Dict<seq<BiasIndicator>>)
    ensures articleBias == BiasMap(articles, detect)
  {
    articleBias := [];
    for i := 0 to |articles|
      invariant articleBias == BiasMap(articles[..i], detect)
    {
      assert articles[..i + 1][..i] == articles[..i];
      var indicators := detect(articles[i]);
      if indicators != [] {
        articleBias := Put(articleBias, articles[i].articleId, indicators);
      }
    }
    assert articles[..|articles|] == articles;
  }

  /** Stage 4: analyses every group and stores the analysis under the group's topic. */
  method AnalyzeStage(groups: seq<ArticleGroup>, analyze: ArticleGroup -> Value)
    returns (analyses: Dict<Value>)
    ensures analyses == Analyses(groups, analyze)
  {
    analyses := [];
    for i := 0 to |groups|
      invariant analyses == Analyses(groups[..i], analyze)
    {
      assert groups[..i + 1][..i] == groups[..i];
      analyses := Put(analyses, groups[i].topic, analyze(groups[i]));
    }
    assert groups[..|groups|] == groups;
  }

  /**
   * Stage 5: summarises every group with the analysis stored for its topic;
   * a summary that passes validation is appended, and a group whose
   * generation or validation raises is skipped.
   */
  method SummarizeStage(
    groups: seq<ArticleGroup>, analyses: Dict<Value>,
    summarize: (ArticleGroup, Value) -> Attempt, validate: Summary -> Validation)
    returns (summaries: seq<Summary>)
    ensures summaries == Summaries(groups, analyses, summarize, validate)
  {
    summaries := [];
    for i := 0 to |groups|
      invariant summaries == Summaries(groups[..i], analyses, summarize, validate)
    {
      assert groups[..i + 1][..i] == groups[..i];
      var analysis := AnalysisFor(analyses, groups[i]);
      match summarize(groups[i], analysis)
      case Produced(summary) =>
        match validate(summary) {
          case Validated(valid) =>
            if valid {
              summaries := summaries + [summary];
            }
          case ValidationRaised(_) =>
        }
      case Failed(_) =>
    }
    assert groups[..|groups|] == groups;
  }

  /**
   * `run_pipeline`, stages 1 to 6, with the fetcher, the detector's
   * `detect_bias`, the comparer's grouping and analysis, and the
   * summariser's generation and validation as parameters.
   */
  method RunStages(
    ing: ArticleIngester, fetch: Value -> FetchResult,
    detector: BiasDetector, detect: Article -> seq<BiasIndicator>,
    group: seq<Article> -> seq<ArticleGroup>, analyze: ArticleGroup -> Value,
    summarize: (ArticleGroup, Value) -> Attempt, validate: Summary -> Validation)
    returns (out: RunOutcome)
    ensures out.FetchRaised? <==> !SourceEntriesAreDicts(ing.sources)
    ensures SourceEntriesAreDicts(ing.sources) ==> (out.NoArticles? <==> Gathered(ing.sources, fetch) == [])
    ensures out.NoGroups? || out.Completed? ==>
      && out.articles == Gathered(ing.sources, fetch) && out.articles != []
      && out.articleBias == BiasMap(out.articles, detect)
      && (out.NoGroups? <==> group(out.articles) == [])
    ensures out.Completed? ==>
      && out.groups == group(out.articles)
      && out.analyses == Analyses(out.groups, analyze)
      && out.summaries == Summaries(out.groups, out.analyses, summarize, validate)
      && out.report.totalArticles == |out.articles|
      && out.report.articlesWithIndicators == |Keys(out.articleBias)|
      && out.report.indicatorTypes == Tally(AllTypes(out.articleBias))
      && out.report.sourceBreakdown == []
      && out.stats == RunStats(|out.articles|, |out.groups|, |out.summaries|, |out.articleBias|)
  {
    // Stage 1: ingestion
    var fetched := FetchAll(ing, fetch);
    if fetched.None? {
      return FetchRaised;
    }
    var articles := fetched.value;
    if articles == [] {
      return NoArticles;
    }
    // Stage 2: bias detection on individual articles
    var articleBias := DetectStage(articles, detect);
    // Stage 3: grouping
    var groups := group(articles);
    if groups == [] {
      return NoGroups(articles, articleBias);
    }
    // Stage 4: perspective analysis
    var analyses := AnalyzeStage(groups, analyze);
    // Stage 5: summarisation
    var summaries := SummarizeStage(groups, analyses, summarize, validate);
    // Stage 6: transparency report
    var report := GenerateTransparencyReport(detector, articles, articleBias);
    out := Completed(articles, articleBias, groups, analyses, summaries, report,
                     RunStats(|articles|, |groups|, |summaries|, |articleBias|));
  }

  /** A dictionary-valued setting of a configuration, or `{}` when it is absent. */
  function SubConfig(config: Dict<Value>, key: string): (sub: Dict<Value>)
    requires Get(config, key).Some? ==> Get(config, key).value.Obj?
    ensures Get(config, key).None? ==> sub == []
    ensures Get(config, key).Some? ==> Get(config, key) == Some(Obj(sub))
  {
    match Get(config, key)
    case Some(v) => v.fields
    case None => []
  }

  /**
   * `run_pipeline` with the components as they stand, built from the three
   * configurations. A source entry that is not a dictionary makes the run
   * raise at ingestion. Since grouping yields no groups, a run never reaches
   * perspective analysis; and since no check finds anything, the bias map
   * of a run that fetched articles is empty.
   */
  method RunPipeline(
    sourcesConfig: Dict<Value>, biasConfig: Value, pipelineConfig: Dict<Value>,
    fetch: Value -> FetchResult)
    returns (out: RunOutcome)
    requires Get(sourcesConfig, "sources").Some? ==> Iterable(Get(sourcesConfig, "sources").value)
    requires Get(pipelineConfig, "comparison").Some? ==> Get(pipelineConfig, "comparison").value.Obj?
    requires Get(pipelineConfig, "summarization").Some? ==> Get(pipelineConfig, "summarization").value.Obj?
    ensures out.FetchRaised? <==> !SourceEntriesAreDicts(NewIngester(sourcesConfig).sources)
    ensures SourceEntriesAreDicts(NewIngester(sourcesConfig).sources) ==>
      (out.NoArticles? <==> Gathered(NewIngester(sourcesConfig).sources, fetch) == [])
    ensures !out.Completed?
    ensures out.NoGroups? ==>
      out.articles == Gathered(NewIngester(sourcesConfig).sources, fetch) && out.articleBias == []
  {
    var ingester := NewIngester(sourcesConfig);
    var comparer := NewComparer(SubConfig(pipelineConfig, "comparison"));
    var summarizer := NewSummarizer(SubConfig(pipelineConfig, "summarization"));
    var detector := NewDetector(biasConfig);
    var detect := a => Indicators(detector, a);
    out := RunStages(
      ingester, fetch, detector, detect,
      articles => GroupByTopic(comparer, articles),
      g => ComparePerspectives(comparer, g),
      (g, analysis) => Produced(GenerateSummary(summarizer, g, analysis)),
      s => Validated(ValidateSummary(summarizer, s)));
    if out.NoGroups? {
      forall a ensures detect(a) == [] {
        NoIndicatorsYet(detector, a);
      }
      SilentDetectorNoBias(out.articles, detect);
    }
  }

  /**
   * `run_pipeline` with `fetch_from_source` as it stands: the run raises at
   * ingestion when a source entry is not a dictionary, and otherwise ends
   * with no articles.
   */
  method RunPipelineAsWritten(sourcesConfig: Dict<Value>, biasConfig: Value, pipelineConfig: Dict<Value>)
    returns (out: RunOutcome)
    requires Get(sourcesConfig, "sources").Some? ==> Iterable(Get(sourcesConfig, "sources").value)
    requires Get(pipelineConfig, "comparison").Some? ==> Get(pipelineConfig, "comparison").value.Obj?
    requires Get(pipelineConfig, "summarization").Some? ==> Get(pipelineConfig, "summarization").value.Obj?
    ensures out.FetchRaised? || out.NoArticles?
    ensures out.FetchRaised? <==> !SourceEntriesAreDicts(NewIngester(sourcesConfig).sources)
  {
    out := RunPipeline(sourcesConfig, biasConfig, pipelineConfig, FetchAsWritten);
    GatheredAsWrittenEmpty(NewIngester(sourcesConfig).sources);
  }

  /** A detector that finds nothing leaves the bias map empty. */
  lemma {:induction false} SilentDetectorNoBias(articles: seq<Article>, detect: Article -> seq<BiasIndicator>)
    requires forall a :: detect(a) == []
    ensures BiasMap(articles, detect) == []
  {
    if articles != [] {
      SilentDetectorNoBias(articles[..|articles| - 1], detect);
    }
  }

  /**
   * An id is a key of the bias map exactly when some article with that id
   * received a non-empty indicator list.
   */
  lemma {:induction false} BiasMapKeys(articles: seq<Article>, detect: Article -> seq<BiasIndicator>, k: string)
    ensures k in Keys(BiasMap(articles, detect)) <==> Flagged(articles, detect, k)
  {
    if articles != [] {
      var n := |articles| - 1;
      var front := articles[..n];
      var a := articles[n];
      var m := BiasMap(front, detect);
      BiasMapKeys(front, detect, k);
      FlaggedStep(articles, detect, k);
      if detect(a) != [] {
        assert BiasMap(articles, detect) == Put(m, a.articleId, detect(a));
      } else {
        assert BiasMap(articles, detect) == m;
      }
    }
  }

  /** Some article with id `k` received a non-empty indicator list. */
  ghost predicate Flagged(articles: seq<Article>, detect: Article -> seq<BiasIndicator>, k: string)
  {
    exists i :: 0 <= i < |articles| && articles[i].articleId == k && detect(articles[i]) != []
  }

  /** An id is flagged in a list when it is flagged before the last article or by the last article. */
  lemma FlaggedStep(articles: seq<Article>, detect: Article -> seq<BiasIndicator>, k: string)
    requires articles != []
    ensures Flagged(articles, detect, k) <==>
      Flagged(articles[..|articles| - 1], detect, k)
      || (articles[|articles| - 1].articleId == k && detect(articles[|articles| - 1]) != [])
  {
    var n := |articles| - 1;
    var front := articles[..n];
    assert forall i :: 0 <= i < n ==> front[i] == articles[i];
  }

  /**
   * Every list stored in the bias map is non-empty and is what the
   * detector returned for an article with that id.
   */
  lemma {:induction false} BiasMapValues(articles: seq<Article>, detect: Article -> seq<BiasIndicator>, k: string)
    ensures Get(BiasMap(articles, detect), k).Some? ==>
      && Get(BiasMap(articles, detect), k).value != []
      && exists i :: 0 <= i < |articles| && articles[i].articleId == k
                     && detect(articles[i]) == Get(BiasMap(articles, detect), k).value
  {
    if articles != [] {
      var n := |articles| - 1;
      var front := articles[..n];
      var a := articles[n];
      BiasMapValues(front, detect, k);
      assert forall i :: 0 <= i < n ==> front[i] == articles[i];
      if detect(a) != [] {
        PutGet(BiasMap(front, detect), a.articleId, detect(a), k);
      }
    }
  }

  /** A map whose lists are all non-empty holds at least as many indicators as entries. */
  lemma {:induction false} EntriesAtMostIndicators(m: seq<(string, seq<BiasIndicator>)>)
    requires forall i :: 0 <= i < |m| ==> m[i].1 != []
    ensures |m| <= IndicatorTotal(m)
  {
    if m != [] {
      EntriesAtMostIndicators(m[..|m| - 1]);
    }
  }

  /**
   * The "bias indicators found" count of a completed run is the number of
   * articles with indicators, which never exceeds the number of indicators.
   */
  lemma IndicatorsFoundCountsArticles(articles: seq<Article>, detect: Article -> seq<BiasIndicator>)
    ensures |BiasMap(articles, detect)| <= IndicatorTotal(BiasMap(articles, detect))
  {
    var m := BiasMap(articles, detect);
    forall i | 0 <= i < |m| ensures m[i].1 != [] {
      GetEntry(m, i);
      BiasMapValues(articles, detect, m[i].0);
    }
    EntriesAtMostIndicators(m);
  }

  /**
   * A topic has an analysis exactly when some group has that topic, and it
   * is the analysis of the last such group: a later group overwrites an
   * earlier one with the same topic.
   */
  lemma {:induction false} AnalysesLookup(groups: seq<ArticleGroup>, analyze: ArticleGroup -> Value, t: string, j: nat)
    requires j < |groups| && groups[j].topic == t
    requires forall i :: j < i < |groups| ==> groups[i].topic != t
    ensures Get(Analyses(groups, analyze), t) == Some(analyze(groups[j]))
  {
    var n := |groups| - 1;
    var front := groups[..n];
    var prev := Analyses(front, analyze);
    var g := groups[n];
    var v := analyze(g);
    assert Analyses(groups, analyze) == Put(prev, g.topic, v);
    PutGet(prev, g.topic, v, t);
    if j < n {
      assert front[j] == groups[j];
      assert forall i :: j < i < n ==> front[i] == groups[i];
      AnalysesLookup(front, analyze, t, j);
      assert Get(prev, t) == Some(analyze(groups[j]));
      assert g.topic != t;
      assert Get(Put(prev, g.topic, v), t) == Some(analyze(groups[j]));
    } else {
      assert j == n;
      assert g == groups[j];
      assert t == g.topic;
      assert Get(Put(prev, g.topic, v), t) == Some(v);
    }
  }

  /** A topic no group has gets no analysis. */
  lemma {:induction false} AnalysesMissing(groups: seq<ArticleGroup>, analyze: ArticleGroup -> Value, t: string)
    requires forall i :: 0 <= i < |groups| ==> groups[i].topic != t
    ensures Get(Analyses(groups, analyze), t).None?
  {
    if groups != [] {
      var n := |groups| - 1;
      AnalysesMissing(groups[..n], analyze, t);
      PutGet(Analyses(groups[..n], analyze), groups[n].topic, analyze(groups[n]), t);
    }
  }

  /** Summarising two lists of groups one after the other concatenates the summaries. */
  lemma {:induction false} SummariesConcat(
    front: seq<ArticleGroup>, back: seq<ArticleGroup>, analyses: Dict<Value>,
    summarize: (ArticleGroup, Value) -> Attempt, validate: Summary -> Validation)
    ensures Summaries(front + back, analyses, summarize, validate)
         == Summaries(front, analyses, summarize, validate) + Summaries(back, analyses, summarize, validate)
  {
    if back != [] {
      var all := front + back;
      var init := back[..|back| - 1];
      var g := back[|back| - 1];
      var kept := Kept(summarize(g, AnalysisFor(analyses, g)), validate);
      assert all[..|all| - 1] == front + init && all[|all| - 1] == g;
      SummariesConcat(front, init, analyses, summarize, validate);
      SummariesLast(all, analyses, summarize, validate);
      SummariesLast(back, analyses, summarize, validate);
      ConcatAssoc(Summaries(front, analyses, summarize, validate), Summaries(init, analyses, summarize, validate), kept);
    } else {
      assert front + back == front;
    }
  }

  /** The summaries of a non-empty list: those of all but its last group, then what the last group keeps. */
  lemma SummariesLast(
    groups: seq<ArticleGroup>, analyses: Dict<Value>,
    summarize: (ArticleGroup, Value) -> Attempt, validate: Summary -> Validation)
    requires groups != []
    ensures Summaries(groups, analyses, summarize, validate)
         == Summaries(groups[..|groups| - 1], analyses, summarize, validate)
            + Kept(summarize(groups[|groups| - 1], AnalysisFor(analyses, groups[|groups| - 1])), validate)
  {
  }


  /**
   * A group whose summary generation or validation raises adds nothing,
   * and the groups after it are still summarised.
   */
  lemma FailingGroupSkipped(
    before: seq<ArticleGroup>, g: ArticleGroup, after: seq<ArticleGroup>, analyses: Dict<Value>,
    summarize: (ArticleGroup, Value) -> Attempt, validate: Summary -> Validation)
    requires summarize(g, AnalysisFor(analyses, g)).Failed?
          || (summarize(g, AnalysisFor(analyses, g)).Produced?
              && validate(summarize(g, AnalysisFor(analyses, g)).summary).ValidationRaised?)
    ensures Summaries(before + [g] + after, analyses, summarize, validate)
         == Summaries(before, analyses, summarize, validate) + Summaries(after, analyses, summarize, validate)
  {
    var pre := before + [g];
    SummariesConcat(pre, after, analyses, summarize, validate);
    assert Summaries(pre, analyses, summarize, validate) == Summaries(before, analyses, summarize, validate) by {
      assert pre[..|before|] == before;
      assert Kept(summarize(g, AnalysisFor(analyses, g)), validate) == [];
    }
  }

  /**
   * The summaries are exactly the produced summaries that validation
   * accepted without raising, at most one per group.
   */
  lemma {:induction false} SummariesKept(
    groups: seq<ArticleGroup>, analyses: Dict<Value>,
    summarize: (ArticleGroup, Value) -> Attempt, validate: Summary -> Validation, s: Summary)
    ensures |Summaries(groups, analyses, summarize, validate)| <= |groups|
    ensures s in Summaries(groups, analyses, summarize, validate) <==>
      validate(s) == Validated(true) && exists i :: 0 <= i < |groups| && summarize(groups[i], AnalysisFor(analyses, groups[i])) == Produced(s)
  {
    if groups != [] {
      var n := |groups| - 1;
      var front := groups[..n];
      SummariesKept(front, analyses, summarize, validate, s);
      assert forall i :: 0 <= i < n ==> front[i] == groups[i];
    }
  }
}
