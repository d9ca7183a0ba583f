/**
 * Article groups and the comparer that forms and analyses them
 * (backend/pipeline/comparison.py). Grouping, perspective comparison and
 * coverage-gap detection are placeholders in the source; the model keeps
 * exactly what they currently return.
 */
module Comparison {
  import opened Common
  import opened Ingestion

  /**
   * A group of articles covering one story. `sources` is computed once,
   * when the group is made (see `NewGroup`).
   */
  datatype ArticleGroup = ArticleGroup(topic: string, articles: seq<Article>, sources: set<string>)

  /** `_extract_sources`: the set of the articles' sources. */
  function ExtractSources(articles: seq<Article>): (sources: set<string>)
    ensures forall s :: s in sources <==> exists a :: a in articles && a.source == s
  {
    set a | a in articles :: a.source
  }

  /** `ArticleGroup(topic, articles)`: the list is kept as given and its sources derived from it. */
  function NewGroup(topic: string, articles: seq<Article>): (g: ArticleGroup)
    ensures g.topic == topic && g.articles == articles
    ensures g.sources == ExtractSources(articles)
  {
    ArticleGroup(topic, articles, ExtractSources(articles))
  }

  /**
   * A group has no more distinct sources than articles, and has a source
   * exactly when it has an article.
   */
  lemma {:induction false} SourceCountBound(articles: seq<Article>)
    ensures |ExtractSources(articles)| <= |articles|
    ensures ExtractSources(articles) == {} <==> articles == []
  {
    if articles != [] {
      var n := |articles| - 1;
      SourceCountBound(articles[..n]);
      ExtractSourcesStep(articles);
    }
  }

  /** The sources of a list are those of all but its last article, and the last article's. */
  lemma ExtractSourcesStep(articles: seq<Article>)
    requires articles != []
    ensures ExtractSources(articles) == ExtractSources(articles[..|articles| - 1]) + {articles[|articles| - 1].source}
  {
    var n := |articles| - 1;
    var front := articles[..n];
    forall s | s in ExtractSources(articles) ensures s in ExtractSources(front) + {articles[n].source} {
      var a :| a in articles && a.source == s;
      var i :| 0 <= i < |articles| && articles[i] == a;
      if i < n { assert front[i] == a; }
    }
    forall s | s in ExtractSources(front) ensures s in ExtractSources(articles) {
      var a :| a in front && a.source == s;
      assert a in articles;
    }
  }

  /**
   * Lists a set without repetitions. Python's `list(set)` promises no
   * particular order, so the model only fixes that each member appears once.
   */
  ghost function Listing(s: set<string>): (r: seq<string>)
    ensures |r| == |s|
    ensures forall x :: x in r <==> x in s
    ensures forall i, j :: 0 <= i < j < |r| ==> r[i] != r[j]
  {
    if s == {} then []
    else
      var x :| x in s;
      var rest := Listing(s - {x});
      assert forall i :: 0 <= i < |rest| ==> rest[i] != x;
      [x] + rest
  }

  /** Each article's dictionary form, in order. */
  function ArticleDicts(articles: seq<Article>): (ds: seq<Value>)
    ensures |ds| == |articles|
    ensures forall i :: 0 <= i < |articles| ==> ds[i] == ArticleToDict(articles[i])
  {
    seq(|articles|, i requires 0 <= i < |articles| => ArticleToDict(articles[i]))
  }

  /** The keys of `ArticleGroup.to_dict`, in order. */
  const GroupKeys: seq<string> := ["topic", "article_count", "sources", "articles"]

  /**
   * `ArticleGroup.to_dict`: the topic, the number of articles, the sources
   * each listed once, and each article's dictionary form in order.
   */
  ghost function GroupToDict(g: ArticleGroup): (d: Value)
    ensures d.Obj? && KeysOf(d.fields) == GroupKeys
    ensures Field(d, "topic") == Some(Str(g.topic))
    ensures Field(d, "article_count") == Some(Int(|g.articles|))
    ensures Field(d, "sources") == Some(StrList(Listing(g.sources)))
    ensures Field(d, "articles") == Some(List(ArticleDicts(g.articles)))
  {
    var names := Listing(g.sources);
    var fields := [
      ("topic", Str(g.topic)),
      ("article_count", Int(|g.articles|)),
      ("sources", StrList(names)),
      ("articles", List(ArticleDicts(g.articles)))];
    Fields4(fields);
    Obj(fields)
  }

  /** The value a missing `similarity_threshold` setting defaults to. */
  const DefaultSimilarityThreshold: Value := Float(0.7)

  /** A comparer: its configuration and the similarity threshold read from it. */
  datatype ArticleComparer = ArticleComparer(config: Dict<Value>, similarityThreshold: Value)

  /**
   * `ArticleComparer(config)`: the threshold is the configured one, or the
   * default when the setting is absent. It is stored, never computed with.
   */
  function NewComparer(config: Dict<Value>): (c: ArticleComparer)
    ensures c.config == config
    ensures Get(config, "similarity_threshold") == Some(c.similarityThreshold)
            || (Get(config, "similarity_threshold").None? && c.similarityThreshold == DefaultSimilarityThreshold)
  {
    ArticleComparer(config, GetOr(config, "similarity_threshold", DefaultSimilarityThreshold))
  }

  /** `group_by_topic`: the grouping is not implemented and yields no groups. */
  function GroupByTopic(c: ArticleComparer, articles: seq<Article>): (groups: seq<ArticleGroup>)
    ensures groups == []
  {
    []
  }

  /** The keys of a perspective analysis, in order. */
  const AnalysisKeys: seq<string> := ["topic", "source_count", "perspectives", "coverage_gaps"]

  /**
   * `compare_perspectives`: the group's topic, its number of distinct
   * sources, and no perspectives or coverage gaps yet.
   */
  function ComparePerspectives(c: ArticleComparer, g: ArticleGroup): (analysis: Value)
    ensures analysis.Obj? && KeysOf(analysis.fields) == AnalysisKeys
    ensures Field(analysis, "topic") == Some(Str(g.topic))
    ensures Field(analysis, "source_count") == Some(Int(|g.sources|))
    ensures Field(analysis, "perspectives") == Some(List([]))
    ensures Field(analysis, "coverage_gaps") == Some(List([]))
  {
    var fields := [
      ("topic", Str(g.topic)),
      ("source_count", Int(|g.sources|)),
      ("perspectives", List([])),
      ("coverage_gaps", List([]))];
    Fields4(fields);
    Obj(fields)
  }

  /**
   * For a group made from a list of articles, the analysis counts its
   * distinct sources: at least one when there is an article, and never more
   * than there are articles.
   */
  lemma AnalysisSourceCount(c: ArticleComparer, topic: string, articles: seq<Article>)
    ensures exists n: nat :: Field(ComparePerspectives(c, NewGroup(topic, articles)), "source_count") == Some(Int(n))
                             && n <= |articles| && (n == 0 <==> articles == [])
                             && n == |ExtractSources(articles)|
  {
    SourceCountBound(articles);
    var n := |ExtractSources(articles)|;
    assert Field(ComparePerspectives(c, NewGroup(topic, articles)), "source_count") == Some(Int(n));
  }

  /** `find_coverage_gaps`: the loop over the groups does nothing yet; no gaps are found. */
  function FindCoverageGaps(c: ArticleComparer, groups: seq<ArticleGroup>): (gaps: seq<Value>)
    ensures gaps == []
  {
    []
  }
}
