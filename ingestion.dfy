/**
 * Articles and their identity, and the ingester that gathers articles from
 * the configured sources (backend/pipeline/ingestion.py).
 */
module Ingestion {
  import opened Common

  predicate IsHexDigit(c: char)
  {
    '0' <= c <= '9' || 'a' <= c <= 'f'
  }

  /**
   * A SHA-256 digest (FIPS 180-4) as `hexdigest()` renders it: 64 lower-case
   * hexadecimal digits. The hash function itself is a parameter of the model.
   */
  type HexDigest = s: string | |s| == 64 && forall i :: 0 <= i < |s| ==> IsHexDigit(s[i])
    witness seq(64, _ => '0')

  /** Number of leading digest characters kept as an article id. */
  const IdLength: nat := 16

  /**
   * A news article. `publishedAt` is the ISO-8601 rendering of the
   * publication time; `articleId` is derived from `url` and `publishedAt`.
   */
  datatype Article = Article(
    title: string,
    url: string,
    source: string,
    publishedAt: string,
    content: Option<string>,
    author: Option<string>,
    summary: Option<string>,
    articleId: string)

  /** The text that is hashed to identify an article: `url|published_at`. */
  function IdentityText(url: string, publishedAt: string): (t: string)
    ensures |t| == |url| + 1 + |publishedAt|
    ensures url <= t && t[|url|] == '|' && t[|url| + 1..] == publishedAt
  {
    url + "|" + publishedAt
  }

  /**
   * The identity text determines the url and the publication time when
   * neither publication time holds a `|`, as ISO-8601 text never does.
   */
  lemma IdentityTextInjective(u1: string, p1: string, u2: string, p2: string)
    requires '|' !in p1 && '|' !in p2
    requires IdentityText(u1, p1) == IdentityText(u2, p2)
    ensures u1 == u2 && p1 == p2
  {
    var t := IdentityText(u1, p1);
    if |u1| != |u2| {
      assert false;
    }
    assert u1 == t[..|u1|] == u2;
  }

  /** `_generate_id`: the first 16 hex digits of the digest of the identity text. */
  function GenerateId(digest: string -> HexDigest, url: string, publishedAt: string): (id: string)
    ensures |id| == IdLength
    ensures forall i :: 0 <= i < |id| ==> IsHexDigit(id[i])
    ensures id <= digest(IdentityText(url, publishedAt))
  {
    digest(IdentityText(url, publishedAt))[..IdLength]
  }

  /**
   * `Article(...)`: every field is stored as given and the id is computed
   * from the stored url and publication time.
   */
  function NewArticle(
    digest: string -> HexDigest,
    title: string, url: string, source: string, publishedAt: string,
    content: Option<string> := None, author: Option<string> := None, summary: Option<string> := None): (a: Article)
    ensures a.title == title && a.url == url && a.source == source && a.publishedAt == publishedAt
    ensures a.content == content && a.author == author && a.summary == summary
    ensures a.articleId == GenerateId(digest, a.url, a.publishedAt)
  {
    var stored := Article(title, url, source, publishedAt, content, author, summary, "");
    stored.(articleId := GenerateId(digest, stored.url, stored.publishedAt))
  }

  /** An article made without content, author or summary has none of them. */
  lemma OptionalFieldsDefault(
    digest: string -> HexDigest, title: string, url: string, source: string, publishedAt: string)
    ensures NewArticle(digest, title, url, source, publishedAt).content == None
    ensures NewArticle(digest, title, url, source, publishedAt).author == None
    ensures NewArticle(digest, title, url, source, publishedAt).summary == None
  {
  }

  /**
   * Two articles with the same url and publication time have the same id,
   * whatever their title, source, content, author and summary.
   */
  lemma IdIgnoresOtherFields(
    digest: string -> HexDigest, url: string, publishedAt: string,
    title1: string, source1: string, content1: Option<string>, author1: Option<string>, summary1: Option<string>,
    title2: string, source2: string, content2: Option<string>, author2: Option<string>, summary2: Option<string>)
    ensures NewArticle(digest, title1, url, source1, publishedAt, content1, author1, summary1).articleId
         == NewArticle(digest, title2, url, source2, publishedAt, content2, author2, summary2).articleId
    ensures |NewArticle(digest, title1, url, source1, publishedAt, content1, author1, summary1).articleId| == 16
  {
  }

  /** The keys of `Article.to_dict`, in order. */
  const ArticleKeys: seq<string> :=
    ["article_id", "title", "url", "source", "published_at", "content", "author", "summary"]

  /** `Article.to_dict`: every field under its own key, absent optionals as null. */
  function ArticleToDict(a: Article): (d: Value)
    ensures d.Obj? && KeysOf(d.fields) == ArticleKeys
    ensures Field(d, "article_id") == Some(Str(a.articleId))
    ensures Field(d, "title") == Some(Str(a.title))
    ensures Field(d, "url") == Some(Str(a.url))
    ensures Field(d, "source") == Some(Str(a.source))
    ensures Field(d, "published_at") == Some(Str(a.publishedAt))
    ensures Field(d, "content") == Some(OptionalStr(a.content))
    ensures Field(d, "author") == Some(OptionalStr(a.author))
    ensures Field(d, "summary") == Some(OptionalStr(a.summary))
  {
    var fields := [
      ("article_id", Str(a.articleId)),
      ("title", Str(a.title)),
      ("url", Str(a.url)),
      ("source", Str(a.source)),
      ("published_at", Str(a.publishedAt)),
      ("content", OptionalStr(a.content)),
      ("author", OptionalStr(a.author)),
      ("summary", OptionalStr(a.summary))];
    Fields8(fields);
    Obj(fields)
  }

  /** Reads an article back from its dictionary form. */
  function ArticleFromDict(d: Value): Option<Article>
  {
    var id := StrField(d, "article_id");
    var title := StrField(d, "title");
    var url := StrField(d, "url");
    var source := StrField(d, "source");
    var publishedAt := StrField(d, "published_at");
    var content := OptionalStrField(d, "content");
    var author := OptionalStrField(d, "author");
    var summary := OptionalStrField(d, "summary");
    if id.Some? && title.Some? && url.Some? && source.Some? && publishedAt.Some?
       && content.Some? && author.Some? && summary.Some?
    then
      Some(Article(title.value, url.value, source.value, publishedAt.value,
                   content.value, author.value, summary.value, id.value))
    else
      None
  }

  /** `to_dict` loses nothing: the article can be read back from it. */
  lemma ArticleDictRoundTrip(a: Article)
    ensures ArticleFromDict(ArticleToDict(a)) == Some(a)
  {
  }

  /** What one call of `fetch_from_source` does: return articles or raise. */
  datatype FetchResult = Fetched(articles: seq<Article>) | Raised(error: string)

  /** An ingester: its configuration and the source entries taken from it. */
  datatype ArticleIngester = ArticleIngester(config: Dict<Value>, sources: seq<Value>)

  /** A value that Python's `len` accepts and a `for` loop can walk: a list, a dictionary or a string. */
  predicate Iterable(v: Value)
  {
    v.List? || v.Obj? || v.Str?
  }

  /**
   * The entries a `for` loop visits: a list's items, a dictionary's keys,
   * a string's characters (each a one-character string).
   */
  function Entries(v: Value): (es: seq<Value>)
    requires Iterable(v)
    ensures v.List? ==> es == v.items
    ensures v.Obj? ==> |es| == |v.fields| && forall i :: 0 <= i < |es| ==> es[i] == Str(v.fields[i].0)
    ensures v.Str? ==> |es| == |v.s| && forall i :: 0 <= i < |es| ==> es[i] == Str([v.s[i]])
  {
    match v
    case List(items) => items
    case Obj(fields) => seq(|fields|, i requires 0 <= i < |fields| => Str(fields[i].0))
    case Str(s) => seq(|s|, i requires 0 <= i < |s| => Str([s[i]]))
  }

  /**
   * `ArticleIngester(config)`: `sources` is `config.get("sources", [])`,
   * whose length is logged, so it must be a list, a dictionary or a string.
   * The entries are those the fetch loop walks: the list in order, or empty
   * when the key is absent.
   */
  function NewIngester(config: Dict<Value>): (ing: ArticleIngester)
    requires Get(config, "sources").Some? ==> Iterable(Get(config, "sources").value)
    ensures ing.config == config
    ensures Get(config, "sources").None? ==> ing.sources == []
    ensures Get(config, "sources").Some? && Get(config, "sources").value.List? ==>
      Get(config, "sources") == Some(List(ing.sources))
    ensures Get(config, "sources").Some? && !Get(config, "sources").value.List? ==>
      forall i :: 0 <= i < |ing.sources| ==> !ing.sources[i].Obj?
    ensures Get(config, "sources").Some? ==> ing.sources == Entries(Get(config, "sources").value)
  {
    ArticleIngester(config, Entries(GetOr(config, "sources", List([]))))
  }

  /**
   * A source entry the fetch loop can handle: `fetch_all` logs
   * `source_config.get('name')` after every fetch and in its error handler,
   * so an entry that is not a dictionary makes it raise.
   */
  predicate SourceEntriesAreDicts(sources: seq<Value>)
  {
    forall i :: 0 <= i < |sources| ==> sources[i].Obj?
  }

  /** What one source adds to the result: its articles, or none when its fetch raised. */
  function Contribution(r: FetchResult): seq<Article>
  {
    match r
    case Fetched(articles) => articles
    case Raised(_) => []
  }

  /**
   * The articles gathered from `sources`, in source order: each source's
   * articles, and nothing for a source whose fetch raised.
   */
  function Gathered(sources: seq<Value>, fetch: Value -> FetchResult): seq<Article>
  {
    if sources == [] then []
    else Gathered(sources[..|sources| - 1], fetch) + Contribution(fetch(sources[|sources| - 1]))
  }

  /**
   * `fetch_all`: asks every source in turn; a source whose fetch raises is
   * skipped and the loop goes on with the next one. An entry that is not a
   * dictionary makes the call itself raise (`None`), whatever the fetch does.
   */
  method FetchAll(ing: ArticleIngester, fetch: Value -> FetchResult) returns (all: Option<seq<Article>>)
    ensures all.None? <==> !SourceEntriesAreDicts(ing.sources)
    ensures all.Some? ==> all.value == Gathered(ing.sources, fetch)
    ensures ing.sources == [] ==> all == Some([])
  {
    var gathered := [];
    for i := 0 to |ing.sources|
      invariant forall j :: 0 <= j < i ==> ing.sources[j].Obj?
      invariant gathered == Gathered(ing.sources[..i], fetch)
    {
      if !ing.sources[i].Obj? {
        return None;
      }
      assert ing.sources[..i + 1][..i] == ing.sources[..i];
      match fetch(ing.sources[i])
      case Fetched(articles) =>
        gathered := gathered + articles;
      case Raised(_) =>
    }
    assert ing.sources[..|ing.sources|] == ing.sources;
    all := Some(gathered);
  }

  /** A non-empty dictionary or string under `sources` makes `fetch_all` raise. */
  lemma NonListSourcesRaise(config: Dict<Value>)
    requires Get(config, "sources").Some?
    requires || (Get(config, "sources").value.Obj? && |Get(config, "sources").value.fields| > 0)
             || (Get(config, "sources").value.Str? && |Get(config, "sources").value.s| > 0)
    ensures !SourceEntriesAreDicts(NewIngester(config).sources)
  {
    var es := NewIngester(config).sources;
    assert !es[0].Obj?;
  }

  /** Gathering from two lists of sources one after the other concatenates the results. */
  lemma {:induction false} GatheredConcat(front: seq<Value>, back: seq<Value>, fetch: Value -> FetchResult)
    ensures Gathered(front + back, fetch) == Gathered(front, fetch) + Gathered(back, fetch)
  {
    if back != [] {
      var all := front + back;
      assert all[..|all| - 1] == front + back[..|back| - 1];
      GatheredConcat(front, back[..|back| - 1], fetch);
    } else {
      assert front + back == front;
    }
  }

  /**
   * A source that raises contributes nothing, and the sources after it are
   * still fetched.
   */
  lemma RaisingSourceSkipped(before: seq<Value>, source: Value, after: seq<Value>, fetch: Value -> FetchResult)
    requires fetch(source).Raised?
    ensures Gathered(before + [source] + after, fetch) == Gathered(before, fetch) + Gathered(after, fetch)
  {
    GatheredConcat(before + [source], after, fetch);
    assert (before + [source])[..|before|] == before;
  }

  /**
   * An article is gathered exactly when some source that did not raise
   * returned it.
   */
  lemma {:induction false} GatheredMembers(sources: seq<Value>, fetch: Value -> FetchResult, a: Article)
    ensures a in Gathered(sources, fetch) <==>
      exists i :: 0 <= i < |sources| && a in Contribution(fetch(sources[i]))
  {
    if sources != [] {
      var n := |sources| - 1;
      var front := sources[..n];
      GatheredMembers(front, fetch, a);
      assert forall i :: 0 <= i < n ==> front[i] == sources[i];
    }
  }

  /**
   * `fetch_from_source` as it stands: looking up the name of an entry that
   * is not a dictionary raises; a dictionary yields no articles, since the
   * fetching itself is still a placeholder.
   */
  function FetchAsWritten(source: Value): (r: FetchResult)
    ensures r.Fetched? <==> source.Obj?
    ensures r.Fetched? ==> r.articles == []
  {
    if source.Obj? then Fetched([])
    else Raised("object has no attribute 'get'")
  }

  /** With the placeholder fetch, nothing is ever gathered. */
  lemma {:induction false} GatheredAsWrittenEmpty(sources: seq<Value>)
    ensures Gathered(sources, FetchAsWritten) == []
  {
    if sources != [] {
      GatheredAsWrittenEmpty(sources[..|sources| - 1]);
    }
  }
}
