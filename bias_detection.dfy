/**
 * Bias indicators, the detector that composes the three checks, and the
 * transparency report (backend/pipeline/bias_detection.py). The three
 * checks are placeholders in the source: each declines an article without
 * content and otherwise finds nothing yet.
 */
module BiasDetection {
  import opened Common
  import opened Ingestion

  /** A detected bias indicator. */
  datatype BiasIndicator = BiasIndicator(
    indicatorType: string,
    description: string,
    confidence: string,
    examples: seq<string>)

  /** The keys of `BiasIndicator.to_dict`, in order. */
  const IndicatorKeys: seq<string> := ["type", "description", "confidence", "examples"]

  /** `BiasIndicator.to_dict`: the indicator type under "type", the other fields under their own names. */
  function IndicatorToDict(ind: BiasIndicator): (d: Value)
    ensures d.Obj? && KeysOf(d.fields) == IndicatorKeys
    ensures Field(d, "type") == Some(Str(ind.indicatorType))
    ensures Field(d, "description") == Some(Str(ind.description))
    ensures Field(d, "confidence") == Some(Str(ind.confidence))
    ensures Field(d, "examples") == Some(StrList(ind.examples))
  {
    var fields := [
      ("type", Str(ind.indicatorType)),
      ("description", Str(ind.description)),
      ("confidence", Str(ind.confidence)),
      ("examples", StrList(ind.examples))];
    Fields4(fields);
    Obj(fields)
  }

  /** Reads an indicator back from its dictionary form. */
  function IndicatorFromDict(d: Value): Option<BiasIndicator>
  {
    var indicatorType := StrField(d, "type");
    var description := StrField(d, "description");
    var confidence := StrField(d, "confidence");
    var examples := if Field(d, "examples").Some? then AsStrList(Field(d, "examples").value) else None;
    if indicatorType.Some? && description.Some? && confidence.Some? && examples.Some? then
      Some(BiasIndicator(indicatorType.value, description.value, confidence.value, examples.value))
    else
      None
  }

  /** `to_dict` loses nothing: the indicator can be read back from it. */
  lemma IndicatorDictRoundTrip(ind: BiasIndicator)
    ensures IndicatorFromDict(IndicatorToDict(ind)) == Some(ind)
  {
    StrListRoundTrip(ind.examples);
  }

  /**
   * A detector: its configuration and the rule tables loaded for it. The
   * configuration is only stored, so it may be any value (an empty
   * configuration file gives `None`).
   */
  datatype BiasDetector = BiasDetector(
    config: Value,
    loadedWords: set<string>,
    attributionPatterns: seq<string>)

  /** `_load_loaded_words`: loading from configuration is not implemented; the word set is empty. */
  function LoadLoadedWords(config: Value): (words: set<string>)
    ensures words == {}
  {
    {}
  }

  /** `_load_attribution_patterns`: loading is not implemented; the pattern list is empty. */
  function LoadAttributionPatterns(config: Value): (patterns: seq<string>)
    ensures patterns == []
  {
    []
  }

  /** `BiasDetector(config)`: keeps the configuration and loads both rule tables. */
  function NewDetector(config: Value): (d: BiasDetector)
    ensures d.config == config
    ensures d.loadedWords == {} && d.attributionPatterns == []
  {
    BiasDetector(config, LoadLoadedWords(config), LoadAttributionPatterns(config))
  }

  /** Python's `not article.content` is false: the content is present and non-empty. */
  predicate HasContent(a: Article)
  {
    a.content.Some? && a.content.value != ""
  }

  /** `not article.content` holds exactly when the content is `None` or the empty string. */
  lemma ContentTruthiness(a: Article)
    ensures !HasContent(a) <==> a.content == None || a.content == Some("")
  {
  }

  /**
   * `_check_loaded_language`: declines an article without content; the
   * detection itself is not implemented, so nothing is found.
   */
  function CheckLoadedLanguage(d: BiasDetector, a: Article): (r: Option<BiasIndicator>)
    ensures !HasContent(a) ==> r.None?
    ensures r.None?
  {
    if !HasContent(a) then None else None
  }

  /** `_check_attribution`: as `CheckLoadedLanguage`, for attribution quality. */
  function CheckAttribution(d: BiasDetector, a: Article): (r: Option<BiasIndicator>)
    ensures !HasContent(a) ==> r.None?
    ensures r.None?
  {
    if !HasContent(a) then None else None
  }

  /** `_check_framing`: as `CheckLoadedLanguage`, for framing. */
  function CheckFraming(d: BiasDetector, a: Article): (r: Option<BiasIndicator>)
    ensures !HasContent(a) ==> r.None?
    ensures r.None?
  {
    if !HasContent(a) then None else None
  }

  /** The indicators present among check results, in the order of the checks. */
  function Present(results: seq<Option<BiasIndicator>>): (inds: seq<BiasIndicator>)
    ensures |inds| <= |results|
    ensures forall ind :: ind in inds <==> Some(ind) in results
    ensures (forall i :: 0 <= i < |results| ==> results[i].None?) <==> inds == []
  {
    if results == [] then []
    else
      var rest := Present(results[1..]);
      assert forall ind :: Some(ind) in results <==> Some(ind) == results[0] || Some(ind) in results[1..];
      assert forall i :: 1 <= i < |results| ==> results[i] == results[1..][i - 1];
      match results[0]
      case Some(ind) => [ind] + rest
      case None => rest
  }

  /** The results of the three checks, in the order `detect_bias` runs them. */
  function CheckResults(d: BiasDetector, a: Article): seq<Option<BiasIndicator>>
  {
    [CheckLoadedLanguage(d, a), CheckAttribution(d, a), CheckFraming(d, a)]
  }

  /** What `detect_bias` returns: the indicators the three checks found, in check order. */
  function Indicators(d: BiasDetector, a: Article): seq<BiasIndicator>
  {
    Present(CheckResults(d, a))
  }

  /**
   * The appending part of `detect_bias`: each check result that holds an
   * indicator is appended, in the order loaded language, attribution,
   * framing.
   */
  method CollectIndicators(
    loadedLanguage: Option<BiasIndicator>,
    attribution: Option<BiasIndicator>,
    framing: Option<BiasIndicator>)
    returns (indicators: seq<BiasIndicator>)
    ensures indicators == Present([loadedLanguage, attribution, framing])
    ensures |indicators| <= 3
  {
    indicators := [];
    if loadedLanguage.Some? {
      indicators := indicators + [loadedLanguage.value];
    }
    if attribution.Some? {
      indicators := indicators + [attribution.value];
    }
    if framing.Some? {
      indicators := indicators + [framing.value];
    }
  }

  /** `detect_bias`: runs the three checks in turn and collects what they found. */
  method DetectBias(d: BiasDetector, a: Article) returns (indicators: seq<BiasIndicator>)
    ensures indicators == Indicators(d, a)
  {
    var loadedLanguage := CheckLoadedLanguage(d, a);
    var attribution := CheckAttribution(d, a);
    var framing := CheckFraming(d, a);
    indicators := CollectIndicators(loadedLanguage, attribution, framing);
  }

  /**
   * With the checks as they stand, no article receives an indicator; in
   * particular an article without content never does.
   */
  lemma NoIndicatorsYet(d: BiasDetector, a: Article)
    ensures Indicators(d, a) == []
  {
  }

  /** The types of a list of indicators, in order. */
  function TypesOf(inds: seq<BiasIndicator>): (ts: seq<string>)
    ensures |ts| == |inds|
    ensures forall i :: 0 <= i < |inds| ==> ts[i] == inds[i].indicatorType
  {
    if inds == [] then [] else TypesOf(inds[..|inds| - 1]) + [inds[|inds| - 1].indicatorType]
  }

  /** The types of a list one indicator longer. */
  lemma TypesOfStep(inds: seq<BiasIndicator>, j: nat)
    requires j < |inds|
    ensures TypesOf(inds[..j + 1]) == TypesOf(inds[..j]) + [inds[j].indicatorType]
  {
    assert inds[..j + 1][..j] == inds[..j];
  }

  /** The types of every indicator in a per-article map, in iteration order. */
  function AllTypes(m: seq<(string, seq<BiasIndicator>)>): seq<string>
  {
    if m == [] then []
    else AllTypes(m[..|m| - 1]) + TypesOf(m[|m| - 1].1)
  }

  /** The total number of indicators in a per-article map. */
  function IndicatorTotal(m: seq<(string, seq<BiasIndicator>)>): nat
  {
    if m == [] then 0
    else IndicatorTotal(m[..|m| - 1]) + |m[|m| - 1].1|
  }

  /**
   * The per-type counts that the report builds in place: one increment of
   * `counts.get(t, 0)` per occurrence, in order.
   */
  function Tally(ts: seq<string>): Dict<nat>
  {
    if ts == [] then [] else Increment(Tally(ts[..|ts| - 1]), ts[|ts| - 1])
  }

  /** `counts[t] = counts.get(t, 0) + 1`. */
  function Increment(counts: Dict<nat>, t: string): Dict<nat>
  {
    var n: nat := GetOr(counts, t, 0) + 1;
    Put(counts, t, n)
  }

  /** An increment adds its type as a key. */
  lemma IncrementKeys(counts: Dict<nat>, t: string)
    ensures Keys(Increment(counts, t)) == Keys(counts) + {t}
  {
  }

  /** An increment raises the count of its type by one and leaves the others. */
  lemma IncrementCounts(counts: Dict<nat>, t: string, u: string)
    ensures GetOr(Increment(counts, t), u, 0) == GetOr(counts, u, 0) + (if u == t then 1 else 0)
  {
    var n: nat := GetOr(counts, t, 0) + 1;
    var r := Put(counts, t, n);
    assert Increment(counts, t) == r;
    assert Get(r, u) == if u == t then Some(n) else Get(counts, u) by {
      PutGet(counts, t, n, u);
    }
  }

  /** An increment raises the sum of the counts by one. */
  lemma IncrementSum(counts: Dict<nat>, t: string)
    ensures SumCounts(Increment(counts, t)) == SumCounts(counts) + 1
  {
    var n: nat := GetOr(counts, t, 0) + 1;
    var r := Put(counts, t, n);
    assert Increment(counts, t) == r;
    assert SumCounts(r) + GetOr(counts, t, 0) == SumCounts(counts) + n by {
      SumAfterPut(counts, t, n);
    }
  }

  /** The sum of the counts in a dictionary of counts. */
  function SumCounts(d: seq<(string, nat)>): nat
  {
    if d == [] then 0 else d[0].1 + SumCounts(d[1..])
  }

  /** The transparency report. */
  datatype TransparencyReport = TransparencyReport(
    totalArticles: nat,
    articlesWithIndicators: nat,
    indicatorTypes: Dict<nat>,
    sourceBreakdown: Dict<Value>)

  /** Counting one more occurrence of `t`. */
  lemma TallyStep(ts: seq<string>, t: string)
    ensures Tally(ts + [t]) == Increment(Tally(ts), t)
  {
    assert (ts + [t])[..|ts|] == ts;
  }

  /** The types of one more per-article entry. */
  lemma AllTypesStep(m: seq<(string, seq<BiasIndicator>)>, i: nat)
    requires i < |m|
    ensures AllTypes(m[..i + 1]) == AllTypes(m[..i]) + TypesOf(m[i].1)
  {
    assert m[..i + 1][..i] == m[..i];
  }

  /**
   * The inner loop of `generate_transparency_report`: increments the count
   * of each indicator's type, in order.
   */
  method CountTypes(counts: Dict<nat>, ghost seen: seq<string>, indicators: seq<BiasIndicator>)
    returns (updated: Dict<nat>)
    requires counts == Tally(seen)
    ensures updated == Tally(seen + TypesOf(indicators))
  {
    updated := counts;
    ghost var counted := seen;
    assert TypesOf(indicators[..0]) == [];
    for j := 0 to |indicators|
      invariant counted == seen + TypesOf(indicators[..j])
      invariant updated == Tally(counted)
    {
      var t := indicators[j].indicatorType;
      TallyStep(counted, t);
      updated := Increment(updated, t);
      TypesOfStep(indicators, j);
      assert seen + (TypesOf(indicators[..j]) + [t]) == (seen + TypesOf(indicators[..j])) + [t];
      counted := counted + [t];
    }
    assert indicators[..|indicators|] == indicators;
  }

  /**
   * `generate_transparency_report`: counts the articles and the map's keys,
   * then walks every indicator list and increments the count of each
   * indicator's type. The source breakdown stays empty.
   */
  method GenerateTransparencyReport(
    d: BiasDetector,
    articles: seq<Article>,
    indicatorsPerArticle: Dict<seq<BiasIndicator>>)
    returns (report: TransparencyReport)
    ensures report.totalArticles == |articles|
    ensures report.articlesWithIndicators == |Keys(indicatorsPerArticle)|
    ensures report.indicatorTypes == Tally(AllTypes(indicatorsPerArticle))
    ensures report.sourceBreakdown == []
  {
    KeyCount(indicatorsPerArticle);
    var counts: Dict<nat> := [];
    for i := 0 to |indicatorsPerArticle|
      invariant counts == Tally(AllTypes(indicatorsPerArticle[..i]))
    {
      AllTypesStep(indicatorsPerArticle, i);
      counts := CountTypes(counts, AllTypes(indicatorsPerArticle[..i]), indicatorsPerArticle[i].1);
    }
    assert indicatorsPerArticle[..|indicatorsPerArticle|] == indicatorsPerArticle;
    report := TransparencyReport(|articles|, |indicatorsPerArticle|, counts, []);
  }

  /** The number of occurrences of `t` in `ts`. */
  function Occurrences(ts: seq<string>, t: string): nat
  {
    if ts == [] then 0
    else Occurrences(ts[..|ts| - 1], t) + (if ts[|ts| - 1] == t then 1 else 0)
  }

  /** Each type's count in the tally is its number of occurrences. */
  lemma {:induction false} TallyOccurrences(ts: seq<string>, u: string)
    ensures GetOr(Tally(ts), u, 0) == Occurrences(ts, u)
  {
    if ts != [] {
      var front := ts[..|ts| - 1];
      var t := ts[|ts| - 1];
      TallyOccurrences(front, u);
      assert Tally(ts) == Increment(Tally(front), t);
      IncrementCounts(Tally(front), t, u);
    }
  }

  /** The tally counts exactly the types that occur. */
  lemma {:induction false} TallyKeys(ts: seq<string>)
    ensures forall t :: t in Keys(Tally(ts)) <==> t in ts
  {
    if ts != [] {
      var front := ts[..|ts| - 1];
      var last := ts[|ts| - 1];
      TallyKeys(front);
      assert ts == front + [last];
      assert Tally(ts) == Increment(Tally(front), last);
      IncrementKeys(Tally(front), last);
    }
  }

  /** The counts of the tally add up to the number of occurrences counted. */
  lemma {:induction false} TallySum(ts: seq<string>)
    ensures SumCounts(Tally(ts)) == |ts|
  {
    if ts != [] {
      var front := ts[..|ts| - 1];
      TallySum(front);
      assert Tally(ts) == Increment(Tally(front), ts[|ts| - 1]);
      IncrementSum(Tally(front), ts[|ts| - 1]);
    }
  }

  /** Assigning `v` to `k` replaces the count held under `k` (none counts as 0) by `v` in the sum. */
  lemma {:induction false} SumAfterPut(d: Dict<nat>, k: string, v: nat)
    ensures SumCounts(Put(d, k, v)) + GetOr(d, k, 0) == SumCounts(d) + v
  {
    if d == [] {
      assert Put(d, k, v) == [(k, v)];
    } else if d[0].0 == k {
      assert Put(d, k, v) == [(k, v)] + d[1..];
      assert Put(d, k, v)[1..] == d[1..];
    } else {
      var tail: Dict<nat> := d[1..];
      SumAfterPut(tail, k, v);
      assert Put(d, k, v) == [d[0]] + Put(tail, k, v);
      assert Put(d, k, v)[1..] == Put(tail, k, v);
      assert GetOr(d, k, 0) == GetOr(tail, k, 0);
    }
  }

  /** Every indicator in the map contributes its type once. */
  lemma {:induction false} AllTypesCount(m: seq<(string, seq<BiasIndicator>)>)
    ensures |AllTypes(m)| == IndicatorTotal(m)
  {
    if m != [] {
      AllTypesCount(m[..|m| - 1]);
    }
  }

  /**
   * The report's counts: each type's count is the number of indicators of
   * that type across all lists, the keys are exactly the occurring types,
   * and the counts add up to the total number of indicators.
   */
  lemma ReportCounts(m: seq<(string, seq<BiasIndicator>)>)
    ensures forall t :: GetOr(Tally(AllTypes(m)), t, 0) == Occurrences(AllTypes(m), t)
    ensures forall t :: t in Keys(Tally(AllTypes(m))) <==> t in AllTypes(m)
    ensures SumCounts(Tally(AllTypes(m))) == IndicatorTotal(m)
  {
    forall t ensures GetOr(Tally(AllTypes(m)), t, 0) == Occurrences(AllTypes(m), t) {
      TallyOccurrences(AllTypes(m), t);
    }
    TallyKeys(AllTypes(m));
    TallySum(AllTypes(m));
    AllTypesCount(m);
  }
}
