/** The Google results-page collector without its network call: turning a
    search-results record into citation records (AI overview sources,
    featured snippet, "people also ask" answers, knowledge-panel sources and
    organic results), the prominence each kind of citation gets, and picking
    out the citations of competitor domains. */
module GoogleSerp {
  import opened Text
  import opened Tally
  import opened Records
  import opened Url

  /** A dictionary of text fields of the results record; a missing key reads as "". */
  type Fields = map<string, string>

  function Field(d: Fields, key: string): string {
    if key in d then d[key] else ""
  }

  datatype AiOverview = AiOverview(fields: Fields, sources: Option<seq<Fields>>)
  datatype Question = Question(fields: Fields, snippet: Option<Fields>)
  datatype KnowledgeGraph = KnowledgeGraph(fields: Fields, source: Option<Fields>, sources: Option<seq<Fields>>)
  datatype Organic = Organic(fields: Fields, position: Option<int>)

  /** The parts of the results record the collector reads; None marks a missing key. */
  datatype SerpResults = SerpResults(
    aiOverview: Option<AiOverview>,
    answerBox: Option<Fields>,
    relatedQuestions: Option<seq<Question>>,
    knowledgeGraph: Option<KnowledgeGraph>,
    organicResults: Option<seq<Organic>>)

  /** _extract_domain: the lower-cased network location, "" for an empty URL. */
  function Domain(url: string): (r: string)
    ensures url == "" ==> r == ""
    ensures IsLowered(r)
    ensures forall k | 0 <= k < |r| :: !EndsNetloc(r[k])
  {
    if url == "" then ""
    else
      var r := Lower(Netloc(url));
      LowerIsLowered(Netloc(url));
      assert forall k | 0 <= k < |r| :: r[k] == LowerChar(Netloc(url)[k]);
      r
  }

  lemma DomainOfAbsolute(scheme: string, host: string, tail: string)
    requires |scheme| > 0 && IsAsciiLetter(scheme[0]) && AllSchemeChars(scheme)
    requires forall k | 0 <= k < |host| :: !EndsNetloc(host[k])
    requires tail == "" || EndsNetloc(tail[0])
    ensures Domain(scheme + "://" + host + tail) == Lower(host)
  {
    NetlocOfAbsolute(scheme, host, tail);
  }

  /** _calculate_ai_overview_prominence. */
  function AiOverviewProminence(position: int, totalSources: int): (r: real)
    ensures totalSources == 0 ==> r == 0.0
    ensures totalSources != 0 ==> r >= 0.1
    ensures totalSources != 0 && position >= 0 ==> r <= 1.0
  {
    if totalSources == 0 then 0.0
    else
      var score := 0.9 - (position - 1) as real * 0.1;
      if score > 0.1 then score else 0.1
  }

  /** The collector passes the 0-based index as the position, so the first
      source scores 1.0, the second 0.9, and later sources never score more
      than earlier ones. */
  lemma AiOverviewProminenceOrder(i: int, j: int, total: int)
    requires total > 0 && 0 <= i <= j
    ensures AiOverviewProminence(0, total) == 1.0
    ensures AiOverviewProminence(1, total) == 0.9
    ensures AiOverviewProminence(i, total) >= AiOverviewProminence(j, total)
  {
  }

  /** _calculate_paa_prominence. */
  function PaaProminence(position: int): (r: real)
    ensures r >= 0.1
    ensures position >= 0 ==> r <= 0.6
  {
    var score := 0.6 - position as real * 0.05;
    if score > 0.1 then score else 0.1
  }

  lemma PaaProminenceOrder(i: int, j: int)
    requires i <= j
    ensures PaaProminence(i) >= PaaProminence(j)
    ensures PaaProminence(0) == 0.6
    ensures j >= 10 ==> PaaProminence(j) == 0.1
  {
  }

  /** _calculate_organic_prominence. */
  function OrganicProminence(position: int): (r: real)
    ensures position >= 1 ==> 0.1 <= r <= 0.5
    ensures position > 10 ==> r == 0.1
  {
    if position <= 3 then 0.5 - (position - 1) as real * 0.1
    else if position <= 10 then 0.3 - (position - 4) as real * 0.02
    else 0.1
  }

  /** Organic prominence never rises as the position gets worse. */
  lemma OrganicProminenceOrder(i: int, j: int)
    requires i <= j
    ensures OrganicProminence(i) >= OrganicProminence(j)
    ensures OrganicProminence(1) == 0.5 && OrganicProminence(3) == 0.3 && OrganicProminence(4) == 0.3
    ensures OrganicProminence(10) == 0.18
  {
  }

  function AiOverviewHit(query: string, ai: AiOverview, s: Fields, idx: nat, total: nat): (h: Hit)
    ensures h.engine == "google" && h.query == query && Section(h.citationType) == 0 && h.citationType == "ai_overview"
    ensures h.position == idx + 1 && h.prominence == AiOverviewProminence(idx, total)
  {
    Hit("google", query, Field(s, "link"), Field(s, "title"), Field(s, "snippet"), idx + 1,
        "ai_overview", Domain(Field(s, "link")), AiOverviewProminence(idx, total),
        [("ai_overview_text", Str(Field(ai.fields, "text"))), ("source_index", Int(idx)), ("total_sources", Int(total))])
  }

  /** _extract_ai_overview_citations: one citation per AI overview source, in order. */
  function AiOverviewCitations(results: SerpResults, query: string): (r: seq<Hit>)
    ensures results.aiOverview.None? || results.aiOverview.value.sources.None? ==> r == []
    ensures results.aiOverview.Some? && results.aiOverview.value.sources.Some? ==>
      |r| == |results.aiOverview.value.sources.value|
    ensures forall k | 0 <= k < |r| ::
      r[k].citationType == "ai_overview" && r[k].position == k + 1 && 0.1 <= r[k].prominence <= 1.0
    ensures |r| > 0 ==> r[0].prominence == 1.0
    ensures forall i, j | 0 <= i <= j < |r| :: r[i].prominence >= r[j].prominence
    ensures Sectioned(r, query, 0)
  {
    match results.aiOverview
      case None => []
      case Some(ai) =>
        match ai.sources
          case None => []
          case Some(sources) =>
            var r := seq(|sources|, k requires 0 <= k < |sources| => AiOverviewHit(query, ai, sources[k], k, |sources|));
            assert forall i, j | 0 <= i <= j < |r| :: r[i].prominence >= r[j].prominence by {
              forall i, j | 0 <= i <= j < |r| ensures r[i].prominence >= r[j].prominence {
                AiOverviewProminenceOrder(i, j, |sources|);
              }
            }
            r
  }

  /** _extract_featured_snippet_citations: the answer box, when there is one,
      as a single citation at position 0 with full prominence. */
  function FeaturedSnippetCitations(results: SerpResults, query: string): (r: seq<Hit>)
    ensures results.answerBox.None? <==> r == []
    ensures results.answerBox.Some? ==>
      |r| == 1 && r[0].position == 0 && r[0].prominence == 1.0 && r[0].citationType == "featured_snippet"
      && r[0].url == Field(results.answerBox.value, "link") && r[0].sourceDomain == Domain(r[0].url)
    ensures Sectioned(r, query, 1)
  {
    match results.answerBox
      case None => []
      case Some(b) =>
        [Hit("google", query, Field(b, "link"), Field(b, "title"), Field(b, "snippet"), 0,
             "featured_snippet", Domain(Field(b, "link")), 1.0,
             [("snippet_type", Str(Field(b, "type"))), ("displayed_link", Str(Field(b, "displayed_link")))])]
  }

  function PaaHit(query: string, q: Question, idx: nat): (h: Hit)
    requires q.snippet.Some?
    ensures h.engine == "google" && h.query == query && Section(h.citationType) == 2 && h.citationType == "people_also_ask"
    ensures h.position == idx + 1 && h.prominence == PaaProminence(idx)
  {
    var s := q.snippet.value;
    Hit("google", query, Field(s, "link"), Field(s, "title"), Field(s, "snippet"), idx + 1,
        "people_also_ask", Domain(Field(s, "link")), PaaProminence(idx),
        [("question", Str(Field(q.fields, "question"))), ("paa_index", Int(idx))])
  }

  /** The indices, from `from` on, of the questions that carry an answer snippet, in increasing order. */
  function SnippetIndices(qs: seq<Question>, from: nat): (r: seq<nat>)
    requires from <= |qs|
    ensures forall k | 0 <= k < |r| :: from <= r[k] < |qs| && qs[r[k]].snippet.Some?
    ensures forall i, j | 0 <= i < j < |r| :: r[i] < r[j]
    ensures forall idx | from <= idx < |qs| && qs[idx].snippet.Some? :: idx in r
    decreases |qs| - from
  {
    if from == |qs| then []
    else
      var rest := SnippetIndices(qs, from + 1);
      if qs[from].snippet.Some? then [from] + rest else rest
  }

  /** The "people also ask" citations of a question list. */
  function PaaList(qs: seq<Question>, query: string): (r: seq<Hit>)
    ensures |r| == |SnippetIndices(qs, 0)|
    ensures forall k | 0 <= k < |r| :: r[k].position == SnippetIndices(qs, 0)[k] + 1
    ensures forall k | 0 <= k < |r| ::
      1 <= r[k].position <= |qs| && qs[r[k].position - 1].snippet.Some?
      && r[k].prominence == PaaProminence(r[k].position - 1)
    ensures Sectioned(r, query, 2)
  {
    var ix := SnippetIndices(qs, 0);
    var r := seq(|ix|, k requires 0 <= k < |ix| => PaaHit(query, qs[ix[k]], ix[k]));
    assert forall k | 0 <= k < |r| :: r[k] == PaaHit(query, qs[ix[k]], ix[k]);
    r
  }

  /** The "people also ask" citations come in question order, and every
      question with an answer snippet yields one, at its own 1-based place. */
  lemma PaaListOrder(qs: seq<Question>, query: string)
    ensures forall i, j | 0 <= i < j < |PaaList(qs, query)| :: PaaList(qs, query)[i].position < PaaList(qs, query)[j].position
    ensures forall idx | 0 <= idx < |qs| && qs[idx].snippet.Some? ::
      exists k | 0 <= k < |PaaList(qs, query)| :: PaaList(qs, query)[k].position == idx + 1
  {
    var ix := SnippetIndices(qs, 0);
    var r := PaaList(qs, query);
    forall idx | 0 <= idx < |qs| && qs[idx].snippet.Some? ensures exists k | 0 <= k < |r| :: r[k].position == idx + 1 {
      var k :| 0 <= k < |ix| && ix[k] == idx;
      assert r[k].position == idx + 1;
    }
  }

  /** _extract_people_also_ask_citations: a citation for each question that
      has an answer snippet, at the question's own 1-based place in the list
      (skipped questions still count). */
  function PeopleAlsoAskCitations(results: SerpResults, query: string): (r: seq<Hit>)
    ensures results.relatedQuestions.None? ==> r == []
    ensures results.relatedQuestions.Some? ==> r == PaaList(results.relatedQuestions.value, query)
    ensures forall k | 0 <= k < |r| :: 0.1 <= r[k].prominence <= 0.6
    ensures Sectioned(r, query, 2)
  {
    match results.relatedQuestions
      case None => []
      case Some(qs) => PaaList(qs, query)
  }

  function KgSourceHit(query: string, s: Fields, idx: nat): (h: Hit)
    ensures h.engine == "google" && h.query == query && Section(h.citationType) == 3
    ensures h.citationType == "knowledge_panel_source" && h.snippet == ""
    ensures h.position == idx + 2 && h.prominence == 0.7 - idx as real * 0.1
  {
    Hit("google", query, Field(s, "link"), Field(s, "name"), "", idx + 2,
        "knowledge_panel_source", Domain(Field(s, "link")), KgSourceProminence(idx),
        [("source_type", Str("additional_kg_source")), ("source_index", Int(idx))])
  }

  /** Prominence of the idx-th additional knowledge-panel source: 0.7 - 0.1 idx, with no lower bound. */
  function KgSourceProminence(idx: nat): (r: real)
    ensures r <= 0.7
  {
    0.7 - idx as real * 0.1
  }

  /** Additional knowledge-panel sources reach zero at index 7 and turn negative
      from index 8 on: the prominence is not clamped to [0, 1]. */
  lemma KgSourceProminenceSign(idx: nat)
    ensures KgSourceProminence(idx) < 0.0 <==> idx >= 8
    ensures KgSourceProminence(7) == 0.0
  {
  }

  /** _extract_knowledge_panel_citations: the panel's own source at position 1,
      then each additional source at position idx + 2. */
  function KnowledgePanelCitations(results: SerpResults, query: string): (r: seq<Hit>)
    ensures results.knowledgeGraph.None? ==> r == []
    ensures results.knowledgeGraph.Some? ==>
      var kg := results.knowledgeGraph.value;
      var main := if kg.source.Some? then 1 else 0;
      var extra := if kg.sources.Some? then |kg.sources.value| else 0;
      && |r| == main + extra
      && (main == 1 ==> r[0].position == 1 && r[0].prominence == 0.9 && r[0].citationType == "knowledge_panel"
                        && r[0].title == Field(kg.fields, "title") && r[0].snippet == Field(kg.fields, "description"))
      && (forall k | main <= k < |r| ::
            r[k].position == k - main + 2 && r[k].prominence == 0.7 - (k - main) as real * 0.1
            && r[k].citationType == "knowledge_panel_source" && r[k].snippet == "")
    ensures Sectioned(r, query, 3)
  {
    match results.knowledgeGraph
      case None => []
      case Some(kg) =>
        KgJoin(kg, query);
        KgMainHits(kg, query) + KgSourceHits(kg, query)
  }

  /** The panel's hits, its own source first, then its additional sources. */
  lemma KgJoin(kg: KnowledgeGraph, query: string)
    ensures
      var r := KgMainHits(kg, query) + KgSourceHits(kg, query);
      var main := if kg.source.Some? then 1 else 0;
      var extra := if kg.sources.Some? then |kg.sources.value| else 0;
      && |r| == main + extra
      && (main == 1 ==> r[0].position == 1 && r[0].prominence == 0.9 && r[0].citationType == "knowledge_panel"
                        && r[0].title == Field(kg.fields, "title") && r[0].snippet == Field(kg.fields, "description"))
      && (forall k | main <= k < |r| ::
            r[k].position == k - main + 2 && r[k].prominence == 0.7 - (k - main) as real * 0.1
            && r[k].citationType == "knowledge_panel_source" && r[k].snippet == "")
      && Sectioned(r, query, 3)
  {
    var main := KgMainHits(kg, query);
    var extra := KgSourceHits(kg, query);
    SectionedAppend(main, extra, query, 3);
    var r := main + extra;
    assert |main| == 1 ==> r[0] == main[0];
    assert forall k | |main| <= k < |r| :: r[k] == extra[k - |main|];
  }

  lemma SectionedAppend(a: seq<Hit>, b: seq<Hit>, query: string, s: nat)
    requires Sectioned(a, query, s) && Sectioned(b, query, s)
    ensures Sectioned(a + b, query, s)
  {
    assert forall k | 0 <= k < |a + b| :: (a + b)[k] == if k < |a| then a[k] else b[k - |a|];
  }

  /** The panel's own source, when it names one, as a hit at position 1. */
  function KgMainHits(kg: KnowledgeGraph, query: string): (r: seq<Hit>)
    ensures |r| == if kg.source.Some? then 1 else 0
    ensures |r| == 1 ==> r[0].position == 1 && r[0].prominence == 0.9 && r[0].citationType == "knowledge_panel"
                         && r[0].title == Field(kg.fields, "title") && r[0].snippet == Field(kg.fields, "description")
    ensures Sectioned(r, query, 3)
  {
    match kg.source
      case None => []
      case Some(s) =>
        [Hit("google", query, Field(s, "link"), Field(kg.fields, "title"), Field(kg.fields, "description"), 1,
             "knowledge_panel", Domain(Field(s, "link")), 0.9,
             [("kg_type", Str(Field(kg.fields, "type"))), ("source_name", Str(Field(s, "name")))])]
  }

  /** The panel's additional sources, the idx-th at position idx + 2. */
  function KgSourceHits(kg: KnowledgeGraph, query: string): (r: seq<Hit>)
    ensures |r| == if kg.sources.Some? then |kg.sources.value| else 0
    ensures forall k | 0 <= k < |r| ::
      r[k].position == k + 2 && r[k].prominence == 0.7 - k as real * 0.1
      && r[k].citationType == "knowledge_panel_source" && r[k].snippet == ""
    ensures Sectioned(r, query, 3)
  {
    match kg.sources
      case None => []
      case Some(ss) =>
        var r := seq(|ss|, k requires 0 <= k < |ss| => KgSourceHit(query, ss[k], k));
        assert forall k | 0 <= k < |r| :: r[k] == KgSourceHit(query, ss[k], k);
        r
  }

  function OrganicPosition(o: Organic, idx: nat): int {
    match o.position
      case None => idx + 1
      case Some(p) => p
  }

  function OrganicHit(query: string, o: Organic, idx: nat): (h: Hit)
    ensures h.engine == "google" && h.query == query && Section(h.citationType) == 4 && h.citationType == "organic"
    ensures h.position == OrganicPosition(o, idx) && h.prominence == OrganicProminence(h.position)
    ensures h.url == Field(o.fields, "link")
  {
    var pos := OrganicPosition(o, idx);
    Hit("google", query, Field(o.fields, "link"), Field(o.fields, "title"), Field(o.fields, "snippet"), pos,
        "organic", Domain(Field(o.fields, "link")), OrganicProminence(pos),
        [("displayed_link", Str(Field(o.fields, "displayed_link"))),
         ("cached_page_link", Str(Field(o.fields, "cached_page_link"))),
         ("rich_snippet", Nested)])
  }

  /** _extract_organic_citations with its default of 10 results: the first ten
      organic results, each at its own reported position or else at idx + 1. */
  function OrganicCitations(results: SerpResults, query: string): (r: seq<Hit>)
    ensures results.organicResults.None? ==> r == []
    ensures results.organicResults.Some? ==>
      var os := results.organicResults.value;
      && |r| == (if |os| < 10 then |os| else 10)
      && forall k | 0 <= k < |r| ::
           && r[k].position == (if os[k].position.Some? then os[k].position.value else k + 1)
           && r[k].prominence == OrganicProminence(r[k].position)
           && r[k].url == Field(os[k].fields, "link")
    ensures |r| <= 10
    ensures forall k | 0 <= k < |r| ::
      r[k].citationType == "organic" && (r[k].position >= 1 ==> 0.1 <= r[k].prominence <= 0.5)
    ensures Sectioned(r, query, 4)
  {
    match results.organicResults
      case None => []
      case Some(os) =>
        var top := Take(os, 10);
        seq(|top|, k requires 0 <= k < |top| => OrganicHit(query, top[k], k))
  }

  /** Which section of the results page a citation type comes from, in the
      order the collector reads the sections. */
  function Section(citationType: string): nat {
    if citationType == "ai_overview" then 0
    else if citationType == "featured_snippet" then 1
    else if citationType == "people_also_ask" then 2
    else if citationType == "knowledge_panel" || citationType == "knowledge_panel_source" then 3
    else 4
  }

  /** Every citation is a Google citation for `query` from section s. */
  predicate Sectioned(r: seq<Hit>, query: string, s: nat) {
    forall k | 0 <= k < |r| :: r[k].engine == "google" && r[k].query == query && Section(r[k].citationType) == s
  }

  predicate InSectionOrder(r: seq<Hit>) {
    forall i, j | 0 <= i < j < |r| :: Section(r[i].citationType) <= Section(r[j].citationType)
  }

  lemma SectionedConcat(a: seq<Hit>, f: seq<Hit>, p: seq<Hit>, g: seq<Hit>, o: seq<Hit>, query: string)
    requires Sectioned(a, query, 0) && Sectioned(f, query, 1) && Sectioned(p, query, 2)
    requires Sectioned(g, query, 3) && Sectioned(o, query, 4)
    ensures InSectionOrder(a + f + p + g + o)
    ensures forall k | 0 <= k < |a + f + p + g + o| ::
      (a + f + p + g + o)[k].engine == "google" && (a + f + p + g + o)[k].query == query
  {
    var r := a + f + p + g + o;
    forall k | 0 <= k < |r|
      ensures r[k].engine == "google" && r[k].query == query
      ensures k < |a| ==> Section(r[k].citationType) == 0
      ensures |a| <= k < |a| + |f| ==> Section(r[k].citationType) == 1
      ensures |a| + |f| <= k < |a| + |f| + |p| ==> Section(r[k].citationType) == 2
      ensures |a| + |f| + |p| <= k < |a| + |f| + |p| + |g| ==> Section(r[k].citationType) == 3
      ensures |a| + |f| + |p| + |g| <= k ==> Section(r[k].citationType) == 4
    {
      if k < |a| { assert r[k] == a[k]; }
      else if k < |a| + |f| { assert r[k] == f[k - |a|]; }
      else if k < |a| + |f| + |p| { assert r[k] == p[k - |a| - |f|]; }
      else if k < |a| + |f| + |p| + |g| { assert r[k] == g[k - |a| - |f| - |p|]; }
      else { assert r[k] == o[k - |a| - |f| - |p| - |g|]; }
    }
  }

  /** collect_citations: the citations of every section, section by section in
      page order (AI overview, featured snippet, people also ask, knowledge
      panel, organic). `results` is None when the search itself raised. */
  function CollectCitations(results: Option<SerpResults>, query: string): (r: seq<Hit>)
    ensures results.None? ==> r == []
    ensures results.Some? ==>
      |r| == |AiOverviewCitations(results.value, query)| + |FeaturedSnippetCitations(results.value, query)|
           + |PeopleAlsoAskCitations(results.value, query)| + |KnowledgePanelCitations(results.value, query)|
           + |OrganicCitations(results.value, query)|
    ensures InSectionOrder(r)
    ensures forall k | 0 <= k < |r| :: r[k].engine == "google" && r[k].query == query
  {
    match results
      case None => []
      case Some(res) =>
        var a := AiOverviewCitations(res, query);
        var f := FeaturedSnippetCitations(res, query);
        var p := PeopleAlsoAskCitations(res, query);
        var g := KnowledgePanelCitations(res, query);
        var o := OrganicCitations(res, query);
        SectionedConcat(a, f, p, g, o, query);
        a + f + p + g + o
  }

  function Matches(d: string): Hit -> bool {
    (h: Hit) => h.sourceDomain == Lower(d)
  }

  /** get_competitor_citations over already collected citations: each
      competitor named as given, mapped to exactly the citations whose source
      domain is its lower-cased name, in collection order. */
  function CompetitorCitations(hits: seq<Hit>, competitors: seq<string>): (r: map<string, seq<Hit>>)
    ensures r.Keys == set d | d in competitors
    ensures forall d | d in r :: r[d] == Filter(hits, Matches(d))
    ensures forall d | d in r :: forall k | 0 <= k < |hits| ::
      hits[k].sourceDomain == Lower(d) <==> hits[k] in r[d]
  {
    map d | d in competitors :: Filter(hits, Matches(d))
  }
}
