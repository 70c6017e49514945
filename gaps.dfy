/** The gap finders of the content gap analyser. Each looks at the stored
    citations and the tracked queries from one angle and proposes content
    gaps: queries nobody is cited for, queries whose citations are weak,
    queries competitors dominate, queries under-represented in their topic
    cluster, and question variations nobody asked. */
module Gaps {
  import opened Text
  import opened Tally
  import opened Records
  import opened Heuristics

  datatype GapKind = NoCitations | WeakCitations | CompetitorDominated | TopicClusterGap | QuestionVariation

  /** An identified content gap. `score` is the opportunity score and
      `difficulty` the difficulty score; `volume` is the estimated search
      volume. */
  datatype ContentGap = ContentGap(
    query: string,
    kind: GapKind,
    score: real,
    contentType: string,
    topics: seq<string>,
    competitors: seq<string>,
    volume: int,
    difficulty: real,
    priority: Level,
    related: seq<string>,
    angles: seq<string>,
    effort: Level,
    impact: Level)

  /** The citations found for a query. */
  function QueryCitations(cs: seq<Citation>, q: string): (r: seq<Citation>)
    ensures |r| == Count(Queries(cs), q)
  {
    SelectLength(Queries(cs), cs, q);
    Select(Queries(cs), cs, q)
  }

  /** The distinct source domains cited for a query, in order of first
      appearance. */
  function CompetingDomains(cs: seq<Citation>, q: string): seq<string> {
    Dedup(Domains(QueryCitations(cs, q)))
  }

  // ---------------------------------------------------------------------
  // Queries with no or very few citations

  /** The gap of one tracked query: none when it is cited three times or
      more. */
  function NoCitationGap(cs: seq<Citation>, tracked: seq<string>, q: string): (r: Option<ContentGap>)
    ensures r.Some? <==> Count(Queries(cs), q) < 3
    ensures r.Some? ==> r.value.query == q && r.value.priority == High && r.value.impact == High
    ensures r.Some? ==> r.value.kind == NoCitations || r.value.kind == WeakCitations
  {
    var n := Count(Queries(cs), q);
    if n == 0 then
      Some(ContentGap(q, NoCitations, 0.8, SuggestContentType(q), ExtractTopics(q), [], EstimateSearchVolume(q), 0.2,
                      High, RelatedQueries(q, tracked), SuggestAngles(q, false, false, false), EstimateEffort(q), High))
    else if n <= 2 then
      Some(ContentGap(q, WeakCitations, 0.7, SuggestContentType(q), ExtractTopics(q), CompetingDomains(cs, q),
                      EstimateSearchVolume(q), 0.3, High, RelatedQueries(q, tracked), SuggestAngles(q, false, false, false),
                      EstimateEffort(q), High))
    else None
  }

  /** The gaps of the queries qs, in order. */
  function NoCitationGaps(cs: seq<Citation>, tracked: seq<string>, qs: seq<string>): seq<ContentGap> {
    if qs == [] then []
    else NoCitationGaps(cs, tracked, qs[..|qs| - 1]) + OptionList(NoCitationGap(cs, tracked, qs[|qs| - 1]))
  }

  method FindNoCitationGaps(cs: seq<Citation>, tracked: seq<string>) returns (gaps: seq<ContentGap>)
    ensures gaps == NoCitationGaps(cs, tracked, tracked)
  {
    gaps := [];
    for i := 0 to |tracked|
      invariant gaps == NoCitationGaps(cs, tracked, tracked[..i])
    {
      assert tracked[..i + 1][..i] == tracked[..i];
      var gap := NoCitationGap(cs, tracked, tracked[i]);
      if gap.Some? {
        gaps := gaps + [gap.value];
      }
    }
    assert tracked[..|tracked|] == tracked;
  }

  /** Every domain listed for a query is cited for it. */
  lemma CompetingDomainsSound(cs: seq<Citation>, q: string)
    ensures forall d | d in CompetingDomains(cs, q) ::
      exists i | 0 <= i < |cs| :: cs[i].query == q && cs[i].sourceDomain == d
  {
    SelectMembers(Queries(cs), cs, q);
    forall d | d in CompetingDomains(cs, q)
      ensures exists i | 0 <= i < |cs| :: cs[i].query == q && cs[i].sourceDomain == d
    {
      var data := QueryCitations(cs, q);
      var k :| 0 <= k < |data| && Domains(data)[k] == d;
      assert data[k] in Select(Queries(cs), cs, q);
      var i :| 0 <= i < |cs| && Queries(cs)[i] == q && cs[i] == data[k];
      assert Domains(cs)[i] == d;
    }
  }

  /** Every domain cited for a query is listed, once (`unique()`). */
  lemma CompetingDomainsComplete(cs: seq<Citation>, q: string)
    ensures Distinct(CompetingDomains(cs, q))
    ensures forall i | 0 <= i < |cs| && cs[i].query == q :: cs[i].sourceDomain in CompetingDomains(cs, q)
  {
    SelectComplete(Queries(cs), cs, q);
    var data := QueryCitations(cs, q);
    forall i | 0 <= i < |cs| && cs[i].query == q ensures cs[i].sourceDomain in CompetingDomains(cs, q) {
      assert Queries(cs)[i] == q;
      assert cs[i] in data;
      var k :| 0 <= k < |data| && data[k] == cs[i];
      assert Domains(data)[k] == cs[i].sourceDomain;
    }
  }

  /** An uncited query is a no-citations gap with opportunity 0.8 and
      difficulty 0.2; a query cited once or twice is a weak-citations gap
      with opportunity 0.7 and difficulty 0.3 listing each domain cited for
      it exactly once; a query cited three times or more is no gap. */
  lemma NoCitationGapSpec(cs: seq<Citation>, tracked: seq<string>, q: string)
    ensures var n := Count(Queries(cs), q);
      var g := NoCitationGap(cs, tracked, q);
      && (g.None? <==> n >= 3)
      && (n == 0 ==> g.value.kind == NoCitations && g.value.score == 0.8 && g.value.difficulty == 0.2
                     && g.value.competitors == [])
      && (1 <= n <= 2 ==> g.value.kind == WeakCitations && g.value.score == 0.7 && g.value.difficulty == 0.3
                          && Distinct(g.value.competitors)
                          && (forall d | d in g.value.competitors ::
                                exists i | 0 <= i < |cs| :: cs[i].query == q && cs[i].sourceDomain == d)
                          && (forall i | 0 <= i < |cs| && cs[i].query == q :: cs[i].sourceDomain in g.value.competitors))
  {
    var n := Count(Queries(cs), q);
    if 1 <= n <= 2 {
      CompetingDomainsSound(cs, q);
      CompetingDomainsComplete(cs, q);
    }
  }

  /** A query cited fewer than three times. */
  function Undercited(cs: seq<Citation>): string -> bool {
    q => Count(Queries(cs), q) < 3
  }

  /** The query of each gap. */
  function GapQueries(gs: seq<ContentGap>): (r: seq<string>)
    ensures |r| == |gs| && forall k | 0 <= k < |gs| :: r[k] == gs[k].query
  {
    seq(|gs|, k requires 0 <= k < |gs| => gs[k].query)
  }

  /** One gap per query cited fewer than three times, in the order of the
      queries, each about its query. */
  lemma NoCitationGapsSpec(cs: seq<Citation>, tracked: seq<string>, qs: seq<string>)
    ensures var gs := NoCitationGaps(cs, tracked, qs);
      && |gs| == |Filter(qs, Undercited(cs))|
      && (forall k | 0 <= k < |gs| :: gs[k].query == Filter(qs, Undercited(cs))[k])
      && forall g | g in gs :: g.query in qs && (g.kind == NoCitations || g.kind == WeakCitations)
  {
    var gs := NoCitationGaps(cs, tracked, qs);
    NoCitationGapsQueries(cs, tracked, qs);
    NoCitationGapsKinds(cs, tracked, qs);
    forall g | g in gs ensures g.query in qs {
      var k :| 0 <= k < |gs| && gs[k] == g;
      assert GapQueries(gs)[k] == g.query;
    }
  }

  /** The gaps' queries are the under-cited queries, in order. */
  lemma {:induction false} NoCitationGapsQueries(cs: seq<Citation>, tracked: seq<string>, qs: seq<string>)
    ensures GapQueries(NoCitationGaps(cs, tracked, qs)) == Filter(qs, Undercited(cs))
  {
    if qs != [] {
      var init, q := qs[..|qs| - 1], qs[|qs| - 1];
      NoCitationGapsQueries(cs, tracked, init);
      ButLast(qs);
      FilterAppend(init, [q], Undercited(cs));
      var prev := NoCitationGaps(cs, tracked, init);
      var last := OptionList(NoCitationGap(cs, tracked, q));
      assert NoCitationGaps(cs, tracked, qs) == prev + last;
      NoCitationGapQuery(cs, tracked, q);
      assert GapQueries(prev + last) == GapQueries(prev) + GapQueries(last);
    }
  }

  /** One query gives its own gap exactly when it is under-cited. */
  lemma NoCitationGapQuery(cs: seq<Citation>, tracked: seq<string>, q: string)
    ensures GapQueries(OptionList(NoCitationGap(cs, tracked, q))) == Filter([q], Undercited(cs))
  {
    assert [q][1..] == [];
    assert Filter([q], Undercited(cs)) == if Undercited(cs)(q) then [q] else [];
  }

  /** Every gap found this way is a no-citations or weak-citations gap. */
  lemma {:induction false} NoCitationGapsKinds(cs: seq<Citation>, tracked: seq<string>, qs: seq<string>)
    ensures forall g | g in NoCitationGaps(cs, tracked, qs) :: g.kind == NoCitations || g.kind == WeakCitations
  {
    if qs != [] {
      var init, q := qs[..|qs| - 1], qs[|qs| - 1];
      NoCitationGapsKinds(cs, tracked, init);
      var prev := NoCitationGaps(cs, tracked, init);
      var o := NoCitationGap(cs, tracked, q);
      assert NoCitationGaps(cs, tracked, qs) == prev + OptionList(o);
    }
  }


  // ---------------------------------------------------------------------
  // Queries whose citations are weak

  /** The gap of a cited query whose citations have a mean prominence below
      0.5 and that is cited at least twice. */
  function WeakGap(cs: seq<Citation>, q: string): (r: Option<ContentGap>)
    requires q in Queries(cs)
    ensures r.Some? ==> r.value.query == q && r.value.kind == WeakCitations && r.value.priority == Medium
  {
    var mean := GroupMean(Queries(cs), Prominences(cs), q);
    if mean < 0.5 && Count(Queries(cs), q) >= 2 then
      Some(ContentGap(q, WeakCitations, 0.6 + (0.5 - mean), SuggestContentType(q), ExtractTopics(q), CompetingDomains(cs, q),
                      EstimateSearchVolume(q), 0.4 + mean * 0.4, Medium, [], SuggestAngles(q, true, false, false),
                      EstimateEffort(q), Medium))
    else None
  }

  /** The weak-citation gaps of the queries qs, in order. */
  function WeakGaps(cs: seq<Citation>, qs: seq<string>): seq<ContentGap>
    requires forall q | q in qs :: q in Queries(cs)
  {
    if qs == [] then []
    else WeakGaps(cs, qs[..|qs| - 1]) + OptionList(WeakGap(cs, qs[|qs| - 1]))
  }

  /** The weak-citation gaps of every cited query, taken in order of first
      appearance. */
  function WeakCitationGaps(cs: seq<Citation>): seq<ContentGap> {
    WeakGaps(cs, Dedup(Queries(cs)))
  }

  /** A query is a weak-citation gap exactly when it is cited twice or more
      with a mean prominence below 0.5; with prominences in [0, 1] its
      opportunity lies in (0.6, 1.1] and its difficulty in [0.4, 0.6). */
  lemma WeakGapSpec(cs: seq<Citation>, q: string)
    requires q in Queries(cs)
    ensures WeakGap(cs, q).Some? <==>
      GroupMean(Queries(cs), Prominences(cs), q) < 0.5 && Count(Queries(cs), q) >= 2
    ensures Within(Prominences(cs), 0.0, 1.0) && WeakGap(cs, q).Some? ==>
      && 0.6 < WeakGap(cs, q).value.score <= 1.1
      && 0.4 <= WeakGap(cs, q).value.difficulty < 0.6
  {
    if Within(Prominences(cs), 0.0, 1.0) {
      GroupMeanBounds(Queries(cs), Prominences(cs), q, 0.0, 1.0);
    }
  }

  // ---------------------------------------------------------------------
  // Queries dominated by competitors

  /** The competitor names, lower-cased. */
  function LowerAll(ds: seq<string>): (r: seq<string>)
    ensures |r| == |ds| && forall i | 0 <= i < |ds| :: r[i] == Lower(ds[i])
  {
    seq(|ds|, i requires 0 <= i < |ds| => Lower(ds[i]))
  }

  /** The citations of data whose source domain is one of the competitors. */
  function CompetitorCitations(data: seq<Citation>, lowered: seq<string>): (r: seq<Citation>)
    ensures |r| <= |data|
  {
    Filter(data, (c: Citation) => c.sourceDomain in lowered)
  }

  /** The share of a query's citations that competitors hold. */
  function CompetitorShare(cs: seq<Citation>, q: string, lowered: seq<string>): (share: real)
    requires Count(Queries(cs), q) > 0
    ensures 0.0 <= share <= 1.0
  {
    var data := QueryCitations(cs, q);
    Fraction(|CompetitorCitations(data, lowered)|, |data|)
  }

  /** The gap of a query cited three times or more of whose citations the
      competitors hold at least 60%. */
  function CompetitorGap(cs: seq<Citation>, q: string, lowered: seq<string>, queries: seq<string>): (r: Option<ContentGap>)
    ensures r.Some? ==> r.value.query == q && r.value.kind == CompetitorDominated && r.value.effort == High
  {
    var data := QueryCitations(cs, q);
    if |data| < 3 then None
    else
      var share := CompetitorShare(cs, q, lowered);
      if share >= 0.6 then
        Some(ContentGap(q, CompetitorDominated, 0.5 - share * 0.2, SuggestContentType(q), ExtractTopics(q),
                        Dedup(Domains(data)), EstimateSearchVolume(q), 0.6 + share * 0.3,
                        if share > 0.8 then Low else Medium, RelatedQueries(q, queries),
                        SuggestAngles(q, false, true, false), High, if share < 0.8 then High else Medium))
      else None
  }

  /** The competitor-dominated gaps of the queries qs, in order. */
  function CompetitorGaps(cs: seq<Citation>, lowered: seq<string>, queries: seq<string>, qs: seq<string>): seq<ContentGap> {
    if qs == [] then []
    else CompetitorGaps(cs, lowered, queries, qs[..|qs| - 1]) + OptionList(CompetitorGap(cs, qs[|qs| - 1], lowered, queries))
  }

  /** No competitors, no gaps; otherwise the gaps of every cited query, in
      order of first appearance. */
  function CompetitorDominatedGaps(cs: seq<Citation>, competitors: seq<string>): seq<ContentGap> {
    if competitors == [] then []
    else CompetitorGaps(cs, LowerAll(competitors), Dedup(Queries(cs)), Dedup(Queries(cs)))
  }

  method FindCompetitorDominatedGaps(cs: seq<Citation>, competitors: seq<string>) returns (gaps: seq<ContentGap>)
    ensures gaps == CompetitorDominatedGaps(cs, competitors)
  {
    gaps := [];
    if competitors == [] {
      return;
    }
    var lowered := LowerAll(competitors);
    var queries := Dedup(Queries(cs));
    for i := 0 to |queries|
      invariant gaps == CompetitorGaps(cs, lowered, queries, queries[..i])
    {
      var q := queries[i];
      assert queries[..i + 1][..i] == queries[..i];
      ghost var next := gaps + OptionList(CompetitorGap(cs, q, lowered, queries));
      assert CompetitorGaps(cs, lowered, queries, queries[..i + 1]) == next;
      var data := QueryCitations(cs, q);
      if |data| >= 3 {
        var share := Fraction(|CompetitorCitations(data, lowered)|, |data|);
        assert share == CompetitorShare(cs, q, lowered);
        if share >= 0.6 {
          gaps := gaps + [CompetitorGap(cs, q, lowered, queries).value];
        }
      }
    }
    assert queries[..|queries|] == queries;
  }

  /** A query is competitor-dominated exactly when it has three citations or
      more and the competitors' share is at least 0.6. Then its difficulty
      lies in [0.78, 0.9] and its opportunity in [0.3, 0.38]; its priority
      is low exactly when the share exceeds 0.8, its impact high exactly
      when the share is below 0.8, and its effort is high. */
  lemma CompetitorGapSpec(cs: seq<Citation>, q: string, lowered: seq<string>, queries: seq<string>)
    ensures var g := CompetitorGap(cs, q, lowered, queries);
      && (g.Some? <==> Count(Queries(cs), q) >= 3 && CompetitorShare(cs, q, lowered) >= 0.6)
      && (g.Some? ==>
            var share := CompetitorShare(cs, q, lowered);
            && 0.78 <= g.value.difficulty <= 0.9
            && 0.3 <= g.value.score <= 0.38
            && (g.value.priority == Low <==> share > 0.8)
            && (g.value.impact == High <==> share < 0.8)
            && g.value.effort == High)
  {
  }

  /** At a share of exactly 0.8 both priority and impact are medium. */
  lemma CompetitorShareBoundary(cs: seq<Citation>, q: string, lowered: seq<string>, queries: seq<string>)
    requires Count(Queries(cs), q) >= 3 && CompetitorShare(cs, q, lowered) == 0.8
    ensures CompetitorGap(cs, q, lowered, queries).Some?
    ensures CompetitorGap(cs, q, lowered, queries).value.priority == Medium
    ensures CompetitorGap(cs, q, lowered, queries).value.impact == Medium
  {
  }

  /** Every competitor-dominated gap is about a query of qs. */
  lemma {:induction false} CompetitorGapsSpec(cs: seq<Citation>, lowered: seq<string>, queries: seq<string>, qs: seq<string>)
    ensures |CompetitorGaps(cs, lowered, queries, qs)| <= |qs|
    ensures forall g | g in CompetitorGaps(cs, lowered, queries, qs) ::
      g.query in qs && Count(Queries(cs), g.query) >= 3 && 0.3 <= g.score <= 0.38
      && 0.78 <= g.difficulty <= 0.9
  {
    if qs != [] {
      var init, q := qs[..|qs| - 1], qs[|qs| - 1];
      CompetitorGapsSpec(cs, lowered, queries, init);
      CompetitorGapSpec(cs, q, lowered, queries);
      ButLast(qs);
    }
  }

  // ---------------------------------------------------------------------
  // Queries under-represented in their topic cluster

  /** The number of clusters for a number of tracked queries: a quarter of
      them, at most five. */
  function ClusterCount(total: nat): (n: nat)
    ensures n <= 5 && n <= total / 4
    ensures total >= 10 ==> n >= 2
  {
    if total / 4 < 5 then total / 4 else 5
  }

  /** The tracked queries a clustering put in cluster id; none when the
      clustering does not label every query. */
  function ClusterQueries(tracked: seq<string>, labels: seq<int>, id: int): (r: seq<string>)
    ensures |labels| == |tracked| ==> |r| == Count(labels, id)
  {
    if |labels| != |tracked| then []
    else
      SelectLength(labels, tracked, id);
      Select(labels, tracked, id)
  }

  /** The number of citations of each query, as reals. */
  function CitationCounts(cs: seq<Citation>, qs: seq<string>): (r: seq<real>)
    ensures |r| == |qs| && forall i | 0 <= i < |qs| :: r[i] == Count(Queries(cs), qs[i]) as real
  {
    seq(|qs|, i requires 0 <= i < |qs| => Count(Queries(cs), qs[i]) as real)
  }

  /** A query with fewer than three citations and fewer than half the
      cluster's average. */
  predicate UnderRepresented(n: nat, avg: real) {
    (n as real) < avg * 0.5 && n < 3
  }

  /** The other queries of a cluster. */
  function Others(cluster: seq<string>, q: string): (r: seq<string>)
    ensures forall o | o in r :: o in cluster && o != q
  {
    Filter(cluster, (o: string) => o != q)
  }

  /** A gap of a cluster whose average is avg: a query cited fewer than three
      times and below half the average, with opportunity 0.6 and difficulty
      0.4, and up to three other queries of the cluster as related queries. */
  predicate FitsCluster(cs: seq<Citation>, cluster: seq<string>, avg: real, g: ContentGap) {
    && g.kind == TopicClusterGap
    && UnderRepresented(Count(Queries(cs), g.query), avg)
    && g.score == 0.6 && g.difficulty == 0.4 && |g.related| <= 3
    && forall o | o in g.related :: o in cluster && o != g.query
  }

  function ClusterGap(cs: seq<Citation>, cluster: seq<string>, q: string, avg: real): (r: Option<ContentGap>)
    ensures r.Some? ==> r.value.query == q && FitsCluster(cs, cluster, avg, r.value)
  {
    if UnderRepresented(Count(Queries(cs), q), avg) then
      var others := Others(cluster, q);
      var g := ContentGap(q, TopicClusterGap, 0.6, SuggestContentType(q), ExtractTopics(q), [], EstimateSearchVolume(q), 0.4,
                          Medium, Take(others, 3), SuggestAngles(q, false, false, true), Medium, Medium);
      assert g.related == others[..|g.related|];
      Some(g)
    else None
  }

  /** The gaps of the queries qs of a cluster whose average is avg. */
  function MemberGaps(cs: seq<Citation>, cluster: seq<string>, qs: seq<string>, avg: real): seq<ContentGap> {
    if qs == [] then []
    else MemberGaps(cs, cluster, qs[..|qs| - 1], avg) + OptionList(ClusterGap(cs, cluster, qs[|qs| - 1], avg))
  }

  /** The gaps of one cluster: none for a cluster of fewer than two queries. */
  function ClusterGaps(cs: seq<Citation>, tracked: seq<string>, labels: seq<int>, id: int): seq<ContentGap> {
    var cluster := ClusterQueries(tracked, labels, id);
    if |cluster| < 2 then []
    else MemberGaps(cs, cluster, cluster, Average(cs, cluster))
  }

  /** The average number of citations of the queries of a cluster. */
  function Average(cs: seq<Citation>, cluster: seq<string>): real
    requires |cluster| > 0
  {
    Mean(CitationCounts(cs, cluster))
  }

  /** The topic-cluster gaps: none for fewer than ten tracked queries, or
      when the clustering gives no label for every query; otherwise the gaps
      of each cluster. `labels[i]` is the cluster of `tracked[i]`. */
  function TopicClusterGaps(cs: seq<Citation>, tracked: seq<string>, labels: seq<int>): seq<ContentGap> {
    if |tracked| < 10 || |labels| != |tracked| then []
    else
      var n := ClusterCount(|tracked|);
      if n < 2 then [] else Concat(n, (id: nat) => ClusterGaps(cs, tracked, labels, id))
  }

  /** Every gap of the queries qs of a cluster is about one of them and fits
      the cluster. */
  lemma {:induction false} MemberGapsSpec(cs: seq<Citation>, cluster: seq<string>, qs: seq<string>, avg: real)
    ensures forall g | g in MemberGaps(cs, cluster, qs, avg) :: g.query in qs && FitsCluster(cs, cluster, avg, g)
  {
    if qs != [] {
      var init, q := qs[..|qs| - 1], qs[|qs| - 1];
      MemberGapsSpec(cs, cluster, init, avg);
      ButLast(qs);
    }
  }

  /** A cluster whose queries are all cited equally often has no gap. */
  lemma EvenClusterHasNoGaps(cs: seq<Citation>, tracked: seq<string>, labels: seq<int>, id: int, n: nat)
    requires |labels| == |tracked|
    requires forall q | q in ClusterQueries(tracked, labels, id) :: Count(Queries(cs), q) == n
    ensures ClusterGaps(cs, tracked, labels, id) == []
  {
    var cluster := ClusterQueries(tracked, labels, id);
    if |cluster| >= 2 {
      var counts := CitationCounts(cs, cluster);
      assert forall i | 0 <= i < |counts| :: counts[i] == n as real;
      MeanBounds(counts, n as real, n as real);
      assert Average(cs, cluster) == n as real;
      assert forall q | q in cluster :: !UnderRepresented(Count(Queries(cs), q), n as real);
      NoMemberGaps(cs, cluster, cluster, n as real);
    }
  }

  lemma {:induction false} NoMemberGaps(cs: seq<Citation>, cluster: seq<string>, qs: seq<string>, avg: real)
    requires forall q | q in qs :: !UnderRepresented(Count(Queries(cs), q), avg)
    ensures MemberGaps(cs, cluster, qs, avg) == []
  {
    if qs != [] {
      NoMemberGaps(cs, cluster, qs[..|qs| - 1], avg);
    }
  }

  /** The clustering has at least two clusters and at most five once ten
      queries are tracked, and every gap is about a tracked query cited fewer
      than three times. */
  lemma TopicClusterGapsSpec(cs: seq<Citation>, tracked: seq<string>, labels: seq<int>)
    ensures |tracked| < 10 ==> TopicClusterGaps(cs, tracked, labels) == []
    ensures |tracked| >= 10 ==> 2 <= ClusterCount(|tracked|) <= 5
    ensures forall g | g in TopicClusterGaps(cs, tracked, labels) :: TrackedClusterGap(cs, tracked, g)
  {
    if |tracked| >= 10 && |labels| == |tracked| {
      var f := (id: nat) => ClusterGaps(cs, tracked, labels, id);
      var p := (g: ContentGap) => TrackedClusterGap(cs, tracked, g);
      forall id: nat | id < ClusterCount(|tracked|) ensures forall g | g in f(id) :: p(g) {
        ClusterGapsSpec(cs, tracked, labels, id);
      }
      ConcatAll(ClusterCount(|tracked|), f, p);
    }
  }

  /** A topic-cluster gap about a tracked query cited fewer than three times,
      with opportunity 0.6 and difficulty 0.4. */
  predicate TrackedClusterGap(cs: seq<Citation>, tracked: seq<string>, g: ContentGap) {
    g.query in tracked && Count(Queries(cs), g.query) < 3 && g.kind == TopicClusterGap
    && g.score == 0.6 && g.difficulty == 0.4
  }

  lemma ClusterGapsSpec(cs: seq<Citation>, tracked: seq<string>, labels: seq<int>, id: int)
    ensures forall g | g in ClusterGaps(cs, tracked, labels, id) :: TrackedClusterGap(cs, tracked, g)
  {
    var cluster := ClusterQueries(tracked, labels, id);
    if |cluster| >= 2 {
      var avg := Average(cs, cluster);
      MemberGapsSpec(cs, cluster, cluster, avg);
      SelectMembers(labels, tracked, id);
      forall g | g in ClusterGaps(cs, tracked, labels, id) ensures TrackedClusterGap(cs, tracked, g) {
        assert g.query in cluster && FitsCluster(cs, cluster, avg, g);
        var i :| 0 <= i < |labels| && labels[i] == id && tracked[i] == g.query;
      }
    }
  }

  // ---------------------------------------------------------------------
  // Question variations nobody asked

  /** Tracked queries grouped by topic, then by question type, each group in
      the order the queries came; topics and types in order of first
      appearance. */
  type TopicGroups = seq<(string, seq<(QuestionType, seq<string>)>)>

  /** Append v to the list of key k, adding the key at the end when it is new. */
  function AddTo<K(==), V>(m: seq<(K, seq<V>)>, k: K, v: V): (r: seq<(K, seq<V>)>)
    ensures Keys(r) == if k in Keys(m) then Keys(m) else Keys(m) + [k]
  {
    if m == [] then [(k, [v])]
    else if m[0].0 == k then [(k, m[0].1 + [v])] + m[1..]
    else
      var rest := AddTo(m[1..], k, v);
      KeysStep(m, rest, k);
      [m[0]] + rest
  }

  /** File query q under its topic and question type. */
  function AddVariation(tv: TopicGroups, topic: string, t: QuestionType, q: string): (r: TopicGroups)
    ensures Keys(r) == if topic in Keys(tv) then Keys(tv) else Keys(tv) + [topic]
  {
    if tv == [] then [(topic, [(t, [q])])]
    else if tv[0].0 == topic then [(topic, AddTo(tv[0].1, t, q))] + tv[1..]
    else
      var rest := AddVariation(tv[1..], topic, t, q);
      KeysStep(tv, rest, topic);
      [tv[0]] + rest
  }

  /** The grouping of the queries qs; a query made only of question words
      has no topic and is left out. */
  function Variations(qs: seq<string>): TopicGroups {
    if qs == [] then []
    else
      var tv := Variations(qs[..|qs| - 1]);
      var q := qs[|qs| - 1];
      if ContentWords(q) == [] then tv else AddVariation(tv, Topic(q), Classify(q), q)
  }

  method GroupVariations(tracked: seq<string>) returns (tv: TopicGroups)
    ensures tv == Variations(tracked)
  {
    tv := [];
    for i := 0 to |tracked|
      invariant tv == Variations(tracked[..i])
    {
      assert tracked[..i + 1][..i] == tracked[..i];
      var q := tracked[i];
      var content := ContentWords(q);
      if content != [] {
        var topic := Join(" ", Take(content, 3));
        tv := AddVariation(tv, topic, Classify(q), q);
      }
    }
    assert tracked[..|tracked|] == tracked;
  }

  /** Every query of a group has the group's topic and question type. */
  /** Every value v filed in a row with key k satisfies fits(k, v). */
  predicate RowsFit<K, V(==)>(m: seq<(K, seq<V>)>, fits: (K, V) -> bool) {
    forall j | 0 <= j < |m| :: forall x | x in m[j].1 :: fits(m[j].0, x)
  }

  /** Filing a value that fits keeps every row fitting. */
  lemma {:induction false} AddToFits<K, V>(m: seq<(K, seq<V>)>, k: K, v: V, fits: (K, V) -> bool)
    requires RowsFit(m, fits) && fits(k, v)
    ensures RowsFit(AddTo(m, k, v), fits)
  {
    var r := AddTo(m, k, v);
    if m == [] {
      assert r == [(k, [v])];
    } else if m[0].0 == k {
      assert r == [(k, m[0].1 + [v])] + m[1..];
      forall j | 0 <= j < |r| ensures forall x | x in r[j].1 :: fits(r[j].0, x) {
        if j > 0 {
          assert r[j] == m[j];
        }
      }
    } else {
      var rest := AddTo(m[1..], k, v);
      assert RowsFit(m[1..], fits) by {
        assert forall j | 0 <= j < |m[1..]| :: m[1..][j] == m[j + 1];
      }
      AddToFits(m[1..], k, v, fits);
      assert r == [m[0]] + rest;
      forall j | 0 <= j < |r| ensures forall x | x in r[j].1 :: fits(r[j].0, x) {
        if j > 0 {
          assert r[j] == rest[j - 1];
        }
      }
    }
  }

  /** A query asked in way t about the topic fits that topic's row t. */
  function Fits(topic: string): (QuestionType, string) -> bool {
    (t: QuestionType, x: string) => Topic(x) == topic && Classify(x) == t
  }

  /** Every query in a topic's groups has that topic and its group's type. */
  predicate GroupSound(topic: string, groups: seq<(QuestionType, seq<string>)>) {
    RowsFit(groups, Fits(topic))
  }

  predicate Sound(tv: TopicGroups) {
    forall i | 0 <= i < |tv| :: GroupSound(tv[i].0, tv[i].1)
  }

  lemma AddToSound(groups: seq<(QuestionType, seq<string>)>, topic: string, q: string)
    requires GroupSound(topic, groups) && Topic(q) == topic
    ensures GroupSound(topic, AddTo(groups, Classify(q), q))
  {
    AddToFits(groups, Classify(q), q, Fits(topic));
  }



  lemma {:induction false} AddVariationSound(tv: TopicGroups, q: string)
    requires Sound(tv)
    ensures Sound(AddVariation(tv, Topic(q), Classify(q), q))
  {
    if tv != [] {
      if tv[0].0 == Topic(q) {
        AddToSound(tv[0].1, Topic(q), q);
        var r := AddVariation(tv, Topic(q), Classify(q), q);
        forall i | 0 <= i < |r| ensures GroupSound(r[i].0, r[i].1) {
          if i > 0 {
            assert r[i] == tv[i];
          }
        }
      } else {
        AddVariationSound(tv[1..], q);
        var r := AddVariation(tv, Topic(q), Classify(q), q);
        forall i | 0 <= i < |r| ensures GroupSound(r[i].0, r[i].1) {
          if i > 0 {
            assert r[i] == AddVariation(tv[1..], Topic(q), Classify(q), q)[i - 1];
          }
        }
      }
    }
  }

  /** Each topic appears once, and every grouped query has the topic and
      the question type it is filed under. */
  lemma {:induction false} VariationsSpec(qs: seq<string>)
    ensures Distinct(Keys(Variations(qs)))
    ensures Sound(Variations(qs))
  {
    if qs != [] {
      var q := qs[|qs| - 1];
      VariationsSpec(qs[..|qs| - 1]);
      if ContentWords(q) != [] {
        AddVariationSound(Variations(qs[..|qs| - 1]), q);
      }
    }
  }

  /** The number of citations of all the queries qs together. */
  function TotalCitations(cs: seq<Citation>, qs: seq<string>): nat {
    if qs == [] then 0 else TotalCitations(cs, qs[..|qs| - 1]) + Count(Queries(cs), qs[|qs| - 1])
  }

  /** The suggested variation of type m for a topic asked in one way only,
      by the queries `existing`. */
  function VariationGap(cs: seq<Citation>, topic: string, m: QuestionType, existing: seq<string>): (g: ContentGap)
    ensures g.query == Variation(topic, m) && g.kind == QuestionVariation && g.contentType == QuestionContentType(m)
  {
    var total := TotalCitations(cs, existing);
    ContentGap(Variation(topic, m), QuestionVariation, 0.5 + (if total < 10 then total else 10) as real * 0.03,
               QuestionContentType(m), [Underscored(topic)], [], if total * 50 > 100 then total * 50 else 100, 0.3,
               Medium, Take(existing, 3), QuestionAngles(m, topic), Medium, Medium)
  }

  /** The variation of type m, unless m is the type asked. */
  function MissingGap(cs: seq<Citation>, topic: string, t: QuestionType, existing: seq<string>, m: QuestionType): (r: seq<ContentGap>)
    ensures |r| == if m != t then 1 else 0
    ensures forall g | g in r :: g == VariationGap(cs, topic, m, existing)
  {
    if m != t then [VariationGap(cs, topic, m, existing)] else []
  }

  /** The variations of the types ms other than the one asked. */
  function MissingTypeGaps(cs: seq<Citation>, topic: string, t: QuestionType, existing: seq<string>, ms: seq<QuestionType>): seq<ContentGap> {
    if ms == [] then []
    else MissingTypeGaps(cs, topic, t, existing, ms[..|ms| - 1]) + MissingGap(cs, topic, t, existing, ms[|ms| - 1])
  }

  /** The gaps of one topic: only a topic asked in a single way gets the
      high-value question types it lacks. */
  function TopicGaps(cs: seq<Citation>, entry: (string, seq<(QuestionType, seq<string>)>)): seq<ContentGap> {
    if |entry.1| != 1 then []
    else MissingTypeGaps(cs, entry.0, entry.1[0].0, entry.1[0].1, HighValueTypes)
  }

  function VariationGaps(cs: seq<Citation>, tv: TopicGroups): seq<ContentGap> {
    if tv == [] then [] else VariationGaps(cs, tv[..|tv| - 1]) + TopicGaps(cs, tv[|tv| - 1])
  }

  function QuestionVariationGaps(cs: seq<Citation>, tracked: seq<string>): seq<ContentGap> {
    VariationGaps(cs, Variations(tracked))
  }

  /** A suggested variation has an opportunity in [0.5, 0.8], a search
      volume of at least 100 and a difficulty of 0.3. */
  predicate VariationInRange(g: ContentGap) {
    0.5 <= g.score <= 0.8 && g.volume >= 100 && g.difficulty == 0.3 && g.kind == QuestionVariation
  }

  lemma VariationGapRange(cs: seq<Citation>, topic: string, m: QuestionType, existing: seq<string>)
    ensures VariationInRange(VariationGap(cs, topic, m, existing))
  {
  }

  /** The gaps of a topic: two or three when it is asked in one way only (two
      when that way is itself a high-value type), none otherwise; each one
      suggests a missing high-value type. */
  lemma TopicGapsSpec(cs: seq<Citation>, entry: (string, seq<(QuestionType, seq<string>)>))
    ensures |entry.1| != 1 ==> TopicGaps(cs, entry) == []
    ensures |entry.1| == 1 ==> |TopicGaps(cs, entry)| == if entry.1[0].0 in HighValueTypes then 2 else 3
    ensures forall g | g in TopicGaps(cs, entry) ::
      && VariationInRange(g)
      && exists m | m in HighValueTypes && m != entry.1[0].0 :: g.query == Variation(entry.0, m)
  {
    if |entry.1| == 1 {
      var topic, t, existing := entry.0, entry.1[0].0, entry.1[0].1;
      MissingTypeGapsShape(cs, topic, t, existing);
      VariationGapRange(cs, topic, WhatIs, existing);
      VariationGapRange(cs, topic, HowTo, existing);
      VariationGapRange(cs, topic, Best, existing);
    }
  }

  /** The gaps for the three high-value types, written out. */
  lemma MissingTypeGapsShape(cs: seq<Citation>, topic: string, t: QuestionType, existing: seq<string>)
    ensures MissingTypeGaps(cs, topic, t, existing, HighValueTypes) ==
      MissingGap(cs, topic, t, existing, WhatIs) + MissingGap(cs, topic, t, existing, HowTo)
      + MissingGap(cs, topic, t, existing, Best)
  {
    var hv := HighValueTypes;
    assert hv[..2][..1] == [WhatIs] && hv[..2] == [WhatIs, HowTo] && [WhatIs][..0] == [];
    assert MissingTypeGaps(cs, topic, t, existing, [WhatIs]) == MissingGap(cs, topic, t, existing, WhatIs);
  }

  /** Every suggested variation is in range. */
  lemma {:induction false} VariationGapsSpec(cs: seq<Citation>, tv: TopicGroups)
    ensures forall g | g in VariationGaps(cs, tv) :: VariationInRange(g)
  {
    if tv != [] {
      VariationGapsSpec(cs, tv[..|tv| - 1]);
      TopicGapsSpec(cs, tv[|tv| - 1]);
    }
  }
}
