/** The insight summary of a list of patterns: counts, the strong patterns,
    and the recommendations, opportunities and threats the patterns suggest. */
module Insights {
  import opened Tally
  import opened Records
  import opened Patterns

  /** One piece of advice: its kind, what it is about (domains, content
      types or an engine and a type) and its priority. The wording of the
      description is left out; its subjects are kept. */
  datatype Advice = Advice(kind: string, subjects: seq<string>, priority: Level)

  datatype Insights = Insights(
    totalPatterns: nat,
    patternTypes: seq<(string, nat)>,
    highStrength: seq<CitationPattern>,
    recommendations: seq<Advice>,
    opportunities: seq<Advice>,
    threats: seq<Advice>)

  /** The insight step reads a content type from the first two examples of a
      content type pattern, so those examples must carry one. */
  predicate WellFormed(p: CitationPattern) {
    p.patternType == "content_type_performance" ==>
      forall i | 0 <= i < |p.examples| && i < 2 :: p.examples[i].TypePerformance? || p.examples[i].TypeCount?
  }

  function PatternTypes(ps: seq<CitationPattern>): (r: seq<string>)
    ensures |r| == |ps| && forall i | 0 <= i < |ps| :: r[i] == ps[i].patternType
  {
    seq(|ps|, i requires 0 <= i < |ps| => ps[i].patternType)
  }

  predicate Strong(p: CitationPattern) {
    p.strength >= 0.8
  }

  /** The content types of the first two examples. */
  function BestTypes(p: CitationPattern): (r: seq<string>)
    requires WellFormed(p) && p.patternType == "content_type_performance"
    ensures |r| <= 2
  {
    var n := if |p.examples| < 2 then |p.examples| else 2;
    seq(n, i requires 0 <= i < n => p.examples[i].contentType)
  }

  /** The first element of a list, or "unknown" for an empty one. */
  function FirstOr(xs: seq<string>): (r: string)
    ensures xs != [] ==> r == xs[0]
    ensures xs == [] ==> r == "unknown"
  {
    if xs == [] then "unknown" else xs[0]
  }

  /** A partnership recommendation for a strong domain frequency pattern. */
  function Recommendation(p: CitationPattern): (r: Option<Advice>)
    ensures r.Some? <==> p.patternType == "domain_frequency" && p.strength >= 0.7
    ensures r.Some? ==> r.value.priority == (if p.strength >= 0.8 then High else Medium)
  {
    if p.patternType == "domain_frequency" && p.strength >= 0.7 then
      Some(Advice("content_partnership", Take(p.domains, 3), if p.strength >= 0.8 then High else Medium))
    else None
  }

  /** An opportunity for a strong content type pattern, any engine
      preference pattern, or a marked spike pattern. */
  function Opportunity(p: CitationPattern): (r: Option<Advice>)
    requires WellFormed(p)
    ensures r.Some? <==>
      || (p.patternType == "content_type_performance" && p.strength >= 0.7)
      || p.patternType == "engine_content_preference"
      || (p.patternType == "temporal_spikes" && p.strength >= 0.6)
  {
    if p.patternType == "content_type_performance" && p.strength >= 0.7 then
      Some(Advice("content_optimization", BestTypes(p), High))
    else if p.patternType == "engine_content_preference" then
      Some(Advice("engine_optimization", [FirstOr(p.engines), FirstOr(p.contentTypes)], Medium))
    else if p.patternType == "temporal_spikes" && p.strength >= 0.6 then
      Some(Advice("timing_optimization", [], Medium))
    else None
  }

  /** A threat for a domain frequency pattern of strength 0.8 or more. */
  function Threat(p: CitationPattern): (r: Option<Advice>)
    ensures r.Some? <==> p.patternType == "domain_frequency" && Strong(p)
  {
    if p.patternType == "domain_frequency" && Strong(p) then
      Some(Advice("competitor_dominance", Take(p.domains, 3), High))
    else None
  }

  function Recommendations(ps: seq<CitationPattern>): seq<Advice> {
    if ps == [] then []
    else Recommendations(ps[..|ps| - 1]) + OptionList(Recommendation(ps[|ps| - 1]))
  }

  function Opportunities(ps: seq<CitationPattern>): seq<Advice>
    requires forall p | p in ps :: WellFormed(p)
  {
    if ps == [] then []
    else Opportunities(ps[..|ps| - 1]) + OptionList(Opportunity(ps[|ps| - 1]))
  }

  function Threats(ps: seq<CitationPattern>): seq<Advice> {
    if ps == [] then []
    else Threats(ps[..|ps| - 1]) + OptionList(Threat(ps[|ps| - 1]))
  }

  function InsightsOf(ps: seq<CitationPattern>): Insights
    requires forall p | p in ps :: WellFormed(p)
  {
    Insights(|ps|, Counts(PatternTypes(ps)), Filter(ps, Strong),
      Recommendations(ps), Opportunities(ps), Threats(ps))
  }

  /** Walks the patterns once for recommendations and opportunities, then once
      more over the domain frequency patterns for threats. */
  method GeneratePatternInsights(ps: seq<CitationPattern>) returns (ins: Insights)
    requires forall p | p in ps :: WellFormed(p)
    ensures ins == InsightsOf(ps)
  {
    var recommendations, opportunities := CollectAdvice(ps);
    var threats := CollectThreats(ps);
    ins := Insights(|ps|, Counts(PatternTypes(ps)), Filter(ps, Strong), recommendations, opportunities, threats);
  }

  /** The recommendations and opportunities, pattern by pattern. */
  method CollectAdvice(ps: seq<CitationPattern>) returns (recommendations: seq<Advice>, opportunities: seq<Advice>)
    requires forall p | p in ps :: WellFormed(p)
    ensures recommendations == Recommendations(ps) && opportunities == Opportunities(ps)
  {
    recommendations, opportunities := [], [];
    for i := 0 to |ps|
      invariant recommendations == Recommendations(ps[..i])
      invariant opportunities == Opportunities(ps[..i])
    {
      var p := ps[i];
      assert ps[..i + 1][..i] == ps[..i];
      if p.patternType == "domain_frequency" && p.strength >= 0.7 {
        recommendations := recommendations + [Advice("content_partnership", Take(p.domains, 3), if p.strength >= 0.8 then High else Medium)];
      } else if p.patternType == "content_type_performance" && p.strength >= 0.7 {
        opportunities := opportunities + [Advice("content_optimization", BestTypes(p), High)];
      } else if p.patternType == "engine_content_preference" {
        opportunities := opportunities + [Advice("engine_optimization", [FirstOr(p.engines), FirstOr(p.contentTypes)], Medium)];
      } else if p.patternType == "temporal_spikes" && p.strength >= 0.6 {
        opportunities := opportunities + [Advice("timing_optimization", [], Medium)];
      }
    }
    assert ps[..|ps|] == ps;
  }

  /** The threats, pattern by pattern. */
  method CollectThreats(ps: seq<CitationPattern>) returns (threats: seq<Advice>)
    ensures threats == Threats(ps)
  {
    threats := [];
    for i := 0 to |ps|
      invariant threats == Threats(ps[..i])
    {
      var p := ps[i];
      assert ps[..i + 1][..i] == ps[..i];
      if p.patternType == "domain_frequency" && p.strength >= 0.8 {
        threats := threats + [Advice("competitor_dominance", Take(p.domains, 3), High)];
      }
    }
    assert ps[..|ps|] == ps;
  }


  /** Each pattern adds at most one recommendation or opportunity. */
  lemma {:induction false} AtMostOneAdvicePerPattern(ps: seq<CitationPattern>)
    requires forall p | p in ps :: WellFormed(p)
    ensures |Recommendations(ps)| + |Opportunities(ps)| <= |ps|
  {
    if ps != [] {
      var n := |ps| - 1;
      AtMostOneAdvicePerPattern(ps[..n]);
      var p := ps[n];
      assert Recommendation(p).Some? ==> Opportunity(p).None?;
    }
  }

  predicate Dominant(p: CitationPattern) {
    p.patternType == "domain_frequency" && Strong(p)
  }

  /** There is one high-priority threat per domain frequency pattern of
      strength 0.8 or more, naming at most three of its domains, and each such
      pattern also gives a high-priority recommendation. */
  lemma {:induction false} ThreatsSpec(ps: seq<CitationPattern>)
    ensures |Threats(ps)| == Count(DominantFlags(ps), true)
    ensures |Threats(ps)| <= |Recommendations(ps)|
    ensures forall t | t in Threats(ps) :: t.priority == High && t.kind == "competitor_dominance" && |t.subjects| <= 3
  {
    if ps != [] {
      var n := |ps| - 1;
      ThreatsSpec(ps[..n]);
      assert DominantFlags(ps)[..n] == DominantFlags(ps[..n]);
    }
  }

  /** Whether each pattern is a domain frequency pattern of strength 0.8 or more. */
  function DominantFlags(ps: seq<CitationPattern>): (r: seq<bool>)
    ensures |r| == |ps| && forall i | 0 <= i < |ps| :: r[i] == Dominant(ps[i])
  {
    seq(|ps|, i requires 0 <= i < |ps| => Dominant(ps[i]))
  }

  /** The summary counts every pattern once and keeps exactly the patterns of
      strength 0.8 or more. */
  lemma InsightsSpec(ps: seq<CitationPattern>)
    requires forall p | p in ps :: WellFormed(p)
    ensures InsightsOf(ps).totalPatterns == |ps|
    ensures SumCounts(InsightsOf(ps).patternTypes) == |ps|
    ensures forall p :: p in InsightsOf(ps).highStrength <==> p in ps && p.strength >= 0.8
  {
    SumCountsIsLength(PatternTypes(ps));
    forall p | p in ps && p.strength >= 0.8 ensures p in Filter(ps, Strong) {
      var i :| 0 <= i < |ps| && ps[i] == p;
    }
  }

  predicate AllWellFormed(ps: seq<CitationPattern>) {
    forall p | p in ps :: WellFormed(p)
  }

  lemma WellFormedAppend(a: seq<CitationPattern>, b: seq<CitationPattern>)
    requires AllWellFormed(a) && AllWellFormed(b)
    ensures AllWellFormed(a + b)
  {
  }

  lemma DomainWellFormed(cs: seq<Citation>)
    requires |cs| > 0
    ensures AllWellFormed(DomainPatterns(cs))
  {
    var f, p := DomainFrequencyPattern(cs), DomainProminencePattern(cs);
    OptionWellFormed(f);
    OptionWellFormed(p);
    WellFormedAppend(OptionList(f), OptionList(p));
  }

  lemma TypeWellFormed(cs: seq<Citation>)
    requires |cs| > 0
    ensures AllWellFormed(OptionList(ContentTypePattern(cs)))
  {
  }

  lemma PositionWellFormed(cs: seq<Citation>)
    requires |cs| > 0
    ensures AllWellFormed(OptionList(PositionPattern(cs)))
  {
    OptionWellFormed(PositionPattern(cs));
  }

  lemma TemporalWellFormed(cs: seq<Citation>)
    requires |cs| > 0
    ensures AllWellFormed(TemporalPatterns(cs))
  {
    var spike, weekly := SpikePattern(cs), WeeklyPattern(cs);
    OptionWellFormed(spike);
    OptionWellFormed(weekly);
    WellFormedAppend(OptionList(spike), OptionList(weekly));
  }

  lemma OptionWellFormed(o: Option<CitationPattern>)
    requires o.Some? ==> o.value.patternType != "content_type_performance"
    ensures AllWellFormed(OptionList(o))
  {
  }

  lemma EngineWellFormed(cs: seq<Citation>)
    ensures AllWellFormed(EnginePatterns(cs))
  {
    EnginePatternsSpec(cs, AllEngines(cs));
  }

  lemma FeatureWellFormed(cs: seq<Citation>)
    requires |cs| > 0
    ensures AllWellFormed(OptionList(FeaturePattern(cs, Counts(FeatureTokens(cs)))))
  {
    OptionWellFormed(FeaturePattern(cs, Counts(FeatureTokens(cs))));
  }

  lemma QueryWellFormed(cs: seq<Citation>, labels: seq<int>)
    ensures AllWellFormed(QueryPatterns(cs, labels))
  {
    QuerySpec(cs, labels);
  }

  /** Every pattern the scans report can be summarised: the content type
      pattern's examples all carry a content type. */
  lemma ScansWellFormed(cs: seq<Citation>, labels: seq<int>)
    ensures AllWellFormed(PatternsOf(cs, labels))
  {
    if cs != [] {
      var p1 := DomainPatterns(cs);
      var p2 := p1 + OptionList(ContentTypePattern(cs));
      var p3 := p2 + OptionList(PositionPattern(cs));
      var p4 := p3 + TemporalPatterns(cs);
      var p5 := p4 + EnginePatterns(cs);
      var p6 := p5 + OptionList(FeaturePattern(cs, Counts(FeatureTokens(cs))));
      DomainWellFormed(cs);
      TypeWellFormed(cs);
      WellFormedAppend(p1, OptionList(ContentTypePattern(cs)));
      PositionWellFormed(cs);
      WellFormedAppend(p2, OptionList(PositionPattern(cs)));
      TemporalWellFormed(cs);
      WellFormedAppend(p3, TemporalPatterns(cs));
      EngineWellFormed(cs);
      WellFormedAppend(p4, EnginePatterns(cs));
      FeatureWellFormed(cs);
      WellFormedAppend(p5, OptionList(FeaturePattern(cs, Counts(FeatureTokens(cs)))));
      QueryWellFormed(cs, labels);
      WellFormedAppend(p6, QueryPatterns(cs, labels));
    }
  }
}
