/** The pattern scans of the citation pattern analyser: each scan groups the
    stored citations one way (by domain, citation type, top position, day,
    weekday, engine, metadata feature or query cluster), keeps the groups
    that pass a threshold and reports them as a pattern with a strength. */
module Patterns {
  import opened Text
  import opened Tally
  import opened Records

  /** Fewest occurrences for a group to count as a pattern. */
  const MinPatternFrequency: nat := 3

  /** A characteristic value attached to a pattern. */
  datatype Stat =
    | Num(x: real)
    | Whole(n: int)
    | Label(name: string)
    | Table(entries: seq<(string, nat)>)
    | IntTable(intEntries: seq<(int, nat)>)
    | MeanTable(means: seq<(string, real)>)

  /** One example row of a pattern. */
  datatype Example =
    | DomainCount(domain: string, count: nat)
    | DomainProminence(domain: string, avgProminence: real, citationCount: nat)
    | TypePerformance(contentType: string, avgProminence: real, typeCount: nat)
    | TopCombination(comboDomain: string, comboType: string, avgPosition: real, occurrences: nat)
    | DayCount(day: int, dayCount: nat)
    | WeekdayCount(weekday: int, weekdayCount: nat)
    | TypeCount(contentType: string, preferredCount: nat)
    | FeatureCount(feature: string, frequency: nat)
    | QueryCount(query: string, citations: nat)

  /** A discovered pattern. Its identifier and description are left out. */
  datatype CitationPattern = CitationPattern(
    patternType: string,
    frequency: nat,
    strength: real,
    examples: seq<Example>,
    characteristics: seq<(string, Stat)>,
    engines: seq<string>,
    domains: seq<string>,
    contentTypes: seq<string>,
    timeRange: (Stamp, Stamp))

  /** The earliest time a citation was recorded. */
  function Earliest(cs: seq<Citation>): (t: Stamp)
    requires |cs| > 0
    ensures exists i | 0 <= i < |cs| :: cs[i].createdAt == t
    ensures forall i | 0 <= i < |cs| :: Instant(t) <= Instant(cs[i].createdAt)
  {
    if |cs| == 1 then cs[0].createdAt
    else
      var t := Earliest(cs[1..]);
      assert forall i | 1 <= i < |cs| :: cs[i] == cs[1..][i - 1];
      if Instant(cs[0].createdAt) <= Instant(t) then cs[0].createdAt else t
  }

  /** The latest time a citation was recorded. */
  function Latest(cs: seq<Citation>): (t: Stamp)
    requires |cs| > 0
    ensures exists i | 0 <= i < |cs| :: cs[i].createdAt == t
    ensures forall i | 0 <= i < |cs| :: Instant(cs[i].createdAt) <= Instant(t)
  {
    if |cs| == 1 then cs[0].createdAt
    else
      var t := Latest(cs[1..]);
      assert forall i | 1 <= i < |cs| :: cs[i] == cs[1..][i - 1];
      if Instant(cs[0].createdAt) >= Instant(t) then cs[0].createdAt else t
  }

  function TimeRange(cs: seq<Citation>): (r: (Stamp, Stamp))
    requires |cs| > 0
    ensures Instant(r.0) <= Instant(r.1)
  {
    (Earliest(cs), Latest(cs))
  }

  /** One group of a group-by: its key, the mean of a column over the group
      and the size of the group. */
  datatype GroupStat<K> = GroupStat(key: K, mean: real, count: nat)

  /** A group per distinct key, in order of first appearance. */
  function Stats<K(==)>(keys: seq<K>, vals: seq<real>): (r: seq<GroupStat<K>>)
    requires |keys| == |vals|
    ensures |r| == |Dedup(keys)|
    ensures forall i | 0 <= i < |r| :: r[i].key == Dedup(keys)[i] && r[i].key in keys
    ensures forall i | 0 <= i < |r| :: r[i].mean == GroupMean(keys, vals, r[i].key)
    ensures forall i | 0 <= i < |r| :: r[i].count == Count(keys, r[i].key)
  {
    var u := Dedup(keys);
    seq(|u|, i requires 0 <= i < |u| => GroupStat(u[i], GroupMean(keys, vals, u[i]), Count(keys, u[i])))
  }

  /** The groups that pass a test are exactly the keys of the column that
      pass it. */
  lemma StatsMembers<K>(keys: seq<K>, vals: seq<real>, k: K)
    requires |keys| == |vals|
    ensures k in keys <==> exists i | 0 <= i < |Stats(keys, vals)| :: Stats(keys, vals)[i].key == k
  {
    var u := Dedup(keys);
    if k in keys {
      var i :| 0 <= i < |u| && u[i] == k;
      assert Stats(keys, vals)[i].key == k;
    }
  }

  function StatKeys<K>(g: seq<GroupStat<K>>): (r: seq<K>)
    ensures |r| == |g| && forall i | 0 <= i < |g| :: r[i] == g[i].key
  {
    seq(|g|, i requires 0 <= i < |g| => g[i].key)
  }

  function StatMeans<K>(g: seq<GroupStat<K>>): (r: seq<real>)
    ensures |r| == |g| && forall i | 0 <= i < |g| :: r[i] == g[i].mean
  {
    seq(|g|, i requires 0 <= i < |g| => g[i].mean)
  }

  function StatCounts<K>(g: seq<GroupStat<K>>): nat {
    if g == [] then 0 else g[0].count + StatCounts(g[1..])
  }

  function AllEngines(cs: seq<Citation>): seq<string> {
    Dedup(Engines(cs))
  }

  function AllDomains(cs: seq<Citation>): seq<string> {
    Dedup(Domains(cs))
  }

  function AllTypes(cs: seq<Citation>): seq<string> {
    Dedup(Types(cs))
  }

  // ---------------------------------------------------------------- domains

  predicate Frequent<T>(e: (T, nat)) {
    e.1 >= MinPatternFrequency
  }

  function DomainCountExamples(c: seq<(string, nat)>): (r: seq<Example>)
    ensures |r| == |c| && forall i | 0 <= i < |c| :: r[i] == DomainCount(c[i].0, c[i].1)
  {
    seq(|c|, i requires 0 <= i < |c| => DomainCount(c[i].0, c[i].1))
  }

  /** The domains cited at least three times, most cited first. */
  function FrequentDomains(cs: seq<Citation>): seq<(string, nat)> {
    Filter(ValueCounts(Domains(cs)), Frequent)
  }

  /** The share of all distinct domains that are frequent. */
  function Concentration(cs: seq<Citation>): (r: real)
    ensures 0.0 <= r <= 1.0
  {
    var all := ValueCounts(Domains(cs));
    var high := Filter(all, Frequent);
    if |high| == 0 then 0.0 else Fraction(|high|, |all|)
  }

  /** The pattern of frequently cited domains: how many domains have at least
      three citations, as a strength that reaches 1 at ten such domains. */
  function DomainFrequencyPattern(cs: seq<Citation>): (r: Option<CitationPattern>)
    requires |cs| > 0
    ensures r.Some? ==> r.value.patternType == "domain_frequency"
    ensures r.Some? ==> 0.0 < r.value.strength <= 1.0 && |r.value.examples| <= 5
  {
    var high := FrequentDomains(cs);
    if |high| == 0 then None
    else
      Some(CitationPattern(
        "domain_frequency", |high|, Min1(|high| as real / 10.0),
        DomainCountExamples(Take(high, 5)),
        [("avg_citations_per_domain", Num(Mean(CountValues(high)))),
         ("max_citations", Whole(MaxCount(high))),
         ("domain_concentration", Num(Concentration(cs)))],
        AllEngines(cs), Keys(high), AllTypes(cs), TimeRange(cs)))
  }

  /** A domain is reported exactly when it has at least three citations, with
      its true count. */
  lemma FrequentDomainsSpec(cs: seq<Citation>, d: string)
    ensures d in Keys(FrequentDomains(cs)) <==> Count(Domains(cs), d) >= MinPatternFrequency
    ensures forall i | 0 <= i < |FrequentDomains(cs)| :: FrequentDomains(cs)[i].1 == Count(Domains(cs), FrequentDomains(cs)[i].0)
    ensures SortedDesc(FrequentDomains(cs), CountKey)
  {
    var ds := Domains(cs);
    ValueCountsSpec(ds);
    FilterSorted(ValueCounts(ds), Frequent, CountKey);
    if Count(ds, d) >= MinPatternFrequency {
      FrequentDomainReported(cs, d);
    }
    if d in Keys(FrequentDomains(cs)) {
      var high := FrequentDomains(cs);
      var i :| 0 <= i < |high| && Keys(high)[i] == d;
      assert high[i] in ValueCounts(ds);
    }
  }

  lemma FrequentDomainReported(cs: seq<Citation>, d: string)
    requires Count(Domains(cs), d) >= MinPatternFrequency
    ensures d in Keys(FrequentDomains(cs))
  {
    var ds := Domains(cs);
    ValueCountsSpec(ds);
    var all := ValueCounts(ds);
    var high := FrequentDomains(cs);
    CountZero(ds, d);
    var i :| 0 <= i < |all| && all[i].0 == d;
    assert Frequent(all[i]);
    assert all[i] in high;
    var j :| 0 <= j < |high| && high[j] == all[i];
    assert Keys(high)[j] == d;
  }


  /** The domain frequency pattern appears exactly when some domain is cited at
      least three times; its strength is a tenth of the number of such
      domains, at most 1. */
  lemma DomainFrequencySpec(cs: seq<Citation>)
    requires |cs| > 0
    ensures DomainFrequencyPattern(cs).Some? <==> exists i | 0 <= i < |cs| :: Count(Domains(cs), cs[i].sourceDomain) >= MinPatternFrequency
    ensures DomainFrequencyPattern(cs).Some? ==>
      DomainFrequencyPattern(cs).value.strength == Min1(DomainFrequencyPattern(cs).value.frequency as real / 10.0)
  {
    DomainFrequencyShape(cs);
    SomeFrequentDomain(cs);
  }

  /** Some domain is frequent exactly when some citation's domain is cited
      three times or more. */
  lemma SomeFrequentDomain(cs: seq<Citation>)
    ensures |FrequentDomains(cs)| > 0 <==>
      exists i | 0 <= i < |cs| :: Count(Domains(cs), cs[i].sourceDomain) >= MinPatternFrequency
  {
    if exists i | 0 <= i < |cs| :: Count(Domains(cs), cs[i].sourceDomain) >= MinPatternFrequency {
      var i :| 0 <= i < |cs| && Count(Domains(cs), cs[i].sourceDomain) >= MinPatternFrequency;
      FrequentOfWitness(cs, i);
    }
    if |FrequentDomains(cs)| > 0 {
      var j := FrequentWitness(cs);
    }
  }

  /** A citation whose domain is cited three times makes a domain frequent. */
  lemma FrequentOfWitness(cs: seq<Citation>, i: nat)
    requires i < |cs| && Count(Domains(cs), cs[i].sourceDomain) >= MinPatternFrequency
    ensures |FrequentDomains(cs)| > 0
  {
    FrequentDomainsSpec(cs, cs[i].sourceDomain);
  }

  /** A citation whose domain is frequent, when some domain is. */
  lemma FrequentWitness(cs: seq<Citation>) returns (j: nat)
    requires |FrequentDomains(cs)| > 0
    ensures j < |cs| && Count(Domains(cs), cs[j].sourceDomain) >= MinPatternFrequency
  {
    var high := FrequentDomains(cs);
    var d := high[0].0;
    FrequentDomainsSpec(cs, d);
    assert d in Keys(high);
    CountZero(Domains(cs), d);
    j :| 0 <= j < |cs| && Domains(cs)[j] == d;
  }

  /** The domain frequency pattern is there exactly when some domain is
      frequent, and counts the frequent domains. */
  lemma DomainFrequencyShape(cs: seq<Citation>)
    requires |cs| > 0
    ensures DomainFrequencyPattern(cs).Some? <==> |FrequentDomains(cs)| > 0
    ensures DomainFrequencyPattern(cs).Some? ==>
      DomainFrequencyPattern(cs).value.frequency == |FrequentDomains(cs)|
      && DomainFrequencyPattern(cs).value.strength == Min1(|FrequentDomains(cs)| as real / 10.0)
  {
  }

  /** Keeps the average prominence and the number of citations of a domain
      whose citations are prominent on average (at least 0.7, at least twice). */
  predicate HighProminence(g: GroupStat<string>) {
    g.mean >= 0.7 && g.count >= 2
  }

  function ProminentDomains(cs: seq<Citation>): seq<GroupStat<string>> {
    Filter(Stats(Domains(cs), Prominences(cs)), HighProminence)
  }

  function DomainProminenceExamples(g: seq<GroupStat<string>>): (r: seq<Example>)
    ensures |r| == |g|
  {
    seq(|g|, i requires 0 <= i < |g| => DomainProminence(g[i].key, g[i].mean, g[i].count))
  }

  /** The pattern of domains whose citations are prominent on average; its
      strength is the mean of their average prominences. */
  function DomainProminencePattern(cs: seq<Citation>): (r: Option<CitationPattern>)
    requires |cs| > 0
    ensures r.Some? ==> r.value.patternType == "domain_prominence" && |r.value.examples| <= 5
  {
    var high := ProminentDomains(cs);
    if |high| == 0 then None
    else
      var strength := Mean(StatMeans(high));
      Some(CitationPattern(
        "domain_prominence", |high|, strength,
        DomainProminenceExamples(Take(high, 5)),
        [("avg_prominence", Num(strength))],
        AllEngines(cs), StatKeys(high), AllTypes(cs), TimeRange(cs)))
  }

  /** A domain is reported exactly when it has two or more citations whose
      mean prominence is at least 0.7; with prominences in [0, 1] the
      strength is at most 1. */
  lemma DomainProminenceSpec(cs: seq<Citation>, d: string)
    requires |cs| > 0
    ensures d in StatKeys(ProminentDomains(cs)) <==>
      d in Domains(cs) && Count(Domains(cs), d) >= 2 && GroupMean(Domains(cs), Prominences(cs), d) >= 0.7
  {
    if d in Domains(cs) && Count(Domains(cs), d) >= 2 && GroupMean(Domains(cs), Prominences(cs), d) >= 0.7 {
      ProminentDomainReported(cs, d);
    }
    if d in StatKeys(ProminentDomains(cs)) {
      ReportedDomainProminent(cs, d);
    }
  }

  lemma ProminentDomainReported(cs: seq<Citation>, d: string)
    requires d in Domains(cs) && Count(Domains(cs), d) >= 2 && GroupMean(Domains(cs), Prominences(cs), d) >= 0.7
    ensures d in StatKeys(ProminentDomains(cs))
  {
    var stats := Stats(Domains(cs), Prominences(cs));
    var high := ProminentDomains(cs);
    StatsMembers(Domains(cs), Prominences(cs), d);
    var i :| 0 <= i < |stats| && stats[i].key == d;
    assert HighProminence(stats[i]);
    assert stats[i] in high;
    var j :| 0 <= j < |high| && high[j] == stats[i];
    assert StatKeys(high)[j] == d;
  }

  lemma ReportedDomainProminent(cs: seq<Citation>, d: string)
    requires d in StatKeys(ProminentDomains(cs))
    ensures d in Domains(cs) && Count(Domains(cs), d) >= 2 && GroupMean(Domains(cs), Prominences(cs), d) >= 0.7
  {
    var stats := Stats(Domains(cs), Prominences(cs));
    var high := ProminentDomains(cs);
    StatsMembers(Domains(cs), Prominences(cs), d);
    var j :| 0 <= j < |high| && StatKeys(high)[j] == d;
    assert high[j] in stats;
  }


  /** The strength of the prominence pattern is at least 0.7, and at most 1
      when every prominence lies in [0, 1]. */
  lemma DomainProminenceStrength(cs: seq<Citation>)
    requires |cs| > 0
    ensures DomainProminencePattern(cs).Some? ==> DomainProminencePattern(cs).value.strength >= 0.7
    ensures Within(Prominences(cs), 0.0, 1.0) && DomainProminencePattern(cs).Some? ==>
      DomainProminencePattern(cs).value.strength <= 1.0
  {
    var stats := Stats(Domains(cs), Prominences(cs));
    var high := ProminentDomains(cs);
    if |high| > 0 {
      SumAtLeast(StatMeans(high), 0.7);
      MeanAtLeast(StatMeans(high), 0.7);
    }
    if Within(Prominences(cs), 0.0, 1.0) && |high| > 0 {
      forall i | 0 <= i < |high| ensures StatMeans(high)[i] <= 1.0 {
        assert high[i] in stats;
        GroupMeanBounds(Domains(cs), Prominences(cs), high[i].key, 0.0, 1.0);
      }
      MeanBounds(StatMeans(high), 0.7, 1.0);
    }
  }

  /** The domain scan: the frequency pattern, then the prominence pattern. */
  function DomainPatterns(cs: seq<Citation>): seq<CitationPattern>
    requires |cs| > 0
  {
    OptionList(DomainFrequencyPattern(cs)) + OptionList(DomainProminencePattern(cs))
  }

  // ---------------------------------------------------------- content types

  /** The groups with their means rounded to three decimals. */
  function Rounded<K>(g: seq<GroupStat<K>>): (r: seq<GroupStat<K>>)
    ensures |r| == |g|
    ensures forall i | 0 <= i < |g| :: r[i] == GroupStat(g[i].key, Round3(g[i].mean), g[i].count)
  {
    seq(|g|, i requires 0 <= i < |g| => GroupStat(g[i].key, Round3(g[i].mean), g[i].count))
  }

  /** Per citation type: the mean prominence (rounded) and the number of citations. */
  function TypeStats(cs: seq<Citation>): seq<GroupStat<string>> {
    Rounded(Stats(Types(cs), Prominences(cs)))
  }

  /** Keeps a citation type whose rounded mean prominence is at least 0.6 and
      which has at least three citations. */
  predicate HighPerforming(g: GroupStat<string>) {
    g.mean >= 0.6 && g.count >= MinPatternFrequency
  }

  function HighPerformingTypes(cs: seq<Citation>): seq<GroupStat<string>> {
    Filter(TypeStats(cs), HighPerforming)
  }

  function TypePerformanceExamples(g: seq<GroupStat<string>>): (r: seq<Example>)
    ensures |r| == |g| && forall i | 0 <= i < |g| :: r[i] == TypePerformance(g[i].key, g[i].mean, g[i].count)
  {
    seq(|g|, i requires 0 <= i < |g| => TypePerformance(g[i].key, g[i].mean, g[i].count))
  }

  function KeyMeans(g: seq<GroupStat<string>>): (r: seq<(string, real)>)
    ensures |r| == |g|
  {
    seq(|g|, i requires 0 <= i < |g| => (g[i].key, g[i].mean))
  }

  /** The pattern of citation types that are prominent on average. */
  function ContentTypePattern(cs: seq<Citation>): (r: Option<CitationPattern>)
    requires |cs| > 0
    ensures r.Some? ==> r.value.patternType == "content_type_performance"
    ensures r.Some? ==> forall ex | ex in r.value.examples :: ex.TypePerformance?
  {
    var high := HighPerformingTypes(cs);
    if |high| == 0 then None
    else
      Some(CitationPattern(
        "content_type_performance", StatCounts(high), Mean(StatMeans(high)),
        TypePerformanceExamples(high),
        [("type_distribution", Table(ValueCounts(Types(cs)))),
         ("avg_prominence_by_type", MeanTable(KeyMeans(TypeStats(cs))))],
        AllEngines(cs), AllDomains(cs), StatKeys(high), TimeRange(cs)))
  }

  /** A citation type is reported exactly when it has three or more citations
      whose mean prominence, rounded to three decimals, is at least 0.6. */
  lemma ContentTypeMembers(cs: seq<Citation>, t: string)
    ensures t in StatKeys(HighPerformingTypes(cs)) <==>
      t in Types(cs) && Count(Types(cs), t) >= MinPatternFrequency && Round3(GroupMean(Types(cs), Prominences(cs), t)) >= 0.6
  {
    if t in Types(cs) && Count(Types(cs), t) >= MinPatternFrequency && Round3(GroupMean(Types(cs), Prominences(cs), t)) >= 0.6 {
      HighTypeReported(cs, t);
    }
    if t in StatKeys(HighPerformingTypes(cs)) {
      ReportedTypeHigh(cs, t);
    }
  }

  lemma HighTypeReported(cs: seq<Citation>, t: string)
    requires t in Types(cs) && Count(Types(cs), t) >= MinPatternFrequency
    requires Round3(GroupMean(Types(cs), Prominences(cs), t)) >= 0.6
    ensures t in StatKeys(HighPerformingTypes(cs))
  {
    var stats := Stats(Types(cs), Prominences(cs));
    var rounded := TypeStats(cs);
    var high := HighPerformingTypes(cs);
    StatsMembers(Types(cs), Prominences(cs), t);
    var i :| 0 <= i < |stats| && stats[i].key == t;
    assert HighPerforming(rounded[i]);
    assert rounded[i] in high;
    var j :| 0 <= j < |high| && high[j] == rounded[i];
    assert StatKeys(high)[j] == t;
  }

  lemma ReportedTypeHigh(cs: seq<Citation>, t: string)
    requires t in StatKeys(HighPerformingTypes(cs))
    ensures t in Types(cs) && Count(Types(cs), t) >= MinPatternFrequency
    ensures Round3(GroupMean(Types(cs), Prominences(cs), t)) >= 0.6
  {
    var stats := Stats(Types(cs), Prominences(cs));
    var rounded := TypeStats(cs);
    var high := HighPerformingTypes(cs);
    StatsMembers(Types(cs), Prominences(cs), t);
    var j :| 0 <= j < |high| && StatKeys(high)[j] == t;
    var i :| 0 <= i < |rounded| && rounded[i] == high[j];
    assert stats[i].key == t;
  }


  lemma {:induction false} StatCountsAtLeast<K>(g: seq<GroupStat<K>>, n: nat)
    requires forall i | 0 <= i < |g| :: g[i].count >= n
    ensures StatCounts(g) >= |g| * n
  {
    if g != [] {
      StatCountsAtLeast(g[1..], n);
    }
  }

  /** The content type pattern counts at least three citations, and its
      strength is at least 0.6, and at most 1 when every prominence lies in
      [0, 1]. */
  lemma ContentTypeStrength(cs: seq<Citation>)
    requires |cs| > 0
    ensures ContentTypePattern(cs).Some? ==> ContentTypePattern(cs).value.frequency >= MinPatternFrequency
    ensures ContentTypePattern(cs).Some? ==> ContentTypePattern(cs).value.strength >= 0.6
    ensures Within(Prominences(cs), 0.0, 1.0) && ContentTypePattern(cs).Some? ==>
      ContentTypePattern(cs).value.strength <= 1.0
  {
    var stats := Stats(Types(cs), Prominences(cs));
    var rounded := TypeStats(cs);
    var high := HighPerformingTypes(cs);
    if |high| > 0 {
      StatCountsAtLeast(high, MinPatternFrequency);
      MeanAtLeast(StatMeans(high), 0.6);
      if Within(Prominences(cs), 0.0, 1.0) {
        forall j | 0 <= j < |high| ensures StatMeans(high)[j] <= 1.0 {
          var i :| 0 <= i < |rounded| && rounded[i] == high[j];
          GroupMeanBounds(Types(cs), Prominences(cs), stats[i].key, 0.0, 1.0);
          Round3Within(stats[i].mean, 0, 1000);
        }
        MeanAtMost(StatMeans(high), 1.0);
      }
    }
  }

  // -------------------------------------------------------------- positions

  /** A citation in one of the top three positions. */
  predicate InTopThree(c: Citation) {
    c.position <= 3
  }

  function TopCited(cs: seq<Citation>): seq<Citation> {
    Filter(cs, InTopThree)
  }

  /** The (domain, citation type) pair of each citation. */
  function Combos(cs: seq<Citation>): (r: seq<(string, string)>)
    ensures |r| == |cs| && forall i | 0 <= i < |cs| :: r[i] == (cs[i].sourceDomain, cs[i].citationType)
  {
    seq(|cs|, i requires 0 <= i < |cs| => (cs[i].sourceDomain, cs[i].citationType))
  }

  function IntPositions(cs: seq<Citation>): (r: seq<int>)
    ensures |r| == |cs| && forall i | 0 <= i < |cs| :: r[i] == cs[i].position
  {
    seq(|cs|, i requires 0 <= i < |cs| => cs[i].position)
  }

  /** Keeps a combination seen at least twice. */
  predicate Consistent(g: GroupStat<(string, string)>) {
    g.count >= 2
  }

  /** The (domain, type) combinations seen at least twice among the top
      positions, with their mean position. */
  function ConsistentTop(cs: seq<Citation>): seq<GroupStat<(string, string)>> {
    var top := TopCited(cs);
    Filter(Stats(Combos(top), Positions(top)), Consistent)
  }

  function ComboExamples(g: seq<GroupStat<(string, string)>>): (r: seq<Example>)
    ensures |r| == |g|
  {
    seq(|g|, i requires 0 <= i < |g| => TopCombination(g[i].key.0, g[i].key.1, g[i].mean, g[i].count))
  }

  /** The pattern of domain and type combinations that keep ranking in the
      top three; the better their mean position, the stronger. It needs at
      least three citations in the top three positions. */
  function PositionPattern(cs: seq<Citation>): (r: Option<CitationPattern>)
    requires |cs| > 0
    ensures r.Some? ==> r.value.patternType == "position_consistency" && |r.value.examples| <= 5
    ensures r.Some? ==> |TopCited(cs)| >= MinPatternFrequency && |ConsistentTop(cs)| > 0
  {
    var top := TopCited(cs);
    if |top| < MinPatternFrequency then None
    else
      var consistent := ConsistentTop(cs);
      if |consistent| == 0 then None
      else
        Some(CitationPattern(
          "position_consistency", StatCounts(consistent), 1.0 - Mean(StatMeans(consistent)) / 10.0,
          ComboExamples(Take(consistent, 5)),
          [("avg_top_position", Num(Mean(Positions(top)))),
           ("top_position_distribution", IntTable(ValueCounts(IntPositions(top))))],
          AllEngines(cs), AllDomains(cs), AllTypes(cs), TimeRange(cs)))
  }

  /** The position pattern counts at least two citations and has strength at
      least 0.7 (every mean position is at most 3); when no position is
      negative its strength is at most 1. */
  lemma PositionStrength(cs: seq<Citation>)
    requires |cs| > 0
    ensures PositionPattern(cs).Some? ==> PositionPattern(cs).value.frequency >= 2
    ensures PositionPattern(cs).Some? ==> PositionPattern(cs).value.strength >= 0.7
    ensures (forall i | 0 <= i < |cs| :: cs[i].position >= 0) && PositionPattern(cs).Some? ==>
      PositionPattern(cs).value.strength <= 1.0
  {
    if PositionPattern(cs).Some? {
      var consistent := ConsistentTop(cs);
      PositionShape(cs);
      ConsistentCounts(cs);
      ConsistentMeanAtMost(cs);
      if forall i | 0 <= i < |cs| :: cs[i].position >= 0 {
        ConsistentMeanAtLeast(cs);
      }
    }
  }

  /** The position pattern's figures, when it is there. */
  lemma PositionShape(cs: seq<Citation>)
    requires |cs| > 0 && PositionPattern(cs).Some?
    ensures PositionPattern(cs).value.frequency == StatCounts(ConsistentTop(cs))
    ensures PositionPattern(cs).value.strength == 1.0 - Mean(StatMeans(ConsistentTop(cs))) / 10.0
  {
  }

  /** The consistent combinations count at least two citations. */
  lemma ConsistentCounts(cs: seq<Citation>)
    requires |ConsistentTop(cs)| > 0
    ensures StatCounts(ConsistentTop(cs)) >= 2
  {
    var consistent := ConsistentTop(cs);
    forall i | 0 <= i < |consistent| ensures consistent[i].count >= 2 {
      assert Consistent(consistent[i]);
    }
    StatCountsAtLeast(consistent, 2);
  }

  /** Every consistent combination ranks on average within the top three. */
  lemma ConsistentMeanAtMost(cs: seq<Citation>)
    requires |ConsistentTop(cs)| > 0
    ensures Mean(StatMeans(ConsistentTop(cs))) <= 3.0
  {
    var top := TopCited(cs);
    var stats := Stats(Combos(top), Positions(top));
    var consistent := ConsistentTop(cs);
    assert AtMost(Positions(top), 3.0) by {
      forall k | 0 <= k < |top| ensures Positions(top)[k] <= 3.0 {
        assert InTopThree(top[k]);
      }
    }
    forall j | 0 <= j < |consistent| ensures StatMeans(consistent)[j] <= 3.0 {
      assert consistent[j] in stats;
      GroupMeanAtMost(Combos(top), Positions(top), consistent[j].key, 3.0);
    }
    MeanAtMost(StatMeans(consistent), 3.0);
  }

  /** With no negative position, no consistent combination has a negative mean. */
  lemma ConsistentMeanAtLeast(cs: seq<Citation>)
    requires |ConsistentTop(cs)| > 0
    requires forall i | 0 <= i < |cs| :: cs[i].position >= 0
    ensures Mean(StatMeans(ConsistentTop(cs))) >= 0.0
  {
    var top := TopCited(cs);
    var stats := Stats(Combos(top), Positions(top));
    var consistent := ConsistentTop(cs);
    forall k | 0 <= k < |top| ensures 0.0 <= Positions(top)[k] <= 3.0 {
      assert InTopThree(top[k]) && top[k] in cs;
    }
    forall j | 0 <= j < |consistent| ensures StatMeans(consistent)[j] >= 0.0 {
      assert consistent[j] in stats;
      GroupMeanBounds(Combos(top), Positions(top), consistent[j].key, 0.0, 3.0);
    }
    MeanAtLeast(StatMeans(consistent), 0.0);
  }

  // --------------------------------------------------------------- temporal

  /** The day each citation was recorded. */
  function Days(cs: seq<Citation>): (r: seq<int>)
    ensures |r| == |cs| && forall i | 0 <= i < |cs| :: r[i] == cs[i].createdAt.day
  {
    seq(|cs|, i requires 0 <= i < |cs| => cs[i].createdAt.day)
  }

  /** The weekday each citation was recorded on. */
  function Weekdays(cs: seq<Citation>): (r: seq<int>)
    ensures |r| == |cs| && forall i | 0 <= i < |cs| :: r[i] == Weekday(cs[i].createdAt)
  {
    seq(|cs|, i requires 0 <= i < |cs| => Weekday(cs[i].createdAt))
  }

  /** A non-empty column has a non-empty tally whose counts are all positive. */
  lemma CountsNonEmpty<T>(xs: seq<T>)
    requires |xs| > 0
    ensures |Counts(xs)| > 0
    ensures forall i | 0 <= i < |Counts(xs)| :: Counts(xs)[i].1 >= 1
  {
    CountsSpec(xs);
    assert xs[0] in Dedup(xs);
  }

  function DayExamples(c: seq<(int, nat)>): (r: seq<Example>)
    ensures |r| == |c|
  {
    seq(|c|, i requires 0 <= i < |c| => DayCount(c[i].0, c[i].1))
  }

  function WeekdayExamples(c: seq<(int, nat)>): (r: seq<Example>)
    ensures |r| == |c|
  {
    seq(|c|, i requires 0 <= i < |c| => WeekdayCount(c[i].0, c[i].1))
  }

  /** The days with more than one and a half times the mean daily count. */
  function SpikeDays(cs: seq<Citation>): seq<(int, nat)>
    requires |cs| > 0
  {
    var daily := Counts(Days(cs));
    CountsNonEmpty(Days(cs));
    CountsAbove(daily, Mean(CountValues(daily)) * 1.5)
  }

  /** The pattern of activity spikes: with at least a week of days on record,
      two or more days well above the daily mean. */
  function SpikePattern(cs: seq<Citation>): (r: Option<CitationPattern>)
    requires |cs| > 0
    ensures r.Some? ==> r.value.patternType == "temporal_spikes" && |r.value.examples| <= 5
  {
    var daily := Counts(Days(cs));
    if |daily| < 7 then None
    else
      var average := Mean(CountValues(daily));
      var high := SpikeDays(cs);
      if |high| < 2 then None
      else
        Some(CitationPattern(
          "temporal_spikes", |high|, Min1(Fraction(|high|, |daily|)),
          DayExamples(Take(high, 5)),
          [("avg_daily_citations", Num(average)),
           ("peak_daily_citations", Whole(MaxCount(daily)))],
          AllEngines(cs), AllDomains(cs), AllTypes(cs), TimeRange(cs)))
  }

  /** The spike pattern appears exactly when seven or more distinct days are
      on record and at least two of them have more than 1.5 times the mean
      daily count, which is the number of citations over the number of days;
      its strength is the share of spike days, in (0, 1]. */
  lemma SpikeSpec(cs: seq<Citation>)
    requires |cs| > 0
    ensures SpikePattern(cs).Some? <==> |Dedup(Days(cs))| >= 7 && |SpikeDays(cs)| >= 2
    ensures Mean(CountValues(Counts(Days(cs)))) == |cs| as real / |Dedup(Days(cs))| as real
    ensures SpikePattern(cs).Some? ==> 0.0 < SpikePattern(cs).value.strength <= 1.0
    ensures SpikePattern(cs).Some? ==>
      SpikePattern(cs).value.strength == Fraction(|SpikeDays(cs)|, |Dedup(Days(cs))|)
  {
    var daily := Counts(Days(cs));
    CountsSpec(Days(cs));
    CountsNonEmpty(Days(cs));
    SumCountsIsLength(Days(cs));
    SumCountValues(daily);
    var high := SpikeDays(cs);
    assert |high| <= |daily|;
  }

  /** The busiest weekday has more than 1.5 times the citations of the quietest. */
  predicate WeeklyVaries(cs: seq<Citation>)
    requires |cs| > 0
  {
    CountsNonEmpty(Weekdays(cs));
    MinCountPositive(Counts(Weekdays(cs)));
    Varies(Counts(Weekdays(cs)))
  }

  /** The pattern of a weekly rhythm: the busiest weekday has more than 1.5
      times the citations of the quietest. */
  function WeeklyPattern(cs: seq<Citation>): (r: Option<CitationPattern>)
    requires |cs| > 0
    ensures r.Some? ==> r.value.patternType == "weekly_variation" && r.value.frequency == |cs|
  {
    var weekly := Counts(Weekdays(cs));
    CountsNonEmpty(Weekdays(cs));
    var most, least := MaxCount(weekly), MinCount(weekly);
    if !WeeklyVaries(cs) then None
    else
      Some(CitationPattern(
        "weekly_variation", |cs|, Spread(weekly),
        WeekdayExamples(weekly),
        [("peak_day", Whole(FirstWithCount(weekly, most))),
         ("low_day", Whole(FirstWithCount(weekly, least)))],
        AllEngines(cs), AllDomains(cs), AllTypes(cs), TimeRange(cs)))
  }

  /** The weekly pattern appears exactly when the busiest weekday has more
      than 1.5 times the citations of the quietest. */
  lemma WeeklySpec(cs: seq<Citation>)
    requires |cs| > 0
    ensures |Counts(Weekdays(cs))| > 0
    ensures WeeklyPattern(cs).Some? <==>
      MaxCount(Counts(Weekdays(cs))) as real > 1.5 * MinCount(Counts(Weekdays(cs))) as real
  {
    CountsNonEmpty(Weekdays(cs));
    MinCountPositive(Counts(Weekdays(cs)));
    VariesIff(Counts(Weekdays(cs)));
  }

  /** The strength of the weekly pattern lies in (0, 1]. */
  lemma WeeklyStrengthBounds(cs: seq<Citation>)
    requires |cs| > 0
    ensures WeeklyPattern(cs).Some? ==> 0.0 < WeeklyPattern(cs).value.strength <= 1.0
  {
    if WeeklyPattern(cs).Some? {
      var weekly := Counts(Weekdays(cs));
      CountsNonEmpty(Weekdays(cs));
      MinCountPositive(weekly);
      VariesIff(weekly);
      SpreadBounds(weekly);
    }
  }

  /** The temporal scan: the spike pattern, then the weekly pattern. */
  function TemporalPatterns(cs: seq<Citation>): seq<CitationPattern>
    requires |cs| > 0
  {
    OptionList(SpikePattern(cs)) + OptionList(WeeklyPattern(cs))
  }

  // ---------------------------------------------------------------- engines

  /** The citations collected from one engine, in order. */
  function EngineCitations(cs: seq<Citation>, e: string): seq<Citation> {
    Select(Engines(cs), cs, e)
  }

  /** An engine that occurs has a non-empty group, made of its own citations. */
  lemma EngineCitationsSpec(cs: seq<Citation>, e: string)
    ensures |EngineCitations(cs, e)| == Count(Engines(cs), e)
    ensures e in Engines(cs) ==> |EngineCitations(cs, e)| > 0
    ensures forall c | c in EngineCitations(cs, e) :: c in cs && c.engine == e
  {
    SelectLength(Engines(cs), cs, e);
    CountZero(Engines(cs), e);
    SelectMembers(Engines(cs), cs, e);
  }

  function TypeCountExamples(c: seq<(string, nat)>): (r: seq<Example>)
    ensures |r| == |c|
  {
    seq(|c|, i requires 0 <= i < |c| => TypeCount(c[i].0, c[i].1))
  }

  /** The pattern of an engine that cites one citation type in more than 60%
      of its citations; the share is the strength. */
  function EnginePattern(cs: seq<Citation>, e: string): (r: Option<CitationPattern>)
    requires e in Engines(cs)
    ensures r.Some? ==> r.value.patternType == "engine_content_preference" && r.value.engines == [e]
    ensures r.Some? ==> |r.value.examples| <= 3 && |r.value.contentTypes| == 1
  {
    var data := EngineCitations(cs, e);
    EngineCitationsSpec(cs, e);
    ValueCountsMax(Types(data), data[0].citationType);
    var prefs := ValueCounts(Types(data));
    var share := Fraction(prefs[0].1, |data|);
    if share <= 0.6 then None
    else
      Some(CitationPattern(
        "engine_content_preference", prefs[0].1, share,
        TypeCountExamples(Take(prefs, 3)),
        [("dominant_type", Label(prefs[0].0)),
         ("preference_strength", Num(share)),
         ("type_diversity", Whole(|prefs|))],
        [e], Dedup(Domains(data)), [prefs[0].0], TimeRange(cs)))
  }

  /** The engine pattern appears exactly when one citation type makes up more
      than 60% of the engine's citations. It then names the most frequent
      type, counts its citations, and its strength is that type's share, in
      (0.6, 1]. */
  lemma EngineSpec(cs: seq<Citation>, e: string)
    requires e in Engines(cs)
    ensures EnginePattern(cs, e).Some? <==>
      exists t | t in Types(EngineCitations(cs, e)) ::
        Count(Types(EngineCitations(cs, e)), t) as real > 0.6 * |EngineCitations(cs, e)| as real
    ensures EnginePattern(cs, e).Some? ==>
      var p := EnginePattern(cs, e).value;
      var ts := Types(EngineCitations(cs, e));
      && p.frequency == Count(ts, p.contentTypes[0])
      && (forall t :: Count(ts, t) <= p.frequency)
      && p.strength == Fraction(p.frequency, |ts|)
      && 0.6 < p.strength <= 1.0
  {
    EngineCitationsSpec(cs, e);
    Dominance(Types(EngineCitations(cs, e)));
  }

  /** The first row of a value count holds more than 60% of a column exactly
      when some value does. */
  lemma Dominance<T>(xs: seq<T>)
    requires |xs| > 0
    ensures |ValueCounts(xs)| > 0
    ensures ValueCounts(xs)[0].1 == Count(xs, ValueCounts(xs)[0].0) <= |xs|
    ensures forall t :: Count(xs, t) <= ValueCounts(xs)[0].1
    ensures Fraction(ValueCounts(xs)[0].1, |xs|) > 0.6 <==>
      exists t | t in xs :: Count(xs, t) as real > 0.6 * |xs| as real
  {
    var v := ValueCounts(xs);
    ValueCountsMax(xs, xs[0]);
    CountZero(xs, v[0].0);
    FractionAbove(v[0].1, |xs|, 0.6);
    forall t ensures Count(xs, t) <= v[0].1 {
      ValueCountsMax(xs, t);
    }
    if Fraction(v[0].1, |xs|) > 0.6 {
      assert v[0].0 in xs;
    }
  }

  /** One engine pattern per engine that passes, in order of the engines. */
  function EnginePatternsOf(cs: seq<Citation>, es: seq<string>): (r: seq<CitationPattern>)
    requires forall e | e in es :: e in Engines(cs)
    ensures |r| <= |es|
  {
    if es == [] then []
    else OptionList(EnginePattern(cs, es[0])) + EnginePatternsOf(cs, es[1..])
  }

  /** The engine scan, over the engines in order of first appearance. */
  function EnginePatterns(cs: seq<Citation>): seq<CitationPattern> {
    EnginePatternsOf(cs, AllEngines(cs))
  }

  /** Every engine pattern is about one of the scanned engines and has a
      strength in (0.6, 1]. */
  lemma {:induction false} EnginePatternsSpec(cs: seq<Citation>, es: seq<string>)
    requires forall e | e in es :: e in Engines(cs)
    ensures forall p | p in EnginePatternsOf(cs, es) ::
      p.patternType == "engine_content_preference" && |p.engines| == 1 && p.engines[0] in es && 0.6 < p.strength <= 1.0
  {
    if es != [] {
      EnginePatternsSpec(cs, es[1..]);
      EngineSpec(cs, es[0]);
    }
  }

  // --------------------------------------------------------------- features

  /** How `f"{value}"` writes a scalar metadata value: a string as itself, an
      int in decimal, a float with a decimal point, a bool as True or False. */
  function Render(v: Value): (s: string)
    requires IsScalar(v)
    ensures v.Bool? ==> s == "True" || s == "False"
    ensures v.Int? ==> '.' !in s
    ensures v.Real? ==> '.' in s
  {
    match v
    case Str(x) => x
    case Int(i) => IntToStringDigits(i); IntToString(i)
    case Real(x) => RealToString(x)
    case Bool(b) => if b then "True" else "False"
  }

  /** A float written as Python writes the float whose shortest form is the
      decimal expansion of x: sign, integer part, point, fraction digits
      ("0" when there are none). */
  function RealToString(x: real): (s: string)
    ensures '.' in s
  {
    if x < 0.0 then "-" + UnsignedRealToString(-x) else UnsignedRealToString(x)
  }

  function UnsignedRealToString(x: real): (s: string)
    requires x >= 0.0
    ensures '.' in s
  {
    var n := x.Floor;
    var digits := FractionDigits(x - n as real, 17);
    var s := NatToString(n) + "." + (if digits == "" then "0" else digits);
    assert s[|NatToString(n)|] == '.';
    s
  }

  /** The decimal digits of a fraction in [0, 1), at most fuel of them. */
  function FractionDigits(f: real, fuel: nat): (s: string)
    requires 0.0 <= f < 1.0
    ensures |s| <= fuel && forall c | c in s :: '0' <= c <= '9'
    decreases fuel
  {
    if f == 0.0 || fuel == 0 then ""
    else
      var d := (f * 10.0).Floor;
      [Digit(d)] + FractionDigits(f * 10.0 - d as real, fuel - 1)
  }

  /** A whole non-negative float is written as the integer followed by ".0". */
  lemma WholeFloatRendering(k: nat)
    ensures Render(Real(k as real)) == Render(Int(k)) + ".0"
  {
    WholeUnsigned(k as real, k);
  }

  /** A negative float is written as a minus sign followed by its magnitude. */
  lemma NegativeRendering(x: real)
    requires x < 0.0
    ensures RealToString(x) == "-" + RealToString(-x)
  {
    assert RealToString(-x) == UnsignedRealToString(-x);
  }

  lemma WholeUnsigned(x: real, n: nat)
    requires x == n as real
    ensures UnsignedRealToString(x) == NatToString(n) + ".0"
  {
    assert x.Floor == n;
    assert FractionDigits(x - n as real, 17) == "";
  }

  /** An int and a float never render alike: only the float has a point. */
  lemma IntAndFloatDiffer(i: int, x: real)
    ensures Render(Int(i)) != Render(Real(x))
  {
    assert '.' in Render(Real(x));
  }

  /** The token `f"{key}:{value}"` the feature scan counts for a scalar item. */
  function Token(item: (string, Value)): (t: string)
    requires IsScalar(item.1)
    ensures |t| > |item.0| && t[..|item.0|] == item.0 && t[|item.0|] == ':'
  {
    item.0 + ":" + Render(item.1)
  }

  /** Items that render alike are one token: an int and the string of its
      digits, a bool and its name, a colon moved between key and value, a
      whole float and its text; an int and the equal float differ. */
  lemma RenderedAlike()
    ensures Token(("year", Int(2024))) == Token(("year", Str("2024")))
    ensures Token(("open", Bool(true))) == Token(("open", Str("True")))
    ensures Token(("a:b", Str("c"))) == Token(("a", Str("b:c")))
    ensures Token(("score", Real(2.0))) == Token(("score", Str("2.0")))
    ensures Token(("score", Real(2.0))) != Token(("score", Int(2)))
  {
    assert NatToString(2024) == "2024" by {
      assert NatToString(2024) == NatToString(202) + "4";
      assert NatToString(202) == NatToString(20) + "2";
      assert NatToString(20) == NatToString(2) + "0";
    }
    assert Render(Real(2.0)) == "2.0" by {
      WholeFloatRendering(2);
    }
    assert Render(Real(2.0)) != Render(Int(2)) by {
      IntAndFloatDiffer(2, 2.0);
    }
  }

  /** The scalar items that render as t. */
  function RendersAs(t: string): ((string, Value)) -> bool {
    (item: (string, Value)) => IsScalar(item.1) && Token(item) == t
  }

  /** Some scalar item of the dictionary renders as the token t. */
  predicate HasToken(md: Metadata, t: string) {
    exists j | 0 <= j < |md| :: RendersAs(t)(md[j])
  }

  /** The tokens of the scalar items of a metadata dictionary, in order. */
  function ScalarTokens(md: Metadata): seq<string> {
    if md == [] then []
    else ScalarTokens(md[..|md| - 1]) + (if IsScalar(md[|md| - 1].1) then [Token(md[|md| - 1])] else [])
  }

  /** The tokens are exactly the renderings of the scalar items. */
  lemma {:induction false} ScalarTokensSpec(md: Metadata, t: string)
    ensures t in ScalarTokens(md) <==> HasToken(md, t)
  {
    if md != [] {
      var n := |md| - 1;
      var last := if IsScalar(md[n].1) then [Token(md[n])] else [];
      assert ScalarTokens(md) == ScalarTokens(md[..n]) + last;
      assert t in last <==> RendersAs(t)(md[n]);
      ScalarTokensSpec(md[..n], t);
      ButLast(md);
      ExistsSnoc(md, md[..n], md[n], RendersAs(t));
    }
  }

  /** The scalar metadata tokens of every citation, citation by citation. */
  function FeatureTokens(cs: seq<Citation>): (r: seq<string>)
  {
    if cs == [] then []
    else FeatureTokens(cs[..|cs| - 1]) + ScalarTokens(cs[|cs| - 1].metadata)
  }

  /** A token occurs exactly when some citation has a scalar metadata item
      that renders as it. */
  lemma {:induction false} FeatureTokensSpec(cs: seq<Citation>, t: string)
    ensures t in FeatureTokens(cs) <==> Carried(cs, t)
  {
    if cs != [] {
      var n := |cs| - 1;
      FeatureTokensSpec(cs[..n], t);
      ScalarTokensSpec(cs[n].metadata, t);
      assert FeatureTokens(cs) == FeatureTokens(cs[..n]) + ScalarTokens(cs[n].metadata);
      ButLast(cs);
      ExistsSnoc(cs, cs[..n], cs[n], CarriesToken(t));
    }
  }

  /** Some citation has a scalar metadata item rendering as t. */
  predicate Carried(cs: seq<Citation>, t: string) {
    exists i | 0 <= i < |cs| :: CarriesToken(t)(cs[i])
  }

  /** The citations with a scalar metadata item rendering as t. */
  function CarriesToken(t: string): Citation -> bool {
    (c: Citation) => HasToken(c.metadata, t)
  }

  /** Bumps the rows of xs into a tally, one after another. */
  function BumpAll<T(==)>(c: seq<(T, nat)>, xs: seq<T>): seq<(T, nat)> {
    if xs == [] then c else Bump(BumpAll(c, xs[..|xs| - 1]), xs[|xs| - 1])
  }

  /** Tallying a concatenation continues the tally of its first part. */
  lemma {:induction false} CountsConcat<T>(a: seq<T>, b: seq<T>)
    ensures Counts(a + b) == BumpAll(Counts(a), b)
  {
    if b != [] {
      var n := |b| - 1;
      CountsConcat(a, b[..n]);
      assert a + b == (a + b[..n]) + [b[n]];
      CountsSnoc(a + b[..n], b[n]);
    } else {
      assert a + b == a;
    }
  }

  /** Adds the tokens of the scalar items of one metadata dictionary to a
      tally (`feature_counts[f"{key}:{value}"] += 1`). */
  method CountItems(c: seq<(string, nat)>, md: Metadata) returns (counts: seq<(string, nat)>)
    ensures counts == BumpAll(c, ScalarTokens(md))
  {
    counts := c;
    for j := 0 to |md|
      invariant counts == BumpAll(c, ScalarTokens(md[..j]))
    {
      assert md[..j + 1][..j] == md[..j];
      var prev := ScalarTokens(md[..j]);
      if IsScalar(md[j].1) {
        var t := Token(md[j]);
        assert ScalarTokens(md[..j + 1]) == prev + [t];
        assert (prev + [t])[..|prev|] == prev;
        assert BumpAll(c, prev + [t]) == Bump(BumpAll(c, prev), t);
        counts := Bump(counts, t);
      } else {
        assert ScalarTokens(md[..j + 1]) == prev;
      }
    }
    assert md[..|md|] == md;
  }

  /** Tallies the scalar metadata tokens of the citations, in order of first
      appearance. */
  method CountFeatures(cs: seq<Citation>) returns (counts: seq<(string, nat)>)
    ensures counts == Counts(FeatureTokens(cs))
  {
    counts := [];
    for i := 0 to |cs|
      invariant counts == Counts(FeatureTokens(cs[..i]))
    {
      CountsConcat(FeatureTokens(cs[..i]), ScalarTokens(cs[i].metadata));
      assert cs[..i + 1][..i] == cs[..i];
      counts := CountItems(counts, cs[i].metadata);
    }
    assert cs[..|cs|] == cs;
  }

  function FeatureExamples(c: seq<(string, nat)>): (r: seq<Example>)
    ensures |r| == |c| && forall i | 0 <= i < |c| :: r[i] == FeatureCount(c[i].0, c[i].1)
  {
    seq(|c|, i requires 0 <= i < |c| => FeatureCount(c[i].0, c[i].1))
  }

  /** The pattern of metadata items shared by three or more citations, given
      the tally of all items; its strength is the share of frequent items
      among all distinct items. */
  function FeaturePattern(cs: seq<Citation>, counts: seq<(string, nat)>): (r: Option<CitationPattern>)
    requires |cs| > 0
    ensures r.Some? ==> r.value.patternType == "content_features" && |r.value.examples| <= 10
  {
    var frequent := Filter(counts, Frequent);
    if |frequent| == 0 then None
    else
      // frequent is not empty, so the guard max(len(counts), 1) is len(counts)
      Some(CitationPattern(
        "content_features", SumCounts(frequent), Fraction(|frequent|, |counts|),
        FeatureExamples(Take(SortDesc(frequent, CountKey), 10)),
        [("total_unique_features", Whole(|counts|)),
         ("frequent_features_count", Whole(|frequent|))],
        AllEngines(cs), AllDomains(cs), AllTypes(cs), TimeRange(cs)))
  }

  /** The pattern appears exactly when some metadata item is shared by three
      or more citations; its strength lies in (0, 1], it counts at least three
      occurrences, and its examples are frequent items with their true counts,
      most frequent first. */
  lemma FeatureSpec(cs: seq<Citation>)
    requires |cs| > 0
    ensures var toks := FeatureTokens(cs);
      FeaturePattern(cs, Counts(toks)).Some? <==> exists f | f in toks :: Count(toks, f) >= MinPatternFrequency
    ensures var p := FeaturePattern(cs, Counts(FeatureTokens(cs)));
      p.Some? ==> 0.0 < p.value.strength <= 1.0 && p.value.frequency >= MinPatternFrequency
  {
    FrequentRows(FeatureTokens(cs));
  }

  /** The examples of the feature pattern are frequent items with their true
      counts, most frequent first. */
  lemma FeatureExamplesSpec(cs: seq<Citation>)
    requires |cs| > 0
    ensures var toks := FeatureTokens(cs);
      var p := FeaturePattern(cs, Counts(toks));
      p.Some? ==>
        && (forall i | 0 <= i < |p.value.examples| ::
              p.value.examples[i].frequency == Count(toks, p.value.examples[i].feature) >= MinPatternFrequency)
        && (forall i, j | 0 <= i < j < |p.value.examples| ::
              p.value.examples[i].frequency >= p.value.examples[j].frequency)
  {
    var toks := FeatureTokens(cs);
    var p := FeaturePattern(cs, Counts(toks));
    if p.Some? {
      assert p.value.examples == TopFeatures(toks);
      TopFeaturesSpec(toks);
    }
  }

  /** The ten most frequent of the frequent items, as examples. */
  function TopFeatures(toks: seq<string>): seq<Example> {
    FeatureExamples(Take(SortDesc(Filter(Counts(toks), Frequent), CountKey), 10))
  }

  lemma TopFeaturesSpec(toks: seq<string>)
    ensures var ex := TopFeatures(toks);
      && (forall i | 0 <= i < |ex| :: ex[i].frequency == Count(toks, ex[i].feature) >= MinPatternFrequency)
      && (forall i, j | 0 <= i < j < |ex| :: ex[i].frequency >= ex[j].frequency)
  {
    var top := TopRows(toks, 10);
    TopRowsSpec(toks, 10);
    var ex := FeatureExamples(top);
    assert TopFeatures(toks) == ex;
    forall i | 0 <= i < |ex| ensures ex[i].frequency == Count(toks, ex[i].feature) >= MinPatternFrequency {
      assert ex[i].feature == top[i].0 && ex[i].frequency == top[i].1;
    }
    forall i, j | 0 <= i < j < |ex| ensures ex[i].frequency >= ex[j].frequency {
      assert ex[i].frequency == top[i].1 && ex[j].frequency == top[j].1;
    }
  }

  /** The k most frequent rows among those kept by the frequency threshold. */
  function TopRows<T(==)>(xs: seq<T>, k: nat): seq<(T, nat)> {
    Take(SortDesc(Filter(Counts(xs), Frequent), CountKey), k)
  }

  /** Every row carries the true count of its value in xs, and that count
      reaches the frequency threshold. */
  predicate FrequentCounts<T(==)>(xs: seq<T>, rows: seq<(T, nat)>) {
    forall i | 0 <= i < |rows| :: rows[i].1 == Count(xs, rows[i].0) >= MinPatternFrequency
  }

  /** The rows are ordered by count, largest first. */
  predicate Descending<T>(rows: seq<(T, nat)>) {
    forall i, j | 0 <= i < j < |rows| :: rows[i].1 >= rows[j].1
  }

  lemma TopRowsSpec<T>(xs: seq<T>, k: nat)
    ensures |TopRows(xs, k)| <= k
    ensures FrequentCounts(xs, TopRows(xs, k)) && Descending(TopRows(xs, k))
  {
    var sorted := SortDesc(Filter(Counts(xs), Frequent), CountKey);
    SortedFrequent(xs);
    var top := TopRows(xs, k);
    assert top == sorted[..|top|];
  }

  /** The rows of a tally kept by the frequency threshold: there is one
      exactly when some value occurs three or more times; the frequent share
      of distinct values lies
      in (0, 1] and the frequent rows sum to at least three. */
  lemma FrequentRows<T>(xs: seq<T>)
    ensures (exists x | x in xs :: Count(xs, x) >= MinPatternFrequency) <==> |Filter(Counts(xs), Frequent)| > 0
    ensures var frequent := Filter(Counts(xs), Frequent);
      |frequent| > 0 ==>
        && 0.0 < Fraction(|frequent|, |Counts(xs)|) <= 1.0
        && SumCounts(frequent) >= MinPatternFrequency
  {
    var counts := Counts(xs);
    CountsSpec(xs);
    var frequent := Filter(counts, Frequent);
    if exists x | x in xs :: Count(xs, x) >= MinPatternFrequency {
      var x :| x in xs && Count(xs, x) >= MinPatternFrequency;
      assert x in Keys(counts);
      var k :| 0 <= k < |counts| && counts[k].0 == x;
      assert counts[k] in frequent;
    }
    if |frequent| > 0 {
      assert frequent[0] in counts && Frequent(frequent[0]);
      SumCountsAtLeast(frequent, MinPatternFrequency);
    }
  }

  /** Sorted by count, the frequent rows keep their true counts. */
  lemma SortedFrequent<T>(xs: seq<T>)
    ensures var sorted := SortDesc(Filter(Counts(xs), Frequent), CountKey);
      FrequentCounts(xs, sorted) && Descending(sorted)
  {
    var counts := Counts(xs);
    CountsSpec(xs);
    var frequent := Filter(counts, Frequent);
    var sorted := SortDesc(frequent, CountKey);
    SortDescSpec(frequent, CountKey);
    forall i | 0 <= i < |sorted| ensures sorted[i].1 == Count(xs, sorted[i].0) >= MinPatternFrequency {
      assert sorted[i] in multiset(frequent);
      assert sorted[i] in counts;
    }
    forall i, j | 0 <= i < j < |sorted| ensures sorted[i].1 >= sorted[j].1 {
      assert CountKey(sorted[i]) >= CountKey(sorted[j]);
    }
  }

  /** A table whose every count is at least n and which is not empty sums to
      at least n. */
  lemma SumCountsAtLeast<T>(c: seq<(T, nat)>, n: nat)
    requires |c| > 0 && forall i | 0 <= i < |c| :: c[i].1 >= n
    ensures SumCounts(c) >= n
  {
    assert SumCounts(c) == c[0].1 + SumCounts(c[1..]);
  }

  // ---------------------------------------------------------- query clusters

  /** Each query with the number of citations it has in its cluster. */
  function QueryExamples(cluster: seq<Citation>, qs: seq<string>): (r: seq<Example>)
    ensures |r| == |qs| && forall i | 0 <= i < |qs| :: r[i] == QueryCount(qs[i], Count(Queries(cluster), qs[i]))
  {
    seq(|qs|, i requires 0 <= i < |qs| => QueryCount(qs[i], Count(Queries(cluster), qs[i])))
  }

  /** The citations whose query falls in cluster `id`, in order. */
  function Cluster(cs: seq<Citation>, labels: seq<int>, id: int): (r: seq<Citation>)
    requires |labels| == |cs|
    ensures |r| == Count(labels, id) <= |cs|
  {
    SelectLength(labels, cs, id);
    CountZero(labels, id);
    Select(labels, cs, id)
  }

  /** The pattern of one query cluster with three or more citations; its
      strength is the cluster's share of all citations. */
  function ClusterPattern(cs: seq<Citation>, labels: seq<int>, id: int): (r: Option<CitationPattern>)
    requires |labels| == |cs|
    ensures r.Some? ==> r.value.patternType == "query_similarity" && |r.value.examples| <= 5
    ensures r.Some? ==> r.value.frequency == Count(labels, id) >= MinPatternFrequency
    ensures r.Some? ==> r.value.strength == Fraction(r.value.frequency, |cs|)
    ensures r.Some? ==> 0.0 < r.value.strength <= 1.0
    ensures r.Some? ==> |r.value.domains| <= 3
  {
    CountZero(labels, id);
    var cluster := Cluster(cs, labels, id);
    if |cluster| < MinPatternFrequency then None
    else
      var common := Take(ValueCounts(Domains(cluster)), 3);
      Some(CitationPattern(
        "query_similarity", |cluster|, Fraction(|cluster|, |cs|),
        QueryExamples(cluster, Take(Queries(cluster), 5)),
        [("cluster_size", Whole(|cluster|)),
         ("common_domains", Table(common)),
         ("avg_prominence", Num(Mean(Prominences(cluster))))],
        AllEngines(cluster), Keys(common), AllTypes(cluster), TimeRange(cs)))
  }

  /** The patterns of clusters 0 to n - 1, in that order; each counts three
      or more citations and has a strength in (0, 1], and since clusters do
      not overlap, their frequencies add up to at most the citations labelled
      with one of them. */
  function ClusterPatterns(cs: seq<Citation>, labels: seq<int>, n: nat): (r: seq<CitationPattern>)
    requires |labels| == |cs|
    ensures |r| <= n
    ensures forall p | p in r ::
      p.patternType == "query_similarity" && p.frequency >= MinPatternFrequency && 0.0 < p.strength <= 1.0
    ensures Frequencies(r) <= InRange(labels, n)
  {
    if n == 0 then []
    else
      var prev := ClusterPatterns(cs, labels, n - 1);
      InRangeStep(labels, n);
      match ClusterPattern(cs, labels, n - 1)
        case None => prev
        case Some(p) => FrequenciesSnoc(prev, p); prev + [p]
  }

  /** The number of clusters asked for: a third of the citations, at most five. */
  function ClusterCount(total: nat): (n: nat)
    ensures n <= 5 && n <= total / 3
    ensures total >= 10 ==> n >= 3
  {
    if total / 3 < 5 then total / 3 else 5
  }

  /** The query scan. The cluster of each citation's query is given in
      `labels`; with fewer than ten citations there is no scan, and a
      labelling of the wrong size stands for a clustering that raised, which
      the scan's exception handler turns into no patterns. Every cluster
      count is at least 3 here, so the source's test for fewer than two
      clusters never fires. */
  function QueryPatterns(cs: seq<Citation>, labels: seq<int>): seq<CitationPattern>
  {
    if |cs| < 10 || |labels| != |cs| then [] else ClusterPatterns(cs, labels, ClusterCount(|cs|))
  }

  /** The summed frequency of a list of patterns. */
  function Frequencies(ps: seq<CitationPattern>): nat {
    if ps == [] then 0 else Frequencies(ps[..|ps| - 1]) + ps[|ps| - 1].frequency
  }

  /** The number of labels in [0, n). */
  function InRange(labels: seq<int>, n: int): nat {
    if labels == [] then 0
    else InRange(labels[..|labels| - 1], n) + (if 0 <= labels[|labels| - 1] < n then 1 else 0)
  }

  lemma {:induction false} InRangeStep(labels: seq<int>, n: int)
    requires n > 0
    ensures InRange(labels, n) == InRange(labels, n - 1) + Count(labels, n - 1)
    ensures InRange(labels, n) <= |labels|
  {
    if labels != [] {
      InRangeStep(labels[..|labels| - 1], n);
    }
  }

  /** Clusters do not overlap: their pattern frequencies add up to at most the
      number of citations labelled with one of the scanned clusters. */
  lemma FrequenciesSnoc(ps: seq<CitationPattern>, p: CitationPattern)
    ensures Frequencies(ps + [p]) == Frequencies(ps) + p.frequency
  {
    assert (ps + [p])[..|ps|] == ps;
  }

  /** With fewer than ten citations or a failed clustering there is no query
      pattern. Every query pattern has at least three citations and a
      strength in (0, 1]; there are at most five, and together they count no
      more citations than there are. */
  lemma QuerySpec(cs: seq<Citation>, labels: seq<int>)
    ensures |cs| < 10 || |labels| != |cs| ==> QueryPatterns(cs, labels) == []
    ensures |QueryPatterns(cs, labels)| <= 5
    ensures Frequencies(QueryPatterns(cs, labels)) <= |cs|
    ensures forall p | p in QueryPatterns(cs, labels) ::
      p.patternType == "query_similarity" && p.frequency >= MinPatternFrequency && 0.0 < p.strength <= 1.0
  {
    if |cs| >= 10 && |labels| == |cs| {
      var n := ClusterCount(|cs|);
      InRangeStep(labels, n);
    }
  }

  // ---------------------------------------------------------------- analysis

  /** Every pattern the scans find, scan by scan: domains, content types,
      positions, time, engines, metadata features, query clusters. */
  function PatternsOf(cs: seq<Citation>, labels: seq<int>): seq<CitationPattern>
  {
    if cs == [] then []
    else
      DomainPatterns(cs) + OptionList(ContentTypePattern(cs)) + OptionList(PositionPattern(cs))
      + TemporalPatterns(cs) + EnginePatterns(cs)
      + OptionList(FeaturePattern(cs, Counts(FeatureTokens(cs)))) + QueryPatterns(cs, labels)
  }

  /** Runs the scans one after another and collects their patterns. */
  method AnalyzeCitationPatterns(cs: seq<Citation>, labels: seq<int>) returns (patterns: seq<CitationPattern>)
    ensures patterns == PatternsOf(cs, labels)
    ensures cs == [] ==> patterns == []
  {
    if cs == [] {
      return [];
    }
    patterns := DomainPatterns(cs);
    patterns := patterns + OptionList(ContentTypePattern(cs));
    patterns := patterns + OptionList(PositionPattern(cs));
    patterns := patterns + TemporalPatterns(cs);
    patterns := patterns + EnginePatterns(cs);
    var counts := CountFeatures(cs);
    patterns := patterns + OptionList(FeaturePattern(cs, counts));
    patterns := patterns + QueryPatterns(cs, labels);
  }

  /** Every pattern has a strength in (0, 1]. */
  predicate InUnit(ps: seq<CitationPattern>) {
    forall p | p in ps :: 0.0 < p.strength <= 1.0
  }

  lemma InUnitAppend(a: seq<CitationPattern>, b: seq<CitationPattern>)
    requires InUnit(a) && InUnit(b)
    ensures InUnit(a + b)
  {
  }

  lemma DomainInUnit(cs: seq<Citation>)
    requires |cs| > 0 && Within(Prominences(cs), 0.0, 1.0)
    ensures InUnit(DomainPatterns(cs))
  {
    var f := DomainFrequencyPattern(cs);
    var p := DomainProminencePattern(cs);
    assert InUnit(OptionList(f));
    assert InUnit(OptionList(p)) by {
      DomainProminenceStrength(cs);
    }
    InUnitAppend(OptionList(f), OptionList(p));
  }

  lemma TypeInUnit(cs: seq<Citation>)
    requires |cs| > 0 && Within(Prominences(cs), 0.0, 1.0)
    ensures InUnit(OptionList(ContentTypePattern(cs)))
  {
    ContentTypeStrength(cs);
  }

  lemma PositionInUnit(cs: seq<Citation>)
    requires |cs| > 0
    requires forall i | 0 <= i < |cs| :: cs[i].position >= 0
    ensures InUnit(OptionList(PositionPattern(cs)))
  {
    PositionStrength(cs);
  }

  lemma TemporalInUnit(cs: seq<Citation>)
    requires |cs| > 0
    ensures InUnit(TemporalPatterns(cs))
  {
    SpikeInUnit(cs);
    WeeklyInUnit(cs);
    InUnitAppend(OptionList(SpikePattern(cs)), OptionList(WeeklyPattern(cs)));
  }

  lemma SpikeInUnit(cs: seq<Citation>)
    requires |cs| > 0
    ensures InUnit(OptionList(SpikePattern(cs)))
  {
    SpikeSpec(cs);
  }

  lemma WeeklyInUnit(cs: seq<Citation>)
    requires |cs| > 0
    ensures InUnit(OptionList(WeeklyPattern(cs)))
  {
    WeeklyStrengthBounds(cs);
  }

  lemma EngineInUnit(cs: seq<Citation>)
    ensures InUnit(EnginePatterns(cs))
  {
    EnginePatternsSpec(cs, AllEngines(cs));
  }

  lemma FeatureInUnit(cs: seq<Citation>)
    requires |cs| > 0
    ensures InUnit(OptionList(FeaturePattern(cs, Counts(FeatureTokens(cs)))))
  {
    FeatureSpec(cs);
  }

  lemma QueryInUnit(cs: seq<Citation>, labels: seq<int>)
    ensures InUnit(QueryPatterns(cs, labels))
  {
    QuerySpec(cs, labels);
  }

  /** When every prominence lies in [0, 1] and no position is negative, every
      pattern found has a strength in (0, 1]. */
  lemma StrengthsInUnit(cs: seq<Citation>, labels: seq<int>)
    requires Within(Prominences(cs), 0.0, 1.0)
    requires forall i | 0 <= i < |cs| :: cs[i].position >= 0
    ensures InUnit(PatternsOf(cs, labels))
  {
    if cs != [] {
      var p1 := DomainPatterns(cs);
      var p2 := p1 + OptionList(ContentTypePattern(cs));
      var p3 := p2 + OptionList(PositionPattern(cs));
      var p4 := p3 + TemporalPatterns(cs);
      var p5 := p4 + EnginePatterns(cs);
      var p6 := p5 + OptionList(FeaturePattern(cs, Counts(FeatureTokens(cs))));
      DomainInUnit(cs);
      TypeInUnit(cs);
      InUnitAppend(p1, OptionList(ContentTypePattern(cs)));
      PositionInUnit(cs);
      InUnitAppend(p2, OptionList(PositionPattern(cs)));
      TemporalInUnit(cs);
      InUnitAppend(p3, TemporalPatterns(cs));
      EngineInUnit(cs);
      InUnitAppend(p4, EnginePatterns(cs));
      FeatureInUnit(cs);
      InUnitAppend(p5, OptionList(FeaturePattern(cs, Counts(FeatureTokens(cs)))));
      QueryInUnit(cs, labels);
      InUnitAppend(p6, QueryPatterns(cs, labels));
    }
  }
}
