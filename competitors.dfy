/** Competitor profiles: for each competitor domain, how often and how it is
    cited, on which topics, at which times and by which engines. */
module Competitors {
  import opened Text
  import opened Tally
  import opened Records
  import opened Patterns

  /** The profile of one competitor domain. The hourly and daily tables are
      value counts, most frequent first. */
  datatype CompetitorPattern = CompetitorPattern(
    competitorDomain: string,
    citationFrequency: real,
    preferredContentTypes: seq<string>,
    strongTopics: seq<string>,
    hourly: seq<(int, nat)>,
    daily: seq<(int, nat)>,
    averagePosition: real,
    enginesDominance: seq<(string, real)>)

  /** Question words never count as topics. */
  const QuestionWords: set<string> := {"what", "how", "why", "when", "where", "who", "which"}

  /** The citations whose source domain is the lower-cased competitor name. */
  function DomainCitations(cs: seq<Citation>, domain: string): (r: seq<Citation>)
    ensures |r| == Count(Domains(cs), Lower(domain))
  {
    SelectLength(Domains(cs), cs, Lower(domain));
    Select(Domains(cs), cs, Lower(domain))
  }

  /** Whole days between the first and the last citation, at least 1. */
  function Span(cs: seq<Citation>): (d: nat)
    requires |cs| > 0
    ensures d >= 1
  {
    var days := DaysBetween(Earliest(cs), Latest(cs));
    if days < 1 then 1 else days
  }

  /** The lower-cased words of all the queries, joined by spaces. */
  function QueryWords(data: seq<Citation>): seq<string> {
    Words(Lower(Join(" ", Queries(data))))
  }

  /** A word that may name a topic: longer than three characters and not a
      question word. */
  predicate Topical(e: (string, nat)) {
    |e.0| > 3 && e.0 !in QuestionWords
  }

  /** Among the ten most common query words, the first five topical ones. */
  function StrongTopics(data: seq<Citation>): seq<string> {
    Keys(Take(Filter(Take(ValueCounts(QueryWords(data)), 10), Topical), 5))
  }

  function Hours(cs: seq<Citation>): (r: seq<int>)
    ensures |r| == |cs| && forall i | 0 <= i < |cs| :: r[i] == Hour(cs[i].createdAt)
  {
    seq(|cs|, i requires 0 <= i < |cs| => Hour(cs[i].createdAt))
  }

  /** The profile of a competitor, or None when no citation has its
      lower-cased name as source domain. */
  function Profile(cs: seq<Citation>, domain: string): (r: Option<CompetitorPattern>)
    requires |cs| > 0
    ensures r.Some? ==> r.value.competitorDomain == domain
  {
    var data := DomainCitations(cs, domain);
    if |data| == 0 then None
    else
      Some(CompetitorPattern(
        domain,
        Fraction(|data|, Span(cs)),
        Keys(Take(ValueCounts(Types(data)), 3)),
        StrongTopics(data),
        ValueCounts(Hours(data)),
        ValueCounts(Weekdays(data)),
        Mean(Positions(data)),
        Shares(ValueCounts(Engines(data)), |data|)))
  }

  /** One profile per competitor that is cited, in the order given. */
  function ProfilesOf(cs: seq<Citation>, domains: seq<string>): (r: seq<CompetitorPattern>)
    requires |cs| > 0
    ensures |r| <= |domains|
  {
    if domains == [] then []
    else OptionList(Profile(cs, domains[0])) + ProfilesOf(cs, domains[1..])
  }

  /** No citations or no competitors give no profiles. */
  function AnalyzeCompetitorPatterns(cs: seq<Citation>, domains: seq<string>): (r: seq<CompetitorPattern>)
    ensures |r| <= |domains|
    ensures cs == [] ==> r == []
  {
    if cs == [] || domains == [] then [] else ProfilesOf(cs, domains)
  }

  /** A competitor is profiled exactly when its lower-cased name is the source
      domain of some citation. */
  lemma ProfileExists(cs: seq<Citation>, domain: string)
    requires |cs| > 0
    ensures Profile(cs, domain).Some? <==> Lower(domain) in Domains(cs)
  {
    CountZero(Domains(cs), Lower(domain));
  }

  /** Every profile belongs to a listed competitor that is cited, and every
      cited competitor has a profile. */
  lemma {:induction false} ProfilesOfSpec(cs: seq<Citation>, domains: seq<string>)
    requires |cs| > 0
    ensures forall p | p in ProfilesOf(cs, domains) ::
      p.competitorDomain in domains && Lower(p.competitorDomain) in Domains(cs)
    ensures forall d | d in domains && Lower(d) in Domains(cs) ::
      exists p | p in ProfilesOf(cs, domains) :: p.competitorDomain == d
  {
    if domains != [] {
      ProfilesOfSpec(cs, domains[1..]);
      ProfileExists(cs, domains[0]);
      var rest := ProfilesOf(cs, domains[1..]);
      forall d | d in domains && Lower(d) in Domains(cs)
        ensures exists p | p in ProfilesOf(cs, domains) :: p.competitorDomain == d
      {
        if d == domains[0] {
          ProfileExists(cs, d);
          assert Profile(cs, d).value in ProfilesOf(cs, domains);
        } else {
          var p :| p in rest && p.competitorDomain == d;
          assert p in ProfilesOf(cs, domains);
        }
      }
    }
  }

  /** The citations of a profile all come from the competitor's domain. */
  lemma DomainCitationsSpec(cs: seq<Citation>, domain: string)
    ensures forall c | c in DomainCitations(cs, domain) :: c in cs && c.sourceDomain == Lower(domain)
  {
    SelectMembers(Domains(cs), cs, Lower(domain));
  }

  /** Citations per day lie between 0 and the number of citations; at most
      three preferred types, each a type the competitor is cited with. */
  lemma ProfileSpec(cs: seq<Citation>, domain: string)
    requires |cs| > 0
    ensures Profile(cs, domain).Some? ==>
      var p := Profile(cs, domain).value;
      var data := DomainCitations(cs, domain);
      && 0.0 < p.citationFrequency <= |data| as real
      && |p.preferredContentTypes| <= 3
      && (forall t | t in p.preferredContentTypes :: t in Types(data))
  {
    var data := DomainCitations(cs, domain);
    if |data| > 0 {
      FractionAtMost(|data|, Span(cs));
      TopValues(Types(data), 3);
    }
  }

  /** The hourly and daily tables count every citation once, and the engine
      shares add up to 1. */
  lemma ProfileTotals(cs: seq<Citation>, domain: string)
    requires |cs| > 0
    ensures Profile(cs, domain).Some? ==>
      var p := Profile(cs, domain).value;
      var data := DomainCitations(cs, domain);
      && SumCounts(p.hourly) == |data|
      && SumCounts(p.daily) == |data|
      && Sum(ShareValues(p.enginesDominance)) == 1.0
  {
    var data := DomainCitations(cs, domain);
    if |data| > 0 {
      ValueCountsSum(Hours(data));
      ValueCountsSum(Weekdays(data));
      ValueCountsSum(Engines(data));
      SharesOfWhole(ValueCounts(Engines(data)), |data|);
    }
  }

  /** The k most frequent values of a column occur in it. */
  lemma TopValues<T>(xs: seq<T>, k: nat)
    ensures forall t | t in Keys(Take(ValueCounts(xs), k)) :: t in xs
  {
    ValueCountsSpec(xs);
    var top := Take(ValueCounts(xs), k);
    forall t | t in Keys(top) ensures t in xs {
      var i :| 0 <= i < |top| && Keys(top)[i] == t;
      CountZero(xs, top[i].0);
    }
  }

  /** At most five strong topics, each longer than three characters, not a
      question word, and a word of the competitor's queries. */
  lemma StrongTopicsSpec(data: seq<Citation>)
    ensures |StrongTopics(data)| <= 5
    ensures forall w | w in StrongTopics(data) :: |w| > 3 && w !in QuestionWords && w in QueryWords(data)
  {
    var words := QueryWords(data);
    ValueCountsSpec(words);
    var common := Take(ValueCounts(words), 10);
    var kept := Filter(common, Topical);
    var top := Take(kept, 5);
    forall w | w in Keys(top) ensures |w| > 3 && w !in QuestionWords && w in words {
      var i :| 0 <= i < |top| && Keys(top)[i] == w;
      assert top[i] in kept;
      assert Topical(top[i]);
      assert top[i] in common;
      var j :| 0 <= j < |common| && common[j] == top[i];
      CountZero(words, common[j].0);
    }
  }
}
