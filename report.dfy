/** The summary report of a list of content gaps: how many there are of each
    kind, priority and effort, which content types they call for, their mean
    opportunity, the ten leading opportunities and up to five quick wins. */
module Report {
  import opened Tally
  import opened Records
  import opened Gaps
  import opened Scoring

  /** An entry of the leading opportunities. */
  datatype Opportunity = Opportunity(query: string, score: real, kind: GapKind, priority: Level, contentType: string)

  /** An entry of the quick wins. */
  datatype QuickWin = QuickWin(query: string, score: real, effort: Level)

  /** No gaps give a report with a total of zero and nothing else; otherwise
      every statistic is present. Tallies list their keys in order of first
      appearance, except the content types, which are ordered by count. */
  datatype GapReport =
    | NoGaps
    | GapReport(
        total: nat,
        gapTypes: seq<(GapKind, nat)>,
        priorities: seq<(Level, nat)>,
        averageScore: real,
        highOpportunity: nat,
        contentTypes: seq<(string, nat)>,
        efforts: seq<(Level, nat)>,
        top: seq<Opportunity>,
        quickWins: seq<QuickWin>)
  {
    function Total(): nat {
      if NoGaps? then 0 else total
    }
  }

  /** A gap of opportunity 0.7 or more. */
  predicate HighOpportunity(g: ContentGap) {
    g.score >= 0.7
  }

  /** A gap of low effort and opportunity 0.6 or more. */
  predicate QuickWinGap(g: ContentGap) {
    g.effort == Low && g.score >= 0.6
  }

  function Kinds(gs: seq<ContentGap>): (r: seq<GapKind>)
    ensures |r| == |gs| && forall i | 0 <= i < |gs| :: r[i] == gs[i].kind
  {
    seq(|gs|, i requires 0 <= i < |gs| => gs[i].kind)
  }

  function Priorities(gs: seq<ContentGap>): (r: seq<Level>)
    ensures |r| == |gs| && forall i | 0 <= i < |gs| :: r[i] == gs[i].priority
  {
    seq(|gs|, i requires 0 <= i < |gs| => gs[i].priority)
  }

  function Efforts(gs: seq<ContentGap>): (r: seq<Level>)
    ensures |r| == |gs| && forall i | 0 <= i < |gs| :: r[i] == gs[i].effort
  {
    seq(|gs|, i requires 0 <= i < |gs| => gs[i].effort)
  }

  function ContentTypes(gs: seq<ContentGap>): (r: seq<string>)
    ensures |r| == |gs| && forall i | 0 <= i < |gs| :: r[i] == gs[i].contentType
  {
    seq(|gs|, i requires 0 <= i < |gs| => gs[i].contentType)
  }

  function Scores(gs: seq<ContentGap>): (r: seq<real>)
    ensures |r| == |gs| && forall i | 0 <= i < |gs| :: r[i] == gs[i].score
  {
    seq(|gs|, i requires 0 <= i < |gs| => gs[i].score)
  }

  function ToOpportunity(g: ContentGap): Opportunity {
    Opportunity(g.query, g.score, g.kind, g.priority, g.contentType)
  }

  function Opportunities(gs: seq<ContentGap>): (r: seq<Opportunity>)
    ensures |r| == |gs| && forall i | 0 <= i < |gs| :: r[i] == ToOpportunity(gs[i])
  {
    seq(|gs|, i requires 0 <= i < |gs| => ToOpportunity(gs[i]))
  }

  function ToQuickWin(g: ContentGap): QuickWin {
    QuickWin(g.query, g.score, g.effort)
  }

  function QuickWins(gs: seq<ContentGap>): (r: seq<QuickWin>)
    ensures |r| == |gs| && forall i | 0 <= i < |gs| :: r[i] == ToQuickWin(gs[i])
  {
    seq(|gs|, i requires 0 <= i < |gs| => ToQuickWin(gs[i]))
  }

  function GenerateGapReport(gs: seq<ContentGap>): GapReport {
    if gs == [] then NoGaps
    else
      GapReport(
        |gs|,
        Counts(Kinds(gs)),
        Counts(Priorities(gs)),
        Round2(Mean(Scores(gs))),
        |Filter(gs, HighOpportunity)|,
        ValueCounts(ContentTypes(gs)),
        Counts(Efforts(gs)),
        Opportunities(Take(gs, 10)),
        QuickWins(Take(Filter(gs, QuickWinGap), 5)))
  }

  /** The report's total is the number of gaps; there is a report exactly
      when there are gaps. */
  lemma ReportTotal(gs: seq<ContentGap>)
    ensures GenerateGapReport(gs).NoGaps? <==> gs == []
    ensures GenerateGapReport(gs).Total() == |gs|
  {
  }

  /** c counts every element of xs exactly once under its own key: the keys
      are the distinct elements and the counts add up to |xs|. */
  predicate Tallies<T(==)>(c: seq<(T, nat)>, xs: seq<T>) {
    && multiset(Keys(c)) == multiset(Dedup(xs))
    && SumCounts(c) == |xs|
    && forall i | 0 <= i < |c| :: c[i].1 == Count(xs, c[i].0)
  }

  lemma CountsTally<T>(xs: seq<T>)
    ensures Tallies(Counts(xs), xs) && Keys(Counts(xs)) == Dedup(xs)
  {
    CountsSpec(xs);
    SumCountsIsLength(xs);
  }

  lemma ValueCountsTally<T>(xs: seq<T>)
    ensures Tallies(ValueCounts(xs), xs) && SortedDesc(ValueCounts(xs), CountKey)
  {
    ValueCountsSpec(xs);
    ValueCountsSum(xs);
    CountsSpec(xs);
    KeysPerm(ValueCounts(xs), Counts(xs));
  }

  /** Removing the element at k takes one copy of it out of the multiset. */
  lemma MultisetRemove<T>(b: seq<T>, k: nat)
    requires k < |b|
    ensures multiset(b[..k] + b[k + 1..]) == multiset(b) - multiset{b[k]}
  {
    assert b == b[..k] + [b[k]] + b[k + 1..];
  }

  /** Removing the pair at k takes one copy of its key out of the keys. */
  lemma KeysRemove<K, V>(b: seq<(K, V)>, k: nat)
    requires k < |b|
    ensures multiset(Keys(b)) == multiset(Keys(b[..k] + b[k + 1..])) + multiset{b[k].0}
  {
    assert Keys(b) == Keys(b[..k]) + [b[k].0] + Keys(b[k + 1..]);
    assert Keys(b[..k] + b[k + 1..]) == Keys(b[..k]) + Keys(b[k + 1..]);
  }

  /** The keys of a non-empty list: its first key and the keys of the rest. */
  lemma KeysCons<K, V>(a: seq<(K, V)>)
    requires a != []
    ensures multiset(Keys(a)) == multiset(Keys(a[1..])) + multiset{a[0].0}
  {
    assert Keys(a) == [a[0].0] + Keys(a[1..]);
  }

  /** Permuted pairs have permuted keys. */
  lemma {:induction false} KeysPerm<K, V>(a: seq<(K, V)>, b: seq<(K, V)>)
    requires multiset(a) == multiset(b)
    ensures multiset(Keys(a)) == multiset(Keys(b))
  {
    if a != [] {
      var k := IndexOf(b, a[0]);
      var b' := b[..k] + b[k + 1..];
      MultisetRemove(b, k);
      assert multiset(a[1..]) == multiset(b') by {
        assert a == [a[0]] + a[1..];
      }
      KeysPerm(a[1..], b');
      KeysCons(a);
      KeysRemove(b, k);
    }
  }

  /** The index of an element of the multiset of b. */
  lemma IndexOf<T>(b: seq<T>, x: T) returns (k: nat)
    requires x in multiset(b)
    ensures k < |b| && b[k] == x
  {
    assert x in b;
    k :| k < |b| && b[k] == x;
  }

  /** Each tally of a report counts every gap exactly once under its own key;
      the kinds, priorities and efforts are listed in order of first
      appearance, the content types by decreasing count. */
  lemma ReportTallies(gs: seq<ContentGap>)
    requires gs != []
    ensures var r := GenerateGapReport(gs);
      && Tallies(r.gapTypes, Kinds(gs)) && Keys(r.gapTypes) == Dedup(Kinds(gs))
      && Tallies(r.priorities, Priorities(gs)) && Keys(r.priorities) == Dedup(Priorities(gs))
      && Tallies(r.efforts, Efforts(gs)) && Keys(r.efforts) == Dedup(Efforts(gs))
      && Tallies(r.contentTypes, ContentTypes(gs)) && SortedDesc(r.contentTypes, CountKey)
  {
    CountsTally(Kinds(gs));
    CountsTally(Priorities(gs));
    CountsTally(Efforts(gs));
    ValueCountsTally(ContentTypes(gs));
  }

  /** The mean opportunity is rounded to two decimals, so it lies within
      0.005 of the true mean; the high-opportunity count is the number of
      gaps scoring at least 0.7. */
  lemma ReportScores(gs: seq<ContentGap>)
    requires gs != []
    ensures var r := GenerateGapReport(gs);
      && Mean(Scores(gs)) - 0.005 <= r.averageScore <= Mean(Scores(gs)) + 0.005
      && r.highOpportunity <= r.total
      && (r.highOpportunity == 0 <==> forall g | g in gs :: !HighOpportunity(g))
      && (r.highOpportunity == r.total <==> forall g | g in gs :: HighOpportunity(g))
  {
    FilterNone(gs, HighOpportunity);
    FilterAll(gs, HighOpportunity);
  }

  /** Filter keeps nothing exactly when no element passes. */
  lemma FilterNone<T>(xs: seq<T>, p: T -> bool)
    ensures |Filter(xs, p)| == 0 <==> forall x | x in xs :: !p(x)
  {
    if Filter(xs, p) == [] {
      forall x | x in xs ensures !p(x) {
        var k :| 0 <= k < |xs| && xs[k] == x;
      }
    }
  }

  /** Filter keeps every element exactly when every element passes. */
  lemma {:induction false} FilterAll<T>(xs: seq<T>, p: T -> bool)
    ensures |Filter(xs, p)| == |xs| <==> forall x | x in xs :: p(x)
  {
    if xs != [] {
      var init, x := xs[..|xs| - 1], xs[|xs| - 1];
      FilterAll(init, p);
      ButLast(xs);
      FilterAppend(init, [x], p);
      assert Filter([x], p) == if p(x) then [x] else [];
    }
  }

  /** With every opportunity in [0.3, 1.1], so is the reported average. */
  lemma ReportAverageRange(gs: seq<ContentGap>)
    requires gs != [] && forall g | g in gs :: 0.3 <= g.score <= 1.1
    ensures 0.3 <= GenerateGapReport(gs).averageScore <= 1.1
  {
    forall k | 0 <= k < |gs| ensures 0.3 <= Scores(gs)[k] <= 1.1 {
      assert gs[k] in gs;
    }
    MeanBounds(Scores(gs), 0.3, 1.1);
    Round2Within(Mean(Scores(gs)), 30, 110);
  }

  /** The leading opportunities are the first ten gaps, in order; for gaps
      ranked by opportunity, none of the other gaps scores higher. */
  lemma ReportTop(gs: seq<ContentGap>)
    requires gs != []
    ensures var top := GenerateGapReport(gs).top;
      && |top| == (if |gs| < 10 then |gs| else 10)
      && (forall i | 0 <= i < |top| :: top[i] == ToOpportunity(gs[i]))
      && (SortedDesc(gs, Score) ==>
            forall i, j | 0 <= i < |top| <= j < |gs| :: top[i].score >= gs[j].score)
  {
  }

  /** The quick wins are the first five gaps of low effort and opportunity
      0.6 or more, in order; there are fewer than five only when no other
      gap qualifies. */
  lemma ReportQuickWins(gs: seq<ContentGap>)
    requires gs != []
    ensures QuickWinsOf(GenerateGapReport(gs).quickWins, gs)
  {
    assert GenerateGapReport(gs).quickWins == QuickWins(Take(Filter(gs, QuickWinGap), 5));
    QuickWinsSpec(gs);
  }

  /** wins are the quick wins of gs: the first five low-effort gaps scoring at
      least 0.6, in order, and fewer only when no other gap qualifies. */
  predicate QuickWinsOf(wins: seq<QuickWin>, gs: seq<ContentGap>) {
    var qualifying := Filter(gs, QuickWinGap);
    && |wins| == (if |qualifying| < 5 then |qualifying| else 5)
    && (forall i | 0 <= i < |wins| :: wins[i].effort == Low && wins[i].score >= 0.6
          && exists k | 0 <= k < |gs| :: wins[i] == ToQuickWin(gs[k]))
    && (|wins| < 5 ==> forall g | g in gs && QuickWinGap(g) :: ToQuickWin(g) in wins)
  }

  lemma QuickWinsSpec(gs: seq<ContentGap>)
    ensures QuickWinsOf(QuickWins(Take(Filter(gs, QuickWinGap), 5)), gs)
  {
    var chosen := Take(Filter(gs, QuickWinGap), 5);
    TakeFilter(gs, QuickWinGap, 5);
    var wins := QuickWins(chosen);
    forall i | 0 <= i < |wins|
      ensures wins[i].effort == Low && wins[i].score >= 0.6 && exists k | 0 <= k < |gs| :: wins[i] == ToQuickWin(gs[k])
    {
      assert chosen[i] in gs;
      var k :| 0 <= k < |gs| && gs[k] == chosen[i];
    }
    if |wins| < 5 {
      forall g | g in gs && QuickWinGap(g) ensures ToQuickWin(g) in wins {
        var k :| 0 <= k < |chosen| && chosen[k] == g;
        assert wins[k] == ToQuickWin(g);
      }
    }
  }


  /** The first n elements that pass p: all of them when fewer than n pass. */
  lemma TakeFilter<T>(xs: seq<T>, p: T -> bool, n: nat)
    ensures var r := Take(Filter(xs, p), n);
      && |r| == (if |Filter(xs, p)| < n then |Filter(xs, p)| else n)
      && (forall i | 0 <= i < |r| :: p(r[i]) && r[i] in xs)
      && (|r| < n ==> forall x | x in xs && p(x) :: x in r)
  {
  }
}
