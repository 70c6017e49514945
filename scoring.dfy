/** The scoring pass of the content gap analyser and the analysis that runs
    every gap finder: each gap's opportunity is boosted for high-value and
    commercial queries, its priority re-derived from the final score, and
    the gaps are stably sorted in place, highest opportunity first. */
module Scoring {
  import opened Text
  import opened Tally
  import opened Records
  import opened Heuristics
  import opened Gaps

  /** Words of a query asking for a guide or a recommendation. */
  const GuideWords: seq<string> := ["how to", "best", "guide", "tutorial"]

  /** Words of a query with commercial intent. */
  const CommercialWords: seq<string> := ["buy", "price", "cost", "review", "comparison"]

  /** min(1.0, x). */
  function Cap(x: real): (r: real)
    ensures r <= 1.0 && r <= x
    ensures r == x || r == 1.0
  {
    if x < 1.0 then x else 1.0
  }

  /** The priority of a final score: high from 0.8, medium from 0.5. */
  function Band(score: real): Level {
    if score >= 0.8 then High else if score >= 0.5 then Medium else Low
  }

  /** One gap after the scoring pass. */
  function Adjust(g: ContentGap): ContentGap {
    var q := Lower(g.query);
    var s1 := if ContainsAny(q, GuideWords) then Cap(g.score + 0.1) else g.score;
    var commercial := ContainsAny(q, CommercialWords);
    var s2 := if commercial then Cap(s1 + 0.15) else s1;
    g.(score := s2, impact := if commercial then High else g.impact, priority := Band(s2))
  }

  /** A gap with the fields the scoring pass writes blanked out. */
  function Unscored(g: ContentGap): ContentGap {
    g.(score := 0.0, impact := Low, priority := Low)
  }

  /** For a score of at most 1 the pass adds 0.1 for a guide query and 0.15
      for a commercial one, capped at 1; a higher score is cut to 1 by any
      boost and kept otherwise. Commercial queries get a high impact; the
      priority follows the final score's band; nothing else changes. */
  lemma AdjustSpec(g: ContentGap)
    ensures var guide, commercial := ContainsAny(Lower(g.query), GuideWords), ContainsAny(Lower(g.query), CommercialWords);
      var r := Adjust(g);
      && (g.score <= 1.0 ==>
            r.score == Cap(g.score + (if guide then 0.1 else 0.0) + (if commercial then 0.15 else 0.0)))
      && (g.score > 1.0 ==> r.score == if guide || commercial then 1.0 else g.score)
      && (r.impact == if commercial then High else g.impact)
      && (r.priority == High <==> r.score >= 0.8)
      && (r.priority == Medium <==> 0.5 <= r.score < 0.8)
      && (r.priority == Low <==> r.score < 0.5)
      && Unscored(r) == Unscored(g)
  {
  }

  /** A score within [0.3, 1.1] stays there. */
  lemma AdjustRange(g: ContentGap)
    requires 0.3 <= g.score <= 1.1
    ensures 0.3 <= Adjust(g).score <= 1.1
    ensures Adjust(g).difficulty == g.difficulty
  {
  }

  function Adjusted(gs: seq<ContentGap>): (r: seq<ContentGap>)
    ensures |r| == |gs| && forall i | 0 <= i < |gs| :: r[i] == Adjust(gs[i])
  {
    seq(|gs|, i requires 0 <= i < |gs| => Adjust(gs[i]))
  }

  function Score(g: ContentGap): real {
    g.score
  }

  /** The gaps after the scoring pass, highest opportunity first, gaps of
      equal opportunity in their original order. */
  function Ranked(gs: seq<ContentGap>): seq<ContentGap> {
    SortDesc(Adjusted(gs), Score)
  }

  /** The ranked gaps are the adjusted gaps, sorted non-increasingly by score
      and stably; each has the priority of its score and agrees with one of
      the original gaps on every field the pass does not write. */
  lemma RankedSpec(gs: seq<ContentGap>)
    ensures |Ranked(gs)| == |gs|
    ensures SortedDesc(Ranked(gs), Score)
    ensures multiset(Ranked(gs)) == multiset(Adjusted(gs))
    ensures forall v :: WithKey(Ranked(gs), Score, v) == WithKey(Adjusted(gs), Score, v)
    ensures forall g | g in Ranked(gs) ::
      g.priority == Band(g.score) && exists i | 0 <= i < |gs| :: Unscored(g) == Unscored(gs[i])
  {
    SortDescSpec(Adjusted(gs), Score);
    forall g | g in Ranked(gs)
      ensures g.priority == Band(g.score) && exists i | 0 <= i < |gs| :: Unscored(g) == Unscored(gs[i])
    {
      assert g in multiset(Adjusted(gs));
      var i :| 0 <= i < |gs| && Adjusted(gs)[i] == g;
      AdjustSpec(gs[i]);
    }
  }

  /** Insertion stops at j: e goes right after s[..j] when every later
      element has a smaller key and s[j - 1], if any, does not. */
  lemma {:induction false} InsertDescAt<T>(s: seq<T>, e: T, key: T -> real, j: nat)
    requires j <= |s|
    requires forall k | j <= k < |s| :: key(s[k]) < key(e)
    requires j == 0 || key(s[j - 1]) >= key(e)
    ensures InsertDesc(s, e, key) == s[..j] + [e] + s[j..]
    decreases |s|
  {
    if s != [] {
      if j == |s| {
        assert s[..j] == s && s[j..] == [];
      } else {
        var init := s[..|s| - 1];
        InsertDescAt(init, e, key, j);
        assert init[..j] == s[..j];
        assert s[j..] == init[j..] + [s[|s| - 1]];
      }
    }
  }

  /** Moves a[i] left past the elements of a[..i] with a smaller key: the
      insertion step of the sort below. */
  method InsertLast<T>(a: array<T>, i: nat, key: T -> real)
    requires i < a.Length
    modifies a
    ensures a[..i + 1] == InsertDesc(old(a[..i]), old(a[i]), key)
    ensures forall k | i < k < a.Length :: a[k] == old(a[k])
  {
    ghost var s := a[..i];
    var e := a[i];
    var j := i;
    while j > 0 && key(a[j - 1]) < key(e)
      invariant 0 <= j <= i
      invariant forall k | 0 <= k < j :: a[k] == s[k]
      invariant forall k | j < k <= i :: a[k] == s[k - 1]
      invariant forall k | i < k < a.Length :: a[k] == old(a[k])
      invariant forall k | j <= k < i :: key(s[k]) < key(e)
    {
      a[j] := a[j - 1];
      j := j - 1;
    }
    a[j] := e;
    InsertDescAt(s, e, key, j);
    ghost var t := s[..j] + [e] + s[j..];
    assert forall k | 0 <= k <= i :: a[k] == t[k];
    assert a[..i + 1] == t;
  }

  /** Python's stable list.sort(key=key, reverse=True) in place: insertion
      sort moving each element left past the elements of smaller key. */
  method SortDescInPlace<T>(a: array<T>, key: T -> real)
    modifies a
    ensures a[..] == SortDesc(old(a[..]), key)
  {
    ghost var original := a[..];
    for i := 0 to a.Length
      invariant a[..i] == SortDesc(original[..i], key)
      invariant a[i..] == original[i..]
    {
      assert original[..i + 1][..i] == original[..i];
      assert a[i] == original[i];
      InsertLast(a, i, key);
      assert a[i + 1..] == original[i + 1..];
    }
    assert original[..a.Length] == original;
  }

  /** The scoring pass, in place: every gap is adjusted, then the gaps are
      sorted by opportunity. */
  method ScoreAndPrioritize(gaps: array<ContentGap>)
    modifies gaps
    ensures gaps[..] == Ranked(old(gaps[..]))
  {
    for i := 0 to gaps.Length
      invariant forall k | 0 <= k < i :: gaps[k] == Adjust(old(gaps[k]))
      invariant forall k | i <= k < gaps.Length :: gaps[k] == old(gaps[k])
    {
      gaps[i] := Adjust(gaps[i]);
    }
    assert gaps[..] == Adjusted(old(gaps[..]));
    SortDescInPlace(gaps, Score);
  }

  /** The gaps every finder proposes, in the order the finders run. `labels`
      is the clustering of the tracked queries. */
  function RawGaps(cs: seq<Citation>, tracked: seq<string>, competitors: seq<string>, labels: seq<int>): seq<ContentGap> {
    NoCitationGaps(cs, tracked, tracked) + WeakCitationGaps(cs) + CompetitorDominatedGaps(cs, competitors)
    + TopicClusterGaps(cs, tracked, labels) + QuestionVariationGaps(cs, tracked)
  }

  /** No citations or no tracked queries give no gaps; otherwise the gaps of
      every finder after the scoring pass. */
  function IdentifiedGaps(cs: seq<Citation>, tracked: seq<string>, competitors: seq<string>, labels: seq<int>): seq<ContentGap> {
    if cs == [] || tracked == [] then [] else Ranked(RawGaps(cs, tracked, competitors, labels))
  }

  method IdentifyContentGaps(cs: seq<Citation>, tracked: seq<string>, competitors: seq<string>, labels: seq<int>)
    returns (gaps: seq<ContentGap>)
    ensures gaps == IdentifiedGaps(cs, tracked, competitors, labels)
  {
    if cs == [] || tracked == [] {
      return [];
    }
    var noCitation := FindNoCitationGaps(cs, tracked);
    var weak := WeakCitationGaps(cs);
    var dominated := FindCompetitorDominatedGaps(cs, competitors);
    var clustered := TopicClusterGaps(cs, tracked, labels);
    var groups := GroupVariations(tracked);
    var variations := VariationGaps(cs, groups);
    assert variations == QuestionVariationGaps(cs, tracked);
    var all := noCitation + weak + dominated + clustered + variations;
    assert all == RawGaps(cs, tracked, competitors, labels);
    gaps := RankGaps(all);
  }

  /** Scores and sorts a list of gaps in place, as the analysis does with
      the list it has collected. */
  method RankGaps(all: seq<ContentGap>) returns (gaps: seq<ContentGap>)
    ensures gaps == Ranked(all)
  {
    var a := new ContentGap[|all|](i requires 0 <= i < |all| => all[i]);
    assert forall k | 0 <= k < |all| :: a[k] == all[k];
    assert a[..] == all;
    ScoreAndPrioritize(a);
    gaps := a[..];
  }

  /** A gap's opportunity lies in [0.3, 1.1] and its difficulty in [0.2, 0.9]. */
  predicate InRange(g: ContentGap) {
    0.3 <= g.score <= 1.1 && 0.2 <= g.difficulty <= 0.9
  }

  predicate AllInRange(gs: seq<ContentGap>) {
    forall g | g in gs :: InRange(g)
  }

  lemma AllInRangeAppend(a: seq<ContentGap>, b: seq<ContentGap>)
    requires AllInRange(a) && AllInRange(b)
    ensures AllInRange(a + b)
  {
  }

  lemma {:induction false} NoCitationInRange(cs: seq<Citation>, tracked: seq<string>, qs: seq<string>)
    ensures AllInRange(NoCitationGaps(cs, tracked, qs))
  {
    if qs != [] {
      NoCitationInRange(cs, tracked, qs[..|qs| - 1]);
      NoCitationGapSpec(cs, tracked, qs[|qs| - 1]);
    }
  }

  lemma {:induction false} WeakInRange(cs: seq<Citation>, qs: seq<string>)
    requires forall q | q in qs :: q in Queries(cs)
    requires Within(Prominences(cs), 0.0, 1.0)
    ensures AllInRange(WeakGaps(cs, qs))
  {
    if qs != [] {
      WeakInRange(cs, qs[..|qs| - 1]);
      WeakGapSpec(cs, qs[|qs| - 1]);
    }
  }

  lemma DominatedInRange(cs: seq<Citation>, competitors: seq<string>)
    ensures AllInRange(CompetitorDominatedGaps(cs, competitors))
  {
    if competitors != [] {
      var lowered, queries := LowerAll(competitors), Dedup(Queries(cs));
      CompetitorGapsSpec(cs, lowered, queries, queries);
    }
  }

  lemma ClusterInRange(cs: seq<Citation>, tracked: seq<string>, labels: seq<int>)
    ensures AllInRange(TopicClusterGaps(cs, tracked, labels))
  {
    TopicClusterGapsSpec(cs, tracked, labels);
  }

  lemma VariationInRangeAll(cs: seq<Citation>, tracked: seq<string>)
    ensures AllInRange(QuestionVariationGaps(cs, tracked))
  {
    VariationGapsSpec(cs, Variations(tracked));
  }

  /** With prominences in [0, 1], every identified gap has an opportunity in
      [0.3, 1.1] (above 1 only for a weak-citation gap the pass did not
      boost) and a difficulty in [0.2, 0.9]. */
  lemma IdentifiedInRange(cs: seq<Citation>, tracked: seq<string>, competitors: seq<string>, labels: seq<int>)
    requires Within(Prominences(cs), 0.0, 1.0)
    ensures AllInRange(IdentifiedGaps(cs, tracked, competitors, labels))
  {
    if cs != [] && tracked != [] {
      var raw := RawGaps(cs, tracked, competitors, labels);
      NoCitationInRange(cs, tracked, tracked);
      WeakInRange(cs, Dedup(Queries(cs)));
      DominatedInRange(cs, competitors);
      ClusterInRange(cs, tracked, labels);
      VariationInRangeAll(cs, tracked);
      var p1 := NoCitationGaps(cs, tracked, tracked) + WeakCitationGaps(cs);
      AllInRangeAppend(NoCitationGaps(cs, tracked, tracked), WeakCitationGaps(cs));
      var p2 := p1 + CompetitorDominatedGaps(cs, competitors);
      AllInRangeAppend(p1, CompetitorDominatedGaps(cs, competitors));
      var p3 := p2 + TopicClusterGaps(cs, tracked, labels);
      AllInRangeAppend(p2, TopicClusterGaps(cs, tracked, labels));
      AllInRangeAppend(p3, QuestionVariationGaps(cs, tracked));
      assert AllInRange(raw);
      RankedInRange(raw);
    }
  }

  lemma RankedInRange(gs: seq<ContentGap>)
    requires AllInRange(gs)
    ensures AllInRange(Ranked(gs))
  {
    SortDescSpec(Adjusted(gs), Score);
    forall g | g in Ranked(gs) ensures InRange(g) {
      assert g in multiset(Adjusted(gs));
      var i :| 0 <= i < |gs| && Adjusted(gs)[i] == g;
      assert gs[i] in gs;
      AdjustRange(gs[i]);
    }
  }
}
