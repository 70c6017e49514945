/** The keyword heuristics of the content gap analyser: what kind of content a
    query calls for, its topics, an estimate of its search volume and of the
    effort to answer it, content angles, the question type of a query and the
    question variations built from a topic, and the word-overlap lookup of
    related queries. All of them read the lower-cased query. */
module Heuristics {
  import opened Text
  import opened Tally
  import opened Records

  /** The kinds of question a query can ask, in the order they are tried;
      General when none of them matches. */
  datatype QuestionType = WhatIs | HowTo | Why | When | Where | Which | Best | VsComparison | General

  const QuestionOrder: seq<QuestionType> := [WhatIs, HowTo, Why, When, Where, Which, Best, VsComparison]

  /** The question types worth suggesting as variations. */
  const HighValueTypes: seq<QuestionType> := [WhatIs, HowTo, Best]

  /** Whether the lower-cased query q matches the regular expression of type t:
      `\bwhat\s+is\b`, `\bhow\s+to\b|\bhow\s+do\b|\bhow\s+can\b`, `\bwhy\b`,
      `\bwhen\b`, `\bwhere\b`, `\bwhich\b`, `\bbest\b`, `\bvs\b|\bversus\b`. */
  predicate Matches(q: string, t: QuestionType) {
    match t
    case WhatIs => HasPhrase(q, "what", "is")
    case HowTo => HasPhrase(q, "how", "to") || HasPhrase(q, "how", "do") || HasPhrase(q, "how", "can")
    case Why => HasWord(q, "why")
    case When => HasWord(q, "when")
    case Where => HasWord(q, "where")
    case Which => HasWord(q, "which")
    case Best => HasWord(q, "best")
    case VsComparison => HasWord(q, "vs") || HasWord(q, "versus")
    case General => false
  }

  /** The first type in ts that q matches, or General. */
  function FirstMatch(q: string, ts: seq<QuestionType>): (t: QuestionType)
    ensures t == General || t in ts
  {
    if ts == [] then General
    else if Matches(q, ts[0]) then ts[0]
    else FirstMatch(q, ts[1..])
  }

  /** The question type of a query. */
  function Classify(query: string): QuestionType {
    FirstMatch(Lower(query), QuestionOrder)
  }

  /** The type found is the first of the list that the query matches, and
      General exactly when it matches none. */
  lemma {:induction false} FirstMatchSpec(q: string, ts: seq<QuestionType>)
    requires General !in ts
    ensures FirstMatch(q, ts) == General <==> forall k | 0 <= k < |ts| :: !Matches(q, ts[k])
    ensures FirstMatch(q, ts) != General ==>
      exists k | 0 <= k < |ts| :: ts[k] == FirstMatch(q, ts) && Matches(q, ts[k])
        && forall j | 0 <= j < k :: !Matches(q, ts[j])
  {
    if ts != [] {
      FirstMatchSpec(q, ts[1..]);
      if !Matches(q, ts[0]) {
        if FirstMatch(q, ts) != General {
          var k :| 0 <= k < |ts[1..]| && ts[1..][k] == FirstMatch(q, ts) && Matches(q, ts[1..][k])
            && forall j | 0 <= j < k :: !Matches(q, ts[1..][j]);
          assert ts[k + 1] == ts[1..][k];
          forall j | 0 <= j < k + 1 ensures !Matches(q, ts[j]) {
            if j > 0 {
              assert ts[j] == ts[1..][j - 1];
            }
          }
        } else {
          forall k | 0 <= k < |ts| ensures !Matches(q, ts[k]) {
            if k > 0 {
              assert ts[k] == ts[1..][k - 1];
            }
          }
        }
      }
    }
  }

  lemma ClassifySpec(query: string)
    ensures Classify(query) == General <==> forall k | 0 <= k < |QuestionOrder| :: !Matches(Lower(query), QuestionOrder[k])
    ensures Classify(query) != General ==>
      exists k | 0 <= k < |QuestionOrder| :: QuestionOrder[k] == Classify(query) && Matches(Lower(query), QuestionOrder[k])
        && forall j | 0 <= j < k :: !Matches(Lower(query), QuestionOrder[j])
  {
    FirstMatchSpec(Lower(query), QuestionOrder);
  }

  /** Words dropped when a query is reduced to its topic. */
  const QuestionStopWords: set<string> := {"what", "is", "how", "to", "do", "can", "why", "when", "where", "which", "the", "a", "an"}

  predicate ContentWord(w: string) {
    w !in QuestionStopWords
  }

  /** The words of the lower-cased query that are not question words. */
  function ContentWords(query: string): (r: seq<string>)
    ensures forall w | w in r :: w in Words(Lower(query)) && w !in QuestionStopWords
  {
    Filter(Words(Lower(query)), ContentWord)
  }

  /** The topic of a query: its first three content words, joined by spaces. */
  function Topic(query: string): string {
    Join(" ", Take(ContentWords(query), 3))
  }

  /** The topic is made of at most three words, each a content word of the
      query, the first of them first. */
  lemma TopicSpec(query: string)
    ensures var ws := Take(ContentWords(query), 3);
      && |ws| <= 3
      && (forall w | w in ws :: w in Words(Lower(query)) && w !in QuestionStopWords)
      && Words(Topic(query)) == ws
  {
    var ws := Take(ContentWords(query), 3);
    forall k | 0 <= k < |ws| ensures ws[k] != "" && NoSpace(ws[k]) {
      assert ws[k] in Words(Lower(query));
    }
    WordsOfJoin(ws);
  }

  /** The query suggested for a topic and a question type. */
  function Variation(topic: string, t: QuestionType): (r: string)
    ensures t != General ==> |r| > |topic|
    ensures t == General ==> r == topic
  {
    match t
    case WhatIs => "What is " + topic + "?"
    case HowTo => "How to " + topic
    case Best => "Best " + topic
    case Why => "Why " + topic
    case When => "When " + topic
    case Where => "Where " + topic
    case Which => "Which " + topic
    case VsComparison => topic + " vs alternatives"
    case General => topic
  }

  /** The content type that answers a question type. */
  function QuestionContentType(t: QuestionType): string {
    match t
    case WhatIs => "explainer_article"
    case HowTo => "tutorial_guide"
    case Best => "comparison_review"
    case Why => "analytical_article"
    case When => "timing_guide"
    case Where => "directory_article"
    case Which => "selection_guide"
    case VsComparison => "comparison_article"
    case General => "comprehensive_article"
  }

  /** Content angles for a question type about a topic. */
  function QuestionAngles(t: QuestionType, topic: string): (r: seq<string>)
    ensures 1 <= |r| <= 3
    ensures t in HighValueTypes <==> |r| == 3
  {
    match t
    case WhatIs => ["Complete beginner's guide to " + topic, "Visual explanation of " + topic + " with examples", topic + " explained in simple terms"]
    case HowTo => ["Step-by-step " + topic + " tutorial", topic + " for beginners", "Advanced " + topic + " techniques"]
    case Best => ["Top-rated " + topic + " options", topic + " comparison with pros and cons", "Expert recommendations for " + topic]
    case _ => ["Comprehensive guide to " + topic]
  }

  /** The kind of content a query calls for, by the first rule whose keywords
      occur in the lower-cased query. */
  function SuggestContentType(query: string): string {
    var q := Lower(query);
    if ContainsAny(q, ["how to", "how do", "tutorial", "guide", "step"]) then "tutorial_guide"
    else if ContainsAny(q, ["what is", "definition", "meaning"]) then "explainer_article"
    else if ContainsAny(q, ["best", "top", "review", "comparison", "vs"]) then "comparison_review"
    else if ContainsAny(q, ["tool", "calculator", "generator"]) then "interactive_tool"
    else if Contains(query, "?") || ContainsAny(q, ["why", "when", "where"]) then "faq_article"
    else "comprehensive_article"
  }

  /** A query that asks how to do something is always answered by a tutorial,
      and a query with no keyword at all by a comprehensive article. */
  lemma ContentTypeSpec(query: string)
    ensures Contains(Lower(query), "how to") ==> SuggestContentType(query) == "tutorial_guide"
    ensures SuggestContentType(query) == "comprehensive_article" <==>
      !ContainsAny(Lower(query), ["how to", "how do", "tutorial", "guide", "step", "what is", "definition", "meaning",
                                  "best", "top", "review", "comparison", "vs", "tool", "calculator", "generator",
                                  "why", "when", "where"])
      && !Contains(query, "?")
  {
    var q := Lower(query);
    if Contains(q, "how to") {
      assert ["how to", "how do", "tutorial", "guide", "step"][0] == "how to";
    }
    var a := ["how to", "how do", "tutorial", "guide", "step"];
    var b := ["what is", "definition", "meaning"];
    var c := ["best", "top", "review", "comparison", "vs"];
    var d := ["tool", "calculator", "generator"];
    var e := ["why", "when", "where"];
    ContainsAnyAppend(q, a, b);
    ContainsAnyAppend(q, a + b, c);
    ContainsAnyAppend(q, a + b + c, d);
    ContainsAnyAppend(q, a + b + c + d, e);
    assert a + b + c + d + e == ["how to", "how do", "tutorial", "guide", "step", "what is", "definition", "meaning",
                                  "best", "top", "review", "comparison", "vs", "tool", "calculator", "generator",
                                  "why", "when", "where"];
  }

  /** Words never taken as topics. */
  const TopicStopWords: set<string> := {"what", "is", "how", "to", "do", "can", "why", "when", "where", "which", "the",
                                        "a", "an", "and", "or", "but", "in", "on", "at", "by", "for", "with", "about"}

  predicate TopicWord(w: string) {
    |w| > 2 && w !in TopicStopWords
  }

  /** The words of the lower-cased query with question marks removed. */
  function QueryTerms(query: string): seq<string> {
    Words(Remove(Lower(query), '?'))
  }

  /** The topics of a query: its distinct words longer than two characters
      that are not stop words, in order of first occurrence, at most five. */
  function ExtractTopics(query: string): seq<string> {
    Take(Dedup(Filter(QueryTerms(query), TopicWord)), 5)
  }

  /** At most five distinct topic words of the query, in order of first
      occurrence; a topic word is left out only when five earlier ones were
      taken. */
  lemma ExtractTopicsSpec(query: string)
    ensures var ts := ExtractTopics(query);
      var terms := QueryTerms(query);
      && |ts| <= 5
      && Distinct(ts)
      && (forall w | w in ts :: |w| > 2 && w !in TopicStopWords && w in terms)
      && (forall i, j | 0 <= i < j < |ts| :: FirstIndex(terms, ts[i]) < FirstIndex(terms, ts[j]))
      && (forall w | w in terms && TopicWord(w) && w !in ts ::
            |ts| == 5 && FirstIndex(terms, ts[4]) < FirstIndex(terms, w))
  {
    var ts := ExtractTopics(query);
    var terms := QueryTerms(query);
    var d := Dedup(Filter(terms, TopicWord));
    assert ts == d[..|ts|];
    forall w | w in ts ensures |w| > 2 && w !in TopicStopWords && w in terms {
      assert w in d;
    }
    TakeDistinctInOrder(terms, TopicWord, 5);
  }



  /** The estimated monthly searches: a base of 1000 doubled for how-to and
      tutorial queries, times 1.5 for best/top/review, times 0.3 for queries
      of more than six words and tripled for queries of at most two. */
  function EstimateSearchVolume(query: string): (v: int) {
    var q := Lower(query);
    if ContainsAny(q, ["how to", "tutorial"]) then 2000
    else if ContainsAny(q, ["best", "top", "review"]) then 1500
    else if |Words(query)| > 6 then 300
    else if |Words(query)| <= 2 then 3000
    else 1000
  }

  /** The estimate is one of five values; queries of two words or less that
      name no keyword get the most, long queries without one the least. */
  lemma SearchVolumeSpec(query: string)
    ensures EstimateSearchVolume(query) in {2000, 1500, 300, 3000, 1000}
    ensures 300 <= EstimateSearchVolume(query) <= 3000
    ensures EstimateSearchVolume(query) == 3000 <==>
      !ContainsAny(Lower(query), ["how to", "tutorial"]) && !ContainsAny(Lower(query), ["best", "top", "review"])
      && |Words(query)| <= 2
    ensures EstimateSearchVolume(query) == 300 ==> |Words(query)| > 6
  {
  }

  /** The effort to write content for a query, by the first rule whose
      keywords occur in the lower-cased query. */
  function EstimateEffort(query: string): Level {
    var q := Lower(query);
    if ContainsAny(q, ["api", "code", "programming", "technical", "advanced", "enterprise"]) then High
    else if ContainsAny(q, ["best", "comparison", "review", "vs", "analysis"]) then High
    else if ContainsAny(q, ["how to", "tutorial", "guide", "step"]) then Medium
    else if ContainsAny(q, ["what is", "definition", "meaning"]) then Low
    else Medium
  }

  /** Only a definition-style query with no technical or comparative word is
      low effort. */
  lemma EffortSpec(query: string)
    ensures EstimateEffort(query) == Low <==>
      && !ContainsAny(Lower(query), ["api", "code", "programming", "technical", "advanced", "enterprise"])
      && !ContainsAny(Lower(query), ["best", "comparison", "review", "vs", "analysis"])
      && !ContainsAny(Lower(query), ["how to", "tutorial", "guide", "step"])
      && ContainsAny(Lower(query), ["what is", "definition", "meaning"])
    ensures Contains(Lower(query), "api") ==> EstimateEffort(query) == High
  {
    if Contains(Lower(query), "api") {
      assert ["api", "code", "programming", "technical", "advanced", "enterprise"][0] == "api";
    }
  }

  const HowAngles: seq<string> := ["Step-by-step tutorial with screenshots", "Video walkthrough with examples", "Common mistakes to avoid guide"]
  const WhatAngles: seq<string> := ["Comprehensive definition with examples", "Visual infographic explanation", "Comparison with similar concepts"]
  const BestAngles: seq<string> := ["Data-driven comparison with pros/cons", "User review aggregation", "Expert recommendations with reasoning"]
  const ImproveAngles: seq<string> := ["More detailed analysis than existing content", "Recent data and updated information", "Original research or case studies"]
  const DifferentiateAngles: seq<string> := ["Unique perspective or contrarian viewpoint", "Personal experience or case study approach", "Interactive elements or tools"]
  const ClusterAngle: string := "Comprehensive resource covering related topics"

  /** The angles that depend on the query alone. */
  function BaseAngles(query: string): seq<string> {
    var q := Lower(query);
    if Contains(q, "how") then HowAngles
    else if Contains(q, "what") then WhatAngles
    else if Contains(q, "best") then BestAngles
    else []
  }

  /** Content angles for a query: the base angles, then those for improving
      existing content, for standing out, and for covering a cluster, at most
      five in all. */
  function SuggestAngles(query: string, improve: bool, differentiate: bool, cluster: bool): seq<string> {
    Take(BaseAngles(query)
         + (if improve then ImproveAngles else [])
         + (if differentiate then DifferentiateAngles else [])
         + (if cluster then [ClusterAngle] else []), 5)
  }

  /** At most five angles, the query's own first; a query with no question
      word and a request to improve existing content gets exactly the three
      improvement angles. */
  lemma SuggestAnglesSpec(query: string, improve: bool, differentiate: bool, cluster: bool)
    ensures var r := SuggestAngles(query, improve, differentiate, cluster);
      && |r| <= 5
      && r[..|BaseAngles(query)|] == BaseAngles(query)
      && (BaseAngles(query) == [] && improve && !differentiate && !cluster ==> r == ImproveAngles)
      && (|BaseAngles(query)| == 3 && (improve || differentiate) ==> |r| == 5)
  {
  }

  /** The lower-cased words of a query, as a set. */
  function WordSet(query: string): set<string> {
    set w | w in Words(Lower(query))
  }

  /** Another query sharing at least two words with the query. */
  predicate Overlaps(query: string, other: string) {
    other != query && |WordSet(query) * WordSet(other)| >= 2
  }

  /** The queries of `all` that overlap the query, in order. */
  function Overlapping(query: string, all: seq<string>): (r: seq<string>)
    ensures forall o | o in r :: o in all && Overlaps(query, o)
  {
    if all == [] then []
    else
      var rest := Overlapping(query, all[..|all| - 1]);
      if Overlaps(query, all[|all| - 1]) then rest + [all[|all| - 1]] else rest
  }

  /** Related queries by word overlap: the first five other queries sharing
      at least two words with the query; none when there are fewer than two
      queries to choose from. */
  function RelatedQueries(query: string, all: seq<string>): seq<string> {
    if |all| < 2 then [] else Take(Overlapping(query, all), 5)
  }

  lemma {:induction false} OverlappingComplete(query: string, all: seq<string>)
    ensures forall o | o in all && Overlaps(query, o) :: o in Overlapping(query, all)
  {
    if all != [] {
      OverlappingComplete(query, all[..|all| - 1]);
      ButLast(all);
    }
  }

  /** At most five related queries, each a different query that shares two
      words with it; when fewer than five overlap, all of them are found. */
  lemma RelatedQueriesSpec(query: string, all: seq<string>)
    ensures var r := RelatedQueries(query, all);
      && |r| <= 5
      && (forall o | o in r :: o in all && o != query && |WordSet(query) * WordSet(o)| >= 2)
      && (|all| >= 2 && |Overlapping(query, all)| < 5 ==>
            forall o | o in all && Overlaps(query, o) :: o in r)
  {
    OverlappingComplete(query, all);
    var r := RelatedQueries(query, all);
    forall o | o in r ensures o in all && o != query && |WordSet(query) * WordSet(o)| >= 2 {
      assert o in Overlapping(query, all);
    }
  }

  /** A topic with its spaces turned into underscores. */
  function Underscored(topic: string): (r: string)
    ensures |r| == |topic|
    ensures forall i | 0 <= i < |r| :: r[i] == (if topic[i] == ' ' then '_' else topic[i])
  {
    seq(|topic|, i requires 0 <= i < |topic| => if topic[i] == ' ' then '_' else topic[i])
  }
}
