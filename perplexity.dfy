/** The pure half of the Perplexity collector: where a cited URL or its domain
    is mentioned in the answer text, the prominence formulas, the context
    window and title/snippet guesses, the inline citations built from the
    URLs found in the text, and the summary of a collected list. */
module Perplexity {
  import opened Text
  import opened Tally
  import opened Url
  import opened Records

  /** The URL with "https://" put in front unless it already starts with
      "http://" or "https://". */
  function WithScheme(url: string): string {
    if StartsWith(url, "http://") || StartsWith(url, "https://") then url else "https://" + url
  }

  /** The lower-cased network location of the URL, read as an https URL when it
      has no http(s) scheme; "" for an empty URL. */
  function Domain(url: string): (r: string)
    ensures url == "" ==> r == ""
    ensures IsLowered(r)
    ensures forall k | 0 <= k < |r| :: !EndsNetloc(r[k])
  {
    if url == "" then ""
    else
      var n := Netloc(WithScheme(url));
      LowerIsLowered(n);
      Lower(n)
  }

  /** A bare host name (no scheme, no ':') followed by a path, query or
      fragment is read as an https URL on that host. */
  lemma DomainOfBareHost(host: string, tail: string)
    requires host != "" && ':' !in host
    requires forall k | 0 <= k < |host| :: !EndsNetloc(host[k])
    requires tail == "" || EndsNetloc(tail[0])
    ensures Domain(host + tail) == Lower(host)
  {
    var url := host + tail;
    assert !StartsWith(url, "http://") by {
      if |host| > 4 {
        assert url[4] == host[4];
      } else if tail != "" {
        assert url[|host|] == tail[0];
      }
    }
    assert !StartsWith(url, "https://") by {
      if |host| > 5 {
        assert url[5] == host[5];
      } else if tail != "" {
        assert url[|host|] == tail[0];
      }
    }
    assert WithScheme(url) == "https" + "://" + host + tail;
    NetlocOfAbsolute("https", host, tail);
  }

  /** A URL written with an http(s) scheme keeps its own host. */
  lemma DomainOfHttpsUrl(host: string, tail: string)
    requires forall k | 0 <= k < |host| :: !EndsNetloc(host[k])
    requires tail == "" || EndsNetloc(tail[0])
    ensures Domain("https" + "://" + host + tail) == Lower(host)
  {
    var url := "https" + "://" + host + tail;
    assert url[..8] == "https://";
    NetlocOfAbsolute("https", host, tail);
  }

  /** The answer text mentions the cited source at index i: the URL occurs
      there, or the lower-cased domain occurs there in the lower-cased text. */
  predicate MentionAt(url: string, content: string, i: int) {
    OccursAt(content, url, i) || OccursAt(Lower(content), Lower(Domain(url)), i)
  }

  /** Which indices of the text (0 .. |content|) mention the source. */
  function MentionMask(url: string, content: string): (m: seq<bool>)
    ensures |m| == |content| + 1
    ensures forall i | 0 <= i <= |content| :: m[i] == MentionAt(url, content, i)
  {
    seq(|content| + 1, i requires 0 <= i <= |content| => MentionAt(url, content, i))
  }

  /** Every index at which the source is mentioned, in increasing order. */
  function CitationPositions(url: string, content: string): seq<int> {
    TrueIndices(MentionMask(url, content), |content| + 1)
  }

  /** The positions are strictly increasing and are exactly the mentions. */
  lemma CitationPositionsSpec(url: string, content: string)
    ensures Increasing(CitationPositions(url, content))
    ensures forall x :: x in CitationPositions(url, content) <==> MentionAt(url, content, x)
  {
    var m := MentionMask(url, content);
    TrueIndicesMembers(m, |content| + 1);
    TrueIndicesIncreasing(m, |content| + 1);
    forall x | MentionAt(url, content, x) ensures 0 <= x <= |content| {
      if !OccursAt(content, url, x) {
        assert OccursAt(Lower(content), Lower(Domain(url)), x);
      }
    }
  }

  /** Every index at which p occurs in s, by repeated searches from one past
      the last hit, in increasing order. */
  method ScanOccurrences(s: string, p: string) returns (found: seq<int>)
    ensures Distinct(found)
    ensures forall x :: x in found <==> OccursAt(s, p, x)
  {
    found := [];
    var start := 0;
    while true
      invariant 0 <= start <= |s| + 1
      invariant Distinct(found)
      invariant forall x | x in found :: x < start && OccursAt(s, p, x)
      invariant forall x | 0 <= x < start && OccursAt(s, p, x) :: x in found
      decreases |s| + 1 - start
    {
      var pos := Find(s, p, start);
      if pos == -1 {
        break;
      }
      found := found + [pos];
      start := pos + 1;
    }
  }

  /** The positions already found, followed by each occurrence of p in s
      that is not among them. */
  method ScanNew(s: string, p: string, known: seq<int>) returns (found: seq<int>)
    requires Distinct(known)
    ensures Distinct(found)
    ensures forall x :: x in found <==> x in known || OccursAt(s, p, x)
  {
    found := known;
    var start := 0;
    while true
      invariant 0 <= start <= |s| + 1
      invariant Distinct(found)
      invariant forall x | x in found :: x in known || (x < start && OccursAt(s, p, x))
      invariant forall x | x in known :: x in found
      invariant forall x | 0 <= x < start && OccursAt(s, p, x) :: x in found
      decreases |s| + 1 - start
    {
      var pos := Find(s, p, start);
      if pos == -1 {
        break;
      }
      if pos !in found {
        found := found + [pos];
      }
      start := pos + 1;
    }
  }

  /** Scan the text for the URL, then scan the lower-cased text for the
      lower-cased domain, adding the positions not already found, and sort. */
  method FindCitationPositions(url: string, content: string) returns (positions: seq<int>)
    ensures positions == CitationPositions(url, content)
    ensures Increasing(positions)
  {
    var domain := Domain(url);
    var byUrl := ScanOccurrences(content, url);
    var found := ScanNew(Lower(content), Lower(domain), byUrl);
    positions := SortAsc(found);
    SortAscSpec(found);
    CitationPositionsSpec(url, content);
    assert forall x :: x in positions <==> x in multiset(found);
    IncreasingUnique(positions, CitationPositions(url, content));
  }

  /** Up to 0.2 for repeated mentions, 0.05 per mention. */
  function MentionBoost(mentions: nat): (b: real)
    ensures 0.0 <= b <= 0.2
    ensures b == 0.2 <==> mentions >= 4
    ensures b == 0.0 <==> mentions == 0
  {
    if mentions as real * 0.05 < 0.2 then mentions as real * 0.05 else 0.2
  }

  /** Up to 0.1 for a first mention early in the text: 0.1 at the start,
      falling linearly to 0 at the end. */
  function EarlyBoost(first: nat, length: nat): (b: real)
    requires length > 0
    ensures 0.0 <= b <= 0.1
    ensures first == 0 ==> b == 0.1
    ensures first >= length ==> b == 0.0
  {
    var v := 0.1 - (first as real / length as real) * 0.1;
    if v > 0.0 then v else 0.0
  }

  /** An earlier first mention never gets a smaller boost. */
  lemma EarlyBoostOrder(a: nat, b: nat, length: nat)
    requires length > 0 && a <= b
    ensures EarlyBoost(a, length) >= EarlyBoost(b, length)
  {
    var n := length as real;
    assert a as real / n <= b as real / n;
  }

  function Clip(x: real): (r: real)
    ensures 0.1 <= r <= 1.0
    ensures 0.1 <= x <= 1.0 ==> r == x
  {
    if x < 0.1 then 0.1 else if x > 1.0 then 1.0 else x
  }

  /** Prominence of the citation at 0-based index `position` of the response's
      citation list: 0.8 less 0.1 per place, plus the mention and early-mention
      boosts, kept within [0.1, 1.0]. When the domain is empty it is found at
      index 0 of the text, and an empty text then makes the early-mention
      formula divide by zero: that case is None. */
  function PerplexityProminence(position: int, content: string, url: string): (r: Option<real>)
    ensures r.None? <==> content == "" && Domain(url) == ""
    ensures r.Some? ==> 0.1 <= r.value <= 1.0
  {
    var base := 0.8 - position as real * 0.1;
    var lowered, target := Lower(content), Lower(Domain(url));
    var boost := MentionBoost(CountSub(lowered, target));
    var first := Find(lowered, target, 0);
    if first == -1 then Some(Clip(base + boost))
    else if |content| == 0 then None
    else Some(Clip(base + boost + EarlyBoost(first, |content|)))
  }

  /** A later place in the response's citation list never raises the prominence. */
  lemma PerplexityProminenceOrder(p: int, q: int, content: string, url: string)
    requires p <= q
    requires content != ""
    ensures PerplexityProminence(p, content, url).Some? && PerplexityProminence(q, content, url).Some?
    ensures PerplexityProminence(p, content, url).value >= PerplexityProminence(q, content, url).value
  {
  }

  /** Prominence of an inline citation: 0.6 plus 0.1 per mention, at most 0.3 extra. */
  function InlineProminence(url: string, content: string): (r: real)
    ensures 0.6 <= r <= 0.9
  {
    var mentions := |CitationPositions(url, content)|;
    var boost := if mentions as real * 0.1 < 0.3 then mentions as real * 0.1 else 0.3;
    Clip(0.6 + boost)
  }

  /** The inline prominence is 0.6 exactly when the source is never mentioned,
      and 0.9 once it is mentioned three times or more. */
  lemma InlineProminenceMentions(url: string, content: string)
    ensures InlineProminence(url, content) == 0.6 <==> forall x :: !MentionAt(url, content, x)
    ensures |CitationPositions(url, content)| >= 3 ==> InlineProminence(url, content) == 0.9
  {
    CitationPositionsSpec(url, content);
    var ps := CitationPositions(url, content);
    if ps != [] {
      assert ps[0] in ps;
    }
  }

  /** Where the context is taken from: the first occurrence of the URL in the
      text, or else the first occurrence of the lower-cased domain in the
      lower-cased text; -1 when neither occurs. */
  function FirstMention(url: string, content: string): (pos: int)
    ensures pos == -1 || 0 <= pos <= |content|
    ensures pos == -1 <==> !Contains(content, url) && !Contains(Lower(content), Lower(Domain(url)))
    ensures Contains(content, url) ==> OccursAt(content, url, pos)
  {
    var byUrl := Find(content, url, 0);
    FindIffContains(content, url);
    FindIffContains(Lower(content), Lower(Domain(url)));
    if byUrl != -1 then byUrl else Find(Lower(content), Lower(Domain(url)), 0)
  }

  /** `window` characters either side of the stretch of length `len` at pos. */
  function Window(content: string, pos: nat, len: nat, window: nat): (r: string)
    requires pos <= |content|
    ensures |r| <= len + 2 * window
  {
    var start := if pos - window > 0 then pos - window else 0;
    var end := if |content| < pos + len + window then |content| else pos + len + window;
    content[start..end]
  }

  /** The text around the first mention: `window` characters either side of
      a stretch as long as the URL. */
  function CitationContext(url: string, content: string, window: nat): (r: string)
    ensures |r| <= |url| + 2 * window
  {
    var pos := FirstMention(url, content);
    if pos == -1 then "" else Window(content, pos, |url|, window)
  }

  /** A window is a piece of the text, and holds whatever occurs at its centre. */
  lemma WindowSpec(content: string, pos: nat, p: string, window: nat)
    requires pos <= |content|
    ensures Contains(content, Window(content, pos, |p|, window))
    ensures OccursAt(content, p, pos) ==> Contains(Window(content, pos, |p|, window), p)
  {
    var start := if pos - window > 0 then pos - window else 0;
    var end := if |content| < pos + |p| + window then |content| else pos + |p| + window;
    var r := Window(content, pos, |p|, window);
    assert r == content[start..end];
    assert OccursAt(content, r, start);
    if OccursAt(content, p, pos) {
      OccursInSlice(content, start, end, p, pos);
      assert OccursAt(r, p, pos - start);
    }
  }

  /** An occurrence of p inside s[i..j] is an occurrence in the slice, shifted by i. */
  lemma OccursInSlice(s: string, i: nat, j: nat, p: string, q: nat)
    requires i <= q && q + |p| <= j <= |s| && s[q..q + |p|] == p
    ensures OccursAt(s[i..j], p, q - i)
  {
    var u, w := s[i..j][q - i..q - i + |p|], s[q..q + |p|];
    assert forall k | 0 <= k < |p| :: u[k] == w[k];
    assert u == w;
  }

  /** The context is a piece of the text: empty when the source is not
      mentioned, and containing the URL whenever the URL occurs in the text. */
  lemma CitationContextSpec(url: string, content: string, window: nat)
    ensures FirstMention(url, content) == -1 ==> CitationContext(url, content, window) == ""
    ensures Contains(content, CitationContext(url, content, window))
    ensures Contains(content, url) ==> Contains(CitationContext(url, content, window), url)
  {
    var pos := FirstMention(url, content);
    if pos == -1 {
      assert OccursAt(content, "", 0);
    } else {
      WindowSpec(content, pos, url, window);
    }
  }

  /** The source is named in a sentence: the lower-cased domain occurs in the
      lower-cased sentence, or the URL occurs in it. */
  predicate Mentions(sentence: string, url: string) {
    Contains(Lower(sentence), Lower(Domain(url))) || Contains(sentence, url)
  }

  /** The stripped sentences that name the source, in order. */
  function RelevantSentences(sentences: seq<string>, url: string): (r: seq<string>)
    ensures |r| <= |sentences|
  {
    if sentences == [] then []
    else (if Mentions(sentences[0], url) then [Strip(sentences[0])] else []) + RelevantSentences(sentences[1..], url)
  }

  /** Some sentence names the source exactly when a relevant sentence is kept. */
  lemma {:induction false} RelevantSentencesSpec(sentences: seq<string>, url: string)
    ensures (exists j | 0 <= j < |sentences| :: Mentions(sentences[j], url)) <==> RelevantSentences(sentences, url) != []
  {
    if sentences != [] {
      RelevantSentencesSpec(sentences[1..], url);
      if exists j | 0 <= j < |sentences| :: Mentions(sentences[j], url) {
        var j :| 0 <= j < |sentences| && Mentions(sentences[j], url);
        if j > 0 {
          assert sentences[1..][j - 1] == sentences[j];
        }
      }
      if exists j | 0 <= j < |sentences[1..]| :: Mentions(sentences[1..][j], url) {
        var j :| 0 <= j < |sentences[1..]| && Mentions(sentences[1..][j], url);
        assert sentences[j + 1] == sentences[1..][j];
      }
    }
  }

  /** A title and a snippet for a cited URL guessed from the answer text: the
      first two '.'-separated sentences naming the source, or nothing. */
  function TitleAndSnippet(url: string, content: string): (r: (string, string))
    ensures var relevant := RelevantSentences(SplitOn(content, '.'), url);
      && (relevant != [] ==> r == ("Content from " + Domain(url), Join(". ", Take(relevant, 2))))
      && (relevant == [] ==> r == ("Source: " + Domain(url), ""))
  {
    var relevant := RelevantSentences(SplitOn(content, '.'), url);
    if relevant != [] then ("Content from " + Domain(url), Join(". ", Take(relevant, 2)))
    else ("Source: " + Domain(url), "")
  }

  /** Splitting at every '.' cuts any dotted name in two, so a source whose
      domain and URL both contain a '.' is never found in a sentence. */
  lemma DottedSourceNeverMentioned(url: string, content: string)
    requires '.' in Domain(url) && '.' in url
    ensures TitleAndSnippet(url, content) == ("Source: " + Domain(url), "")
  {
    var sentences := SplitOn(content, '.');
    RelevantSentencesSpec(sentences, url);
    forall j | 0 <= j < |sentences| ensures !Mentions(sentences[j], url) {
      NoDotNoDotted(sentences[j], url);
      LowerKeepsDot(sentences[j]);
      LowerKeepsDot(Domain(url));
      NoDotNoDotted(Lower(sentences[j]), Lower(Domain(url)));
    }
  }

  lemma LowerKeepsDot(s: string)
    ensures '.' in s <==> '.' in Lower(s)
  {
    if '.' in s {
      var k :| 0 <= k < |s| && s[k] == '.';
      assert Lower(s)[k] == '.';
    }
    if '.' in Lower(s) {
      var k :| 0 <= k < |s| && Lower(s)[k] == '.';
      assert LowerChar(s[k]) == '.';
    }
  }

  lemma NoDotNoDotted(s: string, p: string)
    requires '.' !in s && '.' in p
    ensures !Contains(s, p)
  {
  }

  /** The URL as an inline citation gives it: "https://" is put in front of a
      URL that does not start with "http". */
  function InlineUrl(url: string): (r: string)
    ensures StartsWith(r, "http")
    ensures StartsWith(url, "http") ==> r == url
    ensures !StartsWith(url, "http") ==> r == "https://" + url
  {
    if StartsWith(url, "http") then url else "https://" + url
  }

  /** The citation built for the idx-th URL found in the text; `numbers`
      are the bracketed citation numbers found in the text. */
  function InlineHit(content: string, query: string, found: string, idx: nat, numbers: seq<string>): (h: Hit)
    ensures h.engine == "perplexity" && h.query == query && h.citationType == "inline_citation"
    ensures h.url == InlineUrl(found) && h.sourceDomain == Domain(h.url)
    ensures h.position == idx + 1
    ensures 0.6 <= h.prominence <= 0.9
    ensures h.title == TitleAndSnippet(h.url, content).0 && h.snippet == TitleAndSnippet(h.url, content).1
    ensures h.metadata == [
      ("citation_number", Str(if idx < |numbers| then numbers[idx] else NatToString(idx + 1))),
      ("inline_context", Str(CitationContext(h.url, content, 100)))]

  {
    var url := InlineUrl(found);
    var ts := TitleAndSnippet(url, content);
    Hit("perplexity", query, url, ts.0, ts.1, idx + 1, "inline_citation", Domain(url),
        InlineProminence(url, content),
        [("citation_number", Str(if idx < |numbers| then numbers[idx] else NatToString(idx + 1))),
         ("inline_context", Str(CitationContext(url, content, 100)))])
  }

  /** One inline citation per URL match, in order of appearance. The matches
      of the URL pattern and of the bracketed-number pattern are inputs. */
  function ParseInlineCitations(content: string, query: string, urls: seq<string>, numbers: seq<string>): (r: seq<Hit>)
    ensures |r| == |urls|
    ensures forall i | 0 <= i < |r| :: r[i] == InlineHit(content, query, urls[i], i, numbers)
  {
    seq(|urls|, i requires 0 <= i < |urls| => InlineHit(content, query, urls[i], i, numbers))
  }

  /** Inline citations are numbered 1, 2, ... and each takes the bracketed
      number of the same rank, or its own position when there are fewer. */
  lemma InlineNumbering(content: string, query: string, urls: seq<string>, numbers: seq<string>, i: nat)
    requires i < |urls|
    ensures ParseInlineCitations(content, query, urls, numbers)[i].position == i + 1
    ensures i < |numbers| ==> ParseInlineCitations(content, query, urls, numbers)[i].metadata[0].1 == Str(numbers[i])
    ensures i >= |numbers| ==> ParseInlineCitations(content, query, urls, numbers)[i].metadata[0].1 == Str(NatToString(i + 1))
  {
  }

  /** The citation built for the URL at 0-based index `position` of the
      response's citation list; None when computing it fails. */
  function CitationFromUrl(url: string, query: string, position: int, content: string): (r: Option<Hit>)
    ensures r.None? <==> content == "" && Domain(url) == ""
    ensures r.Some? ==> r.value.engine == "perplexity" && r.value.query == query && r.value.url == url
    ensures r.Some? ==> r.value.position == position + 1 && r.value.citationType == "direct_answer"
    ensures r.Some? ==> r.value.sourceDomain == Domain(url) && 0.1 <= r.value.prominence <= 1.0
    ensures r.Some? ==> r.value.metadata == [
      ("citation_context", Str(CitationContext(url, content, 100))),
      ("citation_frequency", Int(CountSub(Lower(content), Lower(Domain(url))))),
      ("citation_position_in_text", IntList(CitationPositions(url, content)))]
  {
    var domain := Domain(url);
    var ts := TitleAndSnippet(url, content);
    match PerplexityProminence(position, content, url)
    case None => None
    case Some(p) =>
      Some(Hit("perplexity", query, url, ts.0, ts.1, position + 1, "direct_answer", domain, p,
        [("citation_context", Str(CitationContext(url, content, 100))),
         ("citation_frequency", Int(CountSub(Lower(content), Lower(domain)))),
         ("citation_position_in_text", IntList(CitationPositions(url, content)))]))
  }

  /** The summary of the citations collected for one query. */
  datatype Analysis = Analysis(
    totalCitations: nat,
    uniqueDomains: nat,
    domainDistribution: seq<(string, nat)>,
    citationTypes: seq<(string, nat)>,
    averageProminence: real,
    topDomains: seq<(string, nat)>,
    query: string)

  /** The non-empty source domains, in order. */
  function CitedDomains(hits: seq<Hit>): (r: seq<string>)
    ensures |r| <= |hits|
    ensures forall k | 0 <= k < |r| :: r[k] != ""
  {
    if hits == [] then []
    else CitedDomains(hits[..|hits| - 1]) + (if hits[|hits| - 1].sourceDomain != "" then [hits[|hits| - 1].sourceDomain] else [])
  }

  /** The number of citations with a non-empty domain. */
  function CountCited(hits: seq<Hit>): nat {
    if hits == [] then 0
    else CountCited(hits[..|hits| - 1]) + (if hits[|hits| - 1].sourceDomain != "" then 1 else 0)
  }

  lemma {:induction false} CitedDomainsLength(hits: seq<Hit>)
    ensures |CitedDomains(hits)| == CountCited(hits)
  {
    if hits != [] {
      CitedDomainsLength(hits[..|hits| - 1]);
    }
  }

  function HitTypes(hits: seq<Hit>): (r: seq<string>)
    ensures |r| == |hits| && forall i | 0 <= i < |hits| :: r[i] == hits[i].citationType
  {
    seq(|hits|, i requires 0 <= i < |hits| => hits[i].citationType)
  }

  function HitProminences(hits: seq<Hit>): (r: seq<real>)
    ensures |r| == |hits| && forall i | 0 <= i < |hits| :: r[i] == hits[i].prominence
  {
    seq(|hits|, i requires 0 <= i < |hits| => hits[i].prominence)
  }

  /** The domains of the citations that have one, in order. */
  method CollectDomains(hits: seq<Hit>) returns (domains: seq<string>)
    ensures domains == CitedDomains(hits)
  {
    domains := [];
    var i := 0;
    while i < |hits|
      invariant 0 <= i <= |hits|
      invariant domains == CitedDomains(hits[..i])
    {
      assert hits[..i + 1][..i] == hits[..i];
      if hits[i].sourceDomain != "" {
        domains := domains + [hits[i].sourceDomain];
      }
      i := i + 1;
    }
    assert hits[..|hits|] == hits;
  }

  /** A counter over the values, one entry per distinct value in order of
      first appearance. */
  method Counter(xs: seq<string>) returns (counts: seq<(string, nat)>)
    ensures counts == Counts(xs)
  {
    counts := [];
    var i := 0;
    while i < |xs|
      invariant 0 <= i <= |xs|
      invariant counts == Counts(xs[..i])
    {
      assert xs[..i + 1][..i] == xs[..i];
      counts := Bump(counts, xs[i]);
      i := i + 1;
    }
    assert xs[..|xs|] == xs;
  }

  /** Summarise collected citations: nothing for an empty list; otherwise the
      totals, the count per domain and per citation type (each in order of
      first appearance), the mean prominence and the five most cited domains. */
  method AnalyzeCitations(hits: seq<Hit>, query: string) returns (r: Option<Analysis>)
    ensures hits == [] <==> r.None?
    ensures r.Some? ==> r.value.totalCitations == |hits| && r.value.query == query
    ensures r.Some? ==> r.value.domainDistribution == Counts(CitedDomains(hits))
    ensures r.Some? ==> r.value.citationTypes == Counts(HitTypes(hits))
    ensures r.Some? ==> r.value.uniqueDomains == |Dedup(CitedDomains(hits))|
    ensures r.Some? ==> r.value.averageProminence == Mean(HitProminences(hits))
    ensures r.Some? ==> r.value.topDomains == Take(ValueCounts(CitedDomains(hits)), 5)
  {
    if hits == [] {
      return None;
    }
    var domains := CollectDomains(hits);
    var domainCounts := Counter(domains);
    var typeCounts := Counter(HitTypes(hits));
    var average := Mean(HitProminences(hits));
    r := Some(Analysis(|hits|, |Dedup(domains)|, domainCounts, typeCounts, average,
                       Take(SortDesc(domainCounts, CountKey), 5), query));
  }

  /** What the summary promises: the domain counts add up to the citations
      that have a domain, the type counts to all citations, every count is
      the number of occurrences, and the top domains are at most five, most
      cited first, each with its true count. */
  lemma AnalysisFacts(hits: seq<Hit>, query: string, a: Analysis)
    requires hits != []
    requires a.domainDistribution == Counts(CitedDomains(hits))
    requires a.citationTypes == Counts(HitTypes(hits))
    requires a.uniqueDomains == |Dedup(CitedDomains(hits))|
    requires a.topDomains == Take(ValueCounts(CitedDomains(hits)), 5)
    ensures SumCounts(a.domainDistribution) == CountCited(hits)
    ensures SumCounts(a.citationTypes) == |hits|
    ensures a.uniqueDomains == |a.domainDistribution|
    ensures |a.topDomains| <= 5 && SortedDesc(a.topDomains, CountKey)
    ensures forall k | 0 <= k < |a.topDomains| :: a.topDomains[k].1 == Count(CitedDomains(hits), a.topDomains[k].0) >= 1
  {
    var ds := CitedDomains(hits);
    SumCountsIsLength(ds);
    CitedDomainsLength(hits);
    SumCountsIsLength(HitTypes(hits));
    CountsSpec(ds);
    ValueCountsSpec(ds);
    var v := ValueCounts(ds);
    assert a.topDomains == v[..|a.topDomains|];
  }

  /** The average prominence of citations built here lies in [0.1, 1.0]. */
  lemma AverageProminenceBounds(hits: seq<Hit>)
    requires hits != []
    requires forall i | 0 <= i < |hits| :: 0.1 <= hits[i].prominence <= 1.0
    ensures 0.1 <= Mean(HitProminences(hits)) <= 1.0
  {
    MeanBounds(HitProminences(hits), 0.1, 1.0);
  }
}
