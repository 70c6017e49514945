/** The citation normaliser: a raw citation dictionary from any engine becomes
    a record with every field present, a URL without tracking parameters,
    whitespace-collapsed and length-capped title and snippet, and a
    prominence clamped to [0, 1]. Also the URL and og:type steps of the
    content-type classifier. */
module Normalizer {
  import opened Text
  import opened Tally
  import opened Records
  import opened Url

  /** Query parameters that only track where a visitor came from. */
  const TrackingParams: seq<string> := [
    "utm_source", "utm_medium", "utm_campaign", "utm_term", "utm_content",
    "fbclid", "gclid", "ref", "source"]

  predicate Untracked(p: Param) {
    p.0 !in TrackingParams
  }

  /** The query with every tracking parameter removed. */
  function CleanQuery(q: seq<Param>): (r: seq<Param>)
    ensures forall k | 0 <= k < |r| :: r[k].0 !in TrackingParams && r[k] in q
    ensures forall k | 0 <= k < |q| :: q[k].0 !in TrackingParams ==> q[k] in r
  {
    Filter(q, Untracked)
  }

  /** Cleaning decides parameter by parameter and keeps the order of what it
      keeps: it distributes over concatenation, and a single parameter is kept
      exactly when it is not a tracking parameter. */
  lemma CleanQueryKeepsOrder(a: seq<Param>, b: seq<Param>, p: Param)
    ensures CleanQuery(a + b) == CleanQuery(a) + CleanQuery(b)
    ensures CleanQuery([p]) == (if p.0 in TrackingParams then [] else [p])
  {
    FilterAppend(a, b, Untracked);
    assert [p][1..] == [];
  }

  lemma {:induction false} CleanQueryIdempotent(q: seq<Param>)
    ensures CleanQuery(CleanQuery(q)) == CleanQuery(q)
  {
    if q != [] {
      CleanQueryIdempotent(q[1..]);
      assert q == [q[0]] + q[1..];
      CleanQueryKeepsOrder([q[0]], q[1..], q[0]);
      var rest := CleanQuery(q[1..]);
      if Untracked(q[0]) {
        CleanQueryKeepsOrder([q[0]], rest, q[0]);
      }
    }
  }

  /** The parsed URL with its query cleaned; every other part is left as it was. */
  function CleanParts(u: UrlParts): (r: UrlParts)
    ensures r.scheme == u.scheme && r.netloc == u.netloc && r.path == u.path
    ensures r.params == u.params && r.fragment == u.fragment
    ensures forall k | 0 <= k < |r.query| :: r.query[k].0 !in TrackingParams
  {
    u.(query := CleanQuery(u.query))
  }

  /** The cleaned URL. `parsed` is what urlparse and parse_qs make of `url`, or
      None when they raise, in which case the URL is returned as it came. */
  function CleanUrl(url: string, parsed: Option<UrlParts>): (r: string)
    ensures url == "" ==> r == ""
    ensures url != "" && parsed.None? ==> r == url
  {
    if url == "" then ""
    else match parsed
      case None => url
      case Some(u) => Unparse(CleanParts(u))
  }

  /** Cleaning never changes the host a URL points at: a URL with a scheme and
      a network location keeps that network location. */
  lemma CleanUrlKeepsHost(url: string, u: UrlParts)
    requires url != ""
    requires |u.scheme| > 0 && IsAsciiLetter(u.scheme[0]) && AllSchemeChars(u.scheme)
    requires u.netloc != "" && forall k | 0 <= k < |u.netloc| :: !EndsNetloc(u.netloc[k])
    ensures Netloc(CleanUrl(url, Some(u))) == u.netloc
  {
    UnparseNetloc(CleanParts(u));
  }

  /** A single-spaced text cut at m, back to its last space, with "..." appended
      (`text[:m].rsplit(' ', 1)[0] + '...'`). */
  function Truncate(t: string, m: nat): (r: string)
    requires m < |t|
    ensures |r| >= 3 && |r| <= m + 3 && r[|r| - 3..] == "..." && r[..|r| - 3] == t[..|r| - 3]
  {
    var cut := t[..m];
    var i := LastIndex(cut, ' ');
    (if i >= 0 then cut[..i] else cut) + "..."
  }

  /** _clean_text: white space collapsed to single spaces; a result longer than
      maxLength is cut at maxLength, back to its last space, and ends in "...". */
  function CleanText(text: string, maxLength: nat): (r: string)
    ensures text == "" ==> r == ""
    ensures |Collapse(text)| <= maxLength ==> r == Collapse(text)
    ensures |Collapse(text)| > maxLength ==>
      |r| >= 3 && |r| <= maxLength + 3 && r[|r| - 3..] == "..." && r[..|r| - 3] == Collapse(text)[..|r| - 3]
  {
    if text == "" then ""
    else
      var t := Collapse(text);
      if |t| > maxLength then Truncate(t, maxLength) else t
  }

  /** A prefix of a single-spaced text that does not end in a space is single-spaced. */
  lemma PrefixSingleSpaced(t: string, n: nat)
    requires SingleSpaced(t) && n <= |t|
    requires n == 0 || !IsSpace(t[n - 1])
    ensures SingleSpaced(t[..n])
  {
    var p := t[..n];
    forall k | 0 <= k < |p| && IsSpace(p[k]) ensures p[k] == ' ' && 0 < k < |p| - 1 && !IsSpace(p[k + 1]) {
      assert p[k] == t[k];
      assert p[k + 1] == t[k + 1];
    }
  }

  lemma DotsSingleSpaced(p: string)
    requires SingleSpaced(p)
    requires p == "" || !IsSpace(p[|p| - 1])
    ensures SingleSpaced(p + "...")
  {
    var r := p + "...";
    forall k | 0 <= k < |r| && IsSpace(r[k]) ensures r[k] == ' ' && 0 < k < |r| - 1 && !IsSpace(r[k + 1]) {
      assert k < |p| && r[k] == p[k];
      assert k < |p| - 1;
      assert r[k + 1] == p[k + 1];
    }
  }

  lemma TruncateSingleSpaced(t: string, m: nat)
    requires SingleSpaced(t) && m < |t|
    ensures SingleSpaced(Truncate(t, m))
  {
    var cut := t[..m];
    var i := LastIndex(cut, ' ');
    if i >= 0 {
      assert t[i] == ' ';
      assert !IsSpace(t[i - 1]);
      assert cut[..i] == t[..i];
      PrefixSingleSpaced(t, i);
      DotsSingleSpaced(cut[..i]);
    } else {
      assert forall k | 0 <= k < m :: !IsSpace(t[k]) by {
        forall k | 0 <= k < m ensures !IsSpace(t[k]) {
          assert cut[k] == t[k] && cut[k] != ' ';
        }
      }
      PrefixSingleSpaced(t, m);
      DotsSingleSpaced(cut);
    }
  }

  /** The cleaned text has only single spaces, none at either end. */
  lemma CleanTextSingleSpaced(text: string, maxLength: nat)
    ensures SingleSpaced(CleanText(text, maxLength))
  {
    CollapseIdempotent(text);
    if text != "" && |Collapse(text)| > maxLength {
      TruncateSingleSpaced(Collapse(text), maxLength);
    }
  }

  /** Text that already fits is left alone by a second cleaning. */
  lemma CleanTextIdempotent(text: string, maxLength: nat)
    requires |Collapse(text)| <= maxLength
    ensures CleanText(CleanText(text, maxLength), maxLength) == CleanText(text, maxLength)
  {
    CollapseIdempotent(text);
  }

  /** max(0.0, min(1.0, p)). */
  function Clamp01(p: real): (r: real)
    ensures 0.0 <= r <= 1.0
    ensures 0.0 <= p <= 1.0 ==> r == p
    ensures p < 0.0 ==> r == 0.0
    ensures p > 1.0 ==> r == 1.0
  {
    if p > 1.0 then 1.0 else if p < 0.0 then 0.0 else p
  }

  /** A citation dictionary as an engine hands it over; None marks a missing key. */
  datatype RawCitation = RawCitation(
    url: Option<string>,
    title: Option<string>,
    snippet: Option<string>,
    position: Option<int>,
    citationType: Option<string>,
    sourceDomain: Option<string>,
    prominence: Option<real>,
    metadata: Option<Metadata>)

  /** The normalised citation. */
  datatype Normalized = Normalized(
    engine: string,
    url: string,
    title: string,
    snippet: string,
    position: int,
    citationType: string,
    sourceDomain: string,
    prominence: real,
    metadata: Metadata,
    timestamp: string)

  function Get<T>(o: Option<T>, default: T): T {
    match o
      case None => default
      case Some(v) => v
  }

  /** normalize_citation. `parsed` is the parse of the raw URL (see CleanUrl)
      and `now` the current UTC time in ISO format. */
  function NormalizeCitation(raw: RawCitation, sourceEngine: string, parsed: Option<UrlParts>, now: string): (n: Normalized)
    ensures 0.0 <= n.prominence <= 1.0
    ensures n.engine == sourceEngine && n.timestamp == now
    ensures raw.url.None? ==> n.url == ""
    ensures raw.title.None? ==> n.title == ""
    ensures raw.snippet.None? ==> n.snippet == ""
    ensures raw.position.None? ==> n.position == 0
    ensures raw.citationType.None? ==> n.citationType == "unknown"
    ensures raw.sourceDomain.None? ==> n.sourceDomain == ""
    ensures raw.prominence.None? ==> n.prominence == 0.0
    ensures raw.metadata.None? ==> n.metadata == []
    ensures raw.position.Some? ==> n.position == raw.position.value
    ensures raw.citationType.Some? ==> n.citationType == raw.citationType.value
    ensures raw.sourceDomain.Some? ==> n.sourceDomain == raw.sourceDomain.value
    ensures raw.metadata.Some? ==> n.metadata == raw.metadata.value
    ensures raw.prominence.Some? && 0.0 <= raw.prominence.value <= 1.0 ==> n.prominence == raw.prominence.value
    ensures |n.title| <= 203 && |n.snippet| <= 503
  {
    var title := Get(raw.title, "");
    var snippet := Get(raw.snippet, "");
    Normalized(
      sourceEngine,
      CleanUrl(Get(raw.url, ""), parsed),
      CleanText(title, 200),
      CleanText(snippet, 500),
      Get(raw.position, 0),
      Get(raw.citationType, "unknown"),
      Get(raw.sourceDomain, ""),
      Clamp01(Get(raw.prominence, 0.0)),
      Get(raw.metadata, []),
      now)
  }

  /** The content type that the URL and the og:type meta tag decide; `later`
      is the verdict of the schema-markup and page-text checks that follow
      them, None when those find nothing. */
  function DetermineContentType(url: string, ogType: Option<string>, later: Option<string>): (r: string)
    ensures ContainsAny(Lower(url), BlogMarkers) ==> r == "blog_post"
    ensures ogType.None? && later.None? ==> r in ["blog_post", "tool", "guide", "faq", "article"]
  {
    var u := Lower(url);
    if ContainsAny(u, BlogMarkers) then "blog_post"
    else if ContainsAny(u, ToolMarkers) then "tool"
    else if ContainsAny(u, GuideMarkers) then "guide"
    else if ContainsAny(u, FaqMarkers) then "faq"
    else if ogType.Some? && Lower(ogType.value) == "article" then "article"
    else if ogType.Some? && Lower(ogType.value) in ["product", "product.group"] then "product_page"
    else match later
      case Some(kind) => kind
      case None => "article"
  }

  const BlogMarkers: seq<string> := ["/blog/", "/article/", "/post/"]
  const ToolMarkers: seq<string> := ["/tool/", "/calculator/", "/generator/"]
  const GuideMarkers: seq<string> := ["/guide/", "/tutorial/", "/how-to/"]
  const FaqMarkers: seq<string> := ["/faq/", "/help/", "/support/"]

  predicate HasUrlMarker(url: string) {
    ContainsAny(Lower(url), BlogMarkers + ToolMarkers + GuideMarkers + FaqMarkers)
  }

  /** URL markers take precedence: when the URL carries one, neither the
      og:type tag nor any later check changes the verdict; when it carries
      none, an og:type of article or product decides before any later check,
      and with no signal at all the verdict is "article". */
  lemma UrlMarkersDecideFirst(url: string, og1: Option<string>, og2: Option<string>, l1: Option<string>, l2: Option<string>)
    ensures HasUrlMarker(url) ==> DetermineContentType(url, og1, l1) == DetermineContentType(url, og2, l2)
    ensures HasUrlMarker(url) ==> DetermineContentType(url, og1, l1) in ["blog_post", "tool", "guide", "faq"]
    ensures !HasUrlMarker(url) && og1.Some? && Lower(og1.value) == "article" ==> DetermineContentType(url, og1, l1) == "article"
    ensures !HasUrlMarker(url) && og1.Some? && Lower(og1.value) in ["product", "product.group"] ==>
      DetermineContentType(url, og1, l1) == "product_page"
    ensures !HasUrlMarker(url) && og1.None? && l1.None? ==> DetermineContentType(url, og1, l1) == "article"
  {
    var u := Lower(url);
    ContainsAnyAppend(u, BlogMarkers + ToolMarkers + GuideMarkers, FaqMarkers);
    ContainsAnyAppend(u, BlogMarkers + ToolMarkers, GuideMarkers);
    ContainsAnyAppend(u, BlogMarkers, ToolMarkers);
  }
}
