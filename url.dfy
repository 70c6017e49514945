/** The part of URL splitting the system relies on: the network location
    (host and port) of a URL, as Python's urlsplit finds it, and the
    reassembly of a parsed URL from its six parts, as urlunparse does it. */
module Url {
  import opened Text

  /** A character allowed in a URL scheme name. */
  predicate IsSchemeChar(c: char) {
    'a' <= c <= 'z' || 'A' <= c <= 'Z' || '0' <= c <= '9' || c == '+' || c == '-' || c == '.'
  }

  predicate IsAsciiLetter(c: char) {
    'a' <= c <= 'z' || 'A' <= c <= 'Z'
  }

  predicate AllSchemeChars(s: string) {
    forall k | 0 <= k < |s| :: IsSchemeChar(s[k])
  }

  /** A character that ends the network location. */
  predicate EndsNetloc(c: char) {
    c == '/' || c == '?' || c == '#'
  }

  /** Index of the first character of s at or after `from` that ends the network location, or |s|. */
  function NetlocEnd(s: string, from: nat): (r: nat)
    requires from <= |s|
    ensures from <= r <= |s|
    ensures forall k | from <= k < r :: !EndsNetloc(s[k])
    ensures r < |s| ==> EndsNetloc(s[r])
    decreases |s| - from
  {
    if from == |s| || EndsNetloc(s[from]) then from else NetlocEnd(s, from + 1)
  }

  /** What follows the scheme: the whole URL when it has no scheme, the part after "scheme:" otherwise.
      A scheme is a letter followed by scheme characters up to the first ':'. */
  function AfterScheme(url: string): (r: string)
    ensures |r| <= |url| && r == url[|url| - |r|..]
  {
    var i := Find(url, ":", 0);
    if i > 0 && IsAsciiLetter(url[0]) && AllSchemeChars(url[..i]) then url[i + 1..] else url
  }

  /** urlsplit(url).netloc: the text between a leading "//" (after the scheme)
      and the next '/', '?' or '#'; empty when there is no "//". */
  function Netloc(url: string): (r: string)
    ensures forall k | 0 <= k < |r| :: !EndsNetloc(r[k])
  {
    var rest := AfterScheme(url);
    if |rest| >= 2 && rest[..2] == "//" then rest[2..NetlocEnd(rest, 2)] else ""
  }

  /** A URL written out as scheme://host followed by a path, query or fragment
      has host as its network location. */
  lemma NetlocOfAbsolute(scheme: string, host: string, tail: string)
    requires |scheme| > 0 && IsAsciiLetter(scheme[0]) && AllSchemeChars(scheme)
    requires forall k | 0 <= k < |host| :: !EndsNetloc(host[k])
    requires tail == "" || EndsNetloc(tail[0])
    ensures Netloc(scheme + "://" + host + tail) == host
  {
    var url := scheme + "://" + host + tail;
    assert OccursAt(url, ":", |scheme|);
    forall j | 0 <= j < |scheme| ensures !OccursAt(url, ":", j) {
      assert url[j] == scheme[j];
    }
    assert Find(url, ":", 0) == |scheme|;
    assert url[..|scheme|] == scheme;
    var rest := url[|scheme| + 1..];
    assert rest == "//" + host + tail;
    assert AfterScheme(url) == rest;
    assert rest[..2] == "//";
    var e := NetlocEnd(rest, 2);
    assert forall k | 2 <= k < 2 + |host| :: rest[k] == host[k - 2];
    assert forall k | 2 <= k < 2 + |host| :: !EndsNetloc(rest[k]);
    assert 2 + |host| == |rest| || EndsNetloc(rest[2 + |host|]);
    assert rest[2..e] == host;
  }

  /** One query parameter as parse_qs returns it: a name and all its values. */
  type Param = (string, seq<string>)

  /** A URL split into the six parts urlparse returns; the query is already
      decoded into its parameters. */
  datatype UrlParts = UrlParts(
    scheme: string,
    netloc: string,
    path: string,
    params: string,
    query: seq<Param>,
    fragment: string)

  /** name=value for each value of each parameter, joined with '&', as
      urlencode with doseq=True lays them out; its percent-encoding of names
      and values is not modelled. */
  function EncodeQuery(q: seq<Param>): string {
    Join("&", Pairs(q))
  }

  function Pairs(q: seq<Param>): seq<string> {
    if q == [] then [] else PairsOf(q[0].0, q[0].1) + Pairs(q[1..])
  }

  function PairsOf(name: string, values: seq<string>): (r: seq<string>)
    ensures |r| == |values|
  {
    if values == [] then [] else [name + "=" + values[0]] + PairsOf(name, values[1..])
  }

  /** The schemes after which urlunsplit writes "//" even when the network
      location is empty. */
  const UsesNetloc: seq<string> := [
    "", "ftp", "http", "gopher", "nntp", "telnet", "imap", "wais", "file", "mms",
    "https", "shttp", "snews", "prospero", "rtsp", "rtsps", "rtspu", "rsync",
    "svn", "svn+ssh", "sftp", "nfs", "git", "git+ssh", "ws", "wss", "itms-services"]

  /** The path, with ";params" appended when there are parameters. */
  function PathWithParams(u: UrlParts): string {
    if u.params != "" then u.path + ";" + u.params else u.path
  }

  /** A path written after a network location starts with '/'. */
  function Rooted(path: string): string {
    if path != "" && path[0] != '/' then "/" + path else path
  }

  function QueryPart(q: seq<Param>): string {
    var query := EncodeQuery(q);
    if query != "" then "?" + query else ""
  }

  function FragmentPart(fragment: string): string {
    if fragment != "" then "#" + fragment else ""
  }

  /** urlunparse: the parts written back into one URL. */
  function Unparse(u: UrlParts): string {
    var path := PathWithParams(u);
    var withNet :=
      if u.netloc != "" || (u.scheme != "" && u.scheme in UsesNetloc && !StartsWith(path, "//")) then
        "//" + u.netloc + Rooted(path)
      else path;
    var withScheme := if u.scheme != "" then u.scheme + ":" + withNet else withNet;
    withScheme + QueryPart(u.query) + FragmentPart(u.fragment)
  }

  /** Splitting undoes joining for the network location: a URL reassembled from
      parts with a scheme and a network location has that network location. */
  lemma UnparseNetloc(u: UrlParts)
    requires |u.scheme| > 0 && IsAsciiLetter(u.scheme[0]) && AllSchemeChars(u.scheme)
    requires u.netloc != "" && forall k | 0 <= k < |u.netloc| :: !EndsNetloc(u.netloc[k])
    ensures Netloc(Unparse(u)) == u.netloc
  {
    var tail := Rooted(PathWithParams(u)) + QueryPart(u.query) + FragmentPart(u.fragment);
    assert Unparse(u) == u.scheme + "://" + u.netloc + tail;
    NetlocOfAbsolute(u.scheme, u.netloc, tail);
  }
}
