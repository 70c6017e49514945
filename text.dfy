/** String helpers with the meaning of the Python string operations the system
    relies on: str.lower (ASCII letters only), str.find, str.count, `in`,
    str.split() on whitespace, str.split(c), str.strip(), str.join and the
    word-boundary regular expressions used to classify questions. */
module Text {

  /** The characters Python's str.isspace() accepts; str.split() and str.strip()
      separate on exactly these. */
  predicate IsSpace(c: char) {
    || c == ' '
    || '\t' <= c <= '\r'
    || '\U{1C}' <= c <= '\U{1F}'
    || c == '\U{85}' || c == '\U{A0}' || c == '\U{1680}'
    || '\U{2000}' <= c <= '\U{200A}'
    || c == '\U{2028}' || c == '\U{2029}' || c == '\U{202F}' || c == '\U{205F}' || c == '\U{3000}'
  }

  predicate NoSpace(s: string) {
    forall i | 0 <= i < |s| :: !IsSpace(s[i])
  }

  predicate IsUpper(c: char) { 'A' <= c <= 'Z' }

  function LowerChar(c: char): char {
    if IsUpper(c) then (c as int + 32) as char else c
  }

  /** str.lower(), restricted to ASCII letters. */
  function Lower(s: string): (r: string)
    ensures |r| == |s|
    ensures forall i | 0 <= i < |s| :: r[i] == LowerChar(s[i])
  {
    seq(|s|, i requires 0 <= i < |s| => LowerChar(s[i]))
  }

  /** No ASCII capital letter occurs in s. */
  predicate IsLowered(s: string) {
    forall i | 0 <= i < |s| :: !IsUpper(s[i])
  }

  lemma LowerIsLowered(s: string)
    ensures IsLowered(Lower(s))
    ensures Lower(Lower(s)) == Lower(s)
  {
  }

  lemma LowerAppend(a: string, b: string)
    ensures Lower(a + b) == Lower(a) + Lower(b)
  {
  }

  predicate StartsWith(s: string, p: string) {
    |p| <= |s| && s[..|p|] == p
  }

  /** p occurs in s starting at index i. */
  predicate OccursAt(s: string, p: string, i: int) {
    0 <= i && i + |p| <= |s| && s[i..i + |p|] == p
  }

  /** Python's `p in s`. */
  predicate Contains(s: string, p: string) {
    exists i | 0 <= i <= |s| - |p| :: OccursAt(s, p, i)
  }

  /** Python's `any(w in s for w in ws)`. */
  predicate ContainsAny(s: string, ws: seq<string>) {
    exists k | 0 <= k < |ws| :: Contains(s, ws[k])
  }

  lemma ContainsAnyAppend(s: string, a: seq<string>, b: seq<string>)
    ensures ContainsAny(s, a + b) <==> ContainsAny(s, a) || ContainsAny(s, b)
  {
    if ContainsAny(s, a + b) {
      var k :| 0 <= k < |a + b| && Contains(s, (a + b)[k]);
      if k >= |a| {
        assert b[k - |a|] == (a + b)[k];
      }
    }
    if ContainsAny(s, a) {
      var k :| 0 <= k < |a| && Contains(s, a[k]);
      assert (a + b)[k] == a[k];
    }
    if ContainsAny(s, b) {
      var k :| 0 <= k < |b| && Contains(s, b[k]);
      assert (a + b)[|a| + k] == b[k];
      assert Contains(s, (a + b)[|a| + k]);
    }
  }

  /** Every index at which p occurs in s (for an empty p: 0 .. |s|). */
  ghost function Occurrences(s: string, p: string): set<int> {
    set i | 0 <= i <= |s| && OccursAt(s, p, i)
  }

  /** Python's s.find(p, start): the least index at or after start where p
      occurs, or -1 when there is none. */
  function Find(s: string, p: string, start: nat): (r: int)
    ensures r == -1 || (start <= r <= |s| && OccursAt(s, p, r))
    ensures forall j | start <= j && (r == -1 || j < r) :: !OccursAt(s, p, j)
    decreases |s| - start
  {
    if start + |p| > |s| then -1
    else if OccursAt(s, p, start) then start
    else Find(s, p, start + 1)
  }

  lemma FindIffContains(s: string, p: string)
    ensures Find(s, p, 0) != -1 <==> Contains(s, p)
  {
    var r := Find(s, p, 0);
    if r != -1 {
      assert OccursAt(s, p, r);
    }
  }

  /** Python's s.count(p) from index start on: occurrences that do not overlap,
      scanning left to right; the empty string occurs between every two
      characters and at both ends. */
  function CountFrom(s: string, p: string, start: nat): nat
    decreases |s| + 1 - start
  {
    if |p| == 0 then (if start <= |s| then |s| - start + 1 else 0)
    else
      var i := Find(s, p, start);
      if i == -1 then 0 else 1 + CountFrom(s, p, i + |p|)
  }

  /** Python's s.count(p). */
  function CountSub(s: string, p: string): nat {
    CountFrom(s, p, 0)
  }

  /** Length of the run of non-space characters s starts with. */
  function WordLen(s: string): (n: nat)
    ensures n <= |s|
    ensures NoSpace(s[..n])
    ensures n == |s| || IsSpace(s[n])
  {
    if s == [] || IsSpace(s[0]) then 0
    else
      var n := 1 + WordLen(s[1..]);
      assert s[..n] == [s[0]] + s[1..][..n - 1];
      n
  }

  /** Python's s.split(): the maximal runs of non-space characters, in order. */
  function Words(s: string): (ws: seq<string>)
    ensures forall k | 0 <= k < |ws| :: ws[k] != "" && NoSpace(ws[k])
    decreases |s|
  {
    if s == [] then []
    else if IsSpace(s[0]) then Words(s[1..])
    else
      var n := WordLen(s);
      [s[..n]] + Words(s[n..])
  }

  /** Python's sep.join(parts). */
  function Join(sep: string, parts: seq<string>): string {
    if |parts| == 0 then ""
    else if |parts| == 1 then parts[0]
    else parts[0] + sep + Join(sep, parts[1..])
  }

  /** ' '.join(s.split()): runs of white space collapsed to one space, none at the ends. */
  function Collapse(s: string): string {
    Join(" ", Words(s))
  }

  /** The only white space is a single ' ' with a non-space on either side. */
  predicate SingleSpaced(t: string) {
    forall i | 0 <= i < |t| && IsSpace(t[i]) :: t[i] == ' ' && 0 < i < |t| - 1 && !IsSpace(t[i + 1])
  }

  lemma {:induction false} WordLenOfWord(w: string, t: string)
    requires w != "" && NoSpace(w)
    requires t == "" || IsSpace(t[0])
    ensures WordLen(w + t) == |w|
    decreases |w|
  {
    var s := w + t;
    assert s[0] == w[0] && !IsSpace(w[0]);
    assert WordLen(s) == 1 + WordLen(s[1..]);
    if |w| > 1 {
      assert s[1..] == w[1..] + t;
      assert NoSpace(w[1..]) by {
        assert forall i | 0 <= i < |w[1..]| :: w[1..][i] == w[i + 1];
      }
      WordLenOfWord(w[1..], t);
    } else {
      assert s[1..] == t;
    }
  }

  /** Splitting a space-joined list of words gives the words back. */
  lemma {:induction false} WordsOfJoin(ws: seq<string>)
    requires forall k | 0 <= k < |ws| :: ws[k] != "" && NoSpace(ws[k])
    ensures Words(Join(" ", ws)) == ws
  {
    if |ws| == 1 {
      var w := ws[0];
      assert w + "" == w;
      WordLenOfWord(w, "");
      assert w[|w|..] == "";
    } else if |ws| > 1 {
      var w, rest := ws[0], Join(" ", ws[1..]);
      var s := w + " " + rest;
      assert s == w + (" " + rest);
      WordLenOfWord(w, " " + rest);
      assert s[..|w|] == w;
      assert s[|w|..] == " " + rest;
      assert (" " + rest)[1..] == rest;
      WordsOfJoin(ws[1..]);
    }
  }

  /** A space-joined list of words is single-spaced. */
  lemma {:induction false} JoinIsSingleSpaced(ws: seq<string>)
    requires forall k | 0 <= k < |ws| :: ws[k] != "" && NoSpace(ws[k])
    ensures SingleSpaced(Join(" ", ws))
    ensures |ws| > 0 ==> Join(" ", ws) != ""
  {
    if |ws| == 1 {
      assert NoSpace(ws[0]);
    } else if |ws| > 1 {
      var w, rest := ws[0], Join(" ", ws[1..]);
      JoinIsSingleSpaced(ws[1..]);
      var t := w + " " + rest;
      forall i | 0 <= i < |t| && IsSpace(t[i])
        ensures t[i] == ' ' && 0 < i < |t| - 1 && !IsSpace(t[i + 1])
      {
        if i < |w| {
          assert false;
        } else if i > |w| {
          assert t[i] == rest[i - |w| - 1];
          if i + 1 < |t| {
            assert t[i + 1] == rest[i - |w|];
          }
        } else {
          assert t[i + 1] == rest[0];
          assert rest[0] == ws[1][0] by { JoinHead(ws[1..]); }
        }
      }
    }
  }

  lemma {:induction false} JoinHead(ws: seq<string>)
    requires |ws| > 0 && ws[0] != ""
    ensures Join(" ", ws) != "" && Join(" ", ws)[0] == ws[0][0]
  {
  }

  /** Collapsing white space is a round trip: doing it twice changes nothing. */
  lemma CollapseIdempotent(s: string)
    ensures Words(Collapse(s)) == Words(s)
    ensures Collapse(Collapse(s)) == Collapse(s)
    ensures SingleSpaced(Collapse(s))
  {
    WordsOfJoin(Words(s));
    JoinIsSingleSpaced(Words(s));
  }

  /** Python's s.strip() on the left. */
  function TrimLeft(s: string): (r: string)
    ensures |r| <= |s| && r == s[|s| - |r|..]
    ensures r == "" || !IsSpace(r[0])
  {
    if s != [] && IsSpace(s[0]) then TrimLeft(s[1..]) else s
  }

  /** Python's s.strip() on the right. */
  function TrimRight(s: string): (r: string)
    ensures |r| <= |s| && r == s[..|r|]
    ensures r == "" || !IsSpace(r[|r| - 1])
  {
    if s != [] && IsSpace(s[|s| - 1]) then TrimRight(s[..|s| - 1]) else s
  }

  /** Python's s.strip(). */
  function Strip(s: string): string {
    TrimRight(TrimLeft(s))
  }

  /** Python's s.split(c) for one separator character: the pieces between the
      separators, one more piece than there are separators. */
  function SplitOn(s: string, c: char): (r: seq<string>)
    ensures |r| >= 1
    ensures forall k | 0 <= k < |r| :: c !in r[k]
  {
    if s == [] then [""]
    else
      var rest := SplitOn(s[1..], c);
      if s[0] == c then [""] + rest else [[s[0]] + rest[0]] + rest[1..]
  }

  /** s with every occurrence of c removed (Python's s.replace(c, '')). */
  function Remove(s: string, c: char): (r: string)
    ensures c !in r && |r| <= |s|
  {
    if s == [] then [] else (if s[0] == c then [] else [s[0]]) + Remove(s[1..], c)
  }

  /** Index of the last occurrence of c in s, or -1. */
  function LastIndex(s: string, c: char): (r: int)
    ensures -1 <= r < |s|
    ensures r >= 0 ==> s[r] == c && c !in s[r + 1..]
    ensures r == -1 ==> c !in s
  {
    if s == [] then -1
    else if s[|s| - 1] == c then |s| - 1
    else
      var r := LastIndex(s[..|s| - 1], c);
      assert s == s[..|s| - 1] + [s[|s| - 1]];
      r
  }

  function Digit(d: nat): char
    requires d < 10
  {
    ('0' as int + d) as char
  }

  /** Python's str(n) for an integer. */
  function NatToString(n: nat): (r: string)
    ensures r != ""
  {
    if n < 10 then [Digit(n)] else NatToString(n / 10) + [Digit(n % 10)]
  }

  function IntToString(n: int): (r: string)
    ensures r != ""
  {
    if n < 0 then "-" + NatToString(-n) else NatToString(n)
  }

  predicate IsDigit(c: char) { '0' <= c <= '9' }

  /** The number a string of decimal digits denotes. */
  function DecimalValue(s: string): int {
    if s == [] then 0 else DecimalValue(s[..|s| - 1]) * 10 + (s[|s| - 1] as int - '0' as int)
  }

  /** The decimal form of n is made of digits and reads back as n. */
  lemma {:induction false} NatToStringValue(n: nat)
    ensures forall c | c in NatToString(n) :: IsDigit(c)
    ensures DecimalValue(NatToString(n)) == n
  {
    var s := NatToString(n);
    if n < 10 {
      assert s[..0] == [];
    } else {
      NatToStringValue(n / 10);
      assert s[..|s| - 1] == NatToString(n / 10);
      assert s[|s| - 1] == Digit(n % 10);
    }
  }

  /** An integer's decimal form is a minus sign for a negative number followed
      by digits that read back as its magnitude. */
  lemma IntToStringDigits(n: int)
    ensures var s := IntToString(n);
      && (n < 0 ==> s[0] == '-' && (forall c | c in s[1..] :: IsDigit(c)) && DecimalValue(s[1..]) == -n)
      && (n >= 0 ==> (forall c | c in s :: IsDigit(c)) && DecimalValue(s) == n)
      && '.' !in s
  {
    if n < 0 {
      NatToStringValue(-n);
      assert IntToString(n)[1..] == NatToString(-n);
    } else {
      NatToStringValue(n);
    }
  }

  /** A character Python's regular expressions count as part of a word (`\w`), ASCII only. */
  predicate IsWordChar(c: char) {
    'a' <= c <= 'z' || 'A' <= c <= 'Z' || '0' <= c <= '9' || c == '_'
  }

  /** `\b` holds at index i of s. */
  predicate WordBoundary(s: string, i: int)
    requires 0 <= i <= |s|
  {
    (0 < i && IsWordChar(s[i - 1])) != (i < |s| && IsWordChar(s[i]))
  }

  predicate WordAt(s: string, w: string, i: int) {
    OccursAt(s, w, i) && WordBoundary(s, i) && WordBoundary(s, i + |w|)
  }

  /** re.search(r'\bw\b', s) is not None. */
  predicate HasWord(s: string, w: string) {
    exists i | 0 <= i <= |s| - |w| :: WordAt(s, w, i)
  }

  predicate AllSpace(s: string) {
    forall k | 0 <= k < |s| :: IsSpace(s[k])
  }

  predicate PhraseAt(s: string, w1: string, w2: string, i: int, j: int) {
    && 0 <= i && i + |w1| < j && j + |w2| <= |s|
    && WordAt(s, w1, i) && AllSpace(s[i + |w1|..j]) && OccursAt(s, w2, j) && WordBoundary(s, j + |w2|)
  }

  /** re.search(r'\bw1\s+w2\b', s) is not None. */
  predicate HasPhrase(s: string, w1: string, w2: string) {
    exists i, j | 0 <= i < j <= |s| :: PhraseAt(s, w1, w2, i, j)
  }
}
