/** Counting and grouping over sequences, in the sense of the Python idioms the
    analysers use: `Counter`/`value_counts` (a count per distinct value, in order
    of first appearance), `unique()`, list comprehensions with a filter, sums
    and means, and the stable `sorted(..., reverse=True)` by a numeric key. */
module Tally {

  /** Number of times x occurs in xs. */
  function Count<T(==)>(xs: seq<T>, x: T): nat {
    if xs == [] then 0
    else Count(xs[..|xs| - 1], x) + (if xs[|xs| - 1] == x then 1 else 0)
  }

  lemma {:induction false} CountZero<T>(xs: seq<T>, x: T)
    ensures Count(xs, x) == 0 <==> x !in xs
    ensures Count(xs, x) <= |xs|
  {
    if xs != [] {
      CountZero(xs[..|xs| - 1], x);
      ButLast(xs);
    }
  }

  predicate Distinct<T(==)>(xs: seq<T>) {
    forall i, j | 0 <= i < j < |xs| :: xs[i] != xs[j]
  }

  /** The distinct elements of xs in order of first appearance (pandas' unique()). */
  function Dedup<T(==)>(xs: seq<T>): (r: seq<T>)
    ensures Distinct(r)
    ensures forall x | x in r :: x in xs
    ensures forall x | x in xs :: x in r
    ensures |r| <= |xs|
  {
    if xs == [] then []
    else
      var d := Dedup(xs[..|xs| - 1]);
      ButLast(xs);
      if xs[|xs| - 1] in d then d else d + [xs[|xs| - 1]]
  }

  /** The index of the first occurrence of x in xs (`xs.index(x)`), or |xs|
      when x does not occur. */
  function FirstIndex<T(==)>(xs: seq<T>, x: T): (r: nat)
    ensures r <= |xs|
    ensures r < |xs| <==> x in xs
    ensures r < |xs| ==> xs[r] == x && x !in xs[..r]
  {
    if xs == [] then 0
    else if xs[0] == x then 0
    else
      var r := 1 + FirstIndex(xs[1..], x);
      assert xs[..r] == [xs[0]] + xs[1..][..r - 1];
      r
  }

  /** The only index of x with no x before it is its first index. */
  lemma FirstIndexAt<T>(xs: seq<T>, x: T, r: nat)
    requires r < |xs| && xs[r] == x && x !in xs[..r]
    ensures FirstIndex(xs, x) == r
  {
  }

  /** The key that orders elements by first occurrence in xs, earliest
      largest. */
  function Earlier<T(==)>(xs: seq<T>): T -> real {
    x => -(FirstIndex(xs, x) as real)
  }

  /** unique() keeps the elements in order of first occurrence. */
  lemma {:induction false} DedupInOrder<T>(xs: seq<T>)
    ensures SortedDesc(Dedup(xs), Earlier(xs))
  {
    if xs != [] {
      var init, x := xs[..|xs| - 1], xs[|xs| - 1];
      DedupInOrder(init);
      ButLast(xs);
      var d := Dedup(init);
      forall y | y in init ensures FirstIndex(xs, y) == FirstIndex(init, y) {
        var r := FirstIndex(init, y);
        assert xs[..r] == init[..r];
        FirstIndexAt(xs, y, r);
      }
      if x !in d {
        assert x !in init;
        assert xs[..|init|] == init;
        FirstIndexAt(xs, x, |init|);
        assert Dedup(xs) == d + [x];
        forall i, j | 0 <= i < j < |d + [x]| ensures Earlier(xs)((d + [x])[i]) >= Earlier(xs)((d + [x])[j]) {
          assert (d + [x])[i] == d[i];
          if j < |d| {
            assert (d + [x])[j] == d[j];
            assert Earlier(init)(d[i]) >= Earlier(init)(d[j]);
          }
        }
      } else {
        forall i, j | 0 <= i < j < |d| ensures Earlier(xs)(d[i]) >= Earlier(xs)(d[j]) {
          assert Earlier(init)(d[i]) >= Earlier(init)(d[j]);
        }
      }
    }
  }

  /** Filtering before or after unique() gives the same list. */
  lemma {:induction false} DedupFilter<T>(xs: seq<T>, p: T -> bool)
    ensures Dedup(Filter(xs, p)) == Filter(Dedup(xs), p)
  {
    if xs != [] {
      var init, x := xs[..|xs| - 1], xs[|xs| - 1];
      DedupFilter(init, p);
      ButLast(xs);
      FilterAppend(init, [x], p);
      var d := Dedup(init);
      var fx := if p(x) then [x] else [];
      assert Filter([x], p) == fx by {
        assert [x][1..] == [];
      }
      FilterAppend(d, [x], p);
      if p(x) {
        var fi := Filter(init, p);
        assert Filter(xs, p) == fi + [x];
        ButLast(fi + [x]);
        assert (fi + [x])[..|fi|] == fi;
        assert x in Dedup(fi) <==> x in d;
      } else {
        assert Filter(xs, p) == Filter(init, p);
      }
    }
  }

  /** Distinct elements of xs sorted by Earlier(xs) are in strictly
      increasing order of first occurrence. */
  lemma EarlierStrict<T>(f: seq<T>, xs: seq<T>)
    requires SortedDesc(f, Earlier(xs)) && Distinct(f)
    requires forall y | y in f :: y in xs
    ensures forall i, j | 0 <= i < j < |f| :: FirstIndex(xs, f[i]) < FirstIndex(xs, f[j])
  {
    forall i, j | 0 <= i < j < |f| ensures FirstIndex(xs, f[i]) < FirstIndex(xs, f[j]) {
      assert Earlier(xs)(f[i]) >= Earlier(xs)(f[j]);
      assert f[i] in xs && f[j] in xs;
    }
  }

  /** The distinct elements of xs satisfying p, in order of first occurrence:
      `dict.fromkeys(x for x in xs if p(x))`. */
  lemma DistinctInOrder<T>(xs: seq<T>, p: T -> bool)
    ensures var f := Dedup(Filter(xs, p));
      && (forall i, j | 0 <= i < j < |f| :: FirstIndex(xs, f[i]) < FirstIndex(xs, f[j]))
      && (forall w | w in xs && p(w) :: w in f)
  {
    var f := Dedup(Filter(xs, p));
    DedupFilter(xs, p);
    DedupInOrder(xs);
    FilterSorted(Dedup(xs), p, Earlier(xs));
    forall y | y in f ensures y in xs {
      assert y in Filter(xs, p);
    }
    EarlierStrict(f, xs);
    forall w | w in xs && p(w) ensures w in f {
      var k :| 0 <= k < |xs| && xs[k] == w;
      assert w in Filter(xs, p);
    }
  }

  /** `list(dict.fromkeys(x for x in xs if p(x)))[:n]` lists its elements in
      order of first occurrence in xs, and leaves an element out only when n
      earlier ones fill it. */
  lemma TakeDistinctInOrder<T>(xs: seq<T>, p: T -> bool, n: nat)
    requires n > 0
    ensures var ts := Take(Dedup(Filter(xs, p)), n);
      && (forall i, j | 0 <= i < j < |ts| :: FirstIndex(xs, ts[i]) < FirstIndex(xs, ts[j]))
      && (forall w | w in xs && p(w) && w !in ts :: |ts| == n && FirstIndex(xs, ts[n - 1]) < FirstIndex(xs, w))
  {
    var f := Dedup(Filter(xs, p));
    var ts := Take(f, n);
    DistinctInOrder(xs, p);
    forall i, j | 0 <= i < j < |ts| ensures FirstIndex(xs, ts[i]) < FirstIndex(xs, ts[j]) {
      assert ts[i] == f[i] && ts[j] == f[j];
    }
    forall w | w in xs && p(w) && w !in ts ensures |ts| == n && FirstIndex(xs, ts[n - 1]) < FirstIndex(xs, w) {
      var m :| 0 <= m < |f| && f[m] == w;
      assert m >= |ts|;
      assert ts[n - 1] == f[n - 1];
    }
  }

  /** Some element of init + [x] satisfies p exactly when some element of
      init does, or x does. */
  lemma ExistsSnoc<T>(xs: seq<T>, init: seq<T>, x: T, p: T -> bool)
    requires xs == init + [x]
    ensures (exists j | 0 <= j < |xs| :: p(xs[j])) <==> (exists j | 0 <= j < |init| :: p(init[j])) || p(x)
  {
    if exists j | 0 <= j < |init| :: p(init[j]) {
      var j :| 0 <= j < |init| && p(init[j]);
      assert xs[j] == init[j];
    }
    if p(x) {
      assert xs[|init|] == x;
    }
    if exists j | 0 <= j < |xs| :: p(xs[j]) {
      var j :| 0 <= j < |xs| && p(xs[j]);
      if j < |init| {
        assert init[j] == xs[j];
      }
    }
  }

  function Keys<K, V>(c: seq<(K, V)>): (r: seq<K>)
    ensures |r| == |c| && forall i | 0 <= i < |c| :: r[i] == c[i].0
  {
    seq(|c|, i requires 0 <= i < |c| => c[i].0)
  }

  /** One more occurrence of x: its entry goes up by one, or (x, 1) is appended. */
  function Bump<T(==)>(c: seq<(T, nat)>, x: T): seq<(T, nat)> {
    if c == [] then [(x, 1)]
    else if c[0].0 == x then [(x, c[0].1 + 1)] + c[1..]
    else [c[0]] + Bump(c[1..], x)
  }

  /** A count per distinct element, in order of first appearance: the dict a
      `counts[x] = counts.get(x, 0) + 1` loop (or a defaultdict, or Counter) builds. */
  function Counts<T(==)>(xs: seq<T>): seq<(T, nat)> {
    if xs == [] then [] else Bump(Counts(xs[..|xs| - 1]), xs[|xs| - 1])
  }

  /** Bumping a counted element adds one to its own row and changes nothing else. */
  lemma {:induction false} BumpAt<T>(c: seq<(T, nat)>, x: T, k: nat)
    requires Distinct(Keys(c)) && k < |c| && c[k].0 == x
    ensures Bump(c, x) == c[k := (x, c[k].1 + 1)]
  {
    if k == 0 {
      assert Bump(c, x) == [(x, c[0].1 + 1)] + c[1..];
    } else {
      assert Keys(c)[0] != Keys(c)[k];
      var t := c[1..];
      assert Distinct(Keys(t)) by {
        assert forall i | 0 <= i < |t| :: Keys(t)[i] == Keys(c)[i + 1];
      }
      BumpAt(t, x, k - 1);
      var v := (x, c[k].1 + 1);
      assert Bump(c, x) == [c[0]] + t[k - 1 := v];
      assert [c[0]] + t[k - 1 := v] == c[k := v];
    }
  }

  /** Bumping an element not yet counted appends a row with count one. */
  lemma {:induction false} BumpNew<T>(c: seq<(T, nat)>, x: T)
    requires x !in Keys(c)
    ensures Bump(c, x) == c + [(x, 1)]
  {
    if c != [] {
      assert Keys(c)[0] == c[0].0;
      var t := c[1..];
      assert forall i | 0 <= i < |t| :: Keys(t)[i] == Keys(c)[i + 1];
      BumpNew(t, x);
      assert c == [c[0]] + t;
    }
  }


  /** c is the count table of xs: one row per distinct element, in order of
      first appearance, holding its number of occurrences. */
  predicate IsCountTable<T(==)>(c: seq<(T, nat)>, xs: seq<T>) {
    Keys(c) == Dedup(xs) && forall i | 0 <= i < |c| :: c[i].1 == Count(xs, c[i].0) >= 1
  }

  lemma CountSnoc<T>(xs: seq<T>, x: T)
    ensures forall y :: Count(xs + [x], y) == Count(xs, y) + (if x == y then 1 else 0)
  {
    assert (xs + [x])[..|xs|] == xs;
  }

  /** Counting an element already in the table bumps its row. */
  lemma CountTableBumpOld<T>(c: seq<(T, nat)>, xs: seq<T>, x: T, k: nat)
    requires IsCountTable(c, xs) && k < |c| && c[k].0 == x
    ensures IsCountTable(Bump(c, x), xs + [x])
  {
    BumpAt(c, x, k);
    var d := c[k := (x, c[k].1 + 1)];
    assert Keys(d) == Keys(c);
    assert x in Dedup(xs) by { assert Keys(c)[k] == x; }
    assert (xs + [x])[..|xs|] == xs;
    assert Dedup(xs + [x]) == Dedup(xs);
    CountSnoc(xs, x);
    forall i | 0 <= i < |d| ensures d[i].1 == Count(xs + [x], d[i].0) >= 1 {
      if i != k {
        assert Keys(c)[i] != Keys(c)[k];
      }
    }
  }

  /** Counting a new element appends a row with count one. */
  lemma CountTableBumpNew<T>(c: seq<(T, nat)>, xs: seq<T>, x: T)
    requires IsCountTable(c, xs) && x !in Keys(c)
    ensures IsCountTable(Bump(c, x), xs + [x])
  {
    BumpNew(c, x);
    var d := c + [(x, 1)];
    CountZero(xs, x);
    assert (xs + [x])[..|xs|] == xs;
    assert Dedup(xs + [x]) == Dedup(xs) + [x];
    assert Keys(d) == Keys(c) + [x];
    CountSnoc(xs, x);
    forall i | 0 <= i < |d| ensures d[i].1 == Count(xs + [x], d[i].0) >= 1 {
      if i < |c| {
        assert d[i] == c[i] && c[i].0 != x;
      }
    }
  }

  /** Counts gives one entry per distinct element, in order of first appearance,
      and the entry holds the number of occurrences. */
  lemma {:induction false} CountsSpec<T>(xs: seq<T>)
    ensures Keys(Counts(xs)) == Dedup(xs)
    ensures forall i | 0 <= i < |Counts(xs)| :: Counts(xs)[i].1 == Count(xs, Counts(xs)[i].0) >= 1
  {
    if xs != [] {
      var init, x := xs[..|xs| - 1], xs[|xs| - 1];
      CountsSpec(init);
      var c := Counts(init);
      ButLast(xs);
      if x in Keys(c) {
        var k :| 0 <= k < |c| && Keys(c)[k] == x;
        CountTableBumpOld(c, init, x, k);
      } else {
        CountTableBumpNew(c, init, x);
      }
    }
  }

  /** Adding key k behind a first row with another key: the keys change as
      they change behind it. */
  lemma KeysStep<K, V>(m: seq<(K, V)>, rest: seq<(K, V)>, k: K)
    requires m != [] && m[0].0 != k
    requires Keys(rest) == if k in Keys(m[1..]) then Keys(m[1..]) else Keys(m[1..]) + [k]
    ensures Keys([m[0]] + rest) == if k in Keys(m) then Keys(m) else Keys(m) + [k]
  {
    assert Keys(m) == [m[0].0] + Keys(m[1..]);
    assert k in Keys(m) <==> k in Keys(m[1..]);
    assert Keys([m[0]] + rest) == [m[0].0] + Keys(rest);
  }

  /** A non-empty sequence is its front followed by its last element. */
  lemma ButLast<T>(s: seq<T>)
    requires s != []
    ensures s == s[..|s| - 1] + [s[|s| - 1]]
  {
  }

  /** Counting one more element bumps its row. */
  lemma CountsSnoc<T>(xs: seq<T>, x: T)
    ensures Counts(xs + [x]) == Bump(Counts(xs), x)
  {
    assert (xs + [x])[..|xs|] == xs;
  }

  /** Sum of the counts of a count table. */
  function SumCounts<T>(c: seq<(T, nat)>): nat {
    if c == [] then 0 else c[0].1 + SumCounts(c[1..])
  }

  lemma {:induction false} SumCountsBump<T>(c: seq<(T, nat)>, x: T)
    ensures SumCounts(Bump(c, x)) == SumCounts(c) + 1
  {
    if c != [] && c[0].0 != x {
      SumCountsBump(c[1..], x);
      assert Bump(c, x)[1..] == Bump(c[1..], x);
    } else if c != [] {
      assert Bump(c, x)[1..] == c[1..];
    }
  }

  /** The counts of a count table add up to the number of elements counted. */
  lemma {:induction false} SumCountsIsLength<T>(xs: seq<T>)
    ensures SumCounts(Counts(xs)) == |xs|
  {
    if xs != [] {
      SumCountsIsLength(xs[..|xs| - 1]);
      SumCountsBump(Counts(xs[..|xs| - 1]), xs[|xs| - 1]);
    }
  }

  lemma SumCountsAppend<T>(a: seq<(T, nat)>, b: seq<(T, nat)>)
    ensures SumCounts(a + b) == SumCounts(a) + SumCounts(b)
  {
    if a != [] {
      assert (a + b)[1..] == a[1..] + b;
      SumCountsAppend(a[1..], b);
    } else {
      assert a + b == b;
    }
  }

  /** The elements of xs that satisfy p, in order (a filtering comprehension). */
  function Filter<T>(xs: seq<T>, p: T -> bool): (r: seq<T>)
    ensures |r| <= |xs|
    ensures forall k | 0 <= k < |r| :: p(r[k]) && r[k] in xs
    ensures forall k | 0 <= k < |xs| :: p(xs[k]) ==> xs[k] in r
  {
    if xs == [] then []
    else
      var rest := Filter(xs[1..], p);
      assert forall k | 1 <= k < |xs| :: xs[k] == xs[1..][k - 1];
      if p(xs[0]) then [xs[0]] + rest else rest
  }

  lemma {:induction false} FilterAppend<T>(a: seq<T>, b: seq<T>, p: T -> bool)
    ensures Filter(a + b, p) == Filter(a, p) + Filter(b, p)
  {
    if a != [] {
      var ab := a + b;
      assert ab[0] == a[0] && ab[1..] == a[1..] + b;
      FilterAppend(a[1..], b, p);
      assert Filter(ab, p) == (if p(a[0]) then [a[0]] else []) + Filter(a[1..] + b, p);
      assert Filter(a, p) == (if p(a[0]) then [a[0]] else []) + Filter(a[1..], p);
    } else {
      assert a + b == b;
    }
  }

  /** Filtering keeps a largest-first order. */
  lemma {:induction false} FilterSorted<T>(xs: seq<T>, p: T -> bool, key: T -> real)
    requires SortedDesc(xs, key)
    ensures SortedDesc(Filter(xs, p), key)
  {
    if xs != [] {
      var rest := Filter(xs[1..], p);
      FilterSorted(xs[1..], p, key);
      if p(xs[0]) {
        forall y | y in rest ensures key(xs[0]) >= key(y) {
          var m :| 0 <= m < |xs[1..]| && xs[1..][m] == y;
          assert xs[m + 1] == y;
        }
        SortedCons(xs[0], rest, key);
      }
    }
  }

  /** An element at least as large as every element of a largest-first
      sequence can go in front of it. */
  lemma SortedCons<T>(x: T, r: seq<T>, key: T -> real)
    requires SortedDesc(r, key) && forall y | y in r :: key(x) >= key(y)
    ensures SortedDesc([x] + r, key)
  {
    forall i, j | 0 <= i < j < |[x] + r| ensures key(([x] + r)[i]) >= key(([x] + r)[j]) {
      assert ([x] + r)[j] == r[j - 1];
      if i > 0 {
        assert ([x] + r)[i] == r[i - 1];
      }
    }
  }


  /** xs[:n]. */
  function Take<T>(xs: seq<T>, n: nat): (r: seq<T>)
    ensures |r| <= n && |r| <= |xs|
    ensures r == xs[..|r|]
    ensures |xs| >= n ==> |r| == n
  {
    if |xs| <= n then xs else xs[..n]
  }

  function Sum(xs: seq<real>): real {
    if xs == [] then 0.0 else xs[0] + Sum(xs[1..])
  }

  function Mean(xs: seq<real>): real
    requires |xs| > 0
  {
    Sum(xs) / |xs| as real
  }

  /** a / b for whole numbers, as a real. */
  function Fraction(a: nat, b: nat): (r: real)
    requires b > 0
    ensures 0.0 <= r
    ensures a <= b ==> r <= 1.0
    ensures a > 0 ==> r > 0.0
  {
    var r := a as real / b as real;
    assert r * b as real == a as real;
    r
  }

  lemma FractionAbove(a: nat, b: nat, t: real)
    requires b > 0
    ensures Fraction(a, b) > t <==> a as real > t * b as real
  {
    var r := Fraction(a, b);
    assert r * b as real == a as real;
  }

  /** A mean is at least a lower bound of what it averages. */
  lemma MeanAtLeast(xs: seq<real>, lo: real)
    requires |xs| > 0 && forall k | 0 <= k < |xs| :: lo <= xs[k]
    ensures lo <= Mean(xs)
  {
    SumAtLeast(xs, lo);
    var n := |xs| as real;
    assert Sum(xs) / n >= lo by { assert Sum(xs) >= n * lo; }
  }

  predicate Within(xs: seq<real>, lo: real, hi: real) {
    forall k | 0 <= k < |xs| :: lo <= xs[k] <= hi
  }

  lemma {:induction false} SumBounds(xs: seq<real>, lo: real, hi: real)
    requires Within(xs, lo, hi)
    ensures |xs| as real * lo <= Sum(xs) <= |xs| as real * hi
  {
    if xs != [] {
      SumBounds(xs[1..], lo, hi);
    }
  }

  /** A mean lies between the bounds of what it averages. */
  lemma MeanBounds(xs: seq<real>, lo: real, hi: real)
    requires |xs| > 0 && Within(xs, lo, hi)
    ensures lo <= Mean(xs) <= hi
  {
    SumBounds(xs, lo, hi);
    var n := |xs| as real;
    assert Sum(xs) / n >= lo by { assert Sum(xs) >= n * lo; }
    assert Sum(xs) / n <= hi by { assert Sum(xs) <= n * hi; }
  }

  lemma {:induction false} SumAtLeast(xs: seq<real>, lo: real)
    requires forall k | 0 <= k < |xs| :: lo <= xs[k]
    ensures |xs| as real * lo <= Sum(xs)
  {
    if xs != [] {
      SumAtLeast(xs[1..], lo);
    }
  }

  /** Sorted by a numeric key, largest first. */
  predicate SortedDesc<T>(xs: seq<T>, key: T -> real) {
    forall i, j | 0 <= i < j < |xs| :: key(xs[i]) >= key(xs[j])
  }

  /** Insert e into a largest-first sequence after every element whose key is
      at least e's: the step of a stable sort on a descending key. */
  function InsertDesc<T>(s: seq<T>, e: T, key: T -> real): seq<T> {
    if s == [] then [e]
    else if key(s[|s| - 1]) < key(e) then InsertDesc(s[..|s| - 1], e, key) + [s[|s| - 1]]
    else s + [e]
  }

  /** Python's sorted(xs, key=key, reverse=True): largest key first, and
      elements with equal keys stay in their original order. */
  function SortDesc<T>(xs: seq<T>, key: T -> real): seq<T> {
    if xs == [] then [] else InsertDesc(SortDesc(xs[..|xs| - 1], key), xs[|xs| - 1], key)
  }

  /** The elements of xs whose key is v, in order. */
  function WithKey<T>(xs: seq<T>, key: T -> real, v: real): seq<T> {
    if xs == [] then []
    else WithKey(xs[..|xs| - 1], key, v) + (if key(xs[|xs| - 1]) == v then [xs[|xs| - 1]] else [])
  }

  lemma {:induction false} InsertDescPerm<T>(s: seq<T>, e: T, key: T -> real)
    ensures multiset(InsertDesc(s, e, key)) == multiset(s) + multiset{e}
    ensures |InsertDesc(s, e, key)| == |s| + 1
  {
    if s != [] {
      var init, last := s[..|s| - 1], s[|s| - 1];
      ButLast(s);
      if key(last) < key(e) {
        InsertDescPerm(init, e, key);
      }
    }
  }

  lemma {:induction false} InsertDescSorted<T>(s: seq<T>, e: T, key: T -> real)
    requires SortedDesc(s, key)
    ensures SortedDesc(InsertDesc(s, e, key), key)
  {
    if s != [] {
      var init, last := s[..|s| - 1], s[|s| - 1];
      if key(last) < key(e) {
        InsertDescSorted(init, e, key);
        InsertDescPerm(init, e, key);
        var r := InsertDesc(init, e, key);
        forall k | 0 <= k < |r| ensures key(r[k]) >= key(last) {
          assert r[k] in multiset(init) + multiset{e};
          if r[k] in multiset(init) {
            var m :| 0 <= m < |init| && init[m] == r[k];
            assert s[m] == r[k];
          }
        }
      }
    }
  }

  lemma {:induction false} InsertDescStable<T>(s: seq<T>, e: T, key: T -> real, v: real)
    ensures WithKey(InsertDesc(s, e, key), key, v) == WithKey(s, key, v) + (if key(e) == v then [e] else [])
  {
    if s != [] {
      var init, last := s[..|s| - 1], s[|s| - 1];
      if key(last) < key(e) {
        InsertDescStable(init, e, key, v);
        var r := InsertDesc(init, e, key);
        assert (r + [last])[..|r + [last]| - 1] == r;
        assert key(last) != v || key(e) != v;
      } else {
        assert (s + [e])[..|s + [e]| - 1] == s;
      }
    } else {
      assert [e][..0] == [];
    }
  }

  /** SortDesc orders by key, keeps every element, and is stable: for every key
      value, the elements with that key appear in the order they had. */
  lemma {:induction false} SortDescSpec<T>(xs: seq<T>, key: T -> real)
    ensures SortedDesc(SortDesc(xs, key), key)
    ensures multiset(SortDesc(xs, key)) == multiset(xs)
    ensures forall v :: WithKey(SortDesc(xs, key), key, v) == WithKey(xs, key, v)
    ensures |SortDesc(xs, key)| == |xs|
  {
    if xs != [] {
      var init := xs[..|xs| - 1];
      SortDescSpec(init, key);
      InsertDescPerm(SortDesc(init, key), xs[|xs| - 1], key);
      InsertDescSorted(SortDesc(init, key), xs[|xs| - 1], key);
      forall v ensures WithKey(SortDesc(xs, key), key, v) == WithKey(xs, key, v) {
        InsertDescStable(SortDesc(init, key), xs[|xs| - 1], key, v);
      }
      ButLast(xs);
    }
  }

  function CountKey<T>(e: (T, nat)): real {
    e.1 as real
  }

  /** pandas' value_counts(): a count per distinct value, largest count first. */
  function ValueCounts<T(==)>(xs: seq<T>): seq<(T, nat)> {
    SortDesc(Counts(xs), CountKey)
  }

  lemma ValueCountsSpec<T>(xs: seq<T>)
    ensures SortedDesc(ValueCounts(xs), CountKey)
    ensures multiset(ValueCounts(xs)) == multiset(Counts(xs))
    ensures |ValueCounts(xs)| == |Dedup(xs)|
    ensures forall i | 0 <= i < |ValueCounts(xs)| :: ValueCounts(xs)[i].1 == Count(xs, ValueCounts(xs)[i].0) >= 1
    ensures forall x | x in xs :: exists i | 0 <= i < |ValueCounts(xs)| :: ValueCounts(xs)[i].0 == x
  {
    CountsSpec(xs);
    SortDescSpec(Counts(xs), CountKey);
    var c, v := Counts(xs), ValueCounts(xs);
    forall i | 0 <= i < |v| ensures v[i].1 == Count(xs, v[i].0) >= 1 {
      assert v[i] in multiset(c);
    }
    forall x | x in xs ensures exists i | 0 <= i < |v| :: v[i].0 == x {
      assert x in Keys(c);
      var k :| 0 <= k < |c| && c[k].0 == x;
      assert c[k] in multiset(v);
    }
  }

  function Neg(x: int): real {
    -(x as real)
  }

  /** The first row of a value count is a most frequent value. */
  lemma ValueCountsMax<T>(xs: seq<T>, x: T)
    requires |xs| > 0
    ensures |ValueCounts(xs)| > 0 && ValueCounts(xs)[0].0 in xs
    ensures ValueCounts(xs)[0].1 == Count(xs, ValueCounts(xs)[0].0)
    ensures Count(xs, x) <= ValueCounts(xs)[0].1
  {
    ValueCountsSpec(xs);
    var v := ValueCounts(xs);
    assert xs[0] in xs;
    CountZero(xs, v[0].0);
    CountZero(xs, x);
    if x in xs {
      var j :| 0 <= j < |v| && v[j].0 == x;
      if j > 0 {
        assert CountKey(v[0]) >= CountKey(v[j]);
      }
    }
  }

  /** Inserting a row adds its count to the total. */
  lemma {:induction false} SumCountsInsert<T>(s: seq<(T, nat)>, e: (T, nat), key: ((T, nat)) -> real)
    ensures SumCounts(InsertDesc(s, e, key)) == SumCounts(s) + e.1
  {
    if s != [] {
      var init, last := s[..|s| - 1], s[|s| - 1];
      ButLast(s);
      SumCountsAppend(init, [last]);
      if key(last) < key(e) {
        SumCountsInsert(init, e, key);
        SumCountsAppend(InsertDesc(init, e, key), [last]);
      } else {
        SumCountsAppend(s, [e]);
      }
    } else {
      assert SumCounts([e]) == e.1 + SumCounts([e][1..]);
    }
  }

  /** Sorting a tally keeps its total. */
  lemma {:induction false} SumCountsSort<T>(c: seq<(T, nat)>, key: ((T, nat)) -> real)
    ensures SumCounts(SortDesc(c, key)) == SumCounts(c)
  {
    if c != [] {
      var init, last := c[..|c| - 1], c[|c| - 1];
      SumCountsSort(init, key);
      SumCountsInsert(SortDesc(init, key), last, key);
      ButLast(c);
      SumCountsAppend(init, [last]);
    }
  }

  /** The counts of a value count add up to the length of the column. */
  lemma ValueCountsSum<T>(xs: seq<T>)
    ensures SumCounts(ValueCounts(xs)) == |xs|
  {
    SumCountsSort(Counts(xs), CountKey);
    SumCountsIsLength(xs);
  }

  /** Each row's count as a share of n. */
  function Shares<T>(c: seq<(T, nat)>, n: nat): (r: seq<(T, real)>)
    requires n > 0
    ensures |r| == |c| && forall i | 0 <= i < |c| :: r[i] == (c[i].0, Fraction(c[i].1, n))
  {
    seq(|c|, i requires 0 <= i < |c| => (c[i].0, Fraction(c[i].1, n)))
  }

  function ShareValues<T>(s: seq<(T, real)>): (r: seq<real>)
    ensures |r| == |s| && forall i | 0 <= i < |s| :: r[i] == s[i].1
  {
    seq(|s|, i requires 0 <= i < |s| => s[i].1)
  }

  lemma FractionTimes(a: nat, b: nat)
    requires b > 0
    ensures Fraction(a, b) * b as real == a as real
  {
  }

  /** Dividing by a positive whole number never increases. */
  lemma FractionAtMost(a: nat, b: nat)
    requires b > 0
    ensures Fraction(a, b) <= a as real
  {
    var r := Fraction(a, b);
    FractionTimes(a, b);
    assert r * b as real >= r * 1.0;
  }

  /** The shares, scaled back by n, add up to the total count. */
  lemma {:induction false} SumShares<T>(c: seq<(T, nat)>, n: nat)
    requires n > 0
    ensures Sum(ShareValues(Shares(c, n))) * n as real == SumCounts(c) as real
  {
    if c != [] {
      var vs := ShareValues(Shares(c, n));
      SumShares(c[1..], n);
      assert vs[1..] == ShareValues(Shares(c[1..], n));
      FractionTimes(c[0].1, n);
      assert Sum(vs) * n as real == vs[0] * n as real + Sum(vs[1..]) * n as real;
    }
  }

  /** The shares of a whole add up to 1. */
  lemma SharesOfWhole<T>(c: seq<(T, nat)>, n: nat)
    requires n > 0 && SumCounts(c) == n
    ensures Sum(ShareValues(Shares(c, n))) == 1.0
  {
    SumShares(c, n);
    var x, m := Sum(ShareValues(Shares(c, n))), n as real;
    assert x * m == SumCounts(c) as real;
    assert x * m == m;
  }

  /** Python's sorted(xs) on integers: a stable sort by the negated value, largest first. */
  function SortAsc(xs: seq<int>): seq<int> {
    SortDesc(xs, Neg)
  }

  predicate Increasing(xs: seq<int>) {
    forall i, j | 0 <= i < j < |xs| :: xs[i] < xs[j]
  }

  lemma SortAscSpec(xs: seq<int>)
    ensures forall i, j | 0 <= i < j < |SortAsc(xs)| :: SortAsc(xs)[i] <= SortAsc(xs)[j]
    ensures multiset(SortAsc(xs)) == multiset(xs)
    ensures Distinct(xs) ==> Increasing(SortAsc(xs))
  {
    SortDescSpec(xs, Neg);
    var r := SortAsc(xs);
    assert forall i, j | 0 <= i < j < |r| :: Neg(r[i]) >= Neg(r[j]);
    if Distinct(xs) {
      DistinctPermutation(xs, r);
    }
  }

  /** A permutation of a sequence without repeats has no repeats. */
  lemma DistinctPermutation<T>(xs: seq<T>, r: seq<T>)
    requires Distinct(xs) && multiset(r) == multiset(xs)
    ensures Distinct(r)
  {
    forall i, j | 0 <= i < j < |r| ensures r[i] != r[j] {
      if r[i] == r[j] {
        TwiceInMultiset(r, i, j);
        DistinctMultiset(xs, r[i]);
        assert false;
      }
    }
  }

  lemma TwiceInMultiset<T>(r: seq<T>, i: nat, j: nat)
    requires i < j < |r| && r[i] == r[j]
    ensures multiset(r)[r[i]] >= 2
  {
    assert r == r[..j] + [r[j]] + r[j + 1..];
    assert r[i] in multiset(r[..j]);
    assert multiset(r) == multiset(r[..j]) + multiset{r[j]} + multiset(r[j + 1..]);
  }

  /** In a sequence without repeats every element occurs once. */
  lemma {:induction false} DistinctMultiset<T>(xs: seq<T>, x: T)
    requires Distinct(xs)
    ensures multiset(xs)[x] <= 1
  {
    if xs != [] {
      assert xs == [xs[0]] + xs[1..];
      DistinctMultiset(xs[1..], x);
      if xs[0] == x {
        assert x !in xs[1..];
      }
    }
  }

  /** Two increasing sequences with the same elements are equal. */
  lemma {:induction false} IncreasingUnique(a: seq<int>, b: seq<int>)
    requires Increasing(a) && Increasing(b)
    requires forall x | x in a :: x in b
    requires forall x | x in b :: x in a
    ensures a == b
  {
    assert a != [] ==> a[0] in a;
    assert b != [] ==> b[0] in b;
    if a != [] && b != [] {
      assert a[0] == b[0];
      forall x | x in a[1..] ensures x in b[1..] {
        var k :| 1 <= k < |a| && a[k] == x;
        assert x in a;
        var m :| 0 <= m < |b| && b[m] == x;
        assert m != 0;
      }
      forall x | x in b[1..] ensures x in a[1..] {
        var k :| 1 <= k < |b| && b[k] == x;
        assert x in b;
        var m :| 0 <= m < |a| && a[m] == x;
        assert m != 0;
      }
      IncreasingUnique(a[1..], b[1..]);
    }
  }

  /** The indices below n at which m holds, in increasing order. */
  function TrueIndices(m: seq<bool>, n: nat): seq<int>
    requires n <= |m|
  {
    if n == 0 then [] else TrueIndices(m, n - 1) + (if m[n - 1] then [n - 1] else [])
  }

  lemma {:induction false} TrueIndicesMembers(m: seq<bool>, n: nat)
    requires n <= |m|
    ensures forall x :: x in TrueIndices(m, n) <==> 0 <= x < n && m[x]
  {
    if n > 0 {
      TrueIndicesMembers(m, n - 1);
    }
  }

  lemma {:induction false} TrueIndicesIncreasing(m: seq<bool>, n: nat)
    requires n <= |m|
    ensures Increasing(TrueIndices(m, n))
  {
    if n > 0 {
      TrueIndicesIncreasing(m, n - 1);
      TrueIndicesMembers(m, n - 1);
      var prev, t := TrueIndices(m, n - 1), TrueIndices(m, n);
      if m[n - 1] {
        forall i, j | 0 <= i < j < |t| ensures t[i] < t[j] {
          if j == |prev| {
            assert t[i] == prev[i] && prev[i] in prev;
          }
        }
      }
    }
  }

  /** The values at the positions where `keys` holds k, in order: one group of
      a group-by. */
  function Select<K(==), V>(keys: seq<K>, vals: seq<V>, k: K): seq<V>
    requires |keys| == |vals|
  {
    if keys == [] then []
    else Select(keys[..|keys| - 1], vals[..|vals| - 1], k) + (if keys[|keys| - 1] == k then [vals[|vals| - 1]] else [])
  }

  /** A group has as many members as its key has occurrences. */
  lemma {:induction false} SelectLength<K, V>(keys: seq<K>, vals: seq<V>, k: K)
    requires |keys| == |vals|
    ensures |Select(keys, vals, k)| == Count(keys, k)
  {
    if keys != [] {
      SelectLength(keys[..|keys| - 1], vals[..|vals| - 1], k);
    }
  }

  /** A group keeps the bounds of the values it is drawn from. */
  lemma {:induction false} SelectWithin<K>(keys: seq<K>, vals: seq<real>, k: K, lo: real, hi: real)
    requires |keys| == |vals| && Within(vals, lo, hi)
    ensures Within(Select(keys, vals, k), lo, hi)
  {
    if keys != [] {
      SelectWithin(keys[..|keys| - 1], vals[..|vals| - 1], k, lo, hi);
    }
  }

  /** Every member of a group comes from a position where the key is k. */
  lemma {:induction false} SelectMembers<K, V>(keys: seq<K>, vals: seq<V>, k: K)
    requires |keys| == |vals|
    ensures forall v | v in Select(keys, vals, k) :: exists i | 0 <= i < |keys| :: keys[i] == k && vals[i] == v
  {
    if keys != [] {
      var n := |keys| - 1;
      SelectMembers(keys[..n], vals[..n], k);
      forall v | v in Select(keys, vals, k) ensures exists i | 0 <= i < |keys| :: keys[i] == k && vals[i] == v {
        if v in Select(keys[..n], vals[..n], k) {
          var i :| 0 <= i < n && keys[..n][i] == k && vals[..n][i] == v;
          assert keys[i] == k && vals[i] == v;
        } else {
          assert keys[n] == k && vals[n] == v;
        }
      }
    }
  }

  /** The mean of the values in the group of k (k must occur). */
  function GroupMean<K(==)>(keys: seq<K>, vals: seq<real>, k: K): real
    requires |keys| == |vals| && k in keys
  {
    SelectLength(keys, vals, k);
    CountZero(keys, k);
    Mean(Select(keys, vals, k))
  }

  lemma GroupMeanBounds<K>(keys: seq<K>, vals: seq<real>, k: K, lo: real, hi: real)
    requires |keys| == |vals| && k in keys && Within(vals, lo, hi)
    ensures lo <= GroupMean(keys, vals, k) <= hi
  {
    SelectLength(keys, vals, k);
    CountZero(keys, k);
    SelectWithin(keys, vals, k, lo, hi);
    MeanBounds(Select(keys, vals, k), lo, hi);
  }

  /** The counts of a tally, as reals. */
  function CountValues<T>(c: seq<(T, nat)>): (r: seq<real>)
    ensures |r| == |c| && forall i | 0 <= i < |c| :: r[i] == c[i].1 as real
  {
    seq(|c|, i requires 0 <= i < |c| => c[i].1 as real)
  }

  /** The largest count of a non-empty tally. */
  function MaxCount<T>(c: seq<(T, nat)>): (m: nat)
    requires |c| > 0
    ensures exists i | 0 <= i < |c| :: c[i].1 == m
    ensures forall i | 0 <= i < |c| :: c[i].1 <= m
  {
    if |c| == 1 then c[0].1
    else
      var m := MaxCount(c[1..]);
      assert forall i | 1 <= i < |c| :: c[i] == c[1..][i - 1];
      if c[0].1 >= m then c[0].1 else m
  }

  /** The smallest count of a non-empty tally. */
  function MinCount<T>(c: seq<(T, nat)>): (m: nat)
    requires |c| > 0
    ensures exists i | 0 <= i < |c| :: c[i].1 == m
    ensures forall i | 0 <= i < |c| :: m <= c[i].1
  {
    if |c| == 1 then c[0].1
    else
      var m := MinCount(c[1..]);
      assert forall i | 1 <= i < |c| :: c[i] == c[1..][i - 1];
      if c[0].1 <= m then c[0].1 else m
  }

  /** A tally whose counts are all positive has a positive least count. */
  lemma MinCountPositive<T>(c: seq<(T, nat)>)
    requires |c| > 0 && forall i | 0 <= i < |c| :: c[i].1 >= 1
    ensures MinCount(c) >= 1
  {
    var k :| 0 <= k < |c| && c[k].1 == MinCount(c);
  }

  /** The first key whose count is the given one (pandas' idxmax / idxmin). */
  function FirstWithCount<T(==)>(c: seq<(T, nat)>, n: nat): (k: T)
    requires exists i | 0 <= i < |c| :: c[i].1 == n
    ensures exists i | 0 <= i < |c| :: c[i].0 == k && c[i].1 == n && forall j | 0 <= j < i :: c[j].1 != n
  {
    if c[0].1 == n then
      c[0].0
    else
      assert forall i | 1 <= i < |c| :: c[i] == c[1..][i - 1];
      var k := FirstWithCount(c[1..], n);
      var i :| 0 <= i < |c[1..]| && c[1..][i].0 == k && c[1..][i].1 == n && forall j | 0 <= j < i :: c[1..][j].1 != n;
      assert c[i + 1] == c[1..][i];
      k
  }

  /** The integer nearest to y, halves going to the even neighbour (numpy's
      rint). */
  function RoundHalfEven(y: real): (n: int)
    ensures y - 0.5 <= n as real <= y + 0.5
  {
    var f := y.Floor;
    if y - f as real < 0.5 then f
    else if y - f as real > 0.5 then f + 1
    else if f % 2 == 0 then f else f + 1
  }

  /** Rounding to an integer stays between integer bounds. */
  lemma RoundHalfEvenWithin(y: real, lo: int, hi: int)
    requires lo as real <= y <= hi as real
    ensures lo <= RoundHalfEven(y) <= hi
  {
    assert lo <= y.Floor <= hi;
  }

  /** The reals with three decimals, rounding halves to the even neighbour
      (pandas' round(3)). */
  function Round3(x: real): (r: real)
    ensures x - 0.0005 <= r <= x + 0.0005
  {
    RoundHalfEven(x * 1000.0) as real / 1000.0
  }

  /** Rounding keeps a value between bounds that have at most three decimals. */
  lemma Round3Within(x: real, lo: int, hi: int)
    requires lo as real / 1000.0 <= x <= hi as real / 1000.0
    ensures lo as real / 1000.0 <= Round3(x) <= hi as real / 1000.0
  {
    RoundHalfEvenWithin(x * 1000.0, lo, hi);
  }

  /** The reals with two decimals, rounding halves to the even neighbour
      (numpy's round(2)). */
  function Round2(x: real): (r: real)
    ensures x - 0.005 <= r <= x + 0.005
  {
    RoundHalfEven(x * 100.0) as real / 100.0
  }

  /** Rounding keeps a value between bounds that have at most two decimals. */
  lemma Round2Within(x: real, lo: int, hi: int)
    requires lo as real / 100.0 <= x <= hi as real / 100.0
    ensures lo as real / 100.0 <= Round2(x) <= hi as real / 100.0
  {
    RoundHalfEvenWithin(x * 100.0, lo, hi);
  }

  predicate AtMost(xs: seq<real>, hi: real) {
    forall k | 0 <= k < |xs| :: xs[k] <= hi
  }

  lemma {:induction false} SumAtMost(xs: seq<real>, hi: real)
    requires AtMost(xs, hi)
    ensures Sum(xs) <= |xs| as real * hi
  {
    if xs != [] {
      SumAtMost(xs[1..], hi);
    }
  }

  /** A mean is at most an upper bound of what it averages. */
  lemma MeanAtMost(xs: seq<real>, hi: real)
    requires |xs| > 0 && AtMost(xs, hi)
    ensures Mean(xs) <= hi
  {
    SumAtMost(xs, hi);
    var n := |xs| as real;
    assert Sum(xs) / n <= hi by { assert Sum(xs) <= n * hi; }
  }

  /** Every value filed under k is selected. */
  lemma {:induction false} SelectComplete<K, V>(keys: seq<K>, vals: seq<V>, k: K)
    requires |keys| == |vals|
    ensures forall i | 0 <= i < |keys| && keys[i] == k :: vals[i] in Select(keys, vals, k)
  {
    if keys != [] {
      var n := |keys| - 1;
      SelectComplete(keys[..n], vals[..n], k);
      forall i | 0 <= i < |keys| && keys[i] == k ensures vals[i] in Select(keys, vals, k) {
        if i < n {
          assert keys[..n][i] == k && vals[..n][i] == vals[i];
        }
      }
    }
  }

  lemma {:induction false} SelectAtMost<K>(keys: seq<K>, vals: seq<real>, k: K, hi: real)
    requires |keys| == |vals| && AtMost(vals, hi)
    ensures AtMost(Select(keys, vals, k), hi)
  {
    if keys != [] {
      SelectAtMost(keys[..|keys| - 1], vals[..|vals| - 1], k, hi);
    }
  }

  lemma GroupMeanAtMost<K>(keys: seq<K>, vals: seq<real>, k: K, hi: real)
    requires |keys| == |vals| && k in keys && AtMost(vals, hi)
    ensures GroupMean(keys, vals, k) <= hi
  {
    SelectLength(keys, vals, k);
    CountZero(keys, k);
    SelectAtMost(keys, vals, k, hi);
    MeanAtMost(Select(keys, vals, k), hi);
  }

  /** The counts of a tally add up, as reals, to its total. */
  lemma {:induction false} SumCountValues<T>(c: seq<(T, nat)>)
    ensures Sum(CountValues(c)) == SumCounts(c) as real
  {
    if c != [] {
      SumCountValues(c[1..]);
      assert CountValues(c)[1..] == CountValues(c[1..]);
    }
  }

  /** The entries of a tally whose count is above t, in order. */
  function CountsAbove<T>(c: seq<(T, nat)>, t: real): (r: seq<(T, nat)>)
    ensures |r| <= |c|
    ensures forall k | 0 <= k < |r| :: r[k].1 as real > t && r[k] in c
    ensures forall k | 0 <= k < |c| :: c[k].1 as real > t ==> c[k] in r
  {
    if c == [] then []
    else
      var rest := CountsAbove(c[1..], t);
      assert forall k | 1 <= k < |c| :: c[k] == c[1..][k - 1];
      if c[0].1 as real > t then [c[0]] + rest else rest
  }

  /** min(x, 1). */
  function Min1(x: real): (r: real)
    ensures r <= 1.0 && r <= x && (r == x || r == 1.0)
  {
    if x < 1.0 then x else 1.0
  }

  /** The largest count of a tally is more than 1.5 times its smallest. */
  predicate Varies<T>(c: seq<(T, nat)>)
    requires |c| > 0 && MinCount(c) >= 1
  {
    Fraction(MaxCount(c), MinCount(c)) > 1.5
  }

  lemma VariesIff<T>(c: seq<(T, nat)>)
    requires |c| > 0 && MinCount(c) >= 1
    ensures Varies(c) <==> MaxCount(c) as real > 1.5 * MinCount(c) as real
  {
    AboveThreeHalves(MaxCount(c), MinCount(c));
  }

  lemma AboveThreeHalves(a: nat, b: nat)
    requires b > 0
    ensures Fraction(a, b) > 1.5 <==> a as real > 1.5 * b as real
  {
    FractionAbove(a, b, 1.5);
  }

  /** The gap between the largest and the smallest count relative to the
      mean count, at most 1. */
  function Spread<T>(c: seq<(T, nat)>): real
    requires |c| > 0 && forall i | 0 <= i < |c| :: c[i].1 >= 1
  {
    MeanAtLeast(CountValues(c), 1.0);
    Min1((MaxCount(c) - MinCount(c)) as real / Mean(CountValues(c)))
  }

  lemma SpreadBounds<T>(c: seq<(T, nat)>)
    requires |c| > 0 && forall i | 0 <= i < |c| :: c[i].1 >= 1
    requires MaxCount(c) > MinCount(c)
    ensures 0.0 < Spread(c) <= 1.0
  {
    MeanAtLeast(CountValues(c), 1.0);
    Positive((MaxCount(c) - MinCount(c)) as real, Mean(CountValues(c)));
  }

  lemma Positive(a: real, b: real)
    requires a > 0.0 && b > 0.0
    ensures a / b > 0.0
  {
  }

  /** f(0) + f(1) + ... + f(n - 1). */
  function Concat<T>(n: nat, f: nat -> seq<T>): seq<T> {
    if n == 0 then [] else Concat(n - 1, f) + f(n - 1)
  }

  /** What holds of every element of every part holds of every element of
      the whole. */
  lemma {:induction false} ConcatAll<T>(n: nat, f: nat -> seq<T>, p: T -> bool)
    requires forall i: nat | i < n :: forall x | x in f(i) :: p(x)
    ensures forall x | x in Concat(n, f) :: p(x)
  {
    if n > 0 {
      ConcatAll(n - 1, f, p);
    }
  }
}
