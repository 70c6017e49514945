/** The records that flow through the system: a citation as a collector emits
    it (`Hit`), and a stored citation as the analysers read it (`Citation`),
    which adds the time it was recorded. */
module Records {

  datatype Option<T> = None | Some(value: T)

  /** The value of an option as a list of zero or one element. */
  function OptionList<T>(o: Option<T>): (r: seq<T>)
    ensures o.Some? ==> r == [o.value]
    ensures o.None? ==> r == []
  {
    if o.Some? then [o.value] else []
  }

  /** A priority or impact level. */
  datatype Level = Low | Medium | High

  /** A metadata value. The analysers treat str, int, float and bool as scalars;
      lists and dictionaries are carried along but never inspected. */
  datatype Value =
    | Str(s: string)
    | Int(i: int)
    | Real(r: real)
    | Bool(b: bool)
    | IntList(xs: seq<int>)
    | Nested

  predicate IsScalar(v: Value) {
    v.Str? || v.Int? || v.Real? || v.Bool?
  }

  /** A metadata dictionary, as its (key, value) items in insertion order. */
  type Metadata = seq<(string, Value)>

  /** A citation dictionary produced by a collector, before it is stored. */
  datatype Hit = Hit(
    engine: string,
    query: string,
    url: string,
    title: string,
    snippet: string,
    position: int,
    citationType: string,
    sourceDomain: string,
    prominence: real,
    metadata: Metadata)

  /** Seconds since midnight. */
  type DaySecond = s: int | 0 <= s < 86400

  /** A point in time: a day number and the second within that day. */
  datatype Stamp = Stamp(day: int, second: DaySecond)

  /** The point in time as seconds since day 0. */
  function Instant(t: Stamp): int {
    t.day * 86400 + t.second
  }

  /** The hour of the day, 0 to 23. */
  function Hour(t: Stamp): (h: int)
    ensures 0 <= h < 24
  {
    t.second / 3600
  }

  /** The day of the week, 0 to 6; which number names which day does not matter here. */
  function Weekday(t: Stamp): (w: int)
    ensures 0 <= w < 7
  {
    t.day % 7
  }

  /** Whole days between two points in time, as `(b - a).days` gives it: the
      difference in seconds divided by a day's length, rounded down. */
  function DaysBetween(a: Stamp, b: Stamp): int {
    (Instant(b) - Instant(a)) / 86400
  }

  /** A stored citation as the analysers read it. */
  datatype Citation = Citation(
    engine: string,
    query: string,
    url: string,
    title: string,
    snippet: string,
    position: int,
    citationType: string,
    sourceDomain: string,
    prominence: real,
    createdAt: Stamp,
    metadata: Metadata)

  function Domains(cs: seq<Citation>): (r: seq<string>)
    ensures |r| == |cs| && forall i | 0 <= i < |cs| :: r[i] == cs[i].sourceDomain
  {
    seq(|cs|, i requires 0 <= i < |cs| => cs[i].sourceDomain)
  }

  function Queries(cs: seq<Citation>): (r: seq<string>)
    ensures |r| == |cs| && forall i | 0 <= i < |cs| :: r[i] == cs[i].query
  {
    seq(|cs|, i requires 0 <= i < |cs| => cs[i].query)
  }

  function Engines(cs: seq<Citation>): (r: seq<string>)
    ensures |r| == |cs| && forall i | 0 <= i < |cs| :: r[i] == cs[i].engine
  {
    seq(|cs|, i requires 0 <= i < |cs| => cs[i].engine)
  }

  function Types(cs: seq<Citation>): (r: seq<string>)
    ensures |r| == |cs| && forall i | 0 <= i < |cs| :: r[i] == cs[i].citationType
  {
    seq(|cs|, i requires 0 <= i < |cs| => cs[i].citationType)
  }

  function Prominences(cs: seq<Citation>): (r: seq<real>)
    ensures |r| == |cs| && forall i | 0 <= i < |cs| :: r[i] == cs[i].prominence
  {
    seq(|cs|, i requires 0 <= i < |cs| => cs[i].prominence)
  }

  function Positions(cs: seq<Citation>): (r: seq<real>)
    ensures |r| == |cs| && forall i | 0 <= i < |cs| :: r[i] == cs[i].position as real
  {
    seq(|cs|, i requires 0 <= i < |cs| => cs[i].position as real)
  }
}
