/**
  Shared vocabulary: nullable values, the clock, and the row written by one health check.
*/
module Common {

  datatype Option<+T> = None | Some(value: T)

  /** Timestamps and durations in microseconds, the resolution of a Postgres timestamptz. */
  type Time = int

  const SECOND: Time := 1_000_000

  /** Whole seconds in a non-negative duration, truncated. */
  function Seconds(duration: Time): int {
    duration / 1_000_000
  }

  /** An interval of whole seconds. */
  function Micros(seconds: int): Time {
    seconds * 1_000_000
  }

  /** A row of checkresult. A code of None is SQL NULL: no HTTP response arrived. */
  datatype CheckRow = CheckRow(id: nat, endpoint: nat, at: Time, code: Option<int>)

  /** Health is the status code and nothing else. */
  predicate UpFor(code: Option<int>) {
    code.Some? && 200 <= code.value < 400
  }

  predicate Up(r: CheckRow) {
    UpFor(r.code)
  }

  function Max(a: int, b: int): int {
    if a < b then b else a
  }

  function Min(a: int, b: int): int {
    if a < b then a else b
  }

  lemma {:induction false} DivideBy(n: int, step: int, t: int)
    requires step > 0 && n * step <= t
    ensures n <= t / step
  {
    var q := t / step;
    assert t < q * step + step;
    if q < n {
      GrowsWith(q + 1, n, step);
    }
  }

  lemma {:induction false} GrowsWith(a: int, b: int, step: int)
    requires a <= b && step > 0
    ensures a * step <= b * step
  {
  }

  lemma {:induction false} SubsetSize<T>(a: set<T>, b: set<T>)
    requires a <= b
    ensures |a| <= |b|
  {
    assert b == a + (b - a);
  }

  /** Rows in strictly increasing order of checked_at. */
  ghost predicate StrictlyOrdered(s: seq<CheckRow>) {
    forall i, j :: 0 <= i < j < |s| ==> s[i].at < s[j].at
  }

  /** Rows in an order that ORDER BY checked_at permits: rows with equal timestamps may come in any order. */
  ghost predicate Ordered(s: seq<CheckRow>) {
    forall i, j :: 0 <= i < j < |s| ==> s[i].at <= s[j].at
  }

  ghost function Contents(s: seq<CheckRow>): set<CheckRow> {
    set r | r in s
  }

  /** The sequence lists every row of the set exactly once. */
  ghost predicate Enumerates(s: seq<CheckRow>, rows: set<CheckRow>) {
    && (forall r :: r in s <==> r in rows)
    && (forall i, j :: 0 <= i < j < |s| ==> s[i] != s[j])
  }

  lemma {:induction false} EnumerationSize(s: seq<CheckRow>, rows: set<CheckRow>)
    requires Enumerates(s, rows)
    ensures |s| == |rows|
  {
    if s == [] {
      assert rows == {};
    } else {
      var n := |s| - 1;
      assert s == s[..n] + [s[n]];
      EnumerationSize(s[..n], rows - {s[n]});
    }
  }

  /** Distinct timestamps leave ORDER BY checked_at no choice. */
  lemma {:induction false} StrictOrderIsUnique(s: seq<CheckRow>, t: seq<CheckRow>)
    requires StrictlyOrdered(s) && Ordered(t)
    requires Enumerates(t, Contents(s))
    ensures s == t
  {
    var rows := Contents(s);
    EnumerationSize(t, rows);
    EnumerationSize(s, rows);
    if s != [] {
      var n := |s| - 1;
      SameNewest(s, t);
      WithoutNewest(s, rows);
      WithoutNewest(t, rows);
      StrictOrderIsUnique(s[..n], t[..n]);
      assert s == s[..n] + [s[n]] && t == t[..n] + [t[n]];
    }
  }

  lemma {:induction false} WithoutNewest(s: seq<CheckRow>, rows: set<CheckRow>)
    requires s != [] && Enumerates(s, rows)
    ensures Enumerates(s[..|s| - 1], rows - {s[|s| - 1]})
    ensures Contents(s[..|s| - 1]) == rows - {s[|s| - 1]}
  {
    assert s == s[..|s| - 1] + [s[|s| - 1]];
  }

  lemma {:induction false} SameNewest(s: seq<CheckRow>, t: seq<CheckRow>)
    requires |s| == |t| > 0
    requires StrictlyOrdered(s) && Ordered(t)
    requires Enumerates(t, Contents(s))
    ensures s[|s| - 1] == t[|t| - 1]
  {
    var n := |s| - 1;
    assert t[n] in t && s[n] in s;
    assert s[n] in Contents(s) && t[n] in Contents(s);
    assert s[n] in t && t[n] in s;
    var i :| 0 <= i <= n && t[i] == s[n];
    var j :| 0 <= j <= n && s[j] == t[n];
    assert t[i].at <= t[n].at;
  }

  function Reversed<T>(s: seq<T>): (r: seq<T>)
    ensures |r| == |s|
    ensures forall i :: 0 <= i < |s| ==> r[i] == s[|s| - 1 - i]
  {
    if s == [] then [] else Reversed(s[1..]) + [s[0]]
  }

  /** ORDER BY checked_at DESC LIMIT 1: some row with the greatest timestamp, or nothing on an empty set. */
  ghost predicate IsLatest(rows: set<CheckRow>, r: Option<CheckRow>) {
    match r
    case None => rows == {}
    case Some(row) => row in rows && forall q :: q in rows ==> q.at <= row.at
  }

  lemma {:induction false} LatestExists(rows: set<CheckRow>) returns (r: Option<CheckRow>)
    ensures IsLatest(rows, r)
  {
    if rows == {} {
      return None;
    }
    var x :| x in rows;
    var rest := LatestExists(rows - {x});
    assert forall q :: q in rows ==> q == x || q in rows - {x};
    if rest.Some? && rest.value.at > x.at {
      return rest;
    }
    return Some(x);
  }

  /** Every table has a scan order. */
  lemma {:induction false} OrderExists(rows: set<CheckRow>) returns (s: seq<CheckRow>)
    ensures Ordered(s) && Enumerates(s, rows)
  {
    var last := LatestExists(rows);
    if last.None? {
      return [];
    }
    var rest := OrderExists(rows - {last.value});
    s := rest + [last.value];
  }
}
