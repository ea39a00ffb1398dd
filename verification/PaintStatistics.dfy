/** The maximum of recent paint durations, kept in two buckets (Compositor::update_paint_periods). */
module PaintStatistics {

  const PERIOD := 100

  /** m_lastPaintDurations and m_paintPeriods. */
  datatype Durations = Durations(previous: int, current: int, periods: int)

  const START := Durations(0, 0, 0)

  function Recorded(d: Durations, duration: int): Durations {
    var current := if duration > d.current then duration else d.current;
    if d.periods + 1 == PERIOD then Durations(current, 0, 0)
    else Durations(d.previous, current, d.periods + 1)
  }

  function AllRecorded(ds: seq<int>): Durations {
    if ds == [] then START else Recorded(AllRecorded(ds[..|ds| - 1]), ds[|ds| - 1])
  }

  /** The two buckets, as bufferSwapComplete reads them. */
  function MaxPaintDuration(d: Durations): int {
    if d.previous > d.current then d.previous else d.current
  }

  /** The greatest of `ds`, and 0. */
  function Greatest(ds: seq<int>): (m: int)
    ensures m >= 0 && forall x :: x in ds ==> x <= m
    ensures m == 0 || m in ds
  {
    if ds == [] then 0
    else
      var m, last := Greatest(ds[..|ds| - 1]), ds[|ds| - 1];
      assert ds == ds[..|ds| - 1] + [last];
      if last > m then last else m
  }

  lemma {:induction false} GreatestConcat(a: seq<int>, b: seq<int>)
    ensures Greatest(a + b) == if Greatest(a) > Greatest(b) then Greatest(a) else Greatest(b)
  {
    if b == [] {
      assert a + b == a;
    } else {
      assert (a + b)[..|a + b| - 1] == a + b[..|b| - 1];
      GreatestConcat(a, b[..|b| - 1]);
    }
  }

  lemma GreatestSnoc(ds: seq<int>, x: int)
    ensures Greatest(ds + [x]) == if x > Greatest(ds) then x else Greatest(ds)
  {
    assert (ds + [x])[..|ds|] == ds;
  }

  /** How many of the last durations are covered: all of them before the first hundred is full,
      and from then on the last 100 and those recorded since. */
  function Window(d: Durations, n: nat): int {
    if n < PERIOD then n else PERIOD + d.periods
  }

  /** The durations fall into an older part and the two parts the buckets stand for. */
  lemma {:induction false} Buckets(ds: seq<int>) returns (older: seq<int>, previous: seq<int>, current: seq<int>)
    ensures ds == older + previous + current
    ensures |previous| == (if |ds| < PERIOD then 0 else PERIOD) && (previous == [] ==> older == [])
    ensures var d := AllRecorded(ds);
            && d.periods == |current| < PERIOD
            && d.current == Greatest(current) && d.previous == Greatest(previous)
  {
    if ds == [] {
      older, previous, current := [], [], [];
    } else {
      var n := |ds| - 1;
      older, previous, current := Buckets(ds[..n]);
      GreatestSnoc(current, ds[n]);
      RegroupLast(ds, older, previous, current);
      if |current| + 1 == PERIOD {
        older, previous, current := older + previous, current + [ds[n]], [];
      } else {
        current := current + [ds[n]];
      }
    }
  }

  lemma RegroupLast(ds: seq<int>, a: seq<int>, b: seq<int>, c: seq<int>)
    requires ds != [] && ds[..|ds| - 1] == a + b + c
    ensures ds == a + b + (c + [ds[|ds| - 1]])
    ensures ds == (a + b) + (c + [ds[|ds| - 1]]) + []
  {
    assert ds == ds[..|ds| - 1] + [ds[|ds| - 1]];
  }

  /** The maximum of the two buckets is the maximum, with 0, over a sliding window: at least the last
      100 durations once there are so many, and at most the last 199. */
  lemma MaxIsSlidingWindow(ds: seq<int>)
    ensures var d := AllRecorded(ds); var k := Window(d, |ds|);
            && 0 <= k <= |ds|
            && (|ds| >= PERIOD ==> PERIOD <= k < 2 * PERIOD)
            && MaxPaintDuration(d) == Greatest(ds[|ds| - k..])
  {
    var older, previous, current := Buckets(ds);
    GreatestConcat(previous, current);
    Suffix(older, previous, current);
    assert |previous + current| == Window(AllRecorded(ds), |ds|);
  }

  lemma Suffix(a: seq<int>, b: seq<int>, c: seq<int>)
    ensures (a + b + c)[|a + b + c| - |b + c|..] == b + c
  {
  }
}
