/** The 3-second segmentation that the gait, resting-tremor, tremor-amplitude and
    hand-movement-feature loops each write out inline. A stream of L rows carries
    the labels 0..L-1; with Ws samples per window there are round(L / Ws) windows,
    and window w is cut with label-inclusive `.loc` from label Ws*w+1 to label
    Ws*w+Ws, or to the last label when that end lies beyond it. */
module Windowing {
  import opened Numerics
  import opened Frames

  /** `total_windows = round(total_samples / float(window_samples))`. */
  function WindowCount(total: nat, ws: nat): (t: nat)
    requires ws > 0
    ensures t == (2 * total + ws) / (2 * ws)
  {
    RoundQuotient(total, ws);
    PyRound(total as real / ws as real)
  }

  function IntMin(a: int, b: int): int
  {
    if a <= b then a else b
  }

  /** The row positions [lo, hi) of window w. The frame's labels equal its
      positions, so `.loc[start:]` is [start, L) and `.loc[start:end]` is
      [start, min(end + 1, L)). */
  function WindowBounds(total: nat, ws: nat, w: nat): (b: (nat, nat))
    requires ws > 0 && w < WindowCount(total, ws)
    ensures b.0 == ws * w + 1 && b.0 <= b.1 <= total
    ensures b.1 == IntMin(ws * w + ws + 1, total)
  {
    var start := ws * w + 1;
    var end := start + ws - 1;
    StartWithin(total, ws, w);
    if end > total then (start, total)
    else (start, IntMin(end + 1, total))
  }

  /** Every window starts at or before the end of the stream. */
  lemma StartWithin(total: nat, ws: nat, w: nat)
    requires ws > 0 && w < WindowCount(total, ws)
    ensures ws * w + 1 <= total
  {
    var t := WindowCount(total, ws);
    assert 2 * ws * t <= 2 * total + ws;
    assert w + 1 <= t;
    assert 2 * ws * (w + 1) <= 2 * ws * t;
  }

  /** The length of window w. */
  function WindowSize(total: nat, ws: nat, w: nat): nat
    requires ws > 0 && w < WindowCount(total, ws)
  {
    WindowBounds(total, ws, w).1 - WindowBounds(total, ws, w).0
  }

  /** Label 0 belongs to no window, and no window holds more than Ws samples. */
  lemma WindowShape(total: nat, ws: nat, w: nat)
    requires ws > 0 && w < WindowCount(total, ws)
    ensures WindowBounds(total, ws, w).0 >= 1
    ensures WindowSize(total, ws, w) <= ws
    ensures WindowSize(total, ws, w) == IntMin(ws, total - (ws * w + 1))
  {
  }

  /** Consecutive windows are adjacent: each starts where the previous one ends. */
  lemma {:induction false} Adjacent(total: nat, ws: nat, w: nat)
    requires ws > 0 && w + 1 < WindowCount(total, ws)
    ensures WindowBounds(total, ws, w).1 == WindowBounds(total, ws, w + 1).0
  {
    StartWithin(total, ws, w + 1);
    assert ws * (w + 1) == ws * w + ws;
  }

  /** Earlier windows end before later ones start, so windows are disjoint. */
  lemma {:induction false} Ordered(total: nat, ws: nat, v: nat, w: nat)
    requires ws > 0 && v < w < WindowCount(total, ws)
    ensures WindowBounds(total, ws, v).1 <= WindowBounds(total, ws, w).0
    decreases w - v
  {
    Adjacent(total, ws, v);
    if v + 1 < w {
      Ordered(total, ws, v + 1, w);
    }
  }

  /** The windows together cover exactly the labels 1..min(Ws*T, L-1), T the window
      count: label 0 is never used, and when the count rounds down the tail
      after label Ws*T is dropped. */
  lemma {:induction false} Coverage(total: nat, ws: nat, k: int)
    requires ws > 0
    ensures (exists w :: 0 <= w < WindowCount(total, ws) &&
               WindowBounds(total, ws, w).0 <= k < WindowBounds(total, ws, w).1)
            <==> 1 <= k <= IntMin(ws * WindowCount(total, ws), total - 1)
  {
    var t := WindowCount(total, ws);
    if 1 <= k <= IntMin(ws * t, total - 1) {
      var w := CoveredBy(total, ws, k);
    }
    forall w | 0 <= w < t && WindowBounds(total, ws, w).0 <= k < WindowBounds(total, ws, w).1
      ensures 1 <= k <= IntMin(ws * t, total - 1)
    {
      InsideCovered(total, ws, w, k);
    }
  }

  /** A label in 1..min(Ws*T, L-1) lies in window (k - 1) / Ws. */
  lemma CoveredBy(total: nat, ws: nat, k: int) returns (w: nat)
    requires ws > 0 && 1 <= k <= IntMin(ws * WindowCount(total, ws), total - 1)
    ensures w < WindowCount(total, ws)
    ensures WindowBounds(total, ws, w).0 <= k < WindowBounds(total, ws, w).1
  {
    w := WindowOf(total, ws, WindowCount(total, ws), k);
  }

  /** The window index (k - 1) / Ws, in integer arithmetic alone. */
  lemma WindowOf(total: nat, ws: nat, t: nat, k: int) returns (w: nat)
    requires ws > 0 && 1 <= k <= IntMin(ws * t, total - 1)
    ensures w < t && ws * w + 1 <= k < IntMin(ws * w + ws + 1, total)
  {
    w := (k - 1) / ws;
    DivBounds(k - 1, ws);
    MulCancel(ws, w, t);
  }

  /** A label inside window w lies in 1..min(Ws*T, L-1). */
  lemma InsideCovered(total: nat, ws: nat, w: nat, k: int)
    requires ws > 0 && w < WindowCount(total, ws)
    requires WindowBounds(total, ws, w).0 <= k < WindowBounds(total, ws, w).1
    ensures 1 <= k <= IntMin(ws * WindowCount(total, ws), total - 1)
  {
    var t := WindowCount(total, ws);
    var b := WindowBounds(total, ws, w);
    assert b.0 == ws * w + 1 && b.1 == IntMin(ws * w + ws + 1, total);
    MulMonotone(ws, w + 1, t);
    assert ws * (w + 1) == ws * w + ws;
  }

  lemma DivBounds(n: int, d: nat)
    requires d > 0
    ensures d * (n / d) <= n < d * (n / d) + d
  {
  }

  lemma MulCancel(c: nat, a: int, b: int)
    requires c > 0 && c * a < c * b
    ensures a < b
  {
  }

  lemma MulMonotone(c: nat, a: int, b: int)
    requires a <= b
    ensures c * a <= c * b
  {
  }

  lemma DivUnique(n: int, d: nat, q: int)
    requires d > 0 && d * q <= n < d * q + d
    ensures n / d == q
  {
    var r := n / d;
    DivBounds(n, d);
    assert d * (q + 1) == d * q + d;
    MulCancel(d, r, q + 1);
    assert d * (r + 1) == d * r + d;
    MulCancel(d, q, r + 1);
  }

  /** When L is a whole number of windows, the last window holds Ws - 1 samples. */
  lemma ExactLastWindow(total: nat, ws: nat)
    requires ws > 0 && total > 0 && total % ws == 0
    ensures WindowCount(total, ws) == total / ws
    ensures WindowSize(total, ws, total / ws - 1) == ws - 1
  {
    var t := total / ws;
    DivBounds(total, ws);
    assert total == ws * t;
    assert 2 * total + ws == 2 * ws * t + ws;
    DivUnique(2 * total + ws, 2 * ws, t);
    assert ws * (t - 1) == ws * t - ws;
  }

  /** Rows of window w, re-indexed from 0, as the feature functions receive them. */
  function WindowFrame(f: Frame, ws: nat, w: nat): (g: Frame)
    requires f.Valid() && ws > 0 && w < WindowCount(f.height, ws)
    ensures g.Valid() && g.height == WindowSize(f.height, ws, w) && g.columns.Keys == f.columns.Keys
    ensures forall c, k :: c in f.columns && 0 <= k < g.height ==>
              g.columns[c][k] == f.columns[c][WindowBounds(f.height, ws, w).0 + k]
  {
    var b := WindowBounds(f.height, ws, w);
    RowsReindexed(f, b.0, b.1)
  }

  /** The samples of channel c in window w: rows lo..hi-1 of the stream. */
  function WindowSamples(f: Frame, ws: nat, w: nat, c: string): (x: seq<real>)
    requires f.Valid() && ws > 0 && w < WindowCount(f.height, ws) && c in f.columns
    ensures |x| == WindowSize(f.height, ws, w)
  {
    f.columns[c][WindowBounds(f.height, ws, w).0..WindowBounds(f.height, ws, w).1]
  }

  /** Column c of window w holds exactly those samples. */
  lemma WindowColumn(f: Frame, ws: nat, w: nat, c: string)
    requires f.Valid() && ws > 0 && w < WindowCount(f.height, ws) && c in f.columns
    ensures WindowFrame(f, ws, w).columns[c] == WindowSamples(f, ws, w, c)
  {
  }

  /** With at least three samples per window no window is empty; with one or
      two the last window can be (one sample and Ws = 2: one window, no rows). */
  lemma {:induction false} NonEmptyWindow(total: nat, ws: nat, w: nat)
    requires ws >= 3 && w < WindowCount(total, ws)
    ensures WindowSize(total, ws, w) >= 1
  {
    var t := WindowCount(total, ws);
    assert 2 * ws * t <= 2 * total + ws;
    MulMonotone(2 * ws, w + 1, t);
    assert 2 * ws * (w + 1) == 2 * ws * w + 2 * ws;
  }

  lemma SmallWindowEmpty()
    ensures WindowCount(1, 2) == 1 && WindowSize(1, 2, 0) == 0
  {
  }

  /** 1000 samples at 100 Hz: three windows, labels 1..300, 301..600 and
      601..900; labels 0 and 901..999 are in none. */
  lemma HundredHertzExample()
    ensures WindowCount(1000, 300) == 3
    ensures WindowBounds(1000, 300, 0) == (1, 301)
    ensures WindowBounds(1000, 300, 1) == (301, 601)
    ensures WindowBounds(1000, 300, 2) == (601, 901)
  {
  }
}
