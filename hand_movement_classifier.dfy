/** classifiers/hand_movement_classifier.py: the rolling mean and rolling
    standard deviation of the filtered vector magnitude, and the labelling of
    non-overlapping windows as hand movement (1) or none (0) by a majority of
    per-sample `coefficient of variation > threshold` indicators. The vector
    magnitude, the low-pass filter and the division into a coefficient of
    variation are not part of this model: labelling starts from the per-sample
    comparison results. */
module HandMovementClassifier {
  import opened Numerics
  import opened Windowing

  /** A Python function that may return None. */
  datatype Option<+T> = None | Some(value: T)

  function IntMax(a: int, b: int): int
  {
    if a >= b then a else b
  }

  // ---------------------------------------------------------------------------
  // Rolling windows

  /** The slice `x[start:stop]` sample i reads with window length w, branch by
      branch; `w / 2` is Python 2's flooring integer division, which agrees
      with Dafny's for the divisor 2, as `w % 2` does. An open end is the
      length n. */
  function RollingBounds(n: nat, w: int, i: nat): (int, int)
  {
    if i < w / 2 then (0, i + w / 2)
    else if n - i < w / 2 then (i - w / 2, n)
    else (i - w / 2, i + w / 2)
  }

  /** The samples a rolling statistic of sample i is computed over. */
  function RollingWindow(x: seq<real>, w: int, i: nat): seq<real>
  {
    var b := RollingBounds(|x|, w, i);
    PySlice(x, b.0, b.1)
  }

  /** A statistic applied to the rolling window of every sample. */
  function Rolling(stat: seq<real> -> Value, x: seq<real>, w: int): (y: seq<Value>)
    ensures |y| == |x|
  {
    seq(|x|, i requires 0 <= i < |x| => stat(RollingWindow(x, w, i)))
  }

  /** For a non-negative window length the three branches read one window:
      the half-open interval [i - w/2, i + w/2) clipped to the samples. A
      sample near the start reads x[0 : i + w/2], one near the end
      x[i - w/2 :], and every other one exactly w - 1 samples when w is odd,
      because the end of the slice is exclusive. From w = 2 on the window
      holds sample i itself; with w = 1 every window is empty. */
  lemma RollingWindowClipped(x: seq<real>, w: int, i: nat)
    requires w >= 0 && i < |x|
    ensures IntMax(0, i - w / 2) <= IntMin(|x|, i + w / 2)
    ensures RollingWindow(x, w, i) == x[IntMax(0, i - w / 2)..IntMin(|x|, i + w / 2)]
    ensures i < w / 2 ==> RollingWindow(x, w, i) == x[..IntMin(|x|, i + w / 2)]
    ensures w / 2 <= i && |x| - i < w / 2 ==> RollingWindow(x, w, i) == x[i - w / 2..]
    ensures w / 2 <= i && w / 2 <= |x| - i ==> RollingWindow(x, w, i) == x[i - w / 2..i + w / 2]
    ensures w / 2 <= i && w / 2 <= |x| - i && w % 2 == 1 ==> |RollingWindow(x, w, i)| == w - 1
    ensures w >= 2 ==> IntMax(0, i - w / 2) <= i < IntMin(|x|, i + w / 2)
    ensures w == 1 ==> RollingWindow(x, w, i) == []
  {
  }

  /** `compute_rolling_mean`: an even window length prints a message and
      returns None; otherwise a fresh array of one mean per sample. */
  method ComputeRollingMean(x: seq<real>, w: int) returns (y: Option<array<Value>>)
    ensures y.None? <==> w % 2 == 0
    ensures y.Some? ==> fresh(y.value) && y.value[..] == Rolling(Mean, x, w)
  {
    if w % 2 == 0 {
      return None;
    }
    var a := new Value[|x|](_ => Num(0.0));
    for i := 0 to |x|
      invariant forall k :: 0 <= k < i ==> a[k] == Mean(RollingWindow(x, w, k))
    {
      if i < w / 2 {
        a[i] := Mean(PySlice(x, 0, i + w / 2));
      } else if |x| - i < w / 2 {
        a[i] := Mean(PySlice(x, i - w / 2, |x|));
      } else {
        a[i] := Mean(PySlice(x, i - w / 2, i + w / 2));
      }
    }
    return Some(a);
  }

  /** `compute_rolling_std`, with np.std a parameter: the same structure, and
      the same windows, as the rolling mean. */
  method ComputeRollingStd(std: seq<real> -> Value, x: seq<real>, w: int) returns (y: Option<array<Value>>)
    ensures y.None? <==> w % 2 == 0
    ensures y.Some? ==> fresh(y.value) && y.value[..] == Rolling(std, x, w)
  {
    if w % 2 == 0 {
      return None;
    }
    var a := new Value[|x|](_ => Num(0.0));
    for i := 0 to |x|
      invariant forall k :: 0 <= k < i ==> a[k] == std(RollingWindow(x, w, k))
    {
      if i < w / 2 {
        a[i] := std(PySlice(x, 0, i + w / 2));
      } else if |x| - i < w / 2 {
        a[i] := std(PySlice(x, i - w / 2, |x|));
      } else {
        a[i] := std(PySlice(x, i - w / 2, i + w / 2));
      }
    }
    return Some(a);
  }

  /** Sample i's rolling mean is a number lying between the smallest and the
      largest sample of its window whenever that window is not empty, which
      holds from a window length of 2 on. */
  lemma RollingMeanBounds(x: seq<real>, w: int, i: nat)
    requires w >= 2 && i < |x|
    ensures Rolling(Mean, x, w)[i].Num?
    ensures Min(RollingWindow(x, w, i)) <= Rolling(Mean, x, w)[i].x <= Max(RollingWindow(x, w, i))
  {
    RollingWindowClipped(x, w, i);
    var win := RollingWindow(x, w, i);
    MeanBounds(win, Min(win), Max(win));
  }

  // ---------------------------------------------------------------------------
  // Window labels

  /** `(rolling_cov > threshold)*1`, from the comparison results. */
  function Indicators(above: seq<bool>): (v: seq<real>)
    ensures |v| == |above|
    ensures forall i :: 0 <= i < |above| ==> v[i] == if above[i] then 1.0 else 0.0
  {
    seq(|above|, i requires 0 <= i < |above| => if above[i] then 1.0 else 0.0)
  }

  /** `number_of_windows` for n samples and s samples per window: a quotient
      with a fraction is rounded, an integral one floored. */
  function NumberOfWindows(n: nat, s: nat): (k: int)
    requires s > 0
    ensures k >= 0
  {
    var q := n as real / s as real;
    assert q >= 0.0 by {
      FracBounds(0, s);
      assert 0.0 <= n as real * (1.0 / s as real);
    }
    if q > q.Floor as real then PyRound(q) else q.Floor
  }

  /** Both branches of the window count round the quotient. */
  lemma WindowCountRounds(n: nat, s: nat)
    requires s > 0
    ensures NumberOfWindows(n, s) == PyRound(n as real / s as real) == (2 * n + s) / (2 * s)
  {
    RoundQuotient(n, s);
    var q := n as real / s as real;
    if q <= q.Floor as real {
      assert q == q.Floor as real;
      FloorIs(q + 0.5, q.Floor);
    }
  }

  /** The label of window k: 1 when the mean of its indicators is at least
      0.5; the mean of an empty slice is NaN, which compares false. */
  function Label(above: seq<bool>, s: nat, k: nat): (l: int)
    ensures l == 0 || l == 1
  {
    var m := Mean(PySlice(Indicators(above), k * s, (k + 1) * s));
    if m.Num? && m.x >= 0.5 then 1 else 0
  }

  /** `detect_hand_movement` from the indicators on: a window length of no
      samples makes the division raise; otherwise one label per window. */
  function WindowLabels(above: seq<bool>, s: nat): (r: Outcome<seq<int>>)
    ensures r.Raised? <==> s == 0
    ensures r.Raised? ==> r.error == ZeroDivisionError
    ensures r.Ok? ==> |r.value| == PyRound(|above| as real / s as real)
    ensures r.Ok? ==> forall k :: 0 <= k < |r.value| ==> r.value[k] == 0 || r.value[k] == 1
  {
    if s == 0 then Raised(ZeroDivisionError)
    else
      WindowCountRounds(|above|, s);
      var total := NumberOfWindows(|above|, s);
      Ok(seq(total, k requires 0 <= k < total => Label(above, s, k)))
  }

  method DetectHandMovement(above: seq<bool>, s: nat) returns (r: Outcome<array<int>>)
    ensures r.Raised? ==> WindowLabels(above, s) == Raised(r.error)
    ensures r.Ok? ==> WindowLabels(above, s).Ok? && fresh(r.value) && r.value[..] == WindowLabels(above, s).value
  {
    var valuesAboveThreshold := Indicators(above);
    if s == 0 {
      return Raised(ZeroDivisionError);
    }
    var numberOfWindows := NumberOfWindows(|valuesAboveThreshold|, s);
    var windowLabels := new int[numberOfWindows](_ => 0);
    for iwin := 0 to numberOfWindows
      invariant forall k :: 0 <= k < iwin ==> windowLabels[k] == Label(above, s, k)
      invariant forall k :: iwin <= k < numberOfWindows ==> windowLabels[k] == 0
    {
      if iwin == numberOfWindows {
        // The range never reaches number_of_windows.
        assert false;
      } else {
        var winStart := iwin * s;
        var winStop := (iwin + 1) * s;
        var m := Mean(PySlice(valuesAboveThreshold, winStart, winStop));
        if m.Num? && m.x >= 0.5 {
          windowLabels[iwin] := 1;
        }
      }
    }
    return Ok(windowLabels);
  }

  /** Indicators of a slice are the slice of the indicators. */
  lemma SliceIndicators(above: seq<bool>, a: nat, b: nat)
    requires a <= b <= |above|
    ensures Indicators(above)[a..b] == Indicators(above[a..b])
  {
  }

  /** The indicators sum to the number of samples above the threshold. */
  lemma {:induction false} SumOfIndicators(above: seq<bool>)
    ensures Sum(Indicators(above)) == Count(above, true) as real
  {
    if above != [] {
      var init := above[..|above| - 1];
      assert Indicators(above)[..|above| - 1] == Indicators(init);
      SumOfIndicators(init);
    }
  }

  /** Window k of the labels starts inside the samples. */
  lemma LabelWindowStarts(n: nat, s: nat, k: nat)
    requires s > 0 && k < NumberOfWindows(n, s)
    ensures k * s < n
  {
    WindowCountRounds(n, s);
    var t := (2 * n + s) / (2 * s);
    DivBounds(2 * n + s, 2 * s);
    MulMonotone(2 * s, k + 1, t);
    assert (2 * s) * (k + 1) == 2 * (k * s) + 2 * s;
  }

  /** Window k covers samples [k·s, (k+1)·s) clipped to the samples, is never
      empty, and is labelled 1 exactly when at least half of its samples are
      above the threshold. */
  lemma LabelMajority(above: seq<bool>, s: nat, k: nat)
    requires s > 0 && k < NumberOfWindows(|above|, s)
    ensures k * s < |above| && k * s < (k + 1) * s
    ensures var win := PySlice(above, k * s, (k + 1) * s);
            win == above[k * s..IntMin((k + 1) * s, |above|)] && win != [] &&
            (Label(above, s, k) == 1 <==> 2 * Count(win, true) >= |win|)
  {
    LabelWindowStarts(|above|, s, k);
    var a, e := k * s, (k + 1) * s;
    assert a < e by {
      assert e == a + s;
    }
    ClippedSlice(above, a, e);
    ClippedSlice(Indicators(above), a, e);
    var win := above[a..IntMin(e, |above|)];
    SliceIndicators(above, a, IntMin(e, |above|));
    MajorityMean(win);
  }

  /** A slice that starts inside the sequence and does not end before it
      starts: the clipped interval, never empty. */
  lemma ClippedSlice<T>(x: seq<T>, a: int, e: int)
    requires 0 <= a < e && a < |x|
    ensures a <= IntMin(e, |x|) && PySlice(x, a, e) == x[a..IntMin(e, |x|)] && PySlice(x, a, e) != []
  {
  }

  /** The mean of a window's indicators is at least 0.5 exactly when at least
      half of its samples are above the threshold. */
  lemma MajorityMean(win: seq<bool>)
    requires win != []
    ensures Mean(Indicators(win)).Num?
    ensures Mean(Indicators(win)).x >= 0.5 <==> 2 * Count(win, true) >= |win|
  {
    SumOfIndicators(win);
    var m := Mean(Indicators(win)).x;
    var n := |win| as real;
    var c := Count(win, true);
    assert m * n == c as real;
    HalfCompare(m, n, c, |win|);
  }

  lemma HalfCompare(m: real, n: real, c: int, len: int)
    requires len > 0 && n == len as real && m * n == c as real
    ensures m >= 0.5 <==> 2 * c >= len
  {
    if m >= 0.5 {
      MulMonotoneReal(0.5, m, n);
      assert 0.5 * n <= c as real;
    } else {
      MulStrictReal(m, 0.5, n);
      assert c as real < 0.5 * n;
    }
  }

  lemma MulMonotoneReal(a: real, b: real, n: real)
    requires a <= b && n >= 0.0
    ensures a * n <= b * n
  {
  }

  lemma MulStrictReal(a: real, b: real, n: real)
    requires a < b && n > 0.0
    ensures a * n < b * n
  {
  }
}
