/** The window features of features/signal_features.py. Each feature function
    walks a list of channels and adds one column per channel (five for the
    dominant frequency, one per pair for the correlation) to a fresh one-row
    table, naming it `channel + suffix`. Mean cross rate, range, range-count
    fraction and jerk ratio are modelled exactly; the routines built on
    histograms, logarithms, the FFT or foreign statistics are parameters
    (`Externals`). */
module SignalFeatures {
  import opened Numerics
  import opened Frames

  // ---------------------------------------------------------------------------
  // Sequence helpers

  /** `x - x.mean()`. */
  function Centered(x: seq<real>): (d: seq<real>)
    ensures |d| == |x|
    ensures x != [] ==> forall i :: 0 <= i < |x| ==> d[i] == x[i] - Mean(x).x
  {
    if x == [] then [] else seq(|x|, i requires 0 <= i < |x| => x[i] - Mean(x).x)
  }

  /** `x + c`, elementwise. */
  function Shift(x: seq<real>, c: real): (y: seq<real>)
    ensures |y| == |x| && forall i :: 0 <= i < |x| ==> y[i] == x[i] + c
  {
    seq(|x|, i requires 0 <= i < |x| => x[i] + c)
  }

  lemma {:induction false} SumShift(x: seq<real>, c: real)
    ensures Sum(Shift(x, c)) == Sum(x) + |x| as real * c
  {
    if x != [] {
      var n := |x|;
      assert Shift(x, c)[..n - 1] == Shift(x[..n - 1], c);
      SumShift(x[..n - 1], c);
    }
  }

  lemma {:induction false} SumZeros(x: seq<real>)
    requires forall i :: 0 <= i < |x| ==> x[i] == 0.0
    ensures Sum(x) == 0.0
  {
    if x != [] {
      SumZeros(x[..|x| - 1]);
    }
  }

  /** The mean of a constant sequence is that constant. */
  lemma MeanConstant(x: seq<real>, c: real)
    requires x != [] && forall i :: 0 <= i < |x| ==> x[i] == c
    ensures Mean(x) == Num(c)
  {
    SumBounds(x, c, c);
    SameProduct(Mean(x).x, c, |x| as real);
  }

  /** Shifting a sequence shifts its mean. */
  lemma MeanShift(x: seq<real>, c: real)
    requires x != []
    ensures Mean(Shift(x, c)) == Num(Mean(x).x + c)
  {
    SumShift(x, c);
    var n := |x| as real;
    assert (Mean(x).x + c) * n == Mean(x).x * n + c * n;
    SameProduct(Mean(Shift(x, c)).x, Mean(x).x + c, n);
  }

  // ---------------------------------------------------------------------------
  // Mean cross rate (features/signal_features.py:203-225)

  /** Number of i in [0, n-2] at which the sign of d changes between i and i+1. */
  function Crossings(d: seq<real>): (n: nat)
    ensures d != [] ==> n <= |d| - 1
  {
    if |d| < 2 then 0
    else Crossings(d[..|d| - 1]) + (if Sign(d[|d| - 2]) != Sign(d[|d| - 1]) then 1 else 0)
  }

  /** The counting loop over consecutive sign pairs. */
  method CountCrossings(d: seq<real>) returns (mcr: nat)
    ensures mcr == Crossings(d)
  {
    mcr := 0;
    if d == [] {
      return;
    }
    var i := 0;
    while i < |d| - 1
      invariant 0 <= i <= |d| - 1
      invariant mcr == Crossings(d[..i + 1])
    {
      assert d[..i + 2][..i + 1] == d[..i + 1];
      if Sign(d[i]) != Sign(d[i + 1]) {
        mcr := mcr + 1;
      }
      i := i + 1;
    }
    assert d[..i + 1] == d;
  }

  /** `float(MCR) / len(x)` over the centred channel: Python's division of a
      builtin number by zero raises when the window is empty. */
  function MeanCrossRate(x: seq<real>): (r: Outcome<real>)
    ensures r.Raised? <==> x == []
    ensures r.Raised? ==> r.error == ZeroDivisionError
  {
    if x == [] then Raised(ZeroDivisionError)
    else Ok(Crossings(Centered(x)) as real / |x| as real)
  }

  /** `mean_cross_rate` for one channel: centre it, count the crossings, divide. */
  method ComputeMeanCrossRate(x: seq<real>) returns (r: Outcome<real>)
    ensures r == MeanCrossRate(x)
  {
    var mcr := CountCrossings(Centered(x));
    if |x| == 0 {
      return Raised(ZeroDivisionError);
    }
    r := Ok(mcr as real / |x| as real);
  }

  /** The rate lies in [0, (n-1)/n]. */
  lemma MeanCrossRateBounds(x: seq<real>)
    requires x != []
    ensures 0.0 <= MeanCrossRate(x).value <= (|x| - 1) as real / |x| as real
  {
    var k := Crossings(Centered(x));
    var n := |x| as real;
    assert k as real <= (|x| - 1) as real;
    DivideMonotone(k as real, (|x| - 1) as real, n);
  }

  lemma DivideMonotone(a: real, b: real, n: real)
    requires 0.0 <= a <= b && n > 0.0
    ensures 0.0 <= a / n <= b / n
  {
  }

  lemma {:induction false} CrossingsOfZeros(d: seq<real>)
    requires forall i :: 0 <= i < |d| ==> d[i] == 0.0
    ensures Crossings(d) == 0
  {
    if |d| >= 2 {
      CrossingsOfZeros(d[..|d| - 1]);
    }
  }

  /** A constant channel never crosses its mean: every centred value is 0. */
  lemma MeanCrossRateConstant(x: seq<real>, c: real)
    requires x != [] && forall i :: 0 <= i < |x| ==> x[i] == c
    ensures MeanCrossRate(x) == Ok(0.0)
  {
    MeanConstant(x, c);
    CrossingsOfZeros(Centered(x));
  }

  /** Adding a constant to a channel leaves its centred values, and so its mean
      cross rate, unchanged. */
  lemma MeanCrossRateShift(x: seq<real>, c: real)
    ensures MeanCrossRate(Shift(x, c)) == MeanCrossRate(x)
  {
    if x != [] {
      MeanShift(x, c);
      assert Centered(Shift(x, c)) == Centered(x);
    }
  }

  // ---------------------------------------------------------------------------
  // Range (features/signal_features.py:110-123)

  /** `x.max(skipna=True) - x.min(skipna=True)`; pandas gives NaN for an empty
      series. The result is the largest difference between two samples. */
  function RangeOf(x: seq<real>): (v: Value)
    ensures v.NaN? <==> x == []
    ensures v.Num? ==> v.x >= 0.0
    ensures v.Num? ==> forall i, j :: 0 <= i < |x| && 0 <= j < |x| ==> x[i] - x[j] <= v.x
    ensures v.Num? ==> exists i, j :: 0 <= i < |x| && 0 <= j < |x| && x[i] - x[j] == v.x
    ensures (x != [] && forall i :: 0 <= i < |x| ==> x[i] == x[0]) ==> v == Num(0.0)
  {
    if x == [] then NaN else Num(Max(x) - Min(x))
  }

  // ---------------------------------------------------------------------------
  // Range count percentage (features/signal_features.py:227-244)

  /** `range_count(x, lo, hi) * 1.0 / len(x)`: the count is a NumPy integer, so
      the division is NumPy's and an empty window gives NaN. Which samples count
      is tsfresh's test, a parameter here. */
  function RangeCountFraction(inRange: (real, real, real) -> bool, x: seq<real>, lo: real, hi: real): (v: Value)
    ensures v.NaN? <==> x == []
    ensures v.Num? ==> 0.0 <= v.x <= 1.0
    ensures v.Num? ==> v.x * |x| as real == CountWhere(x, y => inRange(y, lo, hi)) as real
  {
    if x == [] then NaN
    else
      var k := CountWhere(x, y => inRange(y, lo, hi));
      DivideMonotone(k as real, |x| as real, |x| as real);
      Num(k as real / |x| as real)
  }

  /** The membership test tsfresh documents for range_count: lo <= v < hi. */
  predicate HalfOpen(v: real, lo: real, hi: real)
  {
    lo <= v < hi
  }

  /** A window whose samples all pass the test counts fully. */
  lemma {:induction false} CountAllInRange(inRange: (real, real, real) -> bool, x: seq<real>, lo: real, hi: real)
    requires forall i :: 0 <= i < |x| ==> inRange(x[i], lo, hi)
    ensures CountWhere(x, y => inRange(y, lo, hi)) == |x|
  {
    if x != [] {
      CountAllInRange(inRange, x[..|x| - 1], lo, hi);
    }
  }

  /** A window none of whose samples passes the test counts nothing. */
  lemma {:induction false} CountNoneInRange(inRange: (real, real, real) -> bool, x: seq<real>, lo: real, hi: real)
    requires forall i :: 0 <= i < |x| ==> !inRange(x[i], lo, hi)
    ensures CountWhere(x, y => inRange(y, lo, hi)) == 0
  {
    if x != [] {
      CountNoneInRange(inRange, x[..|x| - 1], lo, hi);
    }
  }

  /** Under the half-open test a window inside [lo, hi) has fraction 1, one
      outside it fraction 0; so a window sitting at lo counts and one at hi
      does not. */
  lemma HalfOpenFraction(x: seq<real>, lo: real, hi: real)
    requires x != []
    ensures (forall i :: 0 <= i < |x| ==> lo <= x[i] < hi) ==> RangeCountFraction(HalfOpen, x, lo, hi) == Num(1.0)
    ensures (forall i :: 0 <= i < |x| ==> x[i] < lo || hi <= x[i]) ==> RangeCountFraction(HalfOpen, x, lo, hi) == Num(0.0)
  {
    if forall i :: 0 <= i < |x| ==> lo <= x[i] < hi {
      CountAllInRange(HalfOpen, x, lo, hi);
    }
    if forall i :: 0 <= i < |x| ==> x[i] < lo || hi <= x[i] {
      CountNoneInRange(HalfOpen, x, lo, hi);
    }
  }

  /** The gait range-count bounds: a sample at -0.1 is in range, one at 0.1 is not. */
  lemma HalfOpenGaitEnds()
    ensures RangeCountFraction(HalfOpen, [-0.1], -0.1, 0.1) == Num(1.0)
    ensures RangeCountFraction(HalfOpen, [0.1], -0.1, 0.1) == Num(0.0)
  {
    HalfOpenFraction([-0.1], -0.1, 0.1);
    HalfOpenFraction([0.1], -0.1, 0.1);
  }

  // ---------------------------------------------------------------------------
  // Jerk ratio (features/signal_features.py:246-272)

  function Id(v: real): real
  {
    v
  }

  /** v squared. The second factor goes through Id so that the solver treats the
      square as a product of two terms, which its linear reasoning can carry. */
  function Sq(v: real): real
  {
    v * Id(v)
  }

  lemma SquarePositive(v: real)
    requires v != 0.0
    ensures Sq(v) > 0.0
  {
    if v < 0.0 {
      PositiveProduct(-v, -Id(v));
      assert (-v) * (-Id(v)) == Sq(v);
    } else {
      PositiveProduct(v, Id(v));
    }
  }

  lemma SquareNonnegative(v: real)
    ensures Sq(v) >= 0.0
  {
    if v != 0.0 {
      SquarePositive(v);
    }
  }

  lemma PositiveProduct(a: real, b: real)
    requires a > 0.0 && b > 0.0
    ensures a * b > 0.0
  {
  }

  /** `max(abs(series))`, folded from the left as builtin max does. */
  function Amplitude(x: seq<real>): real
    requires x != []
  {
    if |x| == 1 then Abs(x[0])
    else
      var a := Amplitude(x[..|x| - 1]);
      if Abs(x[|x| - 1]) > a then Abs(x[|x| - 1]) else a
  }

  /** The amplitude is the largest absolute sample: it bounds every sample and
      some sample attains it. */
  lemma {:induction false} AmplitudeIsMax(x: seq<real>)
    requires x != []
    ensures Amplitude(x) >= 0.0
    ensures forall i :: 0 <= i < |x| ==> Abs(x[i]) <= Amplitude(x)
    ensures exists i :: 0 <= i < |x| && Abs(x[i]) == Amplitude(x)
  {
    if |x| > 1 {
      var init := x[..|x| - 1];
      AmplitudeIsMax(init);
      assert forall i :: 0 <= i < |x| - 1 ==> init[i] == x[i];
      var k :| 0 <= k < |init| && Abs(init[k]) == Amplitude(init);
      if Abs(x[|x| - 1]) <= Amplitude(init) {
        assert Abs(x[k]) == Amplitude(x);
      }
    }
  }

  /** `((x.diff(1) / dt) ** 2).sum()`; `sum` skips the NaN that `diff` puts first. */
  function JerkSquaredSum(x: seq<real>, dt: real): real
    requires dt != 0.0
  {
    if |x| < 2 then 0.0
    else JerkSquaredSum(x[..|x| - 1], dt) + Sq((x[|x| - 1] - x[|x| - 2]) / dt)
  }

  /** Sum over i >= 1 of (x[i] - x[i-1])^2. */
  function SquaredStepSum(x: seq<real>): real
  {
    if |x| < 2 then 0.0
    else SquaredStepSum(x[..|x| - 1]) + Sq(x[|x| - 1] - x[|x| - 2])
  }

  /** `dt = 1 / fs`, the sampling period. */
  function Period(fs: real): real
    requires fs != 0.0
  {
    1.0 / fs
  }

  /** One channel of `jerk_metric`: dt = 1/fs raises for fs = 0, and builtin max
      over an empty series raises. */
  function JerkRatio(x: seq<real>, fs: real): (r: Outcome<Value>)
    ensures r.Raised? <==> fs == 0.0 || x == []
    ensures r.Raised? ==> r.error == (if fs == 0.0 then ZeroDivisionError else ValueError)
  {
    if fs == 0.0 then Raised(ZeroDivisionError)
    else if x == [] then Raised(ValueError)
    else
      var dt := Period(fs);
      Ok(JerkFromParts(|x|, dt, Amplitude(x), JerkSquaredSum(x, dt)))
  }

  /** The arithmetic of `jerk_metric` after the sums; the final division is
      NumPy's, so a zero scale gives NaN (the mean squared jerk is then 0 too). */
  function JerkFromParts(n: nat, dt: real, amplitude: real, jerkSquaredSum: real): Value
    requires n > 0 && dt != 0.0
  {
    var duration := n as real * dt;
    NonzeroProduct(n as real, dt);
    var scale := 360.0 * Sq(amplitude) / duration;
    var meanSquaredJerk := jerkSquaredSum * dt / (duration * 2.0);
    if scale == 0.0 then NaN else Num(meanSquaredJerk / scale)
  }

  lemma NonzeroProduct(a: real, b: real)
    requires a != 0.0 && b != 0.0
    ensures a * b != 0.0
  {
  }

  lemma NonzeroQuotient(p: real, d: real)
    requires p != 0.0 && d != 0.0
    ensures p / d != 0.0
  {
    assert p / d * d == p;
  }

  /** The scale is zero exactly when the amplitude is. */
  lemma ScaleZero(a: real, d: real)
    requires d != 0.0
    ensures 360.0 * Sq(a) / d == 0.0 <==> a == 0.0
  {
    if a != 0.0 {
      SquarePositive(a);
      NonzeroQuotient(360.0 * Sq(a), d);
    }
  }

  /** The ratio is NaN exactly when every sample of the channel is 0. */
  lemma JerkNaN(x: seq<real>, fs: real)
    requires fs != 0.0 && x != []
    ensures JerkRatio(x, fs).value.NaN? <==> Amplitude(x) == 0.0
    ensures JerkRatio(x, fs).value.NaN? <==> forall i :: 0 <= i < |x| ==> x[i] == 0.0
  {
    var dt := Period(fs);
    PartsNaN(|x|, dt, Amplitude(x), JerkSquaredSum(x, dt));
    AmplitudeZero(x);
  }

  lemma PartsNaN(n: nat, dt: real, a: real, s: real)
    requires n > 0 && dt != 0.0
    ensures JerkFromParts(n, dt, a, s).NaN? <==> a == 0.0
  {
    NonzeroProduct(n as real, dt);
    ScaleZero(a, n as real * dt);
  }

  /** The amplitude is 0 exactly when every sample is. */
  lemma AmplitudeZero(x: seq<real>)
    requires x != []
    ensures Amplitude(x) == 0.0 <==> forall i :: 0 <= i < |x| ==> x[i] == 0.0
  {
    AmplitudeIsMax(x);
    if Amplitude(x) != 0.0 {
      var i :| 0 <= i < |x| && Abs(x[i]) == Amplitude(x);
      assert x[i] != 0.0;
    }
  }

  /** The parts in closed form: the duration cancels out. */
  lemma PartsClosedForm(n: nat, dt: real, a: real, s: real)
    requires n > 0 && dt != 0.0 && a != 0.0
    ensures JerkFromParts(n, dt, a, s) == Num(s * dt / (720.0 * Sq(a)))
  {
    var d := n as real * dt;
    NonzeroProduct(n as real, dt);
    var a2 := Sq(a);
    SquarePositive(a);
    ScaleZero(a, d);
    NonzeroProduct(360.0, a2);
    DivideFractions(s * dt, d * 2.0, 360.0 * a2, d);
    assert (d * 2.0) * (360.0 * a2) == (720.0 * a2) * d;
    CancelCommon(s * dt, 720.0 * a2, d);
  }

  lemma DivideFractions(p: real, q: real, r: real, t: real)
    requires q != 0.0 && r != 0.0 && t != 0.0
    ensures (p / q) / (r / t) == (p * t) / (q * r)
  {
  }

  lemma CancelCommon(p: real, q: real, k: real)
    requires q != 0.0 && k != 0.0
    ensures (p * k) / (q * k) == p / q
  {
  }

  lemma SquareOfQuotient(d: real, fs: real)
    requires fs != 0.0
    ensures Sq(d / (Period(fs))) == Sq(fs) * Sq(d)
  {
    assert d / Period(fs) == d * fs;
  }

  /** The sum of squared jerks is fs squared times the sum of squared steps q. */
  lemma {:induction false} JerkSquaredSumIs(x: seq<real>, fs: real, q: real)
    requires fs != 0.0 && q == SquaredStepSum(x)
    ensures JerkSquaredSum(x, Period(fs)) == Sq(fs) * q
  {
    if |x| >= 2 {
      var init := x[..|x| - 1];
      JerkSquaredSumIs(init, fs, SquaredStepSum(init));
      SquareOfQuotient(x[|x| - 1] - x[|x| - 2], fs);
    }
  }

  lemma RateCancel(fs: real, q: real)
    requires fs != 0.0
    ensures Sq(fs) * q * (Period(fs)) == fs * q
  {
    assert fs * Period(fs) == 1.0;
    assert Sq(fs) * q * Period(fs) == fs * q * (fs * Period(fs));
  }

  /** fs times the sum of squared steps q, over 720 times the squared amplitude a. */
  function ClosedFormJerk(fs: real, q: real, a: real): real
    requires a != 0.0
  {
    SquarePositive(a);
    fs * q / (720.0 * Sq(a))
  }

  /** The jerk ratio in closed form: fs times the sum of squared successive
      differences, over 720 times the squared amplitude. The window duration does
      not appear. */
  lemma JerkClosedForm(x: seq<real>, fs: real)
    requires fs != 0.0 && x != [] && Amplitude(x) != 0.0
    ensures JerkRatio(x, fs) == Ok(Num(ClosedFormJerk(fs, SquaredStepSum(x), Amplitude(x))))
  {
    var a, q := Amplitude(x), SquaredStepSum(x);
    JerkRatioScaled(x, fs, q);
    RateClosedForm(|x|, fs, a, q);
  }

  /** The ratio in terms of the squared steps q of the samples themselves. */
  lemma JerkRatioScaled(x: seq<real>, fs: real, q: real)
    requires fs != 0.0 && x != [] && q == SquaredStepSum(x)
    ensures JerkRatio(x, fs) == Ok(JerkFromParts(|x|, Period(fs), Amplitude(x), Sq(fs) * q))
  {
    JerkSquaredSumIs(x, fs, q);
  }

  lemma RateClosedForm(n: nat, fs: real, a: real, q: real)
    requires n > 0 && fs != 0.0 && a != 0.0
    ensures JerkFromParts(n, Period(fs), a, Sq(fs) * q) == Num(ClosedFormJerk(fs, q, a))
  {
    var dt, s := Period(fs), Sq(fs) * q;
    PartsClosedForm(n, dt, a, s);
    RateCancel(fs, q);
    SquarePositive(a);
    SameQuotient(s * dt, fs * q, 720.0 * Sq(a));
  }

  lemma SameQuotient(p: real, q: real, d: real)
    requires p == q && d != 0.0
    ensures p / d == q / d
  {
  }

  lemma {:induction false} SquaredStepSumNonnegative(x: seq<real>)
    ensures SquaredStepSum(x) >= 0.0
  {
    if |x| >= 2 {
      SquaredStepSumNonnegative(x[..|x| - 1]);
      SquareNonnegative(x[|x| - 1] - x[|x| - 2]);
    }
  }

  lemma QuotientNonnegative(p: real, q: real)
    requires p >= 0.0 && q > 0.0
    ensures p / q >= 0.0
  {
  }

  lemma NonnegativeProduct(a: real, b: real)
    requires a > 0.0 && b >= 0.0
    ensures a * b >= 0.0
  {
  }

  /** For a positive sampling rate the jerk ratio is never negative. */
  lemma JerkNonnegative(x: seq<real>, fs: real)
    requires fs > 0.0 && x != []
    ensures JerkRatio(x, fs).value.Num? ==> JerkRatio(x, fs).value.x >= 0.0
  {
    var a := Amplitude(x);
    if a != 0.0 {
      JerkClosedForm(x, fs);
      SquaredStepSumNonnegative(x);
      NonnegativeProduct(fs, SquaredStepSum(x));
      SquarePositive(a);
      PositiveProduct(720.0, Sq(a));
      QuotientNonnegative(fs * SquaredStepSum(x), 720.0 * Sq(a));
    }
  }

  /** The channel x with every sample multiplied by c (a change of unit). */
  function Scale(x: seq<real>, c: real): (y: seq<real>)
    ensures |y| == |x|
  {
    if x == [] then [] else Scale(x[..|x| - 1], c) + [c * x[|x| - 1]]
  }

  lemma ScaleLast(x: seq<real>, c: real)
    requires x != []
    ensures Scale(x, c)[..|x| - 1] == Scale(x[..|x| - 1], c)
    ensures Scale(x, c)[|x| - 1] == c * x[|x| - 1]
  {
  }

  lemma AbsProduct(c: real, v: real)
    ensures Abs(c * v) == Abs(c) * Abs(v)
  {
  }

  lemma SameScaled(k: real, v: real, m: real, kv: real)
    requires m == v && kv == k * v
    ensures kv == k * m
  {
  }

  lemma {:induction false} ScaleIndex(x: seq<real>, c: real, i: int)
    requires 0 <= i < |x|
    ensures Scale(x, c)[i] == c * x[i]
  {
    ScaleLast(x, c);
    if i < |x| - 1 {
      ScaleIndex(x[..|x| - 1], c, i);
    }
  }

  lemma MulMonotone(k: real, a: real, b: real)
    requires k >= 0.0 && a <= b
    ensures k * a <= k * b
  {
  }

  lemma AbsOfScaled(x: seq<real>, c: real, i: int)
    requires 0 <= i < |x|
    ensures Abs(Scale(x, c)[i]) == Abs(c) * Abs(x[i])
  {
    ScaleIndex(x, c, i);
    AbsProduct(c, x[i]);
  }

  /** A bound m on the absolute samples, scaled by |c|, bounds the scaled ones. */
  lemma ScaledBound(x: seq<real>, c: real, m: real)
    requires forall i :: 0 <= i < |x| ==> Abs(x[i]) <= m
    ensures forall i :: 0 <= i < |x| ==> Abs(Scale(x, c)[i]) <= Abs(c) * m
  {
    forall i | 0 <= i < |x|
      ensures Abs(Scale(x, c)[i]) <= Abs(c) * m
    {
      assert Abs(x[i]) <= m;
      AbsOfScaled(x, c, i);
      MulMonotone(Abs(c), Abs(x[i]), m);
      assert Abs(Scale(x, c)[i]) == Abs(c) * Abs(x[i]) <= Abs(c) * m;
    }
  }

  lemma ScaledAttains(x: seq<real>, c: real, m: real, j: int)
    requires 0 <= j < |x| && Abs(x[j]) == m
    ensures Abs(Scale(x, c)[j]) == Abs(c) * m
  {
    AbsOfScaled(x, c, j);
    SameScaled(Abs(c), Abs(x[j]), m, Abs(Scale(x, c)[j]));
  }

  /** A bound on the absolute samples that some sample attains is the amplitude. */
  lemma AmplitudeIs(x: seq<real>, m: real, j: int)
    requires 0 <= j < |x| && Abs(x[j]) == m
    requires forall i :: 0 <= i < |x| ==> Abs(x[i]) <= m
    ensures Amplitude(x) == m
  {
    AmplitudeIsMax(x);
  }

  /** Scaling a channel by c scales its amplitude, here ax, by |c|. */
  lemma AmplitudeScale(x: seq<real>, c: real, ax: real)
    requires x != [] && ax == Amplitude(x)
    ensures Amplitude(Scale(x, c)) == Abs(c) * ax
  {
    AmplitudeIsMax(x);
    ScaledBound(x, c, ax);
    var j :| 0 <= j < |x| && Abs(x[j]) == ax;
    ScaledAttains(x, c, ax, j);
    AmplitudeIs(Scale(x, c), Abs(c) * ax, j);
  }

  lemma SquareProduct(a: real, b: real)
    ensures Sq(a * b) == Sq(a) * Sq(b)
  {
  }

  lemma SquareAbs(v: real)
    ensures Sq(Abs(v)) == Sq(v)
  {
  }

  lemma StepOfScaled(c: real, a: real, b: real, ya: real, yb: real)
    requires ya == c * a && yb == c * b
    ensures Sq(ya - yb) == Sq(c) * Sq(a - b)
  {
    assert ya - yb == c * (a - b);
  }

  lemma Distribute(k: real, q: real, r: real, s: real)
    requires q == r + s
    ensures k * q == k * r + k * s
  {
  }

  /** Scaling a channel by c scales its sum of squared steps, here q, by c^2. */
  lemma {:induction false} SquaredStepSumScale(x: seq<real>, c: real, q: real)
    requires q == SquaredStepSum(x)
    ensures SquaredStepSum(Scale(x, c)) == Sq(c) * q
  {
    if |x| >= 2 {
      var y, init := Scale(x, c), x[..|x| - 1];
      ScaleLast(x, c);
      ScaleLast(init, c);
      assert y[|x| - 2] == Scale(init, c)[|x| - 2];
      var q' := SquaredStepSum(init);
      SquaredStepSumScale(init, c, q');
      StepOfScaled(c, x[|x| - 1], x[|x| - 2], y[|x| - 1], y[|x| - 2]);
      Distribute(Sq(c), q, q', Sq(x[|x| - 1] - x[|x| - 2]));
    }
  }

  /** The closed form is unchanged when the amplitude is scaled by |k| and the
      squared steps by k^2. */
  lemma ClosedFormScale(fs: real, q: real, a: real, k: real, qk: real, ak: real)
    requires a != 0.0 && k != 0.0 && qk == Sq(k) * q && ak == Abs(k) * a
    ensures ak != 0.0
    ensures ClosedFormJerk(fs, qk, ak) == ClosedFormJerk(fs, q, a)
  {
    NonzeroProduct(Abs(k), a);
    SquareProduct(Abs(k), a);
    SquareAbs(k);
    SquarePositive(a);
    SquarePositive(k);
    assert fs * qk == Sq(k) * (fs * q);
    ScaledRatio(fs * q, Sq(a), Sq(k));
  }

  lemma ScaledRatio(p: real, q: real, k: real)
    requires q != 0.0 && k != 0.0
    ensures (k * p) / (720.0 * (k * q)) == p / (720.0 * q)
  {
    assert 720.0 * (k * q) == k * (720.0 * q);
  }

  /** The jerk ratio does not depend on the unit of the channel: scaling it by a
      nonzero c leaves the ratio unchanged. */
  lemma JerkScaleInvariant(x: seq<real>, fs: real, c: real)
    requires c != 0.0
    ensures JerkRatio(Scale(x, c), fs) == JerkRatio(x, fs)
  {
    var y := Scale(x, c);
    if fs != 0.0 && x != [] {
      var a, q := Amplitude(x), SquaredStepSum(x);
      AmplitudeScale(x, c, a);
      SquaredStepSumScale(x, c, q);
      if a != 0.0 {
        ClosedFormScale(fs, q, a, c, SquaredStepSum(y), Amplitude(y));
        JerkClosedForm(x, fs);
        JerkClosedForm(y, fs);
      } else {
        assert Amplitude(y) == 0.0;
        JerkNaN(x, fs);
        JerkNaN(y, fs);
      }
    }
  }

  lemma {:induction false} SquaredStepSumConstant(x: seq<real>, c: real)
    requires forall i :: 0 <= i < |x| ==> x[i] == c
    ensures SquaredStepSum(x) == 0.0
  {
    if |x| >= 2 {
      SquaredStepSumConstant(x[..|x| - 1], c);
      assert x[|x| - 1] - x[|x| - 2] == 0.0;
    }
  }

  /** A constant nonzero channel is perfectly smooth: its jerk ratio is 0. */
  lemma JerkConstant(x: seq<real>, fs: real, c: real)
    requires fs != 0.0 && x != [] && c != 0.0
    requires forall i :: 0 <= i < |x| ==> x[i] == c
    ensures JerkRatio(x, fs) == Ok(Num(0.0))
  {
    AmplitudeIsMax(x);
    assert Abs(x[0]) <= Amplitude(x);
    JerkClosedForm(x, fs);
    SquaredStepSumConstant(x, c);
  }
}
