/** The window amplitude both amplitude loops compute: the vector magnitude
    column `mag = sqrt(x**2 + y**2 + z**2)` and `compute_rms`, which is
    `np.sqrt(np.mean(np.square(data)))` (classifiers/hand_movement_features.py
    and classifiers/resting_tremor_amplitude_classifier.py each define it). The
    square root is NumPy's and is a parameter; the lemmas assume only that it
    returns the non-negative root of a non-negative number. */
module Amplitude {
  import opened Numerics
  import opened Frames
  import opened Windowing
  import opened SignalFeatures

  /** What the lemmas assume of np.sqrt. */
  ghost predicate IsSqrt(sqrt: real -> real)
  {
    forall v :: v >= 0.0 ==> sqrt(v) >= 0.0 && Sq(sqrt(v)) == v
  }

  /** np.square, element by element. */
  function Squares(s: seq<real>): (r: seq<real>)
    ensures |r| == |s| && forall i :: 0 <= i < |s| ==> r[i] == Sq(s[i])
  {
    seq(|s|, i requires 0 <= i < |s| => Sq(s[i]))
  }

  /** `compute_rms`: the mean of an empty window is NaN, and so is its root. */
  function RootMeanSquare(sqrt: real -> real, data: seq<real>): (v: Value)
    ensures v.NaN? <==> data == []
  {
    match Mean(Squares(data))
    case NaN => NaN
    case Num(m) => Num(sqrt(m))
  }

  /** The `mag` column: per row, the root of the sum of the squared axes. */
  function Magnitude(sqrt: real -> real, x: seq<real>, y: seq<real>, z: seq<real>): (m: seq<real>)
    requires |x| == |y| == |z|
    ensures |m| == |x|
    ensures forall i :: 0 <= i < |x| ==> m[i] == sqrt(Sq(x[i]) + Sq(y[i]) + Sq(z[i]))
  {
    seq(|x|, i requires 0 <= i < |x| => sqrt(Sq(x[i]) + Sq(y[i]) + Sq(z[i])))
  }

  /** The squared length of each row's acceleration vector. */
  function SquaredNorms(x: seq<real>, y: seq<real>, z: seq<real>): (n: seq<real>)
    requires |x| == |y| == |z|
    ensures |n| == |x|
    ensures forall i :: 0 <= i < |x| ==> n[i] >= 0.0
  {
    seq(|x|, i requires 0 <= i < |x| => SquareSum(x[i], y[i], z[i]))
  }

  function SquareSum(a: real, b: real, c: real): (s: real)
    ensures s >= 0.0
  {
    SquareNonnegative(a);
    SquareNonnegative(b);
    SquareNonnegative(c);
    Sq(a) + Sq(b) + Sq(c)
  }

  /** Squaring the magnitudes gives back the squared norms. */
  lemma MagnitudeSquares(sqrt: real -> real, x: seq<real>, y: seq<real>, z: seq<real>)
    requires IsSqrt(sqrt) && |x| == |y| == |z|
    ensures Squares(Magnitude(sqrt, x, y, z)) == SquaredNorms(x, y, z)
  {
    var m, n := Magnitude(sqrt, x, y, z), SquaredNorms(x, y, z);
    forall i | 0 <= i < |x|
      ensures Squares(m)[i] == n[i]
    {
      assert n[i] == SquareSum(x[i], y[i], z[i]) >= 0.0;
    }
  }

  /** The root mean square of a non-empty window is a number whose square is
      the mean of the squared samples, and it is never negative. */
  lemma RmsSquared(sqrt: real -> real, data: seq<real>)
    requires IsSqrt(sqrt) && data != []
    ensures RootMeanSquare(sqrt, data).Num? && RootMeanSquare(sqrt, data).x >= 0.0
    ensures Sq(RootMeanSquare(sqrt, data).x) == Mean(Squares(data)).x
  {
    var s := Squares(data);
    forall i | 0 <= i < |s|
      ensures 0.0 <= s[i] <= Max(s)
    {
      SquareNonnegative(data[i]);
    }
    MeanBounds(s, 0.0, Max(s));
  }

  /** The combined amplitude `compute_rms(mag)`: NaN for an empty window;
      otherwise non-negative, with its square the window mean of
      x² + y² + z². */
  lemma CombinedAmplitude(sqrt: real -> real, x: seq<real>, y: seq<real>, z: seq<real>)
    requires IsSqrt(sqrt) && |x| == |y| == |z|
    ensures x == [] ==> RootMeanSquare(sqrt, Magnitude(sqrt, x, y, z)) == NaN
    ensures x != [] ==> RootMeanSquare(sqrt, Magnitude(sqrt, x, y, z)).Num? && RootMeanSquare(sqrt, Magnitude(sqrt, x, y, z)).x >= 0.0
    ensures x != [] ==> Sq(RootMeanSquare(sqrt, Magnitude(sqrt, x, y, z)).x) == Mean(SquaredNorms(x, y, z)).x
  {
    if x != [] {
      MagnitudeSquares(sqrt, x, y, z);
      RmsSquared(sqrt, Magnitude(sqrt, x, y, z));
    }
  }

  /** A root whose square is 0 is 0. */
  lemma RootOfZero(r: real)
    requires Sq(r) == 0.0
    ensures r == 0.0
  {
    if r != 0.0 {
      SquarePositive(r);
    }
  }

  /** A window with no movement on any axis has amplitude 0. */
  lemma ZeroAmplitude(sqrt: real -> real, x: seq<real>, y: seq<real>, z: seq<real>)
    requires IsSqrt(sqrt) && |x| == |y| == |z| && x != []
    requires forall i :: 0 <= i < |x| ==> x[i] == 0.0 && y[i] == 0.0 && z[i] == 0.0
    ensures RootMeanSquare(sqrt, Magnitude(sqrt, x, y, z)) == Num(0.0)
  {
    MagnitudeSquares(sqrt, x, y, z);
    NormsOfRest(x, y, z);
    SqrtOfZero(sqrt);
  }

  lemma NormsOfRest(x: seq<real>, y: seq<real>, z: seq<real>)
    requires |x| == |y| == |z| && x != []
    requires forall i :: 0 <= i < |x| ==> x[i] == 0.0 && y[i] == 0.0 && z[i] == 0.0
    ensures Mean(SquaredNorms(x, y, z)) == Num(0.0)
  {
    var n := SquaredNorms(x, y, z);
    forall i | 0 <= i < |n|
      ensures n[i] == 0.0
    {
      assert n[i] == SquareSum(0.0, 0.0, 0.0);
      SquareSumOfZeros();
    }
    MeanOfZeros(n);
  }

  lemma MeanOfZeros(n: seq<real>)
    requires n != [] && forall i :: 0 <= i < |n| ==> n[i] == 0.0
    ensures Mean(n) == Num(0.0)
  {
    MeanBounds(n, 0.0, 0.0);
  }

  lemma SquareSumOfZeros()
    ensures SquareSum(0.0, 0.0, 0.0) == 0.0
  {
    assert Sq(0.0) == 0.0 * Id(0.0) == 0.0;
  }

  lemma SqrtOfZero(sqrt: real -> real)
    requires IsSqrt(sqrt)
    ensures sqrt(0.0) == 0.0
  {
    RootOfZero(sqrt(0.0));
  }

  // ---------------------------------------------------------------------------
  // The amplitude of a window of three filtered axes

  /** The names of the three filtered axes a loop keeps (`bp_headers`). */
  datatype Axes = Axes(x: string, y: string, z: string)
  {
    function Headers(): (ns: seq<string>)
      ensures |ns| == 3
    {
      [x, y, z]
    }

    /** `df[bp_headers]` finds every axis. */
    predicate In(f: Frame)
    {
      x in f.columns && y in f.columns && z in f.columns
    }
  }

  lemma AxesPresent(f: Frame, a: Axes)
    ensures f.Has(a.Headers()) <==> a.In(f)
  {
    assert a.Headers()[0] == a.x && a.Headers()[1] == a.y && a.Headers()[2] == a.z;
  }

  /** `df[bp_headers]`: the three axes alone. */
  function Selected(f: Frame, a: Axes): (g: Frame)
    requires f.Valid() && a.In(f)
    ensures g.Valid() && a.In(g) && g.height == f.height
    ensures g.columns[a.x] == f.columns[a.x] && g.columns[a.y] == f.columns[a.y] && g.columns[a.z] == f.columns[a.z]
  {
    AxesPresent(f, a);
    var g := Select(f, a.Headers());
    AxesPresent(g, a);
    g
  }

  /** The `mag` column of a frame. */
  function MagnitudeOf(sqrt: real -> real, g: Frame, a: Axes): (m: seq<real>)
    requires g.Valid() && a.In(g)
    ensures |m| == g.height
  {
    Magnitude(sqrt, g.columns[a.x], g.columns[a.y], g.columns[a.z])
  }

  /** Window w of the selected axes: its `mag` column is the magnitude of the
      stream's samples of that window. */
  lemma WindowMagnitude(sqrt: real -> real, f: Frame, a: Axes, ws: nat, w: nat)
    requires f.Valid() && a.In(f) && ws > 0 && w < WindowCount(f.height, ws)
    ensures WindowFrame(Selected(f, a), ws, w).Valid() && a.In(WindowFrame(Selected(f, a), ws, w))
    ensures MagnitudeOf(sqrt, WindowFrame(Selected(f, a), ws, w), a) ==
              Magnitude(sqrt, WindowSamples(f, ws, w, a.x), WindowSamples(f, ws, w, a.y), WindowSamples(f, ws, w, a.z))
  {
    var g := Selected(f, a);
    WindowColumn(g, ws, w, a.x);
    WindowColumn(g, ws, w, a.y);
    WindowColumn(g, ws, w, a.z);
  }

  /** The loop's first steps on a window: select the axes again and add the
      `mag` column. */
  method AddMagnitude(sqrt: real -> real, window: Frame, a: Axes) returns (g: Frame)
    requires window.Valid() && a.In(window)
    ensures g.Valid() && "mag" in g.columns && g.columns["mag"] == MagnitudeOf(sqrt, window, a)
  {
    AxesPresent(window, a);
    g := Select(window, a.Headers());
    AxesPresent(g, a);
    var mag := Magnitude(sqrt, g.columns[a.x], g.columns[a.y], g.columns[a.z]);
    g := WithColumn(g, "mag", mag);
  }
}
