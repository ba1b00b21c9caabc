/** classifiers/resting_tremor_amplitude_classifier.py: the tremor amplitude of
    every 3-second window, the root mean square of the vector magnitude of the
    three 3.5-7.5 Hz channels. The band-pass filter is not part of this model:
    the loop receives the filtered frame. */
module RestingTremorAmplitude {
  import opened Numerics
  import opened Frames
  import opened Windowing
  import opened SignalFeatures
  import opened Amplitude

  /** `bp_headers`: the only columns the computation keeps. */
  const TremorAxes: Axes := Axes("x_bp_filt_[3.5, 7.5]", "y_bp_filt_[3.5, 7.5]", "z_bp_filt_[3.5, 7.5]")

  /** The amplitude of one window: `compute_rms` of its `mag` column. */
  function WindowAmplitude(sqrt: real -> real, g: Frame): Value
    requires g.Valid() && TremorAxes.In(g)
  {
    RootMeanSquare(sqrt, MagnitudeOf(sqrt, g, TremorAxes))
  }

  /** The amplitude of every window of g, in window order. */
  function WindowAmplitudes(sqrt: real -> real, g: Frame, ws: nat): (a: seq<Value>)
    requires g.Valid() && TremorAxes.In(g) && ws > 0
    ensures |a| == WindowCount(g.height, ws)
    ensures forall w :: 0 <= w < |a| ==> a[w] == WindowAmplitude(sqrt, WindowFrame(g, ws, w))
  {
    var total := WindowCount(g.height, ws);
    seq(total, w requires 0 <= w < total => WindowAmplitude(sqrt, WindowFrame(g, ws, w)))
  }

  /** `calculate_tremor_amplitude` on the filtered frame with `window_samples =
      fs * 3.0`: selecting the channels raises KeyError for a missing one, a
      zero window length makes the division raise, and otherwise every window
      gets its amplitude, in window order. */
  function TremorAmplitudes(sqrt: real -> real, f: Frame, ws: nat, fs: real): Outcome<seq<Value>>
    requires f.Valid() && ws as real == 3.0 * fs
  {
    if !TremorAxes.In(f) then Raised(KeyError)
    else if ws == 0 then Raised(ZeroDivisionError)
    else Ok(WindowAmplitudes(sqrt, Selected(f, TremorAxes), ws))
  }

  method CalculateTremorAmplitude(sqrt: real -> real, f: Frame, ws: nat, fs: real) returns (r: Outcome<seq<Value>>)
    requires f.Valid() && ws as real == 3.0 * fs
    ensures r == TremorAmplitudes(sqrt, f, ws, fs)
  {
    var channels := TremorAxes.Headers();
    AxesPresent(f, TremorAxes);
    if !f.Has(channels) {
      return Raised(KeyError);
    }
    var filtered := Select(f, channels);
    assert filtered == Selected(f, TremorAxes);
    var amplitudes: seq<Value> := [];
    if ws == 0 {
      return Raised(ZeroDivisionError);
    }
    var totalWindows := WindowCount(filtered.height, ws);
    ghost var all := WindowAmplitudes(sqrt, filtered, ws);
    for w := 0 to totalWindows
      invariant amplitudes == all[..w]
    {
      var window := WindowFrame(filtered, ws, w);
      window := AddMagnitude(sqrt, window, TremorAxes);
      var combined := RootMeanSquare(sqrt, window.columns["mag"]);
      assert all[..w + 1] == all[..w] + [combined];
      amplitudes := amplitudes + [combined];
    }
    assert all[..totalWindows] == all;
    r := Ok(amplitudes);
  }

  /** One amplitude per window. That of window w, on the stream's samples x, y,
      z of the window, is NaN when the window is empty, and otherwise a
      non-negative number whose square is the window mean of x² + y² + z². */
  lemma TremorAmplitudeAt(sqrt: real -> real, f: Frame, ws: nat, fs: real, w: nat)
    requires IsSqrt(sqrt) && f.Valid() && ws as real == 3.0 * fs && TremorAmplitudes(sqrt, f, ws, fs).Ok?
    requires w < WindowCount(f.height, ws)
    ensures |TremorAmplitudes(sqrt, f, ws, fs).value| == WindowCount(f.height, ws)
    ensures var x, y, z := WindowSamples(f, ws, w, TremorAxes.x), WindowSamples(f, ws, w, TremorAxes.y),
              WindowSamples(f, ws, w, TremorAxes.z);
            var a := TremorAmplitudes(sqrt, f, ws, fs).value[w];
            a == RootMeanSquare(sqrt, Magnitude(sqrt, x, y, z)) &&
            (x == [] ==> a == NaN) &&
            (x != [] ==> a.Num? && a.x >= 0.0 && Sq(a.x) == Mean(SquaredNorms(x, y, z)).x)
  {
    WindowMagnitude(sqrt, f, TremorAxes, ws, w);
    CombinedAmplitude(sqrt, WindowSamples(f, ws, w, TremorAxes.x), WindowSamples(f, ws, w, TremorAxes.y),
      WindowSamples(f, ws, w, TremorAxes.z));
  }

  /** A window in which the sensor is still on every axis has amplitude 0. */
  lemma StillWindow(sqrt: real -> real, f: Frame, ws: nat, fs: real, w: nat)
    requires IsSqrt(sqrt) && f.Valid() && ws as real == 3.0 * fs && TremorAmplitudes(sqrt, f, ws, fs).Ok?
    requires w < WindowCount(f.height, ws) && WindowSize(f.height, ws, w) > 0
    requires forall k :: 0 <= k < WindowSize(f.height, ws, w) ==>
               WindowSamples(f, ws, w, TremorAxes.x)[k] == 0.0 && WindowSamples(f, ws, w, TremorAxes.y)[k] == 0.0 &&
               WindowSamples(f, ws, w, TremorAxes.z)[k] == 0.0
    ensures TremorAmplitudes(sqrt, f, ws, fs).value[w] == Num(0.0)
  {
    TremorAmplitudeAt(sqrt, f, ws, fs, w);
    ZeroAmplitude(sqrt, WindowSamples(f, ws, w, TremorAxes.x), WindowSamples(f, ws, w, TremorAxes.y),
      WindowSamples(f, ws, w, TremorAxes.z));
  }
}
