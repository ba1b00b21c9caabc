/** classifiers/hand_movement_features.py: per 3-second window, the hand
    movement amplitude (the RMS of the vector magnitude of the three 0.25-3.5 Hz
    channels) and its smoothness (the jerk ratio of that magnitude). The
    band-pass filter is not part of this model: the loop receives the filtered
    frame. */
module HandMovementFeatures {
  import opened Numerics
  import opened Frames
  import opened Windowing
  import opened SignalFeatures
  import opened FeatureTables
  import opened Amplitude

  /** `bp_headers`: the only columns the computation keeps. */
  const MovementAxes: Axes := Axes("x_bp_filt_[0.25, 3.5]", "y_bp_filt_[0.25, 3.5]", "z_bp_filt_[0.25, 3.5]")

  /** `jerk_metric(window, fs, ['mag'])`, read back from its one column
      `mag_jerk_ratio`. */
  function MagnitudeJerk(g: Frame, fs: real): Outcome<Value>
    requires "mag" in g.columns
  {
    JerkRatio(g.columns["mag"], fs)
  }

  /** Amplitude and jerk of one window; the jerk of an empty window raises. */
  function WindowMovement(sqrt: real -> real, g: Frame, fs: real): Outcome<(Value, Value)>
    requires g.Valid() && MovementAxes.In(g)
  {
    var mag := MagnitudeOf(sqrt, g, MovementAxes);
    match JerkRatio(mag, fs)
    case Raised(e) => Raised(e)
    case Ok(j) => Ok((RootMeanSquare(sqrt, mag), j))
  }

  function MovementWindows(sqrt: real -> real, g: Frame, ws: nat, fs: real): (outs: seq<Outcome<(Value, Value)>>)
    requires g.Valid() && MovementAxes.In(g) && ws > 0
    ensures |outs| == WindowCount(g.height, ws)
    ensures forall w :: 0 <= w < |outs| ==> outs[w] == WindowMovement(sqrt, WindowFrame(g, ws, w), fs)
  {
    var total := WindowCount(g.height, ws);
    seq(total, w requires 0 <= w < total => WindowMovement(sqrt, WindowFrame(g, ws, w), fs))
  }

  /** The two lists the loop builds from the per-window pairs. */
  function Unzip(ps: seq<(Value, Value)>): (r: (seq<Value>, seq<Value>))
    ensures |r.0| == |ps| && |r.1| == |ps|
    ensures forall i :: 0 <= i < |ps| ==> r.0[i] == ps[i].0 && r.1[i] == ps[i].1
  {
    (seq(|ps|, i requires 0 <= i < |ps| => ps[i].0), seq(|ps|, i requires 0 <= i < |ps| => ps[i].1))
  }

  lemma UnzipAppend(ps: seq<(Value, Value)>, p: (Value, Value))
    ensures Unzip(ps + [p]).0 == Unzip(ps).0 + [p.0] && Unzip(ps + [p]).1 == Unzip(ps).1 + [p.1]
  {
  }

  /** `calculate_amplitude_and_smoothness_features` on the filtered frame with
      `window_samples = fs * 3.0`: selecting the channels raises KeyError for a
      missing one, a zero window length makes the division raise, and the
      first window whose jerk raises ends the loop. */
  function MovementFeatures(sqrt: real -> real, f: Frame, ws: nat, fs: real): Outcome<(seq<Value>, seq<Value>)>
    requires f.Valid() && ws as real == 3.0 * fs
  {
    if !MovementAxes.In(f) then Raised(KeyError)
    else if ws == 0 then Raised(ZeroDivisionError)
    else
      match Collect(MovementWindows(sqrt, Selected(f, MovementAxes), ws, fs))
      case Raised(e) => Raised(e)
      case Ok(ps) => Ok(Unzip(ps))
  }

  method CalculateAmplitudeAndSmoothness(sqrt: real -> real, f: Frame, ws: nat, fs: real)
    returns (r: Outcome<(seq<Value>, seq<Value>)>)
    requires f.Valid() && ws as real == 3.0 * fs
    ensures r == MovementFeatures(sqrt, f, ws, fs)
  {
    var channels := MovementAxes.Headers();
    AxesPresent(f, MovementAxes);
    if !f.Has(channels) {
      return Raised(KeyError);
    }
    var filtered := Select(f, channels);
    assert filtered == Selected(f, MovementAxes);
    var amplitudes: seq<Value> := [];
    var jerks: seq<Value> := [];
    if ws == 0 {
      return Raised(ZeroDivisionError);
    }
    var totalWindows := WindowCount(filtered.height, ws);
    ghost var outs := MovementWindows(sqrt, filtered, ws, fs);
    ghost var pairs: seq<(Value, Value)> := [];
    for w := 0 to totalWindows
      invariant |pairs| == w && CollectedPrefix(outs, pairs)
      invariant amplitudes == Unzip(pairs).0 && jerks == Unzip(pairs).1
    {
      var window := WindowFrame(filtered, ws, w);
      var combined, jerk := ComputeWindowMovement(sqrt, window, fs);
      amplitudes := amplitudes + [combined];
      if jerk.Raised? {
        CollectFirstRaised(outs, w);
        return Raised(jerk.error);
      }
      jerks := jerks + [jerk.value];
      CollectedSoFar(outs, pairs, (combined, jerk.value));
      UnzipAppend(pairs, (combined, jerk.value));
      pairs := pairs + [(combined, jerk.value)];
    }
    CollectAllOk(outs, pairs);
    r := Ok((amplitudes, jerks));
  }

  /** The loop body: `mag`, its RMS, then its jerk ratio. */
  method ComputeWindowMovement(sqrt: real -> real, window: Frame, fs: real) returns (combined: Value, jerk: Outcome<Value>)
    requires window.Valid() && MovementAxes.In(window)
    ensures jerk.Raised? ==> WindowMovement(sqrt, window, fs) == Raised(jerk.error)
    ensures jerk.Ok? ==> WindowMovement(sqrt, window, fs) == Ok((combined, jerk.value))
  {
    var g := AddMagnitude(sqrt, window, MovementAxes);
    combined := RootMeanSquare(sqrt, g.columns["mag"]);
    jerk := MagnitudeJerk(g, fs);
  }

  // ---------------------------------------------------------------------------
  // What the two lists hold

  /** `jerk_metric` on the `mag` column alone: a one-column table named
      `mag_jerk_ratio`, whatever the routines it does not use. */
  lemma MagnitudeJerkTable(ext: Externals, g: Frame, fs: real)
    requires "mag" in g.columns && fs != 0.0
    ensures FeatureTable(ext, Jerk(fs), g, ["mag"]).Raised? <==> MagnitudeJerk(g, fs).Raised?
    ensures MagnitudeJerk(g, fs).Raised? ==> FeatureTable(ext, Jerk(fs), g, ["mag"]).error == MagnitudeJerk(g, fs).error
    ensures MagnitudeJerk(g, fs).Ok? ==>
              FeatureTable(ext, Jerk(fs), g, ["mag"]) == Ok([Column("mag_jerk_ratio", MagnitudeJerk(g, fs).value)])
  {
    var values := ValuesOf(ext, Jerk(fs), g);
    var channels := ["mag"];
    assert channels[..0] == [];
    assert values("mag") == Single(JerkRatio(g.columns["mag"], fs));
    if MagnitudeJerk(g, fs).Ok? {
      var cells := Cells("mag", ["_jerk_ratio"], [MagnitudeJerk(g, fs).value]);
      assert ColumnName("mag", "_jerk_ratio") == "mag_jerk_ratio";
      assert cells == [Column("mag_jerk_ratio", MagnitudeJerk(g, fs).value)];
      assert SetColumns([], cells) == cells;
    }
  }

  /** The loop fails, apart from a missing channel or a zero window length,
      only on an empty window; with at least three samples per window it
      never does. */
  lemma MovementOutcome(sqrt: real -> real, f: Frame, ws: nat, fs: real)
    requires f.Valid() && ws as real == 3.0 * fs
    ensures MovementFeatures(sqrt, f, ws, fs).Ok? <==>
              MovementAxes.In(f) && ws > 0 && forall w :: 0 <= w < WindowCount(f.height, ws) ==> WindowSize(f.height, ws, w) > 0
    ensures MovementAxes.In(f) && ws > 0 && MovementFeatures(sqrt, f, ws, fs).Raised? ==>
              MovementFeatures(sqrt, f, ws, fs).error == ValueError
    ensures MovementAxes.In(f) && ws >= 3 ==> MovementFeatures(sqrt, f, ws, fs).Ok?
  {
    if MovementAxes.In(f) && ws > 0 {
      var g := Selected(f, MovementAxes);
      var outs := MovementWindows(sqrt, g, ws, fs);
      forall w | 0 <= w < WindowCount(f.height, ws)
        ensures outs[w].Ok? <==> WindowSize(f.height, ws, w) > 0
        ensures outs[w].Raised? ==> outs[w].error == ValueError
      {
        WindowMagnitude(sqrt, f, MovementAxes, ws, w);
      }
      if ws >= 3 {
        forall w | 0 <= w < WindowCount(f.height, ws)
          ensures WindowSize(f.height, ws, w) > 0
        {
          NonEmptyWindow(f.height, ws, w);
        }
      }
    }
  }

  /** Two lists of one entry per window, in window order. Window w's amplitude
      is a non-negative number whose square is the window mean of x² + y² + z²
      over the stream's samples of the window, and its jerk is the jerk ratio
      of their magnitude, never negative. */
  lemma MovementFeaturesAt(sqrt: real -> real, f: Frame, ws: nat, fs: real, w: nat)
    requires IsSqrt(sqrt) && f.Valid() && ws as real == 3.0 * fs && MovementFeatures(sqrt, f, ws, fs).Ok?
    requires w < WindowCount(f.height, ws)
    ensures |MovementFeatures(sqrt, f, ws, fs).value.0| == WindowCount(f.height, ws)
    ensures |MovementFeatures(sqrt, f, ws, fs).value.1| == WindowCount(f.height, ws)
    ensures var x, y, z := WindowSamples(f, ws, w, MovementAxes.x), WindowSamples(f, ws, w, MovementAxes.y),
              WindowSamples(f, ws, w, MovementAxes.z);
            var a := MovementFeatures(sqrt, f, ws, fs).value.0[w];
            var j := MovementFeatures(sqrt, f, ws, fs).value.1[w];
            x != [] && a.Num? && a.x >= 0.0 && Sq(a.x) == Mean(SquaredNorms(x, y, z)).x &&
            Ok(j) == JerkRatio(Magnitude(sqrt, x, y, z), fs) && (j.Num? ==> j.x >= 0.0)
  {
    var x, y, z := WindowSamples(f, ws, w, MovementAxes.x), WindowSamples(f, ws, w, MovementAxes.y),
      WindowSamples(f, ws, w, MovementAxes.z);
    WindowMagnitude(sqrt, f, MovementAxes, ws, w);
    var outs := MovementWindows(sqrt, Selected(f, MovementAxes), ws, fs);
    assert outs[w].Ok?;
    CombinedAmplitude(sqrt, x, y, z);
    JerkNonnegative(Magnitude(sqrt, x, y, z), fs);
  }
}
