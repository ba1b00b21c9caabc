/** The one-row tables that the feature functions of features/signal_features.py
    return. Each function walks its list of channels and assigns, for every
    channel, one column per suffix (five for the dominant frequency, one for the
    others) named `channel + suffix`; `correlation_coefficient` walks pairs of
    channels instead. The feature values that rest on histograms, logarithms,
    the FFT or foreign statistics come from `Externals`. */
module FeatureTables {
  import opened Numerics
  import opened Frames
  import opened SignalFeatures

  /** The five values `dominant_frequency` reports per channel, in column order. */
  datatype Spectrum = Spectrum(value: Value, magnitude: Value, ratio: Value, flatness: Value, entropy: Value)

  /** The routines this model does not define: the histogram entropy estimate,
      pandas' correlation, np.std, the IQR of statsmodels' autocovariance, the
      FFT-based spectrum summary and tsfresh's range membership test. */
  datatype Externals = Externals(
    entropy: seq<real> -> Outcome<Value>,
    correlation: (seq<real>, seq<real>) -> Value,
    deviation: seq<real> -> Value,
    iqrOfAutocovariance: seq<real> -> Outcome<Value>,
    spectrum: (seq<real>, real, real) -> Outcome<Spectrum>,
    inRange: (real, real, real) -> bool)

  /** The per-channel feature functions, with their parameters. */
  datatype Feature =
    | Entropy                                   // signal_entropy
    | Rms                                       // signal_rms
    | Range                                     // signal_range
    | IqrOfAutocovariance                       // iqr_of_autocovariance
    | DominantFrequency(fs: real, cutoff: real) // dominant_frequency
    | MeanCross                                 // mean_cross_rate
    | RangeCount(lo: real, hi: real)            // range_count_percentage
    | Jerk(fs: real)                            // jerk_metric

  /** The suffixes of the columns a feature adds per channel, in assignment order. */
  function Suffixes(feat: Feature): (ss: seq<string>)
    ensures |ss| == (if feat.DominantFrequency? then 5 else 1)
  {
    match feat
    case Entropy => ["_signal_entropy"]
    case Rms => ["_rms"]
    case Range => ["_range"]
    case IqrOfAutocovariance => ["_iqr_of_autocovariance"]
    case DominantFrequency(_, _) =>
      ["_dom_freq_value", "_dom_freq_magnitude", "_dom_freq_ratio", "_spectral_flatness", "_spectral_entropy"]
    case MeanCross => ["_mean_cross_rate"]
    case RangeCount(_, _) => ["_range_count_per"]
    case Jerk(_) => ["_jerk_ratio"]
  }

  /** Two distinct suffixes of one feature never end one another. */
  predicate PairwiseIncomparable(ss: seq<string>)
  {
    forall i, j :: 0 <= i < |ss| && 0 <= j < |ss| && i != j ==> Incomparable(ss[i], ss[j])
  }

  lemma SuffixesIncomparable(feat: Feature)
    ensures PairwiseIncomparable(Suffixes(feat))
  {
    if feat.DominantFrequency? {
      var ss := Suffixes(feat);
      forall i, j | 0 <= i < 5 && 0 <= j < 5 && i != j
        ensures Incomparable(ss[i], ss[j])
      {
        var a, b := ss[i], ss[j];
        assert a[|a| - 1] != b[|b| - 1] || a[|a| - 3] != b[|b| - 3];
      }
    }
  }

  /** The values a feature assigns for one channel's samples x, one per suffix. */
  function ChannelValues(ext: Externals, feat: Feature, x: seq<real>): (r: Outcome<seq<Value>>)
    ensures r.Ok? ==> |r.value| == |Suffixes(feat)|
  {
    match feat
    case Entropy => Single(ext.entropy(x))
    case Rms => Ok([ext.deviation(Centered(x))])
    case Range => Ok([RangeOf(x)])
    case IqrOfAutocovariance => Single(ext.iqrOfAutocovariance(x))
    case DominantFrequency(fs, cutoff) =>
      (match ext.spectrum(x, fs, cutoff)
       case Raised(e) => Raised(e)
       case Ok(s) => Ok([s.value, s.magnitude, s.ratio, s.flatness, s.entropy]))
    case MeanCross =>
      (match MeanCrossRate(x)
       case Raised(e) => Raised(e)
       case Ok(v) => Ok([Num(v)]))
    case RangeCount(lo, hi) => Ok([RangeCountFraction(ext.inRange, x, lo, hi)])
    case Jerk(fs) => Single(JerkRatio(x, fs))
  }

  function Single(r: Outcome<Value>): (s: Outcome<seq<Value>>)
    ensures s.Ok? <==> r.Ok?
    ensures s.Ok? ==> s.value == [r.value]
    ensures s.Raised? ==> s.error == r.error
  {
    match r
    case Raised(e) => Raised(e)
    case Ok(v) => Ok([v])
  }

  /** `signal_df[channel]` raises KeyError for a column the frame lacks. */
  function ChannelOutcome(ext: Externals, feat: Feature, f: Frame, c: string): (r: Outcome<seq<Value>>)
    ensures c !in f.columns ==> r == Raised(KeyError)
    ensures c in f.columns ==> r == ChannelValues(ext, feat, f.columns[c])
  {
    if c !in f.columns then Raised(KeyError) else ChannelValues(ext, feat, f.columns[c])
  }

  /** The per-channel computation of a feature on frame f. */
  function ValuesOf(ext: Externals, feat: Feature, f: Frame): (values: string -> Outcome<seq<Value>>)
    ensures Shaped(values, Suffixes(feat))
  {
    c => ChannelOutcome(ext, feat, f, c)
  }

  /** Every successful computation yields one value per suffix. */
  ghost predicate Shaped(values: string -> Outcome<seq<Value>>, ss: seq<string>)
  {
    forall c :: values(c).Ok? ==> |values(c).value| == |ss|
  }

  /** A feature function applied to a frame. Two of them can raise before the
      loop: mean_cross_rate selects all its channels at once, and jerk_metric
      computes dt = 1 / sampling_rate. */
  function FeatureTable(ext: Externals, feat: Feature, f: Frame, channels: seq<string>): Outcome<Row>
  {
    if feat.MeanCross? && !f.Has(channels) then Raised(KeyError)
    else if feat.Jerk? && feat.fs == 0.0 then Raised(ZeroDivisionError)
    else Tabulated(ValuesOf(ext, feat, f), Suffixes(feat), channels)
  }

  /** A feature function: the checks before its loop, then the loop. */
  method BuildFeatureTable(ext: Externals, feat: Feature, f: Frame, channels: seq<string>) returns (r: Outcome<Row>)
    ensures r == FeatureTable(ext, feat, f, channels)
  {
    if feat.MeanCross? && !f.Has(channels) {
      return Raised(KeyError);
    }
    if feat.Jerk? && feat.fs == 0.0 {
      return Raised(ZeroDivisionError);
    }
    if feat.MeanCross? {
      r := MeanCrossRateLoop(ext, f, channels);
    } else {
      r := Tabulate(ValuesOf(ext, feat, f), Suffixes(feat), channels);
    }
  }

  /** The loop of `mean_cross_rate`, once every channel is known to exist: per
      channel, the crossing count of the centred samples divided by their number. */
  method MeanCrossRateLoop(ext: Externals, f: Frame, channels: seq<string>) returns (r: Outcome<Row>)
    requires f.Has(channels)
    ensures r == Tabulated(ValuesOf(ext, MeanCross, f), Suffixes(MeanCross), channels)
  {
    var values := ValuesOf(ext, MeanCross, f);
    var ss := Suffixes(MeanCross);
    var row: Row := [];
    for i := 0 to |channels|
      invariant Tabulated(values, ss, channels[..i]) == Ok(row)
    {
      var c := channels[i];
      var mcr := ComputeMeanCrossRate(f.columns[c]);
      MeanCrossValues(ext, f, c);
      LoopStep(values, ss, channels, i, row);
      if mcr.Raised? {
        LoopStopsAt(values, ss, channels, i + 1);
        return Raised(mcr.error);
      }
      row := SetColumns(row, Cells(c, ss, [Num(mcr.value)]));
    }
    assert channels[..|channels|] == channels;
    r := Ok(row);
  }

  /** The per-channel values of `mean_cross_rate` are its rate, or its exception. */
  lemma MeanCrossValues(ext: Externals, f: Frame, c: string)
    requires c in f.columns
    ensures MeanCrossRate(f.columns[c]).Raised? ==>
              ValuesOf(ext, MeanCross, f)(c) == Raised(MeanCrossRate(f.columns[c]).error)
    ensures MeanCrossRate(f.columns[c]).Ok? ==>
              ValuesOf(ext, MeanCross, f)(c) == Ok([Num(MeanCrossRate(f.columns[c]).value)])
  {
  }

  // ---------------------------------------------------------------------------
  // The per-channel loop, for any per-channel computation

  /** The columns one channel contributes. */
  function Cells(c: string, ss: seq<string>, vs: seq<Value>): (cs: seq<Column>)
    requires |vs| == |ss|
    ensures |cs| == |ss|
    ensures forall j :: 0 <= j < |ss| ==> cs[j] == Column(ColumnName(c, ss[j]), vs[j])
  {
    seq(|ss|, j requires 0 <= j < |ss| => Column(ColumnName(c, ss[j]), vs[j]))
  }

  /** The loop: channels in order, each assigning its cells to the table built
      so far; the first exception ends the loop. */
  function Tabulated(values: string -> Outcome<seq<Value>>, ss: seq<string>, channels: seq<string>): Outcome<Row>
    requires Shaped(values, ss)
    decreases |channels|
  {
    if channels == [] then Ok([])
    else
      var c := channels[|channels| - 1];
      match Tabulated(values, ss, channels[..|channels| - 1])
      case Raised(e) => Raised(e)
      case Ok(row) =>
        match values(c)
        case Raised(e) => Raised(e)
        case Ok(vs) => Ok(SetColumns(row, Cells(c, ss, vs)))
  }

  /** `df = pd.DataFrame()` and, per channel, `df[channel + suffix] = [value]`. */
  method Tabulate(values: string -> Outcome<seq<Value>>, ss: seq<string>, channels: seq<string>) returns (r: Outcome<Row>)
    requires Shaped(values, ss)
    ensures r == Tabulated(values, ss, channels)
  {
    var row: Row := [];
    var i := 0;
    while i < |channels|
      invariant 0 <= i <= |channels|
      invariant Tabulated(values, ss, channels[..i]) == Ok(row)
    {
      var c := channels[i];
      var vs := values(c);
      LoopStep(values, ss, channels, i, row);
      if vs.Raised? {
        LoopStopsAt(values, ss, channels, i + 1);
        return Raised(vs.error);
      }
      row := SetColumns(row, Cells(c, ss, vs.value));
      i := i + 1;
    }
    assert channels[..i] == channels;
    r := Ok(row);
  }

  /** One more channel: its cells are assigned, or its exception ends the loop. */
  lemma LoopStep(values: string -> Outcome<seq<Value>>, ss: seq<string>, channels: seq<string>, i: nat, row: Row)
    requires Shaped(values, ss) && i < |channels| && Tabulated(values, ss, channels[..i]) == Ok(row)
    ensures values(channels[i]).Raised? ==>
              Tabulated(values, ss, channels[..i + 1]) == Raised(values(channels[i]).error)
    ensures values(channels[i]).Ok? ==>
              Tabulated(values, ss, channels[..i + 1]) == Ok(SetColumns(row, Cells(channels[i], ss, values(channels[i]).value)))
  {
    assert channels[..i + 1][..i] == channels[..i];
  }

  /** Once the loop has raised, later channels do not change the outcome. */
  lemma {:induction false} LoopStopsAt(values: string -> Outcome<seq<Value>>, ss: seq<string>, channels: seq<string>, k: nat)
    requires Shaped(values, ss) && 0 < k <= |channels|
    requires Tabulated(values, ss, channels[..k]).Raised?
    ensures Tabulated(values, ss, channels) == Tabulated(values, ss, channels[..k])
    decreases |channels| - k
  {
    if k < |channels| {
      assert channels[..k + 1][..k] == channels[..k];
      LoopStopsAt(values, ss, channels, k + 1);
    } else {
      assert channels[..k] == channels;
    }
  }

  /** Every channel is computed without raising. */
  ghost predicate AllOk(values: string -> Outcome<seq<Value>>, channels: seq<string>)
  {
    forall i :: 0 <= i < |channels| ==> values(channels[i]).Ok?
  }

  /** The loop succeeds exactly when every channel does; otherwise it raises the
      error of the first channel that raises. */
  lemma {:induction false} TabulatedOutcome(values: string -> Outcome<seq<Value>>, ss: seq<string>, channels: seq<string>)
    requires Shaped(values, ss)
    ensures Tabulated(values, ss, channels).Ok? <==> AllOk(values, channels)
    ensures Tabulated(values, ss, channels).Raised? ==>
              exists i :: 0 <= i < |channels| && AllOk(values, channels[..i]) && values(channels[i]).Raised? &&
                Tabulated(values, ss, channels).error == values(channels[i]).error
    decreases |channels|
  {
    if channels != [] {
      var n := |channels|;
      var init := channels[..n - 1];
      TabulatedOutcome(values, ss, init);
      assert forall i :: 0 <= i < n - 1 ==> init[i] == channels[i];
      if Tabulated(values, ss, init).Raised? {
        var i :| 0 <= i < n - 1 && AllOk(values, init[..i]) && values(init[i]).Raised? &&
          Tabulated(values, ss, init).error == values(init[i]).error;
        assert init[..i] == channels[..i];
        assert Tabulated(values, ss, channels).error == values(channels[i]).error;
      } else if values(channels[n - 1]).Raised? {
        assert init == channels[..n - 1];
        assert AllOk(values, channels[..n - 1]) && values(channels[n - 1]).Raised? &&
          Tabulated(values, ss, channels).error == values(channels[n - 1]).error;
      } else {
        assert AllOk(values, channels) by {
          assert forall i :: 0 <= i < n - 1 ==> values(channels[i]).Ok?;
        }
      }
    }
  }

  /** The cells of every channel, concatenated in channel order. */
  function Concatenated(values: string -> Outcome<seq<Value>>, ss: seq<string>, channels: seq<string>): (row: Row)
    requires Shaped(values, ss) && AllOk(values, channels)
    ensures |row| == |channels| * |ss|
    decreases |channels|
  {
    if channels == [] then []
    else
      var n := |channels|;
      var c := channels[n - 1];
      assert AllOk(values, channels[..n - 1]) by {
        assert forall i :: 0 <= i < n - 1 ==> channels[..n - 1][i] == channels[i];
      }
      var init := Concatenated(values, ss, channels[..n - 1]);
      assert |channels| * |ss| == (n - 1) * |ss| + |ss|;
      init + Cells(c, ss, values(c).value)
  }

  /** Every column name is one channel's name followed by one suffix. */
  predicate NamedFrom(row: Row, channels: seq<string>, ss: seq<string>)
  {
    forall k :: 0 <= k < |row| ==> NameFrom(row[k].name, channels, ss)
  }

  predicate NameFrom(name: string, channels: seq<string>, ss: seq<string>)
  {
    exists a, b :: 0 <= a < |channels| && 0 <= b < |ss| && name == ColumnName(channels[a], ss[b])
  }

  /** The names the loop assigns: per channel in order, the channel followed by
      each suffix. They depend on the channels and suffixes alone. */
  function ColumnNames(channels: seq<string>, ss: seq<string>): (ns: seq<string>)
    ensures |ns| == |channels| * |ss|
    decreases |channels|
  {
    if channels == [] then []
    else
      var n := |channels|;
      assert |channels| * |ss| == (n - 1) * |ss| + |ss|;
      ColumnNames(channels[..n - 1], ss) + seq(|ss|, j requires 0 <= j < |ss| => ColumnName(channels[n - 1], ss[j]))
  }

  lemma {:induction false} ConcatenatedNames(values: string -> Outcome<seq<Value>>, ss: seq<string>, channels: seq<string>)
    requires Shaped(values, ss) && AllOk(values, channels)
    ensures Names(Concatenated(values, ss, channels)) == ColumnNames(channels, ss)
    decreases |channels|
  {
    if channels != [] {
      var n := |channels|;
      var c := channels[n - 1];
      var init := channels[..n - 1];
      assert forall i :: 0 <= i < n - 1 ==> init[i] == channels[i];
      ConcatenatedNames(values, ss, init);
      var cells := Cells(c, ss, values(c).value);
      NamesAppend(Concatenated(values, ss, init), cells);
      assert Names(cells) == seq(|ss|, j requires 0 <= j < |ss| => ColumnName(c, ss[j]));
    }
  }

  /** With distinct channels and suffixes none of which ends another, the loop
      never assigns a name twice, so every assignment appends: the table is each
      channel's cells in channel order, and its column names are distinct. */
  lemma {:induction false} ColumnLayout(values: string -> Outcome<seq<Value>>, ss: seq<string>, channels: seq<string>)
    requires Shaped(values, ss) && PairwiseIncomparable(ss)
    requires Distinct(channels) && AllOk(values, channels)
    ensures Tabulated(values, ss, channels) == Ok(Concatenated(values, ss, channels))
    ensures Distinct(Names(Concatenated(values, ss, channels)))
    ensures NamedFrom(Concatenated(values, ss, channels), channels, ss)
    decreases |channels|
  {
    if channels != [] {
      var n := |channels|;
      var init, c := channels[..n - 1], channels[n - 1];
      assert forall i :: 0 <= i < n - 1 ==> init[i] == channels[i];
      ColumnLayout(values, ss, init);
      var row := Concatenated(values, ss, init);
      var cells := Cells(c, ss, values(c).value);
      assert Concatenated(values, ss, channels) == row + cells;
      NewChannelDisjoint(row, init, c, ss, cells);
      CellsDistinct(c, ss, cells);
      SetColumnsAppend(row, cells);
      DistinctAppend(row, cells);
      NamedFromAppend(row, cells, channels, ss);
    }
  }

  /** Cells of a channel that is not among the earlier ones have fresh names. */
  lemma NewChannelDisjoint(row: Row, init: seq<string>, c: string, ss: seq<string>, cells: seq<Column>)
    requires NamedFrom(row, init, ss) && PairwiseIncomparable(ss) && c !in init
    requires |cells| == |ss| && forall j :: 0 <= j < |ss| ==> cells[j].name == ColumnName(c, ss[j])
    ensures Disjoint(row, cells)
  {
    forall k, j | 0 <= k < |row| && 0 <= j < |cells|
      ensures row[k].name != cells[j].name
    {
      var a, b :| 0 <= a < |init| && 0 <= b < |ss| && row[k].name == ColumnName(init[a], ss[b]);
      DifferentNames(init[a], ss[b], c, ss[j], b == j);
    }
  }

  /** Two columns whose channels differ under one suffix, or whose suffixes are
      incomparable, have different names. */
  lemma DifferentNames(c1: string, s1: string, c2: string, s2: string, same: bool)
    requires same ==> s1 == s2 && c1 != c2
    requires !same ==> Incomparable(s1, s2)
    ensures ColumnName(c1, s1) != ColumnName(c2, s2)
  {
    if ColumnName(c1, s1) == ColumnName(c2, s2) {
      if same {
        NameInjective(c1, c2, s1);
      } else {
        ColumnNameEndsWith(c1, s1);
        ColumnNameEndsWith(c2, s2);
        IncomparableEnds(ColumnName(c1, s1), s1, s2);
      }
    }
  }

  lemma CellsDistinct(c: string, ss: seq<string>, cells: seq<Column>)
    requires PairwiseIncomparable(ss)
    requires |cells| == |ss| && forall j :: 0 <= j < |ss| ==> cells[j].name == ColumnName(c, ss[j])
    ensures Distinct(Names(cells))
  {
    forall i, j | 0 <= i < j < |cells|
      ensures Names(cells)[i] != Names(cells)[j]
    {
      DifferentNames(c, ss[i], c, ss[j], false);
    }
  }

  lemma NamedFromAppend(row: Row, cells: seq<Column>, channels: seq<string>, ss: seq<string>)
    requires channels != []
    requires NamedFrom(row, channels[..|channels| - 1], ss)
    requires |cells| == |ss| && forall j :: 0 <= j < |ss| ==> cells[j].name == ColumnName(channels[|channels| - 1], ss[j])
    ensures NamedFrom(row + cells, channels, ss)
  {
    var n := |channels|;
    forall k | 0 <= k < |row + cells|
      ensures NameFrom((row + cells)[k].name, channels, ss)
    {
      if k < |row| {
        var a, b :| 0 <= a < n - 1 && 0 <= b < |ss| && row[k].name == ColumnName(channels[..n - 1][a], ss[b]);
        assert channels[..n - 1][a] == channels[a];
        assert (row + cells)[k] == row[k];
        assert (row + cells)[k].name == ColumnName(channels[a], ss[b]);
      } else {
        var b := k - |row|;
        assert (row + cells)[k] == cells[b];
        assert (row + cells)[k].name == ColumnName(channels[n - 1], ss[b]);
      }
    }
  }

  /** Every name ends in one of the suffixes. */
  lemma NamedFromEnds(row: Row, channels: seq<string>, ss: seq<string>)
    requires NamedFrom(row, channels, ss)
    ensures NamesEndIn(row, ss)
  {
    forall k | 0 <= k < |row|
      ensures EndsInOneOf(row[k].name, ss)
    {
      var a, b :| 0 <= a < |channels| && 0 <= b < |ss| && row[k].name == ColumnName(channels[a], ss[b]);
      ColumnNameEndsWith(channels[a], ss[b]);
    }
  }

  /** With a single suffix, column i holds channel i's value. */
  lemma {:induction false} SingleColumnLayout(values: string -> Outcome<seq<Value>>, ss: seq<string>, channels: seq<string>, i: int)
    requires |ss| == 1 && Shaped(values, ss) && AllOk(values, channels) && 0 <= i < |channels|
    ensures |Concatenated(values, ss, channels)| == |channels|
    ensures Concatenated(values, ss, channels)[i] == Column(ColumnName(channels[i], ss[0]), values(channels[i]).value[0])
    decreases |channels|
  {
    var n := |channels|;
    var init := channels[..n - 1];
    assert forall k :: 0 <= k < n - 1 ==> init[k] == channels[k];
    var cells := Cells(channels[n - 1], ss, values(channels[n - 1]).value);
    assert Concatenated(values, ss, channels) == Concatenated(values, ss, init) + cells;
    if i < n - 1 {
      SingleColumnLayout(values, ss, init, i);
    }
  }

  // ---------------------------------------------------------------------------
  // What the feature functions return

  /** A feature function succeeds exactly when the checks before its loop pass
      and no channel raises; a missing channel is a KeyError. */
  lemma FeatureTableOutcome(ext: Externals, feat: Feature, f: Frame, channels: seq<string>)
    ensures FeatureTable(ext, feat, f, channels).Ok? <==>
              !(feat.Jerk? && feat.fs == 0.0) && AllOk(ValuesOf(ext, feat, f), channels)
    ensures !f.Has(channels) && !(feat.Jerk? && feat.fs == 0.0) ==>
              FeatureTable(ext, feat, f, channels).Raised?
    ensures feat.MeanCross? && !f.Has(channels) ==> FeatureTable(ext, feat, f, channels) == Raised(KeyError)
    ensures feat.Jerk? && feat.fs == 0.0 ==> FeatureTable(ext, feat, f, channels) == Raised(ZeroDivisionError)
  {
    var values := ValuesOf(ext, feat, f);
    TabulatedOutcome(values, Suffixes(feat), channels);
    if !f.Has(channels) {
      var i :| 0 <= i < |channels| && channels[i] !in f.columns;
      assert values(channels[i]) == Raised(KeyError);
    }
  }

  /** The table of a feature function over distinct channels: per channel and
      suffix a column named `channel + suffix`, in channel order, all names
      distinct. */
  lemma FeatureTableLayout(ext: Externals, feat: Feature, f: Frame, channels: seq<string>)
    requires Distinct(channels) && FeatureTable(ext, feat, f, channels).Ok?
    ensures AllOk(ValuesOf(ext, feat, f), channels)
    ensures FeatureTable(ext, feat, f, channels).value == Concatenated(ValuesOf(ext, feat, f), Suffixes(feat), channels)
    ensures |FeatureTable(ext, feat, f, channels).value| == |channels| * |Suffixes(feat)|
    ensures Distinct(Names(FeatureTable(ext, feat, f, channels).value))
    ensures NamesEndIn(FeatureTable(ext, feat, f, channels).value, Suffixes(feat))
    ensures Names(FeatureTable(ext, feat, f, channels).value) == ColumnNames(channels, Suffixes(feat))
  {
    var values := ValuesOf(ext, feat, f);
    FeatureTableOutcome(ext, feat, f, channels);
    SuffixesIncomparable(feat);
    ColumnLayout(values, Suffixes(feat), channels);
    ConcatenatedNames(values, Suffixes(feat), channels);
    NamedFromEnds(Concatenated(values, Suffixes(feat), channels), channels, Suffixes(feat));
  }

  // ---------------------------------------------------------------------------
  // correlation_coefficient (features/signal_features.py:78-92)

  /** `a + '_' + b + '_corr_coef'`. */
  function PairName(p: (string, string)): string
  {
    p.0 + "_" + p.1 + "_corr_coef"
  }

  /** `C = signal_df.corr()` and, per pair, `C[a][b]`: KeyError when either
      channel is missing. */
  function CorrelationTable(ext: Externals, f: Frame, pairs: seq<(string, string)>): (r: Outcome<Row>)
    ensures r.Ok? <==> forall i :: 0 <= i < |pairs| ==> pairs[i].0 in f.columns && pairs[i].1 in f.columns
    ensures r.Raised? ==> r.error == KeyError
    decreases |pairs|
  {
    if pairs == [] then Ok([])
    else
      var n := |pairs|;
      var p := pairs[n - 1];
      assert forall i :: 0 <= i < n - 1 ==> pairs[..n - 1][i] == pairs[i];
      match CorrelationTable(ext, f, pairs[..n - 1])
      case Raised(e) => Raised(e)
      case Ok(row) =>
        if p.0 !in f.columns || p.1 !in f.columns then Raised(KeyError)
        else Ok(SetColumn(row, PairName(p), ext.correlation(f.columns[p.0], f.columns[p.1])))
  }

  /** `correlation_coefficient`'s loop: per pair, `C[a][b]` is assigned to the
      pair's column, and a missing channel raises KeyError. */
  method CorrelationCoefficient(ext: Externals, f: Frame, pairs: seq<(string, string)>) returns (r: Outcome<Row>)
    ensures r == CorrelationTable(ext, f, pairs)
  {
    var row: Row := [];
    for i := 0 to |pairs|
      invariant CorrelationTable(ext, f, pairs[..i]) == Ok(row)
    {
      var p := pairs[i];
      assert pairs[..i + 1][..i] == pairs[..i];
      if p.0 !in f.columns || p.1 !in f.columns {
        return Raised(KeyError);
      }
      row := SetColumn(row, PairName(p), ext.correlation(f.columns[p.0], f.columns[p.1]));
    }
    assert pairs[..|pairs|] == pairs;
    r := Ok(row);
  }

  /** Every correlation column name ends in `_corr_coef`. */
  lemma PairNameEnds(p: (string, string))
    ensures EndsWith(PairName(p), "_corr_coef")
  {
    var n := PairName(p);
    assert n == (p.0 + "_" + p.1) + "_corr_coef";
    ColumnNameEndsWith(p.0 + "_" + p.1, "_corr_coef");
  }

  /** The names `correlation_coefficient` assigns, one per pair. */
  function PairNames(pairs: seq<(string, string)>): (ns: seq<string>)
    ensures |ns| == |pairs|
    ensures forall i :: 0 <= i < |pairs| ==> ns[i] == PairName(pairs[i])
  {
    seq(|pairs|, i requires 0 <= i < |pairs| => PairName(pairs[i]))
  }

  /** One column per pair, in pair order: the pair's name and its correlation. */
  function CorrelationCells(ext: Externals, f: Frame, pairs: seq<(string, string)>): (r: Row)
    requires forall i :: 0 <= i < |pairs| ==> pairs[i].0 in f.columns && pairs[i].1 in f.columns
    ensures |r| == |pairs|
  {
    seq(|pairs|, i requires 0 <= i < |pairs| =>
      Column(PairName(pairs[i]), ext.correlation(f.columns[pairs[i].0], f.columns[pairs[i].1])))
  }

  /** When the pairs name distinct columns, every assignment appends: column i
      is pair i's correlation. */
  lemma {:induction false} CorrelationLayout(ext: Externals, f: Frame, pairs: seq<(string, string)>)
    requires Distinct(PairNames(pairs)) && CorrelationTable(ext, f, pairs).Ok?
    ensures CorrelationTable(ext, f, pairs).value == CorrelationCells(ext, f, pairs)
    decreases |pairs|
  {
    if pairs != [] {
      var init := pairs[..|pairs| - 1];
      CorrelationStep(ext, f, pairs);
      FreshPairName(pairs);
      CorrelationLayout(ext, f, init);
      LayoutStep(ext, f, pairs);
    }
  }

  /** The last pair's assignment appends when its name is new. */
  lemma LayoutStep(ext: Externals, f: Frame, pairs: seq<(string, string)>)
    requires pairs != [] && CorrelationTable(ext, f, pairs).Ok?
    requires forall j :: 0 <= j < |pairs| - 1 ==> PairName(pairs[j]) != PairName(pairs[|pairs| - 1])
    requires CorrelationTable(ext, f, pairs[..|pairs| - 1]).Ok?
    requires CorrelationTable(ext, f, pairs[..|pairs| - 1]).value == CorrelationCells(ext, f, pairs[..|pairs| - 1])
    ensures CorrelationTable(ext, f, pairs).value == CorrelationCells(ext, f, pairs)
  {
    var p := pairs[|pairs| - 1];
    var init := pairs[..|pairs| - 1];
    CorrelationStep(ext, f, pairs);
    var row := CorrelationTable(ext, f, init).value;
    var v := ext.correlation(f.columns[p.0], f.columns[p.1]);
    assert forall j :: 0 <= j < |row| ==> row[j].name == PairName(init[j]);
    SetColumnCases(row, PairName(p), v);
    CellsAppend(ext, f, pairs);
  }

  /** The last pair's name is new to the earlier pairs, whose names are distinct. */
  lemma FreshPairName(pairs: seq<(string, string)>)
    requires pairs != [] && Distinct(PairNames(pairs))
    ensures Distinct(PairNames(pairs[..|pairs| - 1]))
    ensures forall j :: 0 <= j < |pairs| - 1 ==> PairName(pairs[j]) != PairName(pairs[|pairs| - 1])
  {
    var init := pairs[..|pairs| - 1];
    assert forall i :: 0 <= i < |init| ==> PairNames(init)[i] == PairNames(pairs)[i];
  }

  lemma CellsAppend(ext: Externals, f: Frame, pairs: seq<(string, string)>)
    requires pairs != [] && forall i :: 0 <= i < |pairs| ==> pairs[i].0 in f.columns && pairs[i].1 in f.columns
    ensures var p := pairs[|pairs| - 1];
            CorrelationCells(ext, f, pairs) ==
            CorrelationCells(ext, f, pairs[..|pairs| - 1]) + [Column(PairName(p), ext.correlation(f.columns[p.0], f.columns[p.1]))]
  {
  }

  /** The correlation columns are named after their pairs, all ending in `_corr_coef`. */
  lemma CorrelationNames(ext: Externals, f: Frame, pairs: seq<(string, string)>)
    requires forall i :: 0 <= i < |pairs| ==> pairs[i].0 in f.columns && pairs[i].1 in f.columns
    ensures Names(CorrelationCells(ext, f, pairs)) == PairNames(pairs)
    ensures NamesEndIn(CorrelationCells(ext, f, pairs), ["_corr_coef"])
  {
    var r := CorrelationCells(ext, f, pairs);
    forall k | 0 <= k < |r|
      ensures EndsInOneOf(r[k].name, ["_corr_coef"])
    {
      PairNameEnds(pairs[k]);
      assert EndsWith(r[k].name, ["_corr_coef"][0]);
    }
  }

  /** The last pair's column is assigned to the table of the earlier pairs. */
  lemma CorrelationStep(ext: Externals, f: Frame, pairs: seq<(string, string)>)
    requires pairs != [] && CorrelationTable(ext, f, pairs).Ok?
    ensures CorrelationTable(ext, f, pairs[..|pairs| - 1]).Ok?
    ensures CorrelationTable(ext, f, pairs).value ==
              SetColumn(CorrelationTable(ext, f, pairs[..|pairs| - 1]).value, PairName(pairs[|pairs| - 1]),
                        ext.correlation(f.columns[pairs[|pairs| - 1].0], f.columns[pairs[|pairs| - 1].1]))
  {
  }

}
