/** classifiers/resting_tremor_classifier.py: the per-window tremor feature row
    (four feature tables, each joined onto the row as soon as it is computed)
    and the window loop that appends one row per window. The two band-pass
    filters and the two PCAs that produce the channels are not part of this
    model: the loop receives the filtered frame. */
module RestingTremorClassifier {
  import opened Numerics
  import opened Frames
  import opened Windowing
  import opened FeatureTables

  const TremorX: string := "x_bp_filt_[3.5, 7.5]"
  const TremorY: string := "y_bp_filt_[3.5, 7.5]"
  const TremorZ: string := "z_bp_filt_[3.5, 7.5]"
  const SlowX: string := "x_bp_filt_[0.25, 3.5]"
  const SlowY: string := "y_bp_filt_[0.25, 3.5]"
  const SlowZ: string := "z_bp_filt_[0.25, 3.5]"
  const TremorPrincipal: string := "PC1_[3.5, 7.5]"
  const SlowPrincipal: string := "PC1_[0.25, 3.5]"

  /** `bp1_headers + bp2_headers + pca1_headers + pca2_headers`. */
  function TremorChannels(): (cs: seq<string>)
    ensures |cs| == 8 && Distinct(cs)
    ensures cs[..3] == [TremorX, TremorY, TremorZ] && cs[3..6] == [SlowX, SlowY, SlowZ]
    ensures cs[6..] == [TremorPrincipal, SlowPrincipal]
  {
    [TremorX, TremorY, TremorZ] + [SlowX, SlowY, SlowZ] + [TremorPrincipal] + [SlowPrincipal]
  }

  const FrequencyCutoff: real := 12.0

  /** The feature of the k-th table: range, RMS, dominant frequency, entropy. */
  function TremorFeature(k: nat, fs: real): Feature
    requires k < 4
  {
    match k
    case 0 => Range
    case 1 => Rms
    case 2 => DominantFrequency(fs, FrequencyCutoff)
    case 3 => Entropy
  }

  function TremorTables(ext: Externals, f: Frame, channels: seq<string>, fs: real): (ts: seq<Outcome<Row>>)
    ensures |ts| == 4
    ensures forall k :: 0 <= k < 4 ==> ts[k] == FeatureTable(ext, TremorFeature(k, fs), f, channels)
  {
    seq(4, k requires 0 <= k < 4 => FeatureTable(ext, TremorFeature(k, fs), f, channels))
  }

  /** `extract_tremor_classification_features`: each table is joined onto the
      current one right after it is computed. */
  function TremorFeatures(ext: Externals, f: Frame, current: Row, channels: seq<string>, fs: real): Outcome<Row>
  {
    ExtendAll(current, TremorTables(ext, f, channels, fs))
  }

  method ExtractTremorFeatures(ext: Externals, f: Frame, current: Row, channels: seq<string>, fs: real)
    returns (r: Outcome<Row>)
    ensures r == TremorFeatures(ext, f, current, channels, fs)
  {
    ghost var outs := TremorTables(ext, f, channels, fs);
    var features := current;
    var range := BuildFeatureTable(ext, Range, f, channels);
    ExtendNext(current, outs, 0, features);
    if range.Raised? {
      return Raised(range.error);
    }
    var joined := Join(features, range.value);
    if joined.Raised? {
      return Raised(joined.error);
    }
    features := joined.value;
    var rms := BuildFeatureTable(ext, Rms, f, channels);
    ExtendNext(current, outs, 1, features);
    if rms.Raised? {
      return Raised(rms.error);
    }
    joined := Join(features, rms.value);
    if joined.Raised? {
      return Raised(joined.error);
    }
    features := joined.value;
    var domFreq := BuildFeatureTable(ext, DominantFrequency(fs, FrequencyCutoff), f, channels);
    ExtendNext(current, outs, 2, features);
    if domFreq.Raised? {
      return Raised(domFreq.error);
    }
    joined := Join(features, domFreq.value);
    if joined.Raised? {
      return Raised(joined.error);
    }
    features := joined.value;
    var entropy := BuildFeatureTable(ext, Entropy, f, channels);
    ExtendNext(current, outs, 3, features);
    if entropy.Raised? {
      return Raised(entropy.error);
    }
    joined := Join(features, entropy.value);
    if joined.Raised? {
      return Raised(joined.error);
    }
    features := joined.value;
    assert outs[4..] == [];
    r := Ok(features);
  }

  // ---------------------------------------------------------------------------
  // The layout of a tremor row

  function TremorGroups(): seq<seq<string>>
  {
    [Suffixes(Range), Suffixes(Rms), Suffixes(DominantFrequency(0.0, FrequencyCutoff)), Suffixes(Entropy)]
  }

  lemma TremorGroupAt(k: nat, fs: real)
    requires k < 4
    ensures TremorGroups()[k] == Suffixes(TremorFeature(k, fs))
  {
  }

  /** Each table's column names, in join order. */
  function TremorNameGroups(channels: seq<string>): (g: seq<seq<string>>)
    ensures |g| == 4
    ensures forall k :: 0 <= k < 4 ==> g[k] == ColumnNames(channels, TremorGroups()[k])
  {
    seq(4, k requires 0 <= k < 4 => ColumnNames(channels, TremorGroups()[k]))
  }

  function TremorColumnNames(channels: seq<string>): seq<string>
  {
    ConcatNames(TremorNameGroups(channels))
  }

  /** The extraction only ever appends: on success the result is the given
      table followed by the columns of the four tables, none removed. */
  lemma TremorExtends(ext: Externals, f: Frame, current: Row, channels: seq<string>, fs: real)
    requires TremorFeatures(ext, f, current, channels, fs).Ok?
    ensures Collect(TremorTables(ext, f, channels, fs)).Ok?
    ensures TremorFeatures(ext, f, current, channels, fs).value ==
              current + Flatten(Collect(TremorTables(ext, f, channels, fs)).value)
  {
    ExtendAllOk(current, TremorTables(ext, f, channels, fs));
  }

  /** On the fresh table of the loop and distinct channels the joins never
      clash: the extraction succeeds exactly when the four tables do, and then
      holds range, RMS, the five dominant-frequency columns and entropy for
      every channel, feature by feature, all names distinct; otherwise it
      raises the first table's exception. */
  lemma TremorFeatureLayout(ext: Externals, f: Frame, channels: seq<string>, fs: real)
    requires Distinct(channels)
    ensures TremorFeatures(ext, f, [], channels, fs).Ok? <==>
              forall k :: 0 <= k < 4 ==> TremorTables(ext, f, channels, fs)[k].Ok?
    ensures TremorFeatures(ext, f, [], channels, fs).Raised? ==>
              exists k :: 0 <= k < 4 && FirstRaised(TremorTables(ext, f, channels, fs), k) &&
                TremorTables(ext, f, channels, fs)[k] == Raised(TremorFeatures(ext, f, [], channels, fs).error)
    ensures TremorFeatures(ext, f, [], channels, fs).Ok? ==>
              Names(TremorFeatures(ext, f, [], channels, fs).value) == TremorColumnNames(channels) &&
              Distinct(Names(TremorFeatures(ext, f, [], channels, fs).value)) &&
              |TremorFeatures(ext, f, [], channels, fs).value| == 8 * |channels|
  {
    var outs := TremorTables(ext, f, channels, fs);
    var groups, names := TremorGroups(), TremorNameGroups(channels);
    forall k | 0 <= k < 4 && outs[k].Ok?
      ensures NamesEndIn(outs[k].value, groups[k]) && Distinct(Names(outs[k].value)) && Names(outs[k].value) == names[k]
    {
      FeatureTableLayout(ext, TremorFeature(k, fs), f, channels);
      TremorGroupAt(k, fs);
    }
    TremorGroupsApart();
    ExtendAllApart([], outs, [], groups);
    var collected := Collect(outs);
    if collected.Ok? {
      var ts := collected.value;
      assert [] + Flatten(ts) == Flatten(ts);
      NamesFlatten(ts, names);
      TremorColumnCount(channels);
    }
  }

  lemma TremorGroupsApart()
    ensures GroupsApart(TremorGroups())
  {
    ApartFromRange();
    ApartFromRms();
    ApartFromSpectrum();
  }

  lemma ApartFromRange()
    ensures forall j :: 0 < j < 4 ==> Apart(TremorGroups()[0], TremorGroups()[j])
  {
  }

  lemma ApartFromRms()
    ensures forall j :: 1 < j < 4 ==> Apart(TremorGroups()[1], TremorGroups()[j])
  {
  }

  lemma ApartFromSpectrum()
    ensures Apart(TremorGroups()[2], TremorGroups()[3])
  {
  }

  /** Eight columns per channel. */
  lemma TremorColumnCount(channels: seq<string>)
    ensures |TremorColumnNames(channels)| == 8 * |channels|
  {
    var g, n := TremorNameGroups(channels), |channels|;
    forall k | 0 <= k < 4
      ensures |g[k]| == [n, n, 5 * n, n][k]
    {
      assert |TremorGroups()[k]| == (if k == 2 then 5 else 1);
    }
    ConcatLength(g, [n, n, 5 * n, n]);
    var lengths := [n, n, 5 * n, n];
    assert Total(lengths[3..]) == n + Total(lengths[4..]);
    assert Total(lengths[2..]) == 5 * n + Total(lengths[3..]);
    assert Total(lengths[1..]) == n + Total(lengths[2..]);
  }

  // ---------------------------------------------------------------------------
  // build_rest_tremor_classification_feature_set

  /** What extraction gives for each window, each on a fresh table. */
  function TremorWindowFeatures(ext: Externals, f: Frame, ws: nat, fs: real): (outs: seq<Outcome<Row>>)
    requires f.Valid() && ws > 0
    ensures |outs| == WindowCount(f.height, ws)
    ensures forall w :: 0 <= w < |outs| ==> outs[w] == TremorFeatures(ext, WindowFrame(f, ws, w), [], TremorChannels(), fs)
  {
    var total := WindowCount(f.height, ws);
    seq(total, w requires 0 <= w < total => TremorFeatures(ext, WindowFrame(f, ws, w), [], TremorChannels(), fs))
  }

  /** `build_rest_tremor_classification_feature_set` on the filtered frame,
      with `window_samples = fs * 3.0` samples per window: every window's row,
      none dropped. */
  function TremorFeatureSet(ext: Externals, f: Frame, ws: nat, fs: real): Outcome<seq<Row>>
    requires f.Valid() && ws as real == 3.0 * fs
  {
    if ws == 0 then Raised(ZeroDivisionError) else Collect(TremorWindowFeatures(ext, f, ws, fs))
  }

  method BuildTremorFeatureSet(ext: Externals, f: Frame, ws: nat, fs: real) returns (r: Outcome<seq<Row>>)
    requires f.Valid() && ws as real == 3.0 * fs
    ensures r == TremorFeatureSet(ext, f, ws, fs)
  {
    if ws == 0 {
      return Raised(ZeroDivisionError);
    }
    var channels := TremorChannels();
    var totalWindows := WindowCount(f.height, ws);
    ghost var outs := TremorWindowFeatures(ext, f, ws, fs);
    var finalFeatureSet: seq<Row> := [];
    for w := 0 to totalWindows
      invariant Collect(outs[..w]) == Ok(finalFeatureSet)
    {
      var window := WindowFrame(f, ws, w);
      var currentFeatures: Row := [];
      var features := ExtractTremorFeatures(ext, window, currentFeatures, channels, fs);
      CollectStep(outs, w, finalFeatureSet);
      if features.Raised? {
        return Raised(features.error);
      }
      finalFeatureSet := finalFeatureSet + [features.value];
    }
    assert outs[..totalWindows] == outs;
    r := Ok(finalFeatureSet);
  }

  /** The tremor feature set: exactly one row per window, in window order, each
      the features of its window under the same 64 distinct column names. */
  lemma TremorFeatureSetRows(ext: Externals, f: Frame, ws: nat, fs: real)
    requires f.Valid() && ws as real == 3.0 * fs && TremorFeatureSet(ext, f, ws, fs).Ok?
    ensures |TremorFeatureSet(ext, f, ws, fs).value| == WindowCount(f.height, ws)
    ensures forall w :: 0 <= w < |TremorFeatureSet(ext, f, ws, fs).value| ==>
              var row := TremorFeatureSet(ext, f, ws, fs).value[w];
              Ok(row) == TremorFeatures(ext, WindowFrame(f, ws, w), [], TremorChannels(), fs) &&
              Names(row) == TremorColumnNames(TremorChannels()) && Distinct(Names(row)) && |row| == 64
  {
    var rows := TremorFeatureSet(ext, f, ws, fs).value;
    forall w | 0 <= w < |rows|
      ensures Names(rows[w]) == TremorColumnNames(TremorChannels()) && Distinct(Names(rows[w])) && |rows[w]| == 64
    {
      TremorFeatureLayout(ext, WindowFrame(f, ws, w), TremorChannels(), fs);
    }
  }
}
