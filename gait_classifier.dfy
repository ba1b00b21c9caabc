/** classifiers/gait_classifier.py: the per-window gait feature row (eight
    feature tables joined in order) and the window loop that keeps only the
    rows without NaN. The band-pass filter and the PCA that produce the
    channels are not part of this model: the loop receives the filtered frame. */
module GaitClassifier {
  import opened Numerics
  import opened Frames
  import opened Windowing
  import opened FeatureTables

  const BandPassX: string := "x_bp_filt_[0.25, 3.0]"
  const BandPassY: string := "y_bp_filt_[0.25, 3.0]"
  const BandPassZ: string := "z_bp_filt_[0.25, 3.0]"
  const Principal: string := "PC1_[0.25, 3.0]"

  /** `bp_headers + pca_headers`: the three filtered axes, then the first
      principal component. */
  function GaitChannels(): (cs: seq<string>)
    ensures |cs| == 4 && Distinct(cs)
  {
    [BandPassX, BandPassY, BandPassZ, Principal]
  }

  /** The axis pairs whose correlation is a feature. */
  function GaitPairs(): seq<(string, string)>
  {
    [(BandPassX, BandPassY), (BandPassX, BandPassZ), (BandPassY, BandPassZ)]
  }

  const FrequencyCutoff: real := 12.0

  /** The per-channel feature of table k; table 1 holds the correlations. */
  function FeatureAt(k: nat, fs: real): Feature
    requires k < 8 && k != 1
  {
    match k
    case 0 => Entropy
    case 2 => Rms
    case 3 => Range
    case 4 => IqrOfAutocovariance
    case 5 => DominantFrequency(fs, FrequencyCutoff)
    case 6 => MeanCross
    case 7 => RangeCount(-0.1, 0.1)
  }

  /** Table k of the eight, in the order they are computed. */
  function GaitTable(ext: Externals, f: Frame, channels: seq<string>, fs: real, k: nat): Outcome<Row>
    requires k < 8
  {
    if k == 1 then CorrelationTable(ext, f, GaitPairs()) else FeatureTable(ext, FeatureAt(k, fs), f, channels)
  }

  function GaitTables(ext: Externals, f: Frame, channels: seq<string>, fs: real): (ts: seq<Outcome<Row>>)
    ensures |ts| == 8
    ensures forall k :: 0 <= k < 8 ==> ts[k] == GaitTable(ext, f, channels, fs, k)
  {
    seq(8, k requires 0 <= k < 8 => GaitTable(ext, f, channels, fs, k))
  }

  /** `extract_gait_classification_features`: every table is computed (the first
      exception escapes), then joined in the same order to an empty frame. */
  function GaitFeatures(ext: Externals, f: Frame, channels: seq<string>, fs: real): Outcome<Row>
  {
    match Collect(GaitTables(ext, f, channels, fs))
    case Raised(e) => Raised(e)
    case Ok(ts) => JoinAll([], ts)
  }

  /** One table, computed by its feature function. */
  method ComputeTable(ext: Externals, f: Frame, channels: seq<string>, fs: real, k: nat) returns (t: Outcome<Row>)
    requires k < 8
    ensures t == GaitTable(ext, f, channels, fs, k)
  {
    if k == 1 {
      t := CorrelationCoefficient(ext, f, GaitPairs());
    } else {
      t := BuildFeatureTable(ext, FeatureAt(k, fs), f, channels);
    }
  }

  method ExtractGaitFeatures(ext: Externals, f: Frame, channels: seq<string>, fs: real) returns (r: Outcome<Row>)
    ensures r == GaitFeatures(ext, f, channels, fs)
  {
    var tables := ComputeGaitTables(ext, f, channels, fs);
    if tables.Raised? {
      return Raised(tables.error);
    }
    r := JoinGaitTables(tables.value);
  }

  /** The eight feature function calls, in order; an exception escapes at once. */
  method ComputeGaitTables(ext: Externals, f: Frame, channels: seq<string>, fs: real) returns (r: Outcome<seq<Row>>)
    ensures r == Collect(GaitTables(ext, f, channels, fs))
  {
    ghost var outs := GaitTables(ext, f, channels, fs);
    var first := ComputeFirstTables(ext, f, channels, fs);
    if first.Raised? {
      return first;
    }
    var tables := ComputeLastTables(ext, f, channels, fs, first.value);
    if tables.Raised? {
      return tables;
    }
    CollectAllOk(outs, tables.value);
    r := tables;
  }

  /** Entropy, correlation, RMS and range. */
  method ComputeFirstTables(ext: Externals, f: Frame, channels: seq<string>, fs: real) returns (r: Outcome<seq<Row>>)
    ensures r.Raised? ==> r == Collect(GaitTables(ext, f, channels, fs))
    ensures r.Ok? ==> |r.value| == 4 && CollectedPrefix(GaitTables(ext, f, channels, fs), r.value)
  {
    ghost var outs := GaitTables(ext, f, channels, fs);
    var tables: seq<Row> := [];
    var entropy := ComputeTable(ext, f, channels, fs, 0);
    if entropy.Raised? {
      CollectFirstRaised(outs, 0);
      return Raised(entropy.error);
    }
    CollectedSoFar(outs, tables, entropy.value);
    tables := tables + [entropy.value];
    var corr := ComputeTable(ext, f, channels, fs, 1);
    if corr.Raised? {
      CollectFirstRaised(outs, 1);
      return Raised(corr.error);
    }
    CollectedSoFar(outs, tables, corr.value);
    tables := tables + [corr.value];
    var rms := ComputeTable(ext, f, channels, fs, 2);
    if rms.Raised? {
      CollectFirstRaised(outs, 2);
      return Raised(rms.error);
    }
    CollectedSoFar(outs, tables, rms.value);
    tables := tables + [rms.value];
    var range := ComputeTable(ext, f, channels, fs, 3);
    if range.Raised? {
      CollectFirstRaised(outs, 3);
      return Raised(range.error);
    }
    CollectedSoFar(outs, tables, range.value);
    tables := tables + [range.value];
    r := Ok(tables);
  }

  /** IQR of autocovariance, dominant frequency, mean cross rate and range count. */
  method ComputeLastTables(ext: Externals, f: Frame, channels: seq<string>, fs: real, first: seq<Row>)
    returns (r: Outcome<seq<Row>>)
    requires |first| == 4 && CollectedPrefix(GaitTables(ext, f, channels, fs), first)
    ensures r.Raised? ==> r == Collect(GaitTables(ext, f, channels, fs))
    ensures r.Ok? ==> |r.value| == 8 && CollectedPrefix(GaitTables(ext, f, channels, fs), r.value)
  {
    ghost var outs := GaitTables(ext, f, channels, fs);
    var tables := first;
    var iqr := ComputeTable(ext, f, channels, fs, 4);
    if iqr.Raised? {
      CollectFirstRaised(outs, 4);
      return Raised(iqr.error);
    }
    CollectedSoFar(outs, tables, iqr.value);
    tables := tables + [iqr.value];
    var domFreq := ComputeTable(ext, f, channels, fs, 5);
    if domFreq.Raised? {
      CollectFirstRaised(outs, 5);
      return Raised(domFreq.error);
    }
    CollectedSoFar(outs, tables, domFreq.value);
    tables := tables + [domFreq.value];
    var mcr := ComputeTable(ext, f, channels, fs, 6);
    if mcr.Raised? {
      CollectFirstRaised(outs, 6);
      return Raised(mcr.error);
    }
    CollectedSoFar(outs, tables, mcr.value);
    tables := tables + [mcr.value];
    var rcp := ComputeTable(ext, f, channels, fs, 7);
    if rcp.Raised? {
      CollectFirstRaised(outs, 7);
      return Raised(rcp.error);
    }
    CollectedSoFar(outs, tables, rcp.value);
    tables := tables + [rcp.value];
    r := Ok(tables);
  }

  /** `features = pd.DataFrame()`, then the eight outer joins in order. */
  method JoinGaitTables(tables: seq<Row>) returns (r: Outcome<Row>)
    requires |tables| == 8
    ensures r == JoinAll([], tables)
  {
    var features: Row := [];
    var joined := Join(features, tables[0]);
    JoinNext([], tables, 0, features);
    if joined.Raised? {
      return Raised(joined.error);
    }
    features := joined.value;
    joined := Join(features, tables[1]);
    JoinNext([], tables, 1, features);
    if joined.Raised? {
      return Raised(joined.error);
    }
    features := joined.value;
    joined := Join(features, tables[2]);
    JoinNext([], tables, 2, features);
    if joined.Raised? {
      return Raised(joined.error);
    }
    features := joined.value;
    joined := Join(features, tables[3]);
    JoinNext([], tables, 3, features);
    if joined.Raised? {
      return Raised(joined.error);
    }
    features := joined.value;
    joined := Join(features, tables[4]);
    JoinNext([], tables, 4, features);
    if joined.Raised? {
      return Raised(joined.error);
    }
    features := joined.value;
    joined := Join(features, tables[5]);
    JoinNext([], tables, 5, features);
    if joined.Raised? {
      return Raised(joined.error);
    }
    features := joined.value;
    joined := Join(features, tables[6]);
    JoinNext([], tables, 6, features);
    if joined.Raised? {
      return Raised(joined.error);
    }
    features := joined.value;
    joined := Join(features, tables[7]);
    JoinNext([], tables, 7, features);
    if joined.Raised? {
      return Raised(joined.error);
    }
    features := joined.value;
    assert tables[8..] == [];
    r := Ok(features);
  }

  // ---------------------------------------------------------------------------
  // The layout of a gait row

  /** The suffixes of each table's column names. */
  function GaitGroups(): seq<seq<string>>
  {
    [Suffixes(Entropy), ["_corr_coef"], Suffixes(Rms), Suffixes(Range), Suffixes(IqrOfAutocovariance),
     Suffixes(DominantFrequency(0.0, FrequencyCutoff)), Suffixes(MeanCross), Suffixes(RangeCount(-0.1, 0.1))]
  }

  /** Each table's column names, in join order. */
  function GaitNameGroups(channels: seq<string>): (g: seq<seq<string>>)
    ensures |g| == 8
    ensures forall k :: 0 <= k < 8 ==>
              g[k] == if k == 1 then PairNames(GaitPairs()) else ColumnNames(channels, GaitGroups()[k])
  {
    seq(8, k requires 0 <= k < 8 => if k == 1 then PairNames(GaitPairs()) else ColumnNames(channels, GaitGroups()[k]))
  }

  lemma GroupsAt(k: nat, fs: real)
    requires k < 8 && k != 1
    ensures GaitGroups()[k] == Suffixes(FeatureAt(k, fs))
  {
  }

  /** The column names of a gait row. */
  function GaitColumnNames(channels: seq<string>): seq<string>
  {
    ConcatNames(GaitNameGroups(channels))
  }

  /** Over distinct channels the joins never clash: the extraction succeeds
      exactly when all eight tables do, its row is their columns in join order
      under fixed, distinct names (eleven per channel and the three
      correlations), and otherwise it raises the first table's exception. */
  lemma GaitFeatureLayout(ext: Externals, f: Frame, channels: seq<string>, fs: real)
    requires Distinct(channels)
    ensures GaitFeatures(ext, f, channels, fs).Ok? <==>
              forall i :: 0 <= i < 8 ==> GaitTables(ext, f, channels, fs)[i].Ok?
    ensures GaitFeatures(ext, f, channels, fs).Raised? ==>
              exists i :: 0 <= i < 8 && FirstRaised(GaitTables(ext, f, channels, fs), i) &&
                GaitTables(ext, f, channels, fs)[i] == Raised(GaitFeatures(ext, f, channels, fs).error)
    ensures GaitFeatures(ext, f, channels, fs).Ok? ==>
              GaitFeatures(ext, f, channels, fs).value == Flatten(Collect(GaitTables(ext, f, channels, fs)).value) &&
              Names(GaitFeatures(ext, f, channels, fs).value) == GaitColumnNames(channels) &&
              Distinct(Names(GaitFeatures(ext, f, channels, fs).value)) &&
              |GaitFeatures(ext, f, channels, fs).value| == 11 * |channels| + 3
  {
    var outs := GaitTables(ext, f, channels, fs);
    var collected := Collect(outs);
    if collected.Ok? {
      var ts := collected.value;
      var groups, names := GaitGroups(), GaitNameGroups(channels);
      forall i | 0 <= i < 8
        ensures NamesEndIn(ts[i], groups[i]) && Distinct(Names(ts[i])) && Names(ts[i]) == names[i]
      {
        TableLayout(ext, f, channels, fs, i);
        TableNames(ext, f, channels, fs, i);
      }
      GaitGroupsApart();
      JoinAllApart([], ts, [], groups);
      assert [] + Flatten(ts) == Flatten(ts);
      NamesFlatten(ts, names);
      GaitColumnCount(channels);
    }
  }

  lemma TableLayout(ext: Externals, f: Frame, channels: seq<string>, fs: real, k: nat)
    requires Distinct(channels) && k < 8 && GaitTable(ext, f, channels, fs, k).Ok?
    ensures NamesEndIn(GaitTable(ext, f, channels, fs, k).value, GaitGroups()[k])
    ensures Distinct(Names(GaitTable(ext, f, channels, fs, k).value))
  {
    if k == 1 {
      CorrelationGroup();
      CorrelationTableLayout(ext, f);
    } else {
      FeatureTableAt(ext, f, channels, fs, k);
    }
  }

  lemma CorrelationGroup()
    ensures GaitGroups()[1] == ["_corr_coef"]
  {
  }

  lemma TableNames(ext: Externals, f: Frame, channels: seq<string>, fs: real, k: nat)
    requires Distinct(channels) && k < 8 && GaitTable(ext, f, channels, fs, k).Ok?
    ensures Names(GaitTable(ext, f, channels, fs, k).value) == GaitNameGroups(channels)[k]
  {
    if k == 1 {
      CorrelationTableLayout(ext, f);
    } else {
      FeatureTableAt(ext, f, channels, fs, k);
    }
  }

  lemma CorrelationTableLayout(ext: Externals, f: Frame)
    requires CorrelationTable(ext, f, GaitPairs()).Ok?
    ensures NamesEndIn(CorrelationTable(ext, f, GaitPairs()).value, ["_corr_coef"])
    ensures Distinct(Names(CorrelationTable(ext, f, GaitPairs()).value))
    ensures Names(CorrelationTable(ext, f, GaitPairs()).value) == PairNames(GaitPairs())
  {
    GaitPairNames();
    CorrelationLayout(ext, f, GaitPairs());
    CorrelationNames(ext, f, GaitPairs());
  }

  lemma FeatureTableAt(ext: Externals, f: Frame, channels: seq<string>, fs: real, k: nat)
    requires Distinct(channels) && k < 8 && k != 1 && FeatureTable(ext, FeatureAt(k, fs), f, channels).Ok?
    ensures NamesEndIn(FeatureTable(ext, FeatureAt(k, fs), f, channels).value, GaitGroups()[k])
    ensures Distinct(Names(FeatureTable(ext, FeatureAt(k, fs), f, channels).value))
    ensures Names(FeatureTable(ext, FeatureAt(k, fs), f, channels).value) == ColumnNames(channels, GaitGroups()[k])
  {
    FeatureTableLayout(ext, FeatureAt(k, fs), f, channels);
    GroupsAt(k, fs);
  }

  /** The three correlation columns have distinct names. */
  lemma GaitPairNames()
    ensures Distinct(PairNames(GaitPairs()))
  {
    var ps := GaitPairs();
    assert |BandPassX| == 21 && BandPassX[0] == 'x' && BandPassY[0] == 'y' && BandPassZ[0] == 'z';
    PairNameChars(ps[0]);
    PairNameChars(ps[1]);
    PairNameChars(ps[2]);
  }

  /** A pair's column name starts with the first channel's name, and after it
      and the underscore comes the second channel's name. */
  lemma PairNameChars(p: (string, string))
    requires p.0 != [] && p.1 != []
    ensures PairName(p)[0] == p.0[0] && PairName(p)[|p.0| + 1] == p.1[0]
  {
    assert PairName(p) == p.0 + ("_" + p.1 + "_corr_coef");
  }

  /** No suffix of one table ends a suffix of another. */
  lemma GaitGroupsApart()
    ensures GroupsApart(GaitGroups())
  {
    ApartFromEntropy();
    ApartFromCorrelation();
    ApartFromRms();
    ApartFromRange();
    ApartFromIqr();
    ApartFromSpectrum();
    ApartFromMeanCross();
  }

  lemma ApartFromEntropy()
    ensures forall j :: 0 < j < 8 ==> Apart(GaitGroups()[0], GaitGroups()[j])
  {
  }

  lemma ApartFromCorrelation()
    ensures forall j :: 1 < j < 8 ==> Apart(GaitGroups()[1], GaitGroups()[j])
  {
  }

  lemma ApartFromRms()
    ensures forall j :: 2 < j < 8 ==> Apart(GaitGroups()[2], GaitGroups()[j])
  {
  }

  lemma ApartFromRange()
    ensures forall j :: 3 < j < 8 ==> Apart(GaitGroups()[3], GaitGroups()[j])
  {
  }

  lemma ApartFromIqr()
    ensures forall j :: 4 < j < 8 ==> Apart(GaitGroups()[4], GaitGroups()[j])
  {
  }

  lemma ApartFromSpectrum()
    ensures forall j :: 5 < j < 8 ==> Apart(GaitGroups()[5], GaitGroups()[j])
  {
  }

  lemma ApartFromMeanCross()
    ensures Apart(GaitGroups()[6], GaitGroups()[7])
  {
  }

  /** Eleven columns per channel and three correlations. */
  lemma GaitColumnCount(channels: seq<string>)
    ensures |GaitColumnNames(channels)| == 11 * |channels| + 3
  {
    var n := |channels|;
    GroupLengths(channels);
    ConcatLength(GaitNameGroups(channels), [n, 3, n, n, n, 5 * n, n, n]);
    GroupTotal(n);
  }

  lemma GroupLengths(channels: seq<string>)
    ensures forall k :: 0 <= k < 8 ==>
              |GaitNameGroups(channels)[k]| == [|channels|, 3, |channels|, |channels|, |channels|, 5 * |channels|, |channels|, |channels|][k]
  {
    var g, n := GaitNameGroups(channels), |channels|;
    forall k | 0 <= k < 8
      ensures |g[k]| == [n, 3, n, n, n, 5 * n, n, n][k]
    {
      if k != 1 {
        assert |GaitGroups()[k]| == (if k == 5 then 5 else 1);
      }
    }
  }

  lemma GroupTotal(n: int)
    ensures Total([n, 3, n, n, n, 5 * n, n, n]) == 11 * n + 3
  {
    var lengths := [n, 3, n, n, n, 5 * n, n, n];
    assert Total(lengths[7..]) == n + Total(lengths[8..]);
    assert Total(lengths[6..]) == n + Total(lengths[7..]);
    assert Total(lengths[5..]) == 5 * n + Total(lengths[6..]);
    assert Total(lengths[4..]) == n + Total(lengths[5..]);
    assert Total(lengths[3..]) == n + Total(lengths[4..]);
    assert Total(lengths[2..]) == n + Total(lengths[3..]);
    assert Total(lengths[1..]) == 3 + Total(lengths[2..]);
  }

  // ---------------------------------------------------------------------------
  // build_gait_classification_feature_set

  /** What extraction gives for each window, in window order. */
  function WindowFeatures(ext: Externals, f: Frame, channels: seq<string>, ws: nat, fs: real): (outs: seq<Outcome<Row>>)
    requires f.Valid() && ws > 0
    ensures |outs| == WindowCount(f.height, ws)
    ensures forall w :: 0 <= w < |outs| ==> outs[w] == GaitFeatures(ext, WindowFrame(f, ws, w), channels, fs)
  {
    var total := WindowCount(f.height, ws);
    seq(total, w requires 0 <= w < total => GaitFeatures(ext, WindowFrame(f, ws, w), channels, fs))
  }

  /** The rows without NaN, in their original order. */
  function Kept(rows: seq<Row>): seq<Row>
  {
    if rows == [] then []
    else
      var n := |rows|;
      Kept(rows[..n - 1]) + (if HasNaN(rows[n - 1]) then [] else [rows[n - 1]])
  }

  /** `build_gait_classification_feature_set` on the filtered frame, with
      `window_samples = fs * 3.0` samples per window; a zero window length makes
      `total_samples / float(window_samples)` raise. */
  function GaitFeatureSet(ext: Externals, f: Frame, ws: nat, fs: real): Outcome<seq<Row>>
    requires f.Valid() && ws as real == 3.0 * fs
  {
    if ws == 0 then Raised(ZeroDivisionError)
    else
      match Collect(WindowFeatures(ext, f, GaitChannels(), ws, fs))
      case Raised(e) => Raised(e)
      case Ok(rows) => Ok(Kept(rows))
  }

  method BuildGaitFeatureSet(ext: Externals, f: Frame, ws: nat, fs: real) returns (r: Outcome<seq<Row>>)
    requires f.Valid() && ws as real == 3.0 * fs
    ensures r == GaitFeatureSet(ext, f, ws, fs)
  {
    if ws == 0 {
      return Raised(ZeroDivisionError);
    }
    var channels := GaitChannels();
    var totalWindows := WindowCount(f.height, ws);
    ghost var outs := WindowFeatures(ext, f, channels, ws, fs);
    var cache: seq<Row> := [];
    ghost var rows: seq<Row> := [];
    for w := 0 to totalWindows
      invariant Collect(outs[..w]) == Ok(rows)
      invariant cache == Kept(rows)
    {
      var window := WindowFrame(f, ws, w);
      var features := ExtractGaitFeatures(ext, window, channels, fs);
      CollectStep(outs, w, rows);
      if features.Raised? {
        return Raised(features.error);
      }
      KeptStep(rows, features.value);
      rows := rows + [features.value];
      if HasNaN(features.value) {
        continue;
      }
      cache := cache + [features.value];
    }
    assert outs[..totalWindows] == outs;
    r := Ok(cache);
  }

  lemma KeptStep(rows: seq<Row>, row: Row)
    ensures Kept(rows + [row]) == Kept(rows) + (if HasNaN(row) then [] else [row])
  {
    assert (rows + [row])[..|rows|] == rows;
  }

  /** The rows kept are exactly the NaN-free ones, in order, and no more than
      there were windows. */
  lemma {:induction false} KeptRows(rows: seq<Row>)
    ensures |Kept(rows)| <= |rows|
    ensures forall i :: 0 <= i < |Kept(rows)| ==> !HasNaN(Kept(rows)[i])
    ensures forall row :: row in Kept(rows) <==> row in rows && !HasNaN(row)
  {
    if rows != [] {
      var n := |rows|;
      KeptRows(rows[..n - 1]);
      assert rows == rows[..n - 1] + [rows[n - 1]];
    }
  }

  /** Filtering keeps the window order: it distributes over concatenation. */
  lemma {:induction false} KeptAppend(a: seq<Row>, b: seq<Row>)
    ensures Kept(a + b) == Kept(a) + Kept(b)
  {
    if b == [] {
      assert a + b == a;
    } else {
      var n := |b|;
      assert (a + b)[..|a + b| - 1] == a + b[..n - 1];
      KeptAppend(a, b[..n - 1]);
    }
  }

  /** The gait feature set: at most one row per window, none with NaN, each
      with the same 47 distinct column names. */
  lemma GaitFeatureSetRows(ext: Externals, f: Frame, ws: nat, fs: real)
    requires f.Valid() && ws as real == 3.0 * fs && GaitFeatureSet(ext, f, ws, fs).Ok?
    ensures |GaitFeatureSet(ext, f, ws, fs).value| <= WindowCount(f.height, ws)
    ensures forall i :: 0 <= i < |GaitFeatureSet(ext, f, ws, fs).value| ==>
              var row := GaitFeatureSet(ext, f, ws, fs).value[i];
              !HasNaN(row) && Names(row) == GaitColumnNames(GaitChannels()) && Distinct(Names(row)) && |row| == 47
  {
    var outs := WindowFeatures(ext, f, GaitChannels(), ws, fs);
    var rows := Collect(outs).value;
    KeptRows(rows);
    forall w | 0 <= w < |rows|
      ensures Names(rows[w]) == GaitColumnNames(GaitChannels()) && Distinct(Names(rows[w])) && |rows[w]| == 47
    {
      GaitFeatureLayout(ext, WindowFrame(f, ws, w), GaitChannels(), fs);
    }
    forall i | 0 <= i < |Kept(rows)|
      ensures Names(Kept(rows)[i]) == GaitColumnNames(GaitChannels()) && Distinct(Names(Kept(rows)[i])) && |Kept(rows)[i]| == 47
    {
      assert Kept(rows)[i] in rows;
    }
  }
}
