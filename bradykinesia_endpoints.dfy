/** endpoints/bradykinesia_endpoints.py: the bradykinesia endpoints computed
    from the per-window hand movement results — the mean amplitude, the
    percentage of windows without hand movement, and the bouts (maximal runs)
    of windows without and with hand movement. */
module BradykinesiaEndpoints {
  import opened Numerics

  /** `compute_aggregate_hand_movement_amplitude`: np.mean of the amplitudes,
      NaN for none and otherwise between the smallest and the largest. */
  function AggregateHandMovementAmplitude(amplitudes: seq<real>): (v: Value)
    ensures v.NaN? <==> amplitudes == []
    ensures v.Num? ==> Min(amplitudes) <= v.x <= Max(amplitudes)
  {
    if amplitudes == [] then NaN
    else
      MeanBounds(amplitudes, Min(amplitudes), Max(amplitudes));
      Mean(amplitudes)
  }

  /** `compute_aggregate_percentage_of_no_hand_movement`: the share of windows
      predicted 0, in percent; an empty list raises. */
  function PercentageOfNoHandMovement(predictions: seq<int>): (r: Outcome<real>)
    ensures r.Raised? <==> predictions == []
    ensures r.Raised? ==> r.error == ZeroDivisionError
    ensures r.Ok? ==> 0.0 <= r.value <= 100.0 && r.value * |predictions| as real == 100.0 * Count(predictions, 0) as real
  {
    Percentage(predictions, 0)
  }

  // ---------------------------------------------------------------------------
  // Bouts

  /** Predictions of hand movement: 1 for movement, 0 for none. */
  predicate Binary(s: seq<int>)
  {
    forall i :: 0 <= i < |s| ==> s[i] == 0 || s[i] == 1
  }

  /** A run of `length` equal predictions `kind`. */
  datatype Run = Run(kind: int, length: nat)

  /** The runs of a non-empty sequence of predictions, read left to right:
      those a different prediction has closed, and the current one. */
  function Scan(s: seq<int>): (st: (seq<Run>, Run))
    requires s != []
    ensures st.1.kind == s[|s| - 1]
  {
    if |s| == 1 then ([], Run(s[0], 1))
    else
      var st := Scan(s[..|s| - 1]);
      var x := s[|s| - 1];
      if st.1.kind == x then (st.0, Run(x, st.1.length + 1)) else (st.0 + [st.1], Run(x, 1))
  }

  /** The maximal runs of equal predictions, in order. */
  function Runs(s: seq<int>): (r: seq<Run>)
    ensures r == [] <==> s == []
  {
    if s == [] then [] else Scan(s).0 + [Scan(s).1]
  }

  function Repeat(x: int, n: nat): (s: seq<int>)
    ensures |s| == n && forall i :: 0 <= i < n ==> s[i] == x
  {
    seq(n, _ => x)
  }

  /** The predictions a sequence of runs stands for. */
  function Expand(r: seq<Run>): seq<int>
  {
    if r == [] then [] else Expand(r[..|r| - 1]) + Repeat(r[|r| - 1].kind, r[|r| - 1].length)
  }

  lemma ExpandAppend(r: seq<Run>, q: Run)
    ensures Expand(r + [q]) == Expand(r) + Repeat(q.kind, q.length)
  {
    assert (r + [q])[..|r|] == r;
  }

  /** No run is empty and neighbouring runs differ in kind. */
  predicate Maximal(r: seq<Run>)
  {
    (forall i :: 0 <= i < |r| ==> r[i].length >= 1) &&
    (forall i :: 0 < i < |r| ==> r[i - 1].kind != r[i].kind)
  }

  /** The runs are maximal and stand for the predictions they came from. */
  lemma RunsRoundTrip(s: seq<int>)
    ensures Maximal(Runs(s)) && Expand(Runs(s)) == s
  {
    if s != [] {
      ScanRoundTrip(s);
      ExpandAppend(Scan(s).0, Scan(s).1);
    }
  }

  lemma {:induction false} ScanRoundTrip(s: seq<int>)
    requires s != []
    ensures Maximal(Scan(s).0 + [Scan(s).1])
    ensures Expand(Scan(s).0) + Repeat(Scan(s).1.kind, Scan(s).1.length) == s
  {
    if |s| == 1 {
      assert Repeat(s[0], 1) == s;
    } else {
      var init, x := s[..|s| - 1], s[|s| - 1];
      assert s == init + [x];
      ScanRoundTrip(init);
      var closed, cur := Scan(init).0, Scan(init).1;
      if cur.kind == x {
        assert Repeat(x, cur.length + 1) == Repeat(x, cur.length) + [x];
        MaximalGrow(closed, cur);
      } else {
        ExpandAppend(closed, cur);
        assert Repeat(x, 1) == [x];
        MaximalAppend(closed + [cur], x);
      }
    }
  }

  lemma MaximalGrow(front: seq<Run>, last: Run)
    requires Maximal(front + [last])
    ensures Maximal(front + [Run(last.kind, last.length + 1)])
  {
    var r, r' := front + [last], front + [Run(last.kind, last.length + 1)];
    assert forall i :: 0 <= i < |front| ==> r'[i] == r[i];
    assert r'[|front|].kind == r[|front|].kind && r'[|front|].length >= 1;
  }

  lemma MaximalAppend(r: seq<Run>, x: int)
    requires Maximal(r) && r != [] && r[|r| - 1].kind != x
    ensures Maximal(r + [Run(x, 1)])
  {
  }

  /** The lengths of the runs of one kind, in order. */
  function Lengths(r: seq<Run>, kind: int): (n: seq<nat>)
    ensures |n| <= |r|
  {
    if r == [] then []
    else Lengths(r[..|r| - 1], kind) + (if r[|r| - 1].kind == kind then [r[|r| - 1].length] else [])
  }

  lemma LengthsAppend(r: seq<Run>, q: Run, kind: int)
    ensures Lengths(r + [q], kind) == Lengths(r, kind) + (if q.kind == kind then [q.length] else [])
  {
    assert (r + [q])[..|r|] == r;
  }

  /** The bout lists `calculate_hand_movement_bout_lengths` returns. */
  function NoHandMovementBouts(s: seq<int>): seq<nat>
  {
    Lengths(Runs(s), 0)
  }

  function HandMovementBouts(s: seq<int>): seq<nat>
  {
    Lengths(Runs(s), 1)
  }

  /** Sum of a list of lengths. */
  function NatSum(s: seq<nat>): nat
  {
    if s == [] then 0 else NatSum(s[..|s| - 1]) + s[|s| - 1]
  }

  lemma NatSumAppend(s: seq<nat>, x: nat)
    ensures NatSum(s + [x]) == NatSum(s) + x
  {
    assert (s + [x])[..|s|] == s;
  }

  /** The runs of one kind add up to the number of predictions of that kind. */
  lemma RunSums(s: seq<int>, kind: int)
    ensures NatSum(Lengths(Runs(s), kind)) == Count(s, kind)
  {
    if s != [] {
      ScanSums(s, kind);
      assert Runs(s) == Scan(s).0 + [Scan(s).1];
      LengthsSum(Scan(s).0, Scan(s).1, kind);
    }
  }

  lemma {:induction false} ScanSums(s: seq<int>, kind: int)
    requires s != []
    ensures NatSum(Lengths(Scan(s).0, kind)) + (if Scan(s).1.kind == kind then Scan(s).1.length else 0) == Count(s, kind)
  {
    CountLast(s, kind);
    if |s| > 1 {
      var init, x := s[..|s| - 1], s[|s| - 1];
      ScanSums(init, kind);
      var closed, cur := Scan(init).0, Scan(init).1;
      if cur.kind != x {
        assert Scan(s) == (closed + [cur], Run(x, 1));
        LengthsSum(closed, cur, kind);
      } else {
        assert Scan(s) == (closed, Run(x, cur.length + 1));
      }
    }
  }

  lemma LengthsSum(r: seq<Run>, q: Run, kind: int)
    ensures NatSum(Lengths(r + [q], kind)) == NatSum(Lengths(r, kind)) + if q.kind == kind then q.length else 0
  {
    LengthsAppend(r, q, kind);
    if q.kind == kind {
      NatSumAppend(Lengths(r, kind), q.length);
    } else {
      assert Lengths(r, kind) + [] == Lengths(r, kind);
    }
  }

  lemma CountLast(s: seq<int>, x: int)
    requires s != []
    ensures Count(s, x) == Count(s[..|s| - 1], x) + if s[|s| - 1] == x then 1 else 0
  {
  }

  /** Every bout of a kind is at least one window long. */
  lemma {:induction false} LengthsPositive(r: seq<Run>, kind: int)
    requires Maximal(r)
    ensures forall j :: 0 <= j < |Lengths(r, kind)| ==> Lengths(r, kind)[j] >= 1
  {
    if r != [] {
      LengthsPositive(r[..|r| - 1], kind);
    }
  }

  /** For 0/1 predictions: the bouts add up to the numbers of 0s and 1s and no
      bout is empty; no predictions give no bouts. */
  lemma BoutTotals(s: seq<int>)
    ensures NatSum(NoHandMovementBouts(s)) == Count(s, 0) && NatSum(HandMovementBouts(s)) == Count(s, 1)
    ensures forall j :: 0 <= j < |NoHandMovementBouts(s)| ==> NoHandMovementBouts(s)[j] >= 1
    ensures forall j :: 0 <= j < |HandMovementBouts(s)| ==> HandMovementBouts(s)[j] >= 1
    ensures s == [] ==> NoHandMovementBouts(s) == [] && HandMovementBouts(s) == []
  {
    RunSums(s, 0);
    RunSums(s, 1);
    RunsRoundTrip(s);
    LengthsPositive(Runs(s), 0);
    LengthsPositive(Runs(s), 1);
  }

  /** For 0/1 predictions the two bout lists differ in length by at most one. */
  lemma BoutCounts(s: seq<int>)
    requires Binary(s)
    ensures -1 <= |NoHandMovementBouts(s)| - |HandMovementBouts(s)| <= 1
  {
    if s != [] {
      RunsAlternate(s);
      AlternatingLengths(Runs(s), s[0]);
    }
  }

  /** The kinds of the runs of 0/1 predictions are 0 and 1, and the first is
      the first prediction. */
  lemma {:induction false} ScanKinds(s: seq<int>)
    requires Binary(s) && s != []
    ensures forall i :: 0 <= i < |Scan(s).0| ==> Scan(s).0[i].kind == 0 || Scan(s).0[i].kind == 1
    ensures Scan(s).1.kind == 0 || Scan(s).1.kind == 1
    ensures (Scan(s).0 + [Scan(s).1])[0].kind == s[0]
  {
    if |s| > 1 {
      var init := s[..|s| - 1];
      assert Binary(init) by {
        assert forall i :: 0 <= i < |init| ==> init[i] == s[i];
      }
      ScanKinds(init);
      assert init[0] == s[0];
    }
  }

  /** Runs of 0/1 predictions alternate, starting with the first prediction. */
  lemma RunsAlternate(s: seq<int>)
    requires Binary(s) && s != []
    ensures forall i :: 0 <= i < |Runs(s)| ==> Runs(s)[i].kind == if i % 2 == 0 then s[0] else 1 - s[0]
  {
    ScanKinds(s);
    RunsRoundTrip(s);
    var r := Runs(s);
    forall i | 0 <= i < |r|
      ensures r[i].kind == if i % 2 == 0 then s[0] else 1 - s[0]
    {
      AlternatesAt(r, s[0], i);
    }
  }

  lemma {:induction false} AlternatesAt(r: seq<Run>, v: int, i: nat)
    requires Maximal(r) && r != [] && r[0].kind == v && i < |r|
    requires forall k :: 0 <= k < |r| ==> r[k].kind == 0 || r[k].kind == 1
    ensures r[i].kind == if i % 2 == 0 then v else 1 - v
  {
    if i > 0 {
      AlternatesAt(r, v, i - 1);
    }
  }

  /** For alternating runs, the runs of the first kind are the even-numbered
      ones and the others the odd-numbered ones. */
  lemma {:induction false} AlternatingLengths(r: seq<Run>, v: int)
    requires forall i :: 0 <= i < |r| ==> r[i].kind == if i % 2 == 0 then v else 1 - v
    ensures |Lengths(r, v)| == (|r| + 1) / 2 && |Lengths(r, 1 - v)| == |r| / 2
    ensures forall j :: 0 <= j < |Lengths(r, v)| ==> Lengths(r, v)[j] == r[2 * j].length
    ensures forall j :: 0 <= j < |Lengths(r, 1 - v)| ==> Lengths(r, 1 - v)[j] == r[2 * j + 1].length
  {
    if r != [] {
      var init, q := r[..|r| - 1], r[|r| - 1];
      assert r == init + [q];
      AlternatingLengths(init, v);
      LengthsAppend(init, q, v);
      LengthsAppend(init, q, 1 - v);
    }
  }

  /** Runs given by alternating lengths, starting with kind v: the runs of
      kind v take their lengths from a, the others from b. */
  function Interleave(v: int, a: seq<nat>, b: seq<nat>): (r: seq<Run>)
    requires |b| <= |a| <= |b| + 1
    ensures |r| == |a| + |b|
  {
    seq(|a| + |b|, i requires 0 <= i < |a| + |b| => if i % 2 == 0 then Run(v, a[i / 2]) else Run(1 - v, b[i / 2]))
  }

  /** Interleaving the two bout lists, starting with the kind of the first
      prediction, gives back the predictions. */
  lemma BoutRoundTrip(s: seq<int>)
    requires Binary(s) && s != []
    ensures s[0] == 0 ==>
              |HandMovementBouts(s)| <= |NoHandMovementBouts(s)| <= |HandMovementBouts(s)| + 1 &&
              Expand(Interleave(0, NoHandMovementBouts(s), HandMovementBouts(s))) == s
    ensures s[0] == 1 ==>
              |NoHandMovementBouts(s)| <= |HandMovementBouts(s)| <= |NoHandMovementBouts(s)| + 1 &&
              Expand(Interleave(1, HandMovementBouts(s), NoHandMovementBouts(s))) == s
  {
    RunsAlternate(s);
    InterleaveAlternating(Runs(s), s[0]);
    RunsRoundTrip(s);
  }

  /** Alternating runs are the interleaving of their two kinds' lengths. */
  lemma InterleaveAlternating(r: seq<Run>, v: int)
    requires forall i :: 0 <= i < |r| ==> r[i].kind == if i % 2 == 0 then v else 1 - v
    ensures |Lengths(r, 1 - v)| <= |Lengths(r, v)| <= |Lengths(r, 1 - v)| + 1
    ensures Interleave(v, Lengths(r, v), Lengths(r, 1 - v)) == r
  {
    AlternatingLengths(r, v);
    var a, b := Lengths(r, v), Lengths(r, 1 - v);
    var w := Interleave(v, a, b);
    forall i | 0 <= i < |r|
      ensures w[i] == r[i]
    {
      if i % 2 == 0 {
        assert 2 * (i / 2) == i;
      } else {
        assert 2 * (i / 2) + 1 == i;
      }
    }
  }

  // ---------------------------------------------------------------------------
  // The bout loop

  /** The runs the loop has appended once it has looked at the first k
      predictions: those the next prediction closes, and all of them at the
      end. */
  function Closed(s: seq<int>, k: nat): seq<Run>
    requires k <= |s|
  {
    if k < |s| then Scan(s[..k + 1]).0 else Runs(s)
  }

  /** How the current run and the appended runs change with prediction k. */
  lemma BoutStep(s: seq<int>, k: nat)
    requires k < |s|
    ensures Scan(s[..k + 1]).1.kind == s[k]
    ensures Scan(s[..k + 1]).1.length ==
              if k > 0 && Scan(s[..k]).1.kind == s[k] then Scan(s[..k]).1.length + 1 else 1
    ensures k + 1 < |s| && s[k + 1] != s[k] ==> Closed(s, k + 1) == Closed(s, k) + [Scan(s[..k + 1]).1]
    ensures k + 1 < |s| && s[k + 1] == s[k] ==> Closed(s, k + 1) == Closed(s, k)
    ensures k + 1 == |s| ==> Closed(s, k + 1) == Closed(s, k) + [Scan(s[..k + 1]).1]
  {
    var p := s[..k + 1];
    assert p[..k] == s[..k];
    if k + 1 < |s| {
      var p' := s[..k + 2];
      assert p'[..k + 1] == p;
    } else {
      assert p == s;
    }
  }

  /** What step k appends to the list of each kind: the current run, once
      the next prediction differs or the predictions end. */
  lemma BoutListsStep(s: seq<int>, k: nat)
    requires k < |s|
    ensures var cur := Scan(s[..k + 1]).1;
            var closes := k + 1 == |s| || s[k + 1] != s[k];
            Lengths(Closed(s, k + 1), 0) == Lengths(Closed(s, k), 0) + (if closes && cur.kind == 0 then [cur.length] else []) &&
            Lengths(Closed(s, k + 1), 1) == Lengths(Closed(s, k), 1) + (if closes && cur.kind == 1 then [cur.length] else [])
  {
    BoutStep(s, k);
    var cur := Scan(s[..k + 1]).1;
    LengthsAppend(Closed(s, k), cur, 0);
    LengthsAppend(Closed(s, k), cur, 1);
    assert Lengths(Closed(s, k), 0) + [] == Lengths(Closed(s, k), 0);
    assert Lengths(Closed(s, k), 1) + [] == Lengths(Closed(s, k), 1);
  }

  /** `calculate_hand_movement_bout_lengths`: two counters and two lists.
      The result is stated for 0/1 predictions, as the function documents. */
  method CalculateHandMovementBoutLengths(data: seq<int>) returns (noHandMovementBouts: seq<nat>, handMovementBouts: seq<nat>)
    ensures Binary(data) ==> noHandMovementBouts == NoHandMovementBouts(data)
    ensures Binary(data) ==> handMovementBouts == HandMovementBouts(data)
  {
    var count0, count1 := 0, 0;
    noHandMovementBouts, handMovementBouts := [], [];
    ghost var binary := Binary(data);
    for idx := 0 to |data|
      invariant binary ==> noHandMovementBouts == Lengths(Closed(data, idx), 0)
      invariant binary ==> handMovementBouts == Lengths(Closed(data, idx), 1)
      invariant binary && idx == 0 ==> count0 == 0 && count1 == 0
      invariant binary && idx > 0 ==>
                  count0 == (if Scan(data[..idx]).1.kind == 0 then Scan(data[..idx]).1.length else 0) &&
                  count1 == (if Scan(data[..idx]).1.kind == 1 then Scan(data[..idx]).1.length else 0)
    {
      if binary {
        LoopStep(data, idx, count0, count1);
      }
      count0, count1, noHandMovementBouts, handMovementBouts :=
        CountPrediction(data, idx, count0, count1, noHandMovementBouts, handMovementBouts);
    }
  }

  /** The loop invariant is kept by a step on 0/1 predictions. */
  lemma LoopStep(data: seq<int>, idx: nat, c0: nat, c1: nat)
    requires Binary(data) && idx < |data|
    requires idx == 0 ==> c0 == 0 && c1 == 0
    requires idx > 0 ==>
               c0 == (if Scan(data[..idx]).1.kind == 0 then Scan(data[..idx]).1.length else 0) &&
               c1 == (if Scan(data[..idx]).1.kind == 1 then Scan(data[..idx]).1.length else 0)
    ensures var c0', c1' := (if data[idx] == 0 then c0 + 1 else if data[idx] == 1 then 0 else c0),
                            (if data[idx] == 1 then c1 + 1 else if data[idx] == 0 then 0 else c1);
            var cur := Scan(data[..idx + 1]).1;
            c0' == (if cur.kind == 0 then cur.length else 0) && c1' == (if cur.kind == 1 then cur.length else 0) &&
            Lengths(Closed(data, idx + 1), 0) ==
              Lengths(Closed(data, idx), 0) + (if data[idx] == 0 && idx + 1 < |data| && data[idx + 1] == 1 then [c0'] else [])
                                            + (if idx + 1 == |data| && c0' > 0 then [c0'] else []) &&
            Lengths(Closed(data, idx + 1), 1) ==
              Lengths(Closed(data, idx), 1) + (if data[idx] == 1 && idx + 1 < |data| && data[idx + 1] == 0 then [c1'] else [])
                                            + (if idx + 1 == |data| && c1' > 0 then [c1'] else [])
  {
    BoutStep(data, idx);
    assert data[idx] == 0 || data[idx] == 1;
    var c0', c1' := (if data[idx] == 0 then c0 + 1 else 0), (if data[idx] == 1 then c1 + 1 else 0);
    KindStep(data, idx, 0, c0');
    KindStep(data, idx, 1, c1');
  }

  /** The step on the list of one kind c, whose counter is cnt. */
  lemma KindStep(data: seq<int>, idx: nat, c: int, cnt: nat)
    requires Binary(data) && idx < |data| && (c == 0 || c == 1)
    requires var cur := Scan(data[..idx + 1]).1;
             cur.kind == data[idx] && cnt == (if cur.kind == c then cur.length else 0)
    ensures Lengths(Closed(data, idx + 1), c) ==
              Lengths(Closed(data, idx), c) + (if data[idx] == c && idx + 1 < |data| && data[idx + 1] == 1 - c then [cnt] else [])
                                            + (if idx + 1 == |data| && cnt > 0 then [cnt] else [])
  {
    BoutStep(data, idx);
    BoutListsStep(data, idx);
    var cur := Scan(data[..idx + 1]).1;
    var closes := idx + 1 == |data| || data[idx + 1] != data[idx];
    if idx + 1 < |data| {
      assert data[idx + 1] == 0 || data[idx + 1] == 1;
    }
    AppendStep(Lengths(Closed(data, idx), c), Lengths(Closed(data, idx + 1), c), cur.kind, cur.length, closes, c, cnt,
      data[idx] == c && idx + 1 < |data| && data[idx + 1] == 1 - c, idx + 1 == |data|);
  }

  /** The list of one kind grows by the closed run exactly when the source
      appends its counter: at a change of prediction (a) or at the end (b). */
  lemma AppendStep(before: seq<nat>, after: seq<nat>, kind: int, length: nat, closes: bool, c: int, cnt: nat, a: bool, b: bool)
    requires after == before + (if closes && kind == c then [length] else [])
    requires cnt == (if kind == c then length else 0) && length >= 1
    requires !(a && b) && (a ==> kind == c)
    requires (closes && kind == c) <==> (a || (b && kind == c))
    ensures after == before + (if a then [cnt] else []) + (if b && cnt > 0 then [cnt] else [])
  {
    assert before + [] == before;
  }

  /** The loop body on prediction idx: a 0 grows the counter of 0s, restarts
      that of 1s and, when a 1 follows, appends the run of 0s; a 1 does the
      same the other way round; after the last prediction each counter that
      is running is appended. */
  method CountPrediction(data: seq<int>, idx: nat, count0: nat, count1: nat, noBouts: seq<nat>, bouts: seq<nat>)
    returns (count0': nat, count1': nat, noBouts': seq<nat>, bouts': seq<nat>)
    requires idx < |data|
    ensures count0' == (if data[idx] == 0 then count0 + 1 else if data[idx] == 1 then 0 else count0)
    ensures count1' == (if data[idx] == 1 then count1 + 1 else if data[idx] == 0 then 0 else count1)
    ensures noBouts' == noBouts + (if data[idx] == 0 && idx + 1 < |data| && data[idx + 1] == 1 then [count0'] else [])
                                + (if idx + 1 == |data| && count0' > 0 then [count0'] else [])
    ensures bouts' == bouts + (if data[idx] == 1 && idx + 1 < |data| && data[idx + 1] == 0 then [count1'] else [])
                            + (if idx + 1 == |data| && count1' > 0 then [count1'] else [])
  {
    count0', count1', noBouts', bouts' := count0, count1, noBouts, bouts;
    var i := data[idx];
    if i == 0 {
      count1' := 0;
      count0' := count0' + 1;
      if idx + 1 < |data| {
        if data[idx + 1] == 1 {
          noBouts' := noBouts' + [count0'];
        }
      }
    }
    if i == 1 {
      count1' := count1' + 1;
      count0' := 0;
      if idx + 1 < |data| {
        if data[idx + 1] == 0 {
          bouts' := bouts' + [count1'];
        }
      }
    }
    if idx + 1 == |data| {
      if count0' > 0 {
        noBouts' := noBouts' + [count0'];
      }
      if count1' > 0 {
        bouts' := bouts' + [count1'];
      }
    }
  }

  /** `compute_aggregate_length_of_no_hand_movement_bouts`. */
  method ComputeAggregateLengthOfNoHandMovementBouts(predictions: seq<int>) returns (v: Value)
    ensures Binary(predictions) ==> v == Mean(AsReals(NoHandMovementBouts(predictions)))
  {
    var noHandMovementBouts, _ := CalculateHandMovementBoutLengths(predictions);
    v := Mean(AsReals(noHandMovementBouts));
  }

  function AsReals(s: seq<nat>): (r: seq<real>)
    ensures |r| == |s| && forall i :: 0 <= i < |s| ==> r[i] == s[i] as real
  {
    seq(|s|, i requires 0 <= i < |s| => s[i] as real)
  }

  lemma {:induction false} SumAsReals(s: seq<nat>)
    ensures Sum(AsReals(s)) == NatSum(s) as real
  {
    if s != [] {
      assert AsReals(s)[..|s| - 1] == AsReals(s[..|s| - 1]);
      SumAsReals(s[..|s| - 1]);
    }
  }

  /** The mean bout length without movement is NaN when no window is without
      movement, and otherwise a length of at least one window: the number of
      0s over the number of their bouts. */
  lemma MeanNoMovementBoutLength(s: seq<int>)
    ensures Count(s, 0) == 0 ==> Mean(AsReals(NoHandMovementBouts(s))) == NaN
    ensures Count(s, 0) > 0 ==> Mean(AsReals(NoHandMovementBouts(s))).Num?
    ensures Count(s, 0) > 0 ==> Mean(AsReals(NoHandMovementBouts(s))).x >= 1.0
    ensures Count(s, 0) > 0 ==>
              Mean(AsReals(NoHandMovementBouts(s))).x * (|NoHandMovementBouts(s)| as real) == Count(s, 0) as real
  {
    BoutTotals(s);
    MeanOfBouts(NoHandMovementBouts(s), Count(s, 0));
  }

  /** Bouts of at least one window each, `total` windows in all. */
  lemma MeanOfBouts(b: seq<nat>, total: nat)
    requires forall j :: 0 <= j < |b| ==> b[j] >= 1
    requires NatSum(b) == total
    ensures total == 0 ==> Mean(AsReals(b)) == NaN
    ensures total > 0 ==> Mean(AsReals(b)).Num? && Mean(AsReals(b)).x >= 1.0
    ensures total > 0 ==> Mean(AsReals(b)).x * (|b| as real) == total as real
  {
    NatSumAtLeastLength(b);
    if b != [] {
      MeanOfLengths(b);
      SumAsReals(b);
      MeanIsTotalOverCount(b, total as real);
    }
  }

  lemma {:induction false} NatSumAtLeastLength(s: seq<nat>)
    requires forall j :: 0 <= j < |s| ==> s[j] >= 1
    ensures NatSum(s) >= |s|
  {
    if s != [] {
      NatSumAtLeastLength(s[..|s| - 1]);
    }
  }

  /** The mean of lengths of at least one is a number of at least one. */
  lemma MeanOfLengths(b: seq<nat>)
    requires b != [] && forall j :: 0 <= j < |b| ==> b[j] >= 1
    ensures Mean(AsReals(b)).Num? && Mean(AsReals(b)).x >= 1.0
  {
    var v := AsReals(b);
    MeanBounds(v, 1.0, Max(v));
  }

  lemma MeanIsTotalOverCount(b: seq<nat>, total: real)
    requires b != [] && Sum(AsReals(b)) == total
    ensures Mean(AsReals(b)).x * (|b| as real) == total
  {
    assert Mean(AsReals(b)).x * (|b| as real) == Sum(AsReals(b));
  }
}
