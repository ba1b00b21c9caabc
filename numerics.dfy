/** Exact-real stand-ins for the NumPy and Python 2 arithmetic the pipeline relies
    on: NaN-carrying floats, escaping exceptions, sums, means, counts, extrema,
    NumPy's sign, Python 2's round() and Python's slice rules. */
module Numerics {

  /** A float computed by the pipeline: an exact number, or NaN. NumPy yields NaN
      for the mean of an empty array and for 0/0 on its own float type. */
  datatype Value = Num(x: real) | NaN

  /** The exceptions the pipeline lets escape; no function of it catches one. */
  datatype Error =
    | ZeroDivisionError  // Python division of a builtin number by zero
    | ValueError         // builtin max() of an empty sequence; a join of overlapping columns
    | KeyError           // a column looked up by a name the frame does not have
    | LibraryError       // raised inside a numeric routine that is not part of this model

  /** The result of a call that may raise. */
  datatype Outcome<+T> = Ok(value: T) | Raised(error: Error)

  /** Sum of a sequence, accumulated left to right. */
  function Sum(s: seq<real>): real
  {
    if s == [] then 0.0 else Sum(s[..|s| - 1]) + s[|s| - 1]
  }

  lemma {:induction false} SumAppend(a: seq<real>, b: seq<real>)
    ensures Sum(a + b) == Sum(a) + Sum(b)
  {
    if b == [] {
      assert a + b == a;
    } else {
      assert (a + b)[..|a + b| - 1] == a + b[..|b| - 1];
      SumAppend(a, b[..|b| - 1]);
    }
  }

  /** Bounds on the elements bound the sum. */
  lemma {:induction false} SumBounds(s: seq<real>, lo: real, hi: real)
    requires forall i :: 0 <= i < |s| ==> lo <= s[i] <= hi
    ensures |s| as real * lo <= Sum(s) <= |s| as real * hi
  {
    if s != [] {
      SumBounds(s[..|s| - 1], lo, hi);
    }
  }

  /** np.mean: NaN for an empty array, otherwise the sum over the length. */
  function Mean(s: seq<real>): (v: Value)
    ensures v.NaN? <==> s == []
    ensures v.Num? ==> v.x * |s| as real == Sum(s)
  {
    if s == [] then NaN else Num(Sum(s) / |s| as real)
  }

  /** The mean of values that lie in [lo, hi] lies in [lo, hi]. */
  lemma MeanBounds(s: seq<real>, lo: real, hi: real)
    requires s != []
    requires forall i :: 0 <= i < |s| ==> lo <= s[i] <= hi
    ensures lo <= Mean(s).x <= hi
  {
    SumBounds(s, lo, hi);
    var n, m := |s| as real, Mean(s).x;
    assert m * n == Sum(s);
    CancelPositive(lo, m, n);
    CancelPositive(m, hi, n);
  }

  /** Number of elements of s that satisfy p. */
  function CountWhere<T>(s: seq<T>, p: T -> bool): (n: nat)
    ensures n <= |s|
  {
    if s == [] then 0 else CountWhere(s[..|s| - 1], p) + (if p(s[|s| - 1]) then 1 else 0)
  }

  lemma {:induction false} CountWhereAppend<T>(a: seq<T>, b: seq<T>, p: T -> bool)
    ensures CountWhere(a + b, p) == CountWhere(a, p) + CountWhere(b, p)
  {
    if b == [] {
      assert a + b == a;
    } else {
      assert (a + b)[..|a + b| - 1] == a + b[..|b| - 1];
      CountWhereAppend(a, b[..|b| - 1], p);
    }
  }

  /** list.count(x): number of elements equal to x. */
  function Count<T(==)>(s: seq<T>, x: T): (n: nat)
    ensures n <= |s|
  {
    CountWhere(s, y => y == x)
  }

  /** A count depends only on the multiset of elements. */
  lemma {:induction false} CountIsMultiplicity<T>(s: seq<T>, x: T)
    ensures Count(s, x) == multiset(s)[x]
  {
    if s != [] {
      var init := s[..|s| - 1];
      assert s == init + [s[|s| - 1]];
      CountIsMultiplicity(init, x);
    }
  }

  /** Every element equal to x: the count is the length; none equal: zero. */
  lemma {:induction false} CountExtremes<T>(s: seq<T>, x: T)
    ensures (forall i :: 0 <= i < |s| ==> s[i] == x) ==> Count(s, x) == |s|
    ensures (forall i :: 0 <= i < |s| ==> s[i] != x) ==> Count(s, x) == 0
  {
    if s != [] {
      CountExtremes(s[..|s| - 1], x);
    }
  }

  /** `xs.count(x) / float(len(xs)) * 100.`: the share of the entries equal to
      x, in percent. An empty list makes the float division raise. */
  function Percentage<T(==)>(xs: seq<T>, x: T): (r: Outcome<real>)
    ensures r.Raised? <==> xs == []
    ensures r.Raised? ==> r.error == ZeroDivisionError
    ensures r.Ok? ==> 0.0 <= r.value <= 100.0 && r.value * |xs| as real == 100.0 * Count(xs, x) as real
  {
    if xs == [] then Raised(ZeroDivisionError)
    else
      var c, n := Count(xs, x) as real, |xs| as real;
      PercentOf(c, n);
      Ok(c / n * 100.0)
  }

  lemma PercentOf(c: real, n: real)
    requires 0.0 <= c <= n && n > 0.0
    ensures 0.0 <= c / n * 100.0 <= 100.0 && c / n * 100.0 * n == 100.0 * c
  {
    var q := c / n;
    assert q * n == c;
  }

  /** Every entry equal to x gives 100, none gives 0. */
  lemma PercentageExtremes<T>(xs: seq<T>, x: T)
    requires xs != []
    ensures (forall i :: 0 <= i < |xs| ==> xs[i] == x) ==> Percentage(xs, x) == Ok(100.0)
    ensures (forall i :: 0 <= i < |xs| ==> xs[i] != x) ==> Percentage(xs, x) == Ok(0.0)
  {
    CountExtremes(xs, x);
    if forall i :: 0 <= i < |xs| ==> xs[i] == x {
      WholeShare(Count(xs, x) as real, |xs| as real);
    }
  }

  lemma WholeShare(c: real, n: real)
    requires c == n && n > 0.0
    ensures c / n * 100.0 == 100.0
  {
    assert c / n == 1.0;
  }

  /** The percentage does not depend on the order of the entries. */
  lemma PercentageOrderFree<T>(xs: seq<T>, ys: seq<T>, x: T)
    requires multiset(xs) == multiset(ys)
    ensures Percentage(xs, x) == Percentage(ys, x)
  {
    CountIsMultiplicity(xs, x);
    CountIsMultiplicity(ys, x);
    assert |xs| == |multiset(xs)| == |ys|;
  }

  /** Largest element of a non-empty sequence. */
  function Max(s: seq<real>): (m: real)
    requires s != []
    ensures m in s
    ensures forall i :: 0 <= i < |s| ==> s[i] <= m
  {
    if |s| == 1 then s[0]
    else
      var m := Max(s[..|s| - 1]);
      assert m in s[..|s| - 1];
      if s[|s| - 1] > m then s[|s| - 1] else m
  }

  /** Smallest element of a non-empty sequence. */
  function Min(s: seq<real>): (m: real)
    requires s != []
    ensures m in s
    ensures forall i :: 0 <= i < |s| ==> m <= s[i]
  {
    if |s| == 1 then s[0]
    else
      var m := Min(s[..|s| - 1]);
      assert m in s[..|s| - 1];
      if s[|s| - 1] < m then s[|s| - 1] else m
  }

  function Abs(x: real): real
  {
    if x < 0.0 then -x else x
  }

  /** np.sign of a number. */
  function Sign(x: real): int
  {
    if x > 0.0 then 1 else if x < 0.0 then -1 else 0
  }

  /** Python 2's round(): a half is rounded away from zero. */
  function PyRound(x: real): int
  {
    if x >= 0.0 then (x + 0.5).Floor else -((-x + 0.5).Floor)
  }

  /** Rounding a non-negative quotient of integers, in integer arithmetic. */
  lemma RoundQuotient(n: nat, d: nat)
    requires d > 0
    ensures PyRound(n as real / d as real) == (2 * n + d) / (2 * d)
  {
    HalfShift(n, d);
    QuotientFloor(2 * n + d, 2 * d);
  }

  lemma HalfShift(n: nat, d: nat)
    requires d > 0
    ensures n as real / d as real + 0.5 == (2 * n + d) as real / (2 * d) as real
  {
    var a, b := n as real, d as real;
    assert (2 * n + d) as real == 2.0 * a + b;
    assert (2 * d) as real == 2.0 * b;
    HalfOfSum(a, b);
  }

  lemma HalfOfSum(a: real, b: real)
    requires b > 0.0
    ensures a / b + 0.5 == (2.0 * a + b) / (2.0 * b)
  {
    assert (2.0 * a + b) / (2.0 * b) == (2.0 * a) / (2.0 * b) + b / (2.0 * b);
    assert (2.0 * a) / (2.0 * b) == a / b;
    assert b / (2.0 * b) == 0.5;
  }

  /** Real floor of a quotient of naturals is their integer quotient. */
  lemma QuotientFloor(a: nat, b: nat)
    requires b > 0
    ensures (a as real / b as real).Floor == a / b
  {
    var q, r := a / b, a % b;
    assert a == q * b + r;
    SplitQuotient(q, r, b);
    FracBounds(r, b);
    FloorIs(a as real / b as real, q);
  }

  lemma SplitQuotient(q: int, r: int, b: int)
    requires b > 0
    ensures (q * b + r) as real / b as real == q as real + r as real / b as real
  {
  }

  lemma FracBounds(r: int, b: int)
    requires 0 <= r < b
    ensures 0.0 <= r as real / b as real < 1.0
  {
  }

  lemma SameProduct(a: real, b: real, m: real)
    requires m != 0.0 && a * m == b * m
    ensures a == b
  {
  }

  /** Dividing both sides of an inequality by a positive number. */
  lemma CancelPositive(a: real, b: real, n: real)
    requires n > 0.0 && a * n <= b * n
    ensures a <= b
  {
  }

  lemma FloorIs(y: real, k: int)
    requires k as real <= y < k as real + 1.0
    ensures y.Floor == k
  {
  }

  /** How Python resolves a slice bound: a negative bound counts from the end,
      and the result is clipped to [0, n]. */
  function SliceBound(i: int, n: nat): (k: nat)
    ensures k <= n
    ensures 0 <= i <= n ==> k == i
    ensures i > n ==> k == n
  {
    if i < 0 then (if i + n < 0 then 0 else i + n) else if i > n then n else i
  }

  /** s[start:stop] under Python's (and NumPy's) step-1 slice rules. */
  function PySlice<T>(s: seq<T>, start: int, stop: int): seq<T>
  {
    var a := SliceBound(start, |s|);
    var b := SliceBound(stop, |s|);
    if a <= b then s[a..b] else []
  }

  // ---------------------------------------------------------------------------
  // Sequences of computations that may raise

  /** Computations run one after another: the first exception escapes and the
      later ones are not run. */
  function Collect<T>(outs: seq<Outcome<T>>): (r: Outcome<seq<T>>)
    ensures r.Ok? <==> forall i :: 0 <= i < |outs| ==> outs[i].Ok?
    ensures r.Ok? ==> |r.value| == |outs| && forall i :: 0 <= i < |outs| ==> r.value[i] == outs[i].value
    ensures r.Raised? ==> exists i :: 0 <= i < |outs| && outs[i] == Raised(r.error) && FirstRaised(outs, i)
  {
    if outs == [] then Ok([])
    else
      match outs[0]
      case Raised(e) => Raised(e)
      case Ok(t) =>
        var rest := Collect(outs[1..]);
        assert forall i :: 1 <= i < |outs| ==> outs[i] == outs[1..][i - 1];
        if rest.Raised? then
          var i :| 0 <= i < |outs| - 1 && outs[1..][i] == Raised(rest.error) && FirstRaised(outs[1..], i);
          assert outs[i + 1] == Raised(rest.error) && FirstRaised(outs, i + 1);
          Raised(rest.error)
        else Ok([t] + rest.value)
  }

  /** Every computation before the i-th succeeded. */
  predicate FirstRaised<T>(outs: seq<Outcome<T>>, i: nat)
  {
    forall j :: 0 <= j < i && j < |outs| ==> outs[j].Ok?
  }

  /** A computation that raises after every earlier one succeeded decides the outcome. */
  lemma {:induction false} CollectFirstRaised<T>(outs: seq<Outcome<T>>, i: nat)
    requires i < |outs| && outs[i].Raised?
    requires forall j :: 0 <= j < i ==> outs[j].Ok?
    ensures Collect(outs) == Raised(outs[i].error)
    decreases i
  {
    if i > 0 {
      assert forall j :: 0 <= j < i - 1 ==> outs[1..][j] == outs[j + 1];
      CollectFirstRaised(outs[1..], i - 1);
    }
  }

  /** The values collected so far are those of the first outcomes. */
  ghost predicate CollectedPrefix<T>(outs: seq<Outcome<T>>, ts: seq<T>)
  {
    |ts| <= |outs| && forall i :: 0 <= i < |ts| ==> outs[i] == Ok(ts[i])
  }

  lemma CollectedSoFar<T>(outs: seq<Outcome<T>>, ts: seq<T>, t: T)
    requires CollectedPrefix(outs, ts) && |ts| < |outs| && outs[|ts|] == Ok(t)
    ensures CollectedPrefix(outs, ts + [t])
  {
  }

  /** When every computation succeeds, Collect returns all their values. */
  lemma CollectAllOk<T>(outs: seq<Outcome<T>>, ts: seq<T>)
    requires CollectedPrefix(outs, ts) && |ts| == |outs|
    ensures Collect(outs) == Ok(ts)
  {
    assert forall i :: 0 <= i < |outs| ==> outs[i].Ok?;
    assert Collect(outs).value == ts;
  }

  /** One more computation at the end. */
  lemma CollectAppend<T>(outs: seq<Outcome<T>>, o: Outcome<T>)
    ensures Collect(outs).Raised? ==> Collect(outs + [o]) == Collect(outs)
    ensures Collect(outs).Ok? && o.Raised? ==> Collect(outs + [o]) == Raised(o.error)
    ensures Collect(outs).Ok? && o.Ok? ==> Collect(outs + [o]) == Ok(Collect(outs).value + [o.value])
  {
    var all := outs + [o];
    assert forall j :: 0 <= j < |outs| ==> all[j] == outs[j];
    if Collect(outs).Raised? {
      var i :| 0 <= i < |outs| && outs[i] == Raised(Collect(outs).error) && FirstRaised(outs, i);
      CollectFirstRaised(all, i);
    } else if o.Raised? {
      CollectFirstRaised(all, |outs|);
    } else {
      assert Collect(all).value == Collect(outs).value + [o.value];
    }
  }

  /** A loop over the computations, one step: an exception ends everything,
      otherwise the value joins those collected so far. */
  lemma CollectStep<T>(outs: seq<Outcome<T>>, i: nat, done: seq<T>)
    requires i < |outs| && Collect(outs[..i]) == Ok(done)
    ensures outs[i].Raised? ==> Collect(outs) == Raised(outs[i].error)
    ensures outs[i].Ok? ==> Collect(outs[..i + 1]) == Ok(done + [outs[i].value])
  {
    assert outs[..i + 1] == outs[..i] + [outs[i]];
    CollectAppend(outs[..i], outs[i]);
    if outs[i].Raised? {
      assert forall j :: 0 <= j < i ==> outs[..i][j] == outs[j];
      CollectFirstRaised(outs, i);
    }
  }
}
