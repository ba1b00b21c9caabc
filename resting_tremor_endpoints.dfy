/** endpoints/resting_tremor_endpoints.py: the resting tremor endpoint computed
    from the per-window tremor predictions. The 85th-percentile amplitude
    endpoint is not part of this model. */
module RestingTremorEndpoints {
  import opened Numerics

  /** `compute_tremor_constancy`: the share of windows predicted 1 (tremor), in
      percent; an empty list raises. */
  function TremorConstancy(predictions: seq<int>): (r: Outcome<real>)
    ensures r.Raised? <==> predictions == []
    ensures r.Raised? ==> r.error == ZeroDivisionError
    ensures r.Ok? ==> 0.0 <= r.value <= 100.0 && r.value * |predictions| as real == 100.0 * Count(predictions, 1) as real
  {
    Percentage(predictions, 1)
  }

  /** Tremor in every window is a constancy of 100, in none a constancy of 0,
      and reordering the windows changes nothing. */
  lemma ConstancyExtremes(predictions: seq<int>, reordered: seq<int>)
    requires multiset(predictions) == multiset(reordered)
    ensures predictions != [] && (forall i :: 0 <= i < |predictions| ==> predictions[i] == 1) ==>
              TremorConstancy(predictions) == Ok(100.0)
    ensures predictions != [] && (forall i :: 0 <= i < |predictions| ==> predictions[i] != 1) ==>
              TremorConstancy(predictions) == Ok(0.0)
    ensures TremorConstancy(reordered) == TremorConstancy(predictions)
  {
    if predictions != [] {
      PercentageExtremes(predictions, 1);
    }
    PercentageOrderFree(predictions, reordered, 1);
  }
}
