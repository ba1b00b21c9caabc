/** endpoints/filter_classifier_predictions.py: the decision tree that decides,
    per window, which assessment a prediction feeds. A window with no hand
    movement goes to the tremor assessment; one with hand movement and no gait
    goes to the bradykinesia assessment; one with hand movement and gait to
    neither. Outputs a branch does not feed are the string 'NA'. */
module FilterClassifierPredictions {
  import opened Numerics

  /** One row of `algorithm_predictions`: a window's classifier outputs. The
      predictions are compared with the numbers 0 and 1 only, so a NaN in any
      of them compares unequal to both. */
  datatype Prediction = Prediction(
    handMovement: Value,
    gait: Value,
    tremorConstancy: Value,
    tremorAmplitude: Value,
    handMovementAmplitude: Value,
    handMovementJerk: Value)

  /** An output cell: the string 'NA', or a value. */
  datatype Cell = NA | Entry(value: Value)

  /** What one row contributes to the five output columns. */
  datatype Filtered = Filtered(
    tremorConstancy: Cell,
    tremorAmplitude: Cell,
    handMovement: Cell,
    handMovementAmplitude: Cell,
    handMovementJerk: Cell)

  /** The returned DataFrame: its columns `tremor_classifier_predictions`,
      `tremor_amplitude_predictions`, `hand_movement_predictions`,
      `hand_movement_amplitude` and `hand_movement_jerk`, in that order. */
  datatype FilteredTable = FilteredTable(
    tremorClassifierPredictions: seq<Cell>,
    tremorAmplitudePredictions: seq<Cell>,
    handMovementPredictions: seq<Cell>,
    handMovementAmplitude: seq<Cell>,
    handMovementJerk: seq<Cell>)
  {
    /** Every column has one entry per row. */
    predicate Rows(n: nat)
    {
      |tremorClassifierPredictions| == n && |tremorAmplitudePredictions| == n && |handMovementPredictions| == n &&
      |handMovementAmplitude| == n && |handMovementJerk| == n
    }

    /** Row i across the five columns. */
    function Row(i: nat): Filtered
      requires i < |tremorClassifierPredictions| && i < |tremorAmplitudePredictions| &&
        i < |handMovementPredictions| && i < |handMovementAmplitude| && i < |handMovementJerk|
    {
      Filtered(tremorClassifierPredictions[i], tremorAmplitudePredictions[i], handMovementPredictions[i],
        handMovementAmplitude[i], handMovementJerk[i])
    }
  }

  predicate NoHandMovement(p: Prediction)
  {
    p.handMovement == Num(0.0)
  }

  predicate NoGait(p: Prediction)
  {
    p.gait == Num(0.0)
  }

  /** The tree on one row. The tremor outputs are values exactly when there is
      no hand movement, the bradykinesia outputs exactly when there is hand
      movement and no gait, and the hand movement output exactly when one of
      the two holds; the three values a branch keeps pass through unchanged,
      and the tremor amplitude passes only with tremor (constancy 1), being 0
      without it. */
  function FilterRow(p: Prediction): (f: Filtered)
    ensures f.tremorConstancy.Entry? <==> NoHandMovement(p)
    ensures f.tremorAmplitude.Entry? <==> NoHandMovement(p)
    ensures f.handMovementAmplitude.Entry? <==> !NoHandMovement(p) && NoGait(p)
    ensures f.handMovementJerk.Entry? <==> !NoHandMovement(p) && NoGait(p)
    ensures f.handMovement.Entry? <==> NoHandMovement(p) || NoGait(p)
    ensures f.tremorConstancy.Entry? ==> f.tremorConstancy.value == p.tremorConstancy
    ensures f.tremorAmplitude.Entry? ==>
              f.tremorAmplitude.value == if p.tremorConstancy == Num(1.0) then p.tremorAmplitude else Num(0.0)
    ensures f.handMovement.Entry? ==> f.handMovement.value == p.handMovement
    ensures f.handMovementAmplitude.Entry? ==> f.handMovementAmplitude.value == p.handMovementAmplitude
    ensures f.handMovementJerk.Entry? ==> f.handMovementJerk.value == p.handMovementJerk
  {
    if NoHandMovement(p) then
      var amplitude := if p.tremorConstancy == Num(1.0) then p.tremorAmplitude else Num(0.0);
      Filtered(Entry(p.tremorConstancy), Entry(amplitude), Entry(p.handMovement), NA, NA)
    else if NoGait(p) then
      Filtered(NA, NA, Entry(p.handMovement), Entry(p.handMovementAmplitude), Entry(p.handMovementJerk))
    else
      Filtered(NA, NA, NA, NA, NA)
  }

  /** `filter_predictions_by_tree`: five lists appended row by row, then
      assembled into the table. */
  method FilterPredictionsByTree(algorithmPredictions: seq<Prediction>) returns (finalData: FilteredTable)
    ensures finalData.Rows(|algorithmPredictions|)
    ensures forall i :: 0 <= i < |algorithmPredictions| ==> finalData.Row(i) == FilterRow(algorithmPredictions[i])
  {
    var tcFiltered: seq<Cell> := [];
    var taFiltered: seq<Cell> := [];
    var baFiltered: seq<Cell> := [];
    var bjFiltered: seq<Cell> := [];
    var hmFiltered: seq<Cell> := [];
    for r := 0 to |algorithmPredictions|
      invariant |tcFiltered| == r && |taFiltered| == r && |baFiltered| == r && |bjFiltered| == r && |hmFiltered| == r
      invariant forall k :: 0 <= k < r ==>
                  Filtered(tcFiltered[k], taFiltered[k], hmFiltered[k], baFiltered[k], bjFiltered[k]) ==
                  FilterRow(algorithmPredictions[k])
    {
      var row := algorithmPredictions[r];
      var hmP := row.handMovement;
      var gaitP := row.gait;
      var tremCP := row.tremorConstancy;
      var tremAP := row.tremorAmplitude;
      var bradyAmpP := row.handMovementAmplitude;
      var bradyJP := row.handMovementJerk;
      if hmP == Num(0.0) {
        baFiltered := baFiltered + [NA];
        bjFiltered := bjFiltered + [NA];
        hmFiltered := hmFiltered + [Entry(hmP)];
        tcFiltered := tcFiltered + [Entry(tremCP)];
        if tremCP == Num(1.0) {
          taFiltered := taFiltered + [Entry(tremAP)];
        } else {
          taFiltered := taFiltered + [Entry(Num(0.0))];
        }
      } else {
        tcFiltered := tcFiltered + [NA];
        taFiltered := taFiltered + [NA];
        if gaitP == Num(0.0) {
          baFiltered := baFiltered + [Entry(bradyAmpP)];
          hmFiltered := hmFiltered + [Entry(hmP)];
          bjFiltered := bjFiltered + [Entry(bradyJP)];
        } else {
          baFiltered := baFiltered + [NA];
          hmFiltered := hmFiltered + [NA];
          bjFiltered := bjFiltered + [NA];
        }
      }
    }
    finalData := FilteredTable(tcFiltered, taFiltered, hmFiltered, baFiltered, bjFiltered);
  }

  // ---------------------------------------------------------------------------
  // What the tree promises

  /** A row feeds at most one assessment: never both the tremor and the
      bradykinesia outputs. */
  lemma OneAssessment(p: Prediction)
    ensures !(FilterRow(p).tremorConstancy.Entry? && FilterRow(p).handMovementAmplitude.Entry?)
    ensures FilterRow(p).handMovement.NA? ==>
              FilterRow(p) == Filtered(NA, NA, NA, NA, NA)
  {
  }

  /** The gait prediction never reaches the output, and it matters only
      through whether it is 0, and only when there is hand movement. */
  lemma GaitOnlyRoutes(p: Prediction, gait: Value)
    ensures NoHandMovement(p) ==> FilterRow(p.(gait := gait)) == FilterRow(p)
    ensures (gait == Num(0.0) <==> NoGait(p)) ==> FilterRow(p.(gait := gait)) == FilterRow(p)
  {
  }

  /** Every row takes exactly one of the three branches, so the rows sent to
      the tremor assessment, the rows sent to the bradykinesia assessment and
      the rows dropped add up to the whole table. */
  lemma {:induction false} BranchesPartitionRows(rows: seq<Prediction>)
    ensures CountWhere(rows, NoHandMovement) + CountWhere(rows, ToBradykinesia) + CountWhere(rows, Dropped) == |rows|
  {
    if rows != [] {
      BranchesPartitionRows(rows[..|rows| - 1]);
    }
  }

  predicate ToBradykinesia(p: Prediction)
  {
    !NoHandMovement(p) && NoGait(p)
  }

  predicate Dropped(p: Prediction)
  {
    !NoHandMovement(p) && !NoGait(p)
  }
}
