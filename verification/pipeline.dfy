/** The turnover pipeline's `main` from the loaded table to the predictions
    table: preprocess, then score every remaining employee. */
module Pipeline {
  import opened Wrappers
  import opened Sequences
  import opened Frame
  import opened Features
  import opened Risk

  /** One run, for a given candidate feature list. `model` is the model fitted by the evaluation step; fitting
      itself is outside this model, so the run is given the fitted model's
      positive-class probability as a function of a feature row. */
  function RunPipeline(t: Table, candidates: FeatureList, model: Row -> real): (r: Result<seq<Prediction>, FrameError>)
    requires WellFormed(t)
    ensures r.Failure? <==> EmployeeIdColumn !in t.columns || LabelColumn !in t.columns
    ensures r.Failure? ==> r.error.MissingColumn?
    ensures r.Success? ==> |r.value| == |DropNullIds(t.rows)|
    ensures r.Success? ==> forall i :: 0 <= i < |r.value| ==>
      !r.value[i].employeeId.Null? && r.value[i].risk == TierOf(r.value[i].probability)
  {
    match PreprocessData(t, candidates)
    case Failure(e) => Failure(e)
    case Success(p) =>
      PrepareAligned(t, candidates);
      PredictTurnoverRisk(model, p.x, p.ids)
  }

  /** The predictions table has exactly one row per non-missing input id, in
      input order, and each row carries the probability the model gives to
      that employee's own selected features. */
  lemma {:induction false} RunPipelineOnePerId(t: Table, candidates: FeatureList, model: Row -> real)
    requires WellFormed(t)
    requires EmployeeIdColumn in t.columns && LabelColumn in t.columns
    ensures RunPipeline(t, candidates, model).Success?
    ensures Map((pr: Prediction) => pr.employeeId, RunPipeline(t, candidates, model).value)
         == Filter((v: Value) => !v.Null?, Column(t, EmployeeIdColumn))
    ensures var preds, kept := RunPipeline(t, candidates, model).value, DropNullIds(t.rows);
      var features := SelectPresent(candidates, t.columns);
      forall i :: 0 <= i < |preds| ==>
        && preds[i].employeeId == Get(kept[i], EmployeeIdColumn)
        && preds[i].probability == model(Project(kept[i], features))
  {
    var preds := RunPipeline(t, candidates, model).value;
    var p := Prepare(t, candidates);
    var getId := (r: Row) => Get(r, EmployeeIdColumn);
    PrepareAligned(t, candidates);
    FilterMapCommute(getId, HasId, (v: Value) => !v.Null?, t.rows);
    assert Map((pr: Prediction) => pr.employeeId, preds) == Map(getId, DropNullIds(t.rows));
  }

  /** The column groups handed to the model are drawn from the selected
      features only: categorical ones have an object or category dtype in the
      loaded table, numeric ones an int64 or float64 dtype, no feature is in
      both, and a selected feature of any other dtype is in neither. */
  lemma PreparedFeatureGroups(t: Table, candidates: FeatureList)
    requires WellFormed(t)
    requires EmployeeIdColumn in t.columns && LabelColumn in t.columns
    ensures var p := Prepare(t, candidates);
      var g := PartitionByDtype(p.x);
      && (forall c :: c in g.categorical <==> c in p.features && t.dtypes[c] in CategoricalDtypes)
      && (forall c :: c in g.numeric <==> c in p.features && t.dtypes[c] in NumericDtypes)
      && (forall c :: c in g.categorical ==> c !in g.numeric)
      && (forall c :: c in g.categorical || c in g.numeric ==> c in candidates && c in t.columns)
  {
  }

  /** `main` with `preprocess_data`'s fixed candidate list: for an already
      fitted model, the only failure is a missing id or label column, and
      otherwise every employee that has an id is scored. */
  function TurnoverMain(t: Table, model: Row -> real): (r: Result<seq<Prediction>, FrameError>)
    requires WellFormed(t)
    ensures r.Failure? <==> EmployeeIdColumn !in t.columns || LabelColumn !in t.columns
    ensures r.Success? ==> |r.value| == |DropNullIds(t.rows)|
  {
    RunPipeline(t, CandidateFeatures, model)
  }
}
