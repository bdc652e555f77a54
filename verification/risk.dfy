/** Population-wide risk scoring (`predict_turnover_risk`): each
    probability is bucketed with `pd.cut` into an ordinal risk tier. */
module Risk {
  import opened Wrappers
  import opened Sequences
  import opened Frame

  /** The categories "Low Risk", "Medium Risk" and "High Risk". */
  datatype Tier = Low | Medium | High {
    /** Position in the order Low < Medium < High. */
    function Rank(): nat {
      match this
      case Low => 0
      case Medium => 1
      case High => 2
    }
  }

  /** One row of the predictions table. `risk` is `None` where pandas
      writes NaN because the probability falls in no bin. */
  datatype Prediction = Prediction(employeeId: Value, probability: real, risk: Option<Tier>)

  /** The interior bin edges `predict_turnover_risk` passes to `pd.cut`. */
  const LowMax: real := 0.3
  const MidMax: real := 0.6

  /** Bin edges in strictly increasing order, as `pd.cut` demands of the
      four edges `predict_turnover_risk` passes. */
  ghost predicate StrictlyIncreasing(bins: seq<real>) {
    forall i, j :: 0 <= i < j < |bins| ==> bins[i] < bins[j]
  }

  /** The bin `pd.cut(x, bins)` puts `x` into with its defaults
      `right=True, include_lowest=False`: bin `i` is `(bins[i], bins[i+1]]`,
      so the lowest edge itself and everything outside the edges fall in no
      bin. */
  function CutIndex(x: real, bins: seq<real>): (r: Option<nat>)
    requires StrictlyIncreasing(bins)
    ensures r.Some? <==> |bins| >= 2 && bins[0] < x <= bins[|bins| - 1]
    ensures r.Some? ==> r.value + 1 < |bins| && bins[r.value] < x <= bins[r.value + 1]
    decreases |bins|
  {
    if |bins| < 2 then None
    else if bins[0] < x <= bins[1] then Some(0)
    else
      match CutIndex(x, bins[1..])
      case None => None
      case Some(i) => Some(i + 1)
  }

  /** The bins are disjoint: a value in bin `i` is put in bin `i` and no other. */
  lemma CutIndexUnique(x: real, bins: seq<real>, i: nat)
    requires StrictlyIncreasing(bins)
    requires i + 1 < |bins| && bins[i] < x <= bins[i + 1]
    ensures CutIndex(x, bins) == Some(i)
  {
  }

  /** Larger values never land in lower bins. */
  lemma CutIndexMonotone(x: real, y: real, bins: seq<real>)
    requires StrictlyIncreasing(bins)
    requires |bins| >= 2 && bins[0] < x <= y <= bins[|bins| - 1]
    ensures CutIndex(x, bins).value <= CutIndex(y, bins).value
  {
  }

  /** `pd.cut(p, bins=[0, lowMax, midMax, 1], labels=[Low, Medium, High])`. */
  function RiskLevel(p: real, lowMax: real, midMax: real): (r: Option<Tier>)
    requires 0.0 < lowMax < midMax < 1.0
    ensures r == Some(Low) <==> 0.0 < p <= lowMax
    ensures r == Some(Medium) <==> lowMax < p <= midMax
    ensures r == Some(High) <==> midMax < p <= 1.0
    ensures r == None <==> p <= 0.0 || 1.0 < p
  {
    var bins := [0.0, lowMax, midMax, 1.0];
    var labels := [Low, Medium, High];
    match CutIndex(p, bins)
    case None => None
    case Some(i) => Some(labels[i])
  }

  /** The tier `predict_turnover_risk` assigns, with bins `[0, 0.3, 0.6, 1]`. */
  function TierOf(p: real): (r: Option<Tier>)
    ensures r == Some(Low) <==> 0.0 < p <= 0.3
    ensures r == Some(Medium) <==> 0.3 < p <= 0.6
    ensures r == Some(High) <==> 0.6 < p <= 1.0
    ensures r == None <==> p <= 0.0 || 1.0 < p
  {
    RiskLevel(p, LowMax, MidMax)
  }

  /** Tiering is monotone over `(0, 1]`. */
  lemma RiskLevelMonotone(p: real, q: real, lowMax: real, midMax: real)
    requires 0.0 < lowMax < midMax < 1.0
    requires 0.0 < p <= q <= 1.0
    ensures RiskLevel(p, lowMax, midMax).Some? && RiskLevel(q, lowMax, midMax).Some?
    ensures RiskLevel(p, lowMax, midMax).value.Rank() <= RiskLevel(q, lowMax, midMax).value.Rank()
  {
  }

  /** The edges are right-closed, and a probability of exactly 0 gets no tier. */
  lemma TierOfEdges()
    ensures TierOf(0.0) == None
    ensures TierOf(0.3) == Some(Low)
    ensures TierOf(0.6) == Some(Medium)
    ensures TierOf(1.0) == Some(High)
    ensures TierOf(0.25) == Some(Low) && TierOf(0.45) == Some(Medium) && TierOf(0.95) == Some(High)
  {
  }

  /** `predict_turnover_risk`: one prediction per row of `x`, paired with the
      id at the same position. `model` stands for the fitted model's
      positive-class probability of a row; the exceptions the fitted model
      itself raises are not modelled. Building the result frame from an id
      series and arrays of another length raises. */
  function PredictTurnoverRisk(model: Row -> real, x: Table, ids: seq<Value>): (r: Result<seq<Prediction>, FrameError>)
    ensures r.Failure? <==> |ids| != |x.rows|
    ensures r.Failure? ==> r.error == LengthMismatch(|ids|, |x.rows|)
    ensures r.Success? ==> |r.value| == |ids|
    ensures r.Success? ==> forall i :: 0 <= i < |ids| ==>
      && r.value[i].employeeId == ids[i]
      && r.value[i].probability == model(x.rows[i])
      && r.value[i].risk == TierOf(model(x.rows[i]))
  {
    var probs := Map(model, x.rows);
    if |ids| != |probs| then Failure(LengthMismatch(|ids|, |probs|))
    else Success(seq(|ids|, i requires 0 <= i < |ids| => Prediction(ids[i], probs[i], TierOf(probs[i]))))
  }
}
