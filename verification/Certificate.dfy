/**
 The safety certificate of one stratum: repetition blocks are averaged into one
 observation per workload, two affine bounded means are taken, and two one-sided
 gates give a three-state decision. The bound itself is any function.
 */
module Certificate {
  import opened Basics
  import opened Statistics

  datatype Interval = Interval(lower: real, upper: real)

  function Width(i: Interval): real { i.upper - i.lower }

  const TOLERANCE: real := 0.000000001

  predicate Contains(i: Interval, value: real) {
    i.lower - TOLERANCE <= value <= i.upper + TOLERANCE
  }

  // ---------- repetition blocks and observations ----------

  datatype Response = Response(success: real, cost: real)

  type Key = (string, string, int)

  datatype Observation = Observation(workloadId: string, successDifference: real, costSaving: real, utilityGain: real)

  /** Every repetition of one design and workload has its row, and there is at least one. */
  predicate Present(matrix: map<Key, Response>, design: string, workload: string, reps: seq<int>) {
    reps != [] && forall i :: 0 <= i < |reps| ==> (design, workload, reps[i]) in matrix
  }

  /** The repetition block of one design and workload. */
  function Block(matrix: map<Key, Response>, design: string, workload: string, reps: seq<int>): (rows: seq<Response>)
    requires Present(matrix, design, workload, reps)
    ensures |rows| == |reps| && forall i :: 0 <= i < |reps| ==> rows[i] == matrix[(design, workload, reps[i])]
  {
    seq(|reps|, i requires 0 <= i < |reps| => matrix[(design, workload, reps[i])])
  }

  function Successes(rows: seq<Response>): (xs: seq<real>)
    ensures |xs| == |rows| && forall i :: 0 <= i < |rows| ==> xs[i] == rows[i].success
  {
    seq(|rows|, i requires 0 <= i < |rows| => rows[i].success)
  }

  function Costs(rows: seq<Response>): (xs: seq<real>)
    ensures |xs| == |rows| && forall i :: 0 <= i < |rows| ==> xs[i] == rows[i].cost
  {
    seq(|rows|, i requires 0 <= i < |rows| => rows[i].cost)
  }

  function BlockMean(rows: seq<Response>): Response
    requires rows != []
  {
    Response(Mean(Successes(rows)), Mean(Costs(rows)))
  }

  function Observe(workload: string, safe: Response, candidate: Response, taskValue: real, costWeight: real): Observation {
    var successDifference := candidate.success - safe.success;
    var costSaving := safe.cost - candidate.cost;
    Observation(workload, successDifference, costSaving, taskValue * successDifference + costWeight * costSaving)
  }

  /** The loader's guarantee: every analysed cell has its complete block. */
  predicate Complete(matrix: map<Key, Response>, safe: string, candidate: string, workloads: seq<string>, reps: seq<int>) {
    forall j :: 0 <= j < |workloads| ==>
      Present(matrix, safe, workloads[j], reps) && Present(matrix, candidate, workloads[j], reps)
  }

  /** One workload's observation: its two designs' repetition blocks, averaged and compared. */
  function ObserveWorkload(
    matrix: map<Key, Response>, safe: string, candidate: string, w: string, reps: seq<int>,
    taskValue: real, costWeight: real): Observation
    requires Present(matrix, safe, w, reps) && Present(matrix, candidate, w, reps)
  {
    Observe(w, BlockMean(Block(matrix, safe, w, reps)), BlockMean(Block(matrix, candidate, w, reps)), taskValue, costWeight)
  }

  method ClusterObservations(
    matrix: map<Key, Response>, safe: string, candidate: string,
    workloads: seq<string>, reps: seq<int>, taskValue: real, costWeight: real)
    returns (os: seq<Observation>)
    requires Complete(matrix, safe, candidate, workloads, reps)
    ensures os == Observations(matrix, safe, candidate, workloads, reps, taskValue, costWeight)
  {
    os := [];
    for k := 0 to |workloads|
      invariant |os| == k
      invariant forall j :: 0 <= j < k ==>
        os[j] == ObserveWorkload(matrix, safe, candidate, workloads[j], reps, taskValue, costWeight)
    {
      var w := workloads[k];
      var safeMean := BlockMean(Block(matrix, safe, w, reps));
      var candidateMean := BlockMean(Block(matrix, candidate, w, reps));
      os := os + [Observe(w, safeMean, candidateMean, taskValue, costWeight)];
    }
  }

  function Observations(
    matrix: map<Key, Response>, safe: string, candidate: string,
    workloads: seq<string>, reps: seq<int>, taskValue: real, costWeight: real): (os: seq<Observation>)
    requires Complete(matrix, safe, candidate, workloads, reps)
    ensures |os| == |workloads|
    ensures forall j :: 0 <= j < |os| ==>
      os[j] == ObserveWorkload(matrix, safe, candidate, workloads[j], reps, taskValue, costWeight)
  {
    seq(|workloads|, j requires 0 <= j < |workloads| =>
      ObserveWorkload(matrix, safe, candidate, workloads[j], reps, taskValue, costWeight))
  }

  /** Repetition by repetition, by how much the candidate succeeds more, and by how much it costs less. */
  function SuccessGaps(matrix: map<Key, Response>, safe: string, candidate: string, w: string, reps: seq<int>): (gaps: seq<real>)
    requires Present(matrix, safe, w, reps) && Present(matrix, candidate, w, reps)
    ensures |gaps| == |reps|
    ensures forall i :: 0 <= i < |reps| ==>
      gaps[i] == matrix[(candidate, w, reps[i])].success - matrix[(safe, w, reps[i])].success
  {
    seq(|reps|, i requires 0 <= i < |reps| =>
      matrix[(candidate, w, reps[i])].success - matrix[(safe, w, reps[i])].success)
  }

  function CostGaps(matrix: map<Key, Response>, safe: string, candidate: string, w: string, reps: seq<int>): (gaps: seq<real>)
    requires Present(matrix, safe, w, reps) && Present(matrix, candidate, w, reps)
    ensures |gaps| == |reps|
    ensures forall i :: 0 <= i < |reps| ==>
      gaps[i] == matrix[(safe, w, reps[i])].cost - matrix[(candidate, w, reps[i])].cost
  {
    seq(|reps|, i requires 0 <= i < |reps| =>
      matrix[(safe, w, reps[i])].cost - matrix[(candidate, w, reps[i])].cost)
  }

  /** The observation of `w` in terms of the matrix rows: the average gaps, and their weighted sum. */
  predicate Measures(
    o: Observation, matrix: map<Key, Response>, safe: string, candidate: string, w: string, reps: seq<int>,
    taskValue: real, costWeight: real)
    requires Present(matrix, safe, w, reps) && Present(matrix, candidate, w, reps)
  {
    && o.workloadId == w
    && o.successDifference == Mean(SuccessGaps(matrix, safe, candidate, w, reps))
    && o.costSaving == Mean(CostGaps(matrix, safe, candidate, w, reps))
    && o.utilityGain == taskValue * o.successDifference + costWeight * o.costSaving
  }

  lemma {:induction false} SuccessGap(a: seq<Response>, b: seq<Response>, gaps: seq<real>)
    requires a != [] && |a| == |b| == |gaps| && forall i :: 0 <= i < |gaps| ==> gaps[i] == a[i].success - b[i].success
    ensures BlockMean(a).success - BlockMean(b).success == Mean(gaps)
  {
    MeanDifference(Successes(a), Successes(b), gaps);
  }

  lemma {:induction false} CostGap(a: seq<Response>, b: seq<Response>, gaps: seq<real>)
    requires a != [] && |a| == |b| == |gaps| && forall i :: 0 <= i < |gaps| ==> gaps[i] == a[i].cost - b[i].cost
    ensures BlockMean(a).cost - BlockMean(b).cost == Mean(gaps)
  {
    MeanDifference(Costs(a), Costs(b), gaps);
  }

  lemma {:induction false} Compared(w: string, safe: Response, candidate: Response, taskValue: real, costWeight: real)
    ensures
      var o := Observe(w, safe, candidate, taskValue, costWeight);
      && o.workloadId == w && o.successDifference == candidate.success - safe.success
      && o.costSaving == safe.cost - candidate.cost
      && o.utilityGain == taskValue * o.successDifference + costWeight * o.costSaving
  {
  }

  lemma {:induction false} WorkloadMeasures(
    matrix: map<Key, Response>, safe: string, candidate: string, w: string, reps: seq<int>, taskValue: real, costWeight: real)
    requires Present(matrix, safe, w, reps) && Present(matrix, candidate, w, reps)
    ensures Measures(ObserveWorkload(matrix, safe, candidate, w, reps, taskValue, costWeight),
                     matrix, safe, candidate, w, reps, taskValue, costWeight)
  {
    var ours, theirs := Block(matrix, safe, w, reps), Block(matrix, candidate, w, reps);
    SuccessGap(theirs, ours, SuccessGaps(matrix, safe, candidate, w, reps));
    CostGap(ours, theirs, CostGaps(matrix, safe, candidate, w, reps));
    Compared(w, BlockMean(ours), BlockMean(theirs), taskValue, costWeight);
  }

  /** Each observation measures its own workload: candidate against safe success, safe against candidate cost. */
  lemma {:induction false} ObservationsMeasure(
    matrix: map<Key, Response>, safe: string, candidate: string,
    workloads: seq<string>, reps: seq<int>, taskValue: real, costWeight: real, j: nat)
    requires Complete(matrix, safe, candidate, workloads, reps) && j < |workloads|
    ensures Measures(Observations(matrix, safe, candidate, workloads, reps, taskValue, costWeight)[j],
                     matrix, safe, candidate, workloads[j], reps, taskValue, costWeight)
  {
    WorkloadMeasures(matrix, safe, candidate, workloads[j], reps, taskValue, costWeight);
  }

  // ---------- bounded means, gates and the decision ----------

  type Bound = (real, nat, real) -> Interval

  datatype CertificateError = NoClusters | OutOfSupport(quantity: string)

  datatype BoundedMean = BoundedMean(
    point: real, lower: real, upper: real, normalPoint: real, normalLower: real, normalUpper: real)

  function Clip(x: real): real { if x < 0.0 then 0.0 else if x > 1.0 then 1.0 else x }

  function Normalize(values: seq<real>, support: Interval): (ns: seq<real>)
    requires Width(support) > 0.0
    ensures |ns| == |values|
    ensures forall i :: 0 <= i < |ns| ==> ns[i] == Clip((values[i] - support.lower) / Width(support))
  {
    seq(|values|, i requires 0 <= i < |values| => Clip((values[i] - support.lower) / Width(support)))
  }

  /** Whatever the values, what is handed to the bound lies in the unit interval. */
  lemma {:induction false} NormalizedMeanInUnit(values: seq<real>, support: Interval)
    requires Width(support) > 0.0 && values != []
    ensures 0.0 <= Mean(Normalize(values, support)) <= 1.0
  {
    MeanBounds(Normalize(values, support), 0.0, 1.0);
  }

  /** From the unit interval back to the support. */
  function Scale(support: Interval, x: real): real { support.lower + x * Width(support) }

  function TakeBound(values: seq<real>, support: Interval, delta: real, quantity: string, bound: Bound):
    Result<BoundedMean, CertificateError>
    requires Width(support) > 0.0
  {
    if values == [] then Err(NoClusters)
    else if exists i :: 0 <= i < |values| && !Contains(support, values[i]) then Err(OutOfSupport(quantity))
    else
      var mean := Mean(Normalize(values, support));
      var b := bound(mean, |values|, delta);
      Ok(BoundedMean(
        Mean(values),
        Scale(support, b.lower),
        Scale(support, b.upper),
        mean, b.lower, b.upper))
  }

  datatype GateResult = Pass | Violated | Indeterminate

  function Gate(b: BoundedMean, threshold: real): GateResult {
    if b.lower >= threshold then Pass
    else if b.upper < threshold then Violated
    else Indeterminate
  }

  datatype CertificateState = SafeToCommit | Unsafe | InsufficientEvidence

  datatype Decision = Decision(state: CertificateState, appliedDesign: string, fallbackApplied: bool)

  function Decide(gates: seq<GateResult>, count: nat, minimum: nat, safeDesign: string, candidateDesign: string): Decision {
    var state :=
      if Violated in gates then Unsafe
      else if count < minimum then InsufficientEvidence
      else if Indeterminate in gates then InsufficientEvidence
      else SafeToCommit;
    var safe := state.SafeToCommit?;
    Decision(state, if safe then candidateDesign else safeDesign, !safe)
  }

  datatype StratumCertificate = StratumCertificate(
    count: nat, success: BoundedMean, cost: BoundedMean, utility: real, gates: seq<GateResult>, decision: Decision)

  datatype Thresholds = Thresholds(
    successSupport: Interval,
    costSupport: Interval,
    utilitySupport: Interval,
    adjustedAlpha: real,
    successMargin: real,
    minimumSaving: real,
    minimumWorkloads: nat,
    safeDesign: string,
    candidateDesign: string)

  predicate SupportsOk(t: Thresholds) {
    Width(t.successSupport) > 0.0 && Width(t.costSupport) > 0.0
  }

  function SuccessColumn(os: seq<Observation>): (xs: seq<real>)
    ensures |xs| == |os| && forall i :: 0 <= i < |os| ==> xs[i] == os[i].successDifference
  {
    seq(|os|, i requires 0 <= i < |os| => os[i].successDifference)
  }

  function CostColumn(os: seq<Observation>): (xs: seq<real>)
    ensures |xs| == |os| && forall i :: 0 <= i < |os| ==> xs[i] == os[i].costSaving
  {
    seq(|os|, i requires 0 <= i < |os| => os[i].costSaving)
  }

  function UtilityColumn(os: seq<Observation>): (xs: seq<real>)
    ensures |xs| == |os| && forall i :: 0 <= i < |os| ==> xs[i] == os[i].utilityGain
  {
    seq(|os|, i requires 0 <= i < |os| => os[i].utilityGain)
  }

  /** The whole statistical core, shared by the certifier and the calibration harness. */
  function Evaluate(os: seq<Observation>, t: Thresholds, bound: Bound): Result<StratumCertificate, CertificateError>
    requires SupportsOk(t)
  {
    match TakeBound(SuccessColumn(os), t.successSupport, t.adjustedAlpha, "success_difference", bound)
    case Err(e) => Err(e)
    case Ok(success) =>
      match TakeBound(CostColumn(os), t.costSupport, t.adjustedAlpha, "cost_saving", bound)
      case Err(e) => Err(e)
      case Ok(cost) =>
        var utilities := UtilityColumn(os);
        if exists i :: 0 <= i < |utilities| && !Contains(t.utilitySupport, utilities[i]) then Err(OutOfSupport("utility_gain"))
        else
          var gates := [Gate(success, -t.successMargin), Gate(cost, t.minimumSaving)];
          Ok(StratumCertificate(
            |os|, success, cost, Mean(utilities), gates,
            Decide(gates, |os|, t.minimumWorkloads, t.safeDesign, t.candidateDesign)))
  }

  /** Evaluation aborts exactly on an empty stratum or a value outside its support. */
  lemma {:induction false} EvaluateAborts(os: seq<Observation>, t: Thresholds, bound: Bound)
    requires SupportsOk(t)
    ensures Evaluate(os, t, bound).Ok? <==>
      && os != []
      && forall i :: 0 <= i < |os| ==>
           && Contains(t.successSupport, os[i].successDifference)
           && Contains(t.costSupport, os[i].costSaving)
           && Contains(t.utilitySupport, os[i].utilityGain)
  {
    var ss, cs, us := SuccessColumn(os), CostColumn(os), UtilityColumn(os);
    assert forall i :: 0 <= i < |os| ==>
      ss[i] == os[i].successDifference && cs[i] == os[i].costSaving && us[i] == os[i].utilityGain;
  }

  /** Which evaluation aborts with what: the first offending quantity, in the order success, cost, utility. */
  lemma {:induction false} AbortCauses(os: seq<Observation>, t: Thresholds, bound: Bound)
    requires SupportsOk(t)
    ensures
      var successes := forall i :: 0 <= i < |os| ==> Contains(t.successSupport, os[i].successDifference);
      var costs := forall i :: 0 <= i < |os| ==> Contains(t.costSupport, os[i].costSaving);
      && (Evaluate(os, t, bound) == Err(NoClusters) <==> |os| == 0)
      && (Evaluate(os, t, bound) == Err(OutOfSupport("success_difference")) <==> !successes)
      && (Evaluate(os, t, bound) == Err(OutOfSupport("cost_saving")) <==> successes && !costs)
      && (Evaluate(os, t, bound) == Err(OutOfSupport("utility_gain")) <==>
            successes && costs && exists i :: 0 <= i < |os| && !Contains(t.utilitySupport, os[i].utilityGain))
  {
    var ss, cs, us := SuccessColumn(os), CostColumn(os), UtilityColumn(os);
    assert forall i :: 0 <= i < |os| ==>
      ss[i] == os[i].successDifference && cs[i] == os[i].costSaving && us[i] == os[i].utilityGain;
    assert "success_difference"[0] == 's' && "cost_saving"[0] == 'c' && "utility_gain"[0] == 'u';
  }

  /** The decision as a table: each state and the applied design in terms of bounds and count. */
  predicate Tabled(c: StratumCertificate, t: Thresholds) {
    && (c.decision.state.SafeToCommit? <==>
          c.success.lower >= -t.successMargin && c.cost.lower >= t.minimumSaving && c.count >= t.minimumWorkloads)
    && (c.decision.state.Unsafe? <==>
          || (c.success.lower < -t.successMargin && c.success.upper < -t.successMargin)
          || (c.cost.lower < t.minimumSaving && c.cost.upper < t.minimumSaving))
    && c.decision.appliedDesign == (if c.decision.state.SafeToCommit? then t.candidateDesign else t.safeDesign)
    && (c.decision.fallbackApplied <==> !c.decision.state.SafeToCommit?)
  }

  lemma {:induction false} DecisionTable(os: seq<Observation>, t: Thresholds, bound: Bound)
    requires SupportsOk(t) && Evaluate(os, t, bound).Ok?
    ensures Tabled(Evaluate(os, t, bound).value, t) && Evaluate(os, t, bound).value.count == |os|
  {
    var c := Evaluate(os, t, bound).value;
    assert c.gates[0] == Gate(c.success, -t.successMargin) && c.gates[1] == Gate(c.cost, t.minimumSaving);
    assert Violated in c.gates <==> c.gates[0].Violated? || c.gates[1].Violated?;
    assert Indeterminate in c.gates <==> c.gates[0].Indeterminate? || c.gates[1].Indeterminate?;
  }

  /** Values in their support, without the tolerance. */
  predicate Inside(values: seq<real>, support: Interval) {
    forall i :: 0 <= i < |values| ==> support.lower <= values[i] <= support.upper
  }

  /**
   If the bound brackets the normalised mean, the rescaled bounds bracket the
   point estimate: exactly when every value lies in its support, and up to the
   support tolerance when some are clipped to it. A bound that reports the
   normalised mean itself reports the point estimate, up to the same slack.
   */
  lemma {:induction false} BoundsBracketPoint(values: seq<real>, support: Interval, delta: real, quantity: string, bound: Bound)
    requires Width(support) > 0.0 && values != []
    requires forall i :: 0 <= i < |values| ==> Contains(support, values[i])
    requires
      var m := Mean(Normalize(values, support));
      bound(m, |values|, delta).lower <= m <= bound(m, |values|, delta).upper
    ensures
      var b := TakeBound(values, support, delta, quantity, bound);
      var slack := if Inside(values, support) then 0.0 else TOLERANCE;
      && b.Ok?
      && b.value.lower - slack <= b.value.point <= b.value.upper + slack
      && (b.value.normalLower == b.value.normalPoint ==> b.value.point <= b.value.lower + slack)
      && (b.value.normalUpper == b.value.normalPoint ==> b.value.upper - slack <= b.value.point)
  {
    var m := Mean(Normalize(values, support));
    var b := bound(m, |values|, delta);
    PointNearScaled(values, support);
    ScaleIsMonotone(support, b.lower, m);
    ScaleIsMonotone(support, m, b.upper);
  }

  lemma {:induction false} ScaleIsMonotone(support: Interval, a: real, b: real)
    requires Width(support) > 0.0 && a <= b
    ensures Scale(support, a) <= Scale(support, b)
  {
    ScaleKeepsOrder(a, b, Width(support));
  }

  /** Normalising, averaging and scaling back moves a mean by no more than its values are clipped. */
  lemma {:induction false} PointNearScaled(values: seq<real>, support: Interval)
    requires Width(support) > 0.0 && values != []
    requires forall i :: 0 <= i < |values| ==> Contains(support, values[i])
    ensures
      var slack := if Inside(values, support) then 0.0 else TOLERANCE;
      -slack <= Mean(values) - Scale(support, Mean(Normalize(values, support))) <= slack
  {
    var slack := if Inside(values, support) then 0.0 else TOLERANCE;
    forall i | 0 <= i < |values|
      ensures support.lower - slack <= values[i] <= support.upper + slack
    {
      assert Contains(support, values[i]);
    }
    PointWithinSlack(values, support, slack);
  }

  lemma {:induction false} PointWithinSlack(values: seq<real>, support: Interval, slack: real)
    requires Width(support) > 0.0 && slack >= 0.0 && values != []
    requires forall i :: 0 <= i < |values| ==> support.lower - slack <= values[i] <= support.upper + slack
    ensures -slack <= Mean(values) - Scale(support, Mean(Normalize(values, support))) <= slack
  {
    MeanNearScaled(values, Normalize(values, support), support.lower, Width(support), slack);
  }

  lemma {:induction false} MeanNearScaled(values: seq<real>, ns: seq<real>, lower: real, w: real, slack: real)
    requires w > 0.0 && slack >= 0.0 && values != [] && |ns| == |values|
    requires forall i :: 0 <= i < |values| ==>
      -slack <= values[i] - lower <= w + slack && ns[i] == Clip((values[i] - lower) / w)
    ensures -slack <= Mean(values) - (lower + Mean(ns) * w) <= slack
  {
    var ys := Denormalized(ns, lower, w);
    forall i | 0 <= i < |values|
      ensures -slack <= values[i] - ys[i] <= slack
    {
      ClippedNear(values[i] - lower, w, slack);
    }
    MeanNear(values, ys, slack);
    MeanAffine(ns, ys, lower, w);
  }

  function Denormalized(ns: seq<real>, lower: real, w: real): (ys: seq<real>)
    ensures |ys| == |ns| && forall i :: 0 <= i < |ns| ==> ys[i] == lower + w * ns[i]
  {
    seq(|ns|, i requires 0 <= i < |ns| => lower + w * ns[i])
  }

  lemma {:induction false} ClippedNear(x: real, w: real, slack: real)
    requires w > 0.0 && slack >= 0.0 && -slack <= x <= w + slack
    ensures -slack <= x - w * Clip(x / w) <= slack
  {
    assert (x / w) * w == x;
    if x < 0.0 {
      assert x / w < 0.0;
    } else if x > w {
      assert x / w > 1.0;
    } else {
      DivideBounds(x, w, 0.0, 1.0);
    }
  }

  lemma {:induction false} ScaleKeepsOrder(a: real, b: real, w: real)
    requires a <= b && w > 0.0
    ensures a * w <= b * w
  {
  }

  // ---------- what a certificate reports ----------

  /** Where a value lies in its support, from zero to one. */
  function PositionIn(support: Interval, value: real): real
    requires Width(support) > 0.0
  {
    (value - support.lower) / Width(support)
  }

  /** `b` is the bounded mean of the values: their mean, and the bound of its position in the support. */
  predicate BoundsMean(b: BoundedMean, values: seq<real>, support: Interval, delta: real, bound: Bound)
    requires Width(support) > 0.0
  {
    && b.point * |values| as real == Sum(values)
    && b.normalPoint == PositionIn(support, b.point)
    && b.normalLower == bound(b.normalPoint, |values|, delta).lower && b.lower == Scale(support, b.normalLower)
    && b.normalUpper == bound(b.normalPoint, |values|, delta).upper && b.upper == Scale(support, b.normalUpper)
  }

  lemma {:induction false} MeanPosition(values: seq<real>, support: Interval)
    requires Width(support) > 0.0 && values != [] && Inside(values, support)
    ensures Mean(Normalize(values, support)) == PositionIn(support, Mean(values))
  {
    PointWithinSlack(values, support, 0.0);
    ScaledPosition(support, Mean(values), Mean(Normalize(values, support)));
  }

  lemma {:induction false} ScaledPosition(support: Interval, point: real, m: real)
    requires Width(support) > 0.0 && point == Scale(support, m)
    ensures PositionIn(support, point) == m
  {
  }

  lemma {:induction false} InsideIsContained(values: seq<real>, support: Interval, i: nat)
    requires Inside(values, support) && i < |values|
    ensures Contains(support, values[i])
  {
  }

  lemma {:induction false} TakenBound(values: seq<real>, support: Interval, delta: real, quantity: string, bound: Bound)
    requires Width(support) > 0.0 && values != [] && Inside(values, support)
    ensures
      var m := Mean(Normalize(values, support));
      var b := bound(m, |values|, delta);
      TakeBound(values, support, delta, quantity, bound)
        == Ok(BoundedMean(Mean(values), Scale(support, b.lower), Scale(support, b.upper), m, b.lower, b.upper))
  {
    forall i | 0 <= i < |values|
      ensures Contains(support, values[i])
    {
      InsideIsContained(values, support, i);
    }
  }

  lemma {:induction false} TakenBoundsMean(values: seq<real>, support: Interval, delta: real, quantity: string, bound: Bound)
    requires Width(support) > 0.0 && values != [] && Inside(values, support)
    ensures
      var b := TakeBound(values, support, delta, quantity, bound);
      b.Ok? && BoundsMean(b.value, values, support, delta, bound)
  {
    TakenBound(values, support, delta, quantity, bound);
    MeanPosition(values, support);
    MeanTimesCount(values);
  }

  /** The parts of a certificate, each from its own column. */
  lemma {:induction false} CertificateParts(os: seq<Observation>, t: Thresholds, bound: Bound)
    requires SupportsOk(t) && Evaluate(os, t, bound).Ok?
    ensures
      var c := Evaluate(os, t, bound).value;
      && os != [] && c.count == |os| && c.utility == Mean(UtilityColumn(os))
      && TakeBound(SuccessColumn(os), t.successSupport, t.adjustedAlpha, "success_difference", bound) == Ok(c.success)
      && TakeBound(CostColumn(os), t.costSupport, t.adjustedAlpha, "cost_saving", bound) == Ok(c.cost)
  {
  }

  /**
   A certificate over values in their supports reports what it is named after:
   the mean success difference and the mean cost saving, each with the bounds of
   its own column, and the number of workloads.
   */
  lemma {:induction false} CertificateReports(os: seq<Observation>, t: Thresholds, bound: Bound)
    requires SupportsOk(t) && Evaluate(os, t, bound).Ok?
    requires Inside(SuccessColumn(os), t.successSupport) && Inside(CostColumn(os), t.costSupport)
    ensures
      var c := Evaluate(os, t, bound).value;
      && c.count == |os|
      && BoundsMean(c.success, SuccessColumn(os), t.successSupport, t.adjustedAlpha, bound)
      && BoundsMean(c.cost, CostColumn(os), t.costSupport, t.adjustedAlpha, bound)
  {
    CertificateParts(os, t, bound);
    TakenBoundsMean(SuccessColumn(os), t.successSupport, t.adjustedAlpha, "success_difference", bound);
    TakenBoundsMean(CostColumn(os), t.costSupport, t.adjustedAlpha, "cost_saving", bound);
  }

  /** And it reports the mean utility. */
  lemma {:induction false} UtilityReported(os: seq<Observation>, t: Thresholds, bound: Bound)
    requires SupportsOk(t) && Evaluate(os, t, bound).Ok?
    ensures Evaluate(os, t, bound).value.utility * |os| as real == Sum(UtilityColumn(os))
  {
    CertificateParts(os, t, bound);
    MeanTimesCount(UtilityColumn(os));
  }

  // ---------- repetition invariance ----------

  lemma {:induction false} ColumnsRepeat(rows: seq<Response>, k: nat)
    ensures Successes(Repeat(rows, k)) == Repeat(Successes(rows), k)
    ensures Costs(Repeat(rows, k)) == Repeat(Costs(rows), k)
  {
    if k > 0 {
      ColumnsRepeat(rows, k - 1);
      var less := Repeat(rows, k - 1);
      assert Successes(less + rows) == Successes(less) + Successes(rows);
      assert Costs(less + rows) == Costs(less) + Costs(rows);
    }
  }

  lemma {:induction false} BlockMeanRepeat(rows: seq<Response>, k: nat)
    requires rows != [] && k > 0
    ensures Repeat(rows, k) != [] && BlockMean(Repeat(rows, k)) == BlockMean(rows)
  {
    ColumnsRepeat(rows, k);
    MeanRepeat(Successes(rows), k);
    MeanRepeat(Costs(rows), k);
    assert k * |rows| >= |rows|;
  }

  /** Block by block, the second matrix repeats the first one `k` times. */
  predicate Replicates(
    m: map<Key, Response>, reps: seq<int>, m': map<Key, Response>, reps': seq<int>, k: nat,
    design: string, workload: string)
    requires Present(m, design, workload, reps) && Present(m', design, workload, reps')
  {
    Block(m', design, workload, reps') == Repeat(Block(m, design, workload, reps), k)
  }

  lemma {:induction false} ReplicatedMean(
    m: map<Key, Response>, reps: seq<int>, m': map<Key, Response>, reps': seq<int>, k: nat,
    design: string, workload: string)
    requires k > 0 && Present(m, design, workload, reps) && Present(m', design, workload, reps')
    requires Replicates(m, reps, m', reps', k, design, workload)
    ensures BlockMean(Block(m', design, workload, reps')) == BlockMean(Block(m, design, workload, reps))
  {
    BlockMeanRepeat(Block(m, design, workload, reps), k);
  }

  /** Replicating every repetition block changes no observation. */
  lemma {:induction false} RepetitionInvariance(
    m: map<Key, Response>, reps: seq<int>, m': map<Key, Response>, reps': seq<int>, k: nat,
    safe: string, candidate: string, workloads: seq<string>, taskValue: real, costWeight: real)
    requires k > 0
    requires Complete(m, safe, candidate, workloads, reps) && Complete(m', safe, candidate, workloads, reps')
    requires forall j :: 0 <= j < |workloads| ==>
      && Replicates(m, reps, m', reps', k, safe, workloads[j])
      && Replicates(m, reps, m', reps', k, candidate, workloads[j])
    ensures Observations(m', safe, candidate, workloads, reps', taskValue, costWeight)
         == Observations(m, safe, candidate, workloads, reps, taskValue, costWeight)
  {
    forall j | 0 <= j < |workloads|
      ensures ObserveWorkload(m', safe, candidate, workloads[j], reps', taskValue, costWeight)
           == ObserveWorkload(m, safe, candidate, workloads[j], reps, taskValue, costWeight)
    {
      ReplicatedMean(m, reps, m', reps', k, safe, workloads[j]);
      ReplicatedMean(m, reps, m', reps', k, candidate, workloads[j]);
    }
  }

  /**
   Therefore it changes no bound, gate, count or decision, whatever the bound:
   repetitions never count as independent units.
   */
  lemma {:induction false} RepetitionInvariantDecision(
    m: map<Key, Response>, reps: seq<int>, m': map<Key, Response>, reps': seq<int>, k: nat,
    safe: string, candidate: string, workloads: seq<string>, taskValue: real, costWeight: real,
    t: Thresholds, bound: Bound)
    requires k > 0 && SupportsOk(t)
    requires Complete(m, safe, candidate, workloads, reps) && Complete(m', safe, candidate, workloads, reps')
    requires forall j :: 0 <= j < |workloads| ==>
      && Replicates(m, reps, m', reps', k, safe, workloads[j])
      && Replicates(m, reps, m', reps', k, candidate, workloads[j])
    ensures Evaluate(Observations(m', safe, candidate, workloads, reps', taskValue, costWeight), t, bound)
         == Evaluate(Observations(m, safe, candidate, workloads, reps, taskValue, costWeight), t, bound)
    ensures
      var r := Evaluate(Observations(m', safe, candidate, workloads, reps', taskValue, costWeight), t, bound);
      r.Ok? ==> r.value.count == |workloads|
  {
    RepetitionInvariance(m, reps, m', reps', k, safe, candidate, workloads, taskValue, costWeight);
    var os := Observations(m', safe, candidate, workloads, reps', taskValue, costWeight);
    if Evaluate(os, t, bound).Ok? {
      DecisionTable(os, t, bound);
    }
  }

  // ---------- strata partition the certified workloads ----------

  datatype Stratum = Stratum(stratumId: string, candidateDesign: string, workloadIds: seq<string>)

  datatype ConfigError = EmptyStrata | EmptyArray | Duplicates | UnknownDesign | Overlap | Leakage | NotPartition

  ghost predicate NoRepeats(xs: seq<string>) {
    forall i, j :: 0 <= i < j < |xs| ==> xs[i] != xs[j]
  }

  function ElementsOf(xs: seq<string>): set<string> { set x | x in xs }

  ghost function Covered(strata: seq<Stratum>): set<string> {
    if strata == [] then {} else Covered(strata[..|strata| - 1]) + ElementsOf(strata[|strata| - 1].workloadIds)
  }

  function TotalWorkloads(strata: seq<Stratum>): nat {
    if strata == [] then 0 else TotalWorkloads(strata[..|strata| - 1]) + |strata[|strata| - 1].workloadIds|
  }

  lemma {:induction false} CountDistinct(xs: seq<string>)
    ensures |ElementsOf(xs)| <= |xs|
    ensures |ElementsOf(xs)| == |xs| <==> NoRepeats(xs)
  {
    if xs != [] {
      var last := |xs| - 1;
      var front := xs[..last];
      CountDistinct(front);
      assert ElementsOf(xs) == ElementsOf(front) + {xs[last]};
      if xs[last] in front {
        var i :| 0 <= i < last && front[i] == xs[last];
        assert xs[i] == xs[last];
        assert ElementsOf(xs) == ElementsOf(front);
      } else {
        assert forall i :: 0 <= i < last ==> xs[i] == front[i] && xs[i] != xs[last];
      }
    }
  }

  lemma {:induction false} CoveredBySome(strata: seq<Stratum>, x: string)
    ensures x in Covered(strata) <==> exists i :: 0 <= i < |strata| && x in strata[i].workloadIds
  {
    if strata != [] {
      var last := |strata| - 1;
      CoveredBySome(strata[..last], x);
      if i :| 0 <= i < |strata| && x in strata[i].workloadIds {
        if i < last {
          assert strata[..last][i] == strata[i];
        }
      }
    }
  }

  ghost predicate StratumOk(s: Stratum, designs: set<string>, safeDesign: string, excluded: set<string>) {
    && s.candidateDesign in designs && s.candidateDesign != safeDesign && s.candidateDesign !in excluded
    && s.workloadIds != [] && NoRepeats(s.workloadIds)
  }

  ghost predicate StrataOk(strata: seq<Stratum>, designs: set<string>, safeDesign: string, excluded: set<string>) {
    forall i :: 0 <= i < |strata| ==> StratumOk(strata[i], designs, safeDesign, excluded)
  }

  ghost predicate PairwiseDisjoint(strata: seq<Stratum>) {
    forall i, j :: 0 <= i < j < |strata| ==> ElementsOf(strata[i].workloadIds) !! ElementsOf(strata[j].workloadIds)
  }

  /** Strata of admissible candidates that partition the certified workloads. */
  ghost predicate PartitionOk(
    raw: seq<Stratum>, designs: set<string>, safeDesign: string, excluded: set<string>,
    selection: seq<string>, certified: seq<string>)
  {
    && raw != [] && certified != []
    && StrataOk(raw, designs, safeDesign, excluded)
    && PairwiseDisjoint(raw)
    && NoRepeats(selection) && NoRepeats(certified)
    && ElementsOf(selection) * ElementsOf(certified) == {}
    && Covered(raw) == ElementsOf(certified)
  }

  function StratumFault(s: Stratum, designs: set<string>, safeDesign: string, excluded: set<string>): Option<ConfigError> {
    if s.candidateDesign !in designs || s.candidateDesign == safeDesign || s.candidateDesign in excluded then
      Some(UnknownDesign)
    else if s.workloadIds == [] then Some(EmptyArray)
    else if |ElementsOf(s.workloadIds)| != |s.workloadIds| then Some(Duplicates)
    else None
  }

  lemma {:induction false} StratumFaultIsExact(s: Stratum, designs: set<string>, safeDesign: string, excluded: set<string>)
    ensures StratumFault(s, designs, safeDesign, excluded).None? <==> StratumOk(s, designs, safeDesign, excluded)
    ensures StratumFault(s, designs, safeDesign, excluded).Some? ==>
      StratumRefusal(s, designs, safeDesign, excluded, StratumFault(s, designs, safeDesign, excluded).value)
  {
    CountDistinct(s.workloadIds);
  }

  lemma {:induction false} CoveredStep(raw: seq<Stratum>, k: nat)
    requires k < |raw|
    ensures Covered(raw[..k + 1]) == Covered(raw[..k]) + ElementsOf(raw[k].workloadIds)
    ensures TotalWorkloads(raw[..k + 1]) == TotalWorkloads(raw[..k]) + |raw[k].workloadIds|
  {
    assert raw[..k + 1][..k] == raw[..k];
  }

  /** One more stratum, disjoint from the earlier ones. */
  lemma {:induction false} CollectStep(raw: seq<Stratum>, k: nat)
    requires k < |raw| && PairwiseDisjoint(raw[..k]) && NoRepeats(raw[k].workloadIds)
    requires Covered(raw[..k]) * ElementsOf(raw[k].workloadIds) == {}
    requires |Covered(raw[..k])| == TotalWorkloads(raw[..k])
    ensures PairwiseDisjoint(raw[..k + 1])
    ensures Covered(raw[..k + 1]) == Covered(raw[..k]) + ElementsOf(raw[k].workloadIds)
    ensures |Covered(raw[..k + 1])| == TotalWorkloads(raw[..k + 1])
  {
    DisjointStep(raw, k);
    CoveredStep(raw, k);
    CountDistinct(raw[k].workloadIds);
  }

  lemma {:induction false} OneMoreOk(raw: seq<Stratum>, k: nat, designs: set<string>, safeDesign: string, excluded: set<string>)
    requires k < |raw| && StrataOk(raw[..k], designs, safeDesign, excluded)
    requires StratumOk(raw[k], designs, safeDesign, excluded)
    ensures StrataOk(raw[..k + 1], designs, safeDesign, excluded)
  {
    forall i | 0 <= i < k + 1
      ensures StratumOk(raw[i], designs, safeDesign, excluded)
    {
      if i < k {
        assert raw[..k][i] == raw[i];
      }
    }
  }

  /** What each refusal of the strata reports: some stratum has that fault, or two share a workload. */
  ghost predicate StrataRefusal(
    raw: seq<Stratum>, designs: set<string>, safeDesign: string, excluded: set<string>, e: ConfigError)
  {
    || (e == Overlap && !PairwiseDisjoint(raw))
    || exists i :: 0 <= i < |raw| && StratumRefusal(raw[i], designs, safeDesign, excluded, e)
  }

  ghost predicate StratumRefusal(s: Stratum, designs: set<string>, safeDesign: string, excluded: set<string>, e: ConfigError) {
    match e
    case UnknownDesign => s.candidateDesign == safeDesign || s.candidateDesign !in designs - excluded
    case EmptyArray => |s.workloadIds| == 0
    case Duplicates => !NoRepeats(s.workloadIds)
    case _ => false
  }

  /** What each refusal of the loader reports: always a fault that is there. */
  ghost predicate LoadRefusal(
    raw: seq<Stratum>, designs: set<string>, safeDesign: string, excluded: set<string>,
    selection: seq<string>, certified: seq<string>, e: ConfigError)
  {
    || StrataRefusal(raw, designs, safeDesign, excluded, e)
    || (e == EmptyStrata && |raw| == 0)
    || (e == EmptyArray && |certified| == 0)
    || (e == Duplicates && !(NoRepeats(selection) && NoRepeats(certified)))
    || (e == Leakage && exists w :: w in selection && (w in certified || w in Covered(raw)))
    || (e == NotPartition && Covered(raw) != ElementsOf(certified))
  }

  /** The loader's loop over the declared strata. */
  method CollectStrata(raw: seq<Stratum>, designs: set<string>, safeDesign: string, excluded: set<string>)
    returns (r: Result<set<string>, ConfigError>)
    ensures r.Ok? <==> StrataOk(raw, designs, safeDesign, excluded) && PairwiseDisjoint(raw)
    ensures r.Ok? ==> r.value == Covered(raw) && |r.value| == TotalWorkloads(raw)
    ensures r.Err? ==> StrataRefusal(raw, designs, safeDesign, excluded, r.error)
  {
    var seen: set<string> := {};
    for k := 0 to |raw|
      invariant seen == Covered(raw[..k]) && |seen| == TotalWorkloads(raw[..k])
      invariant PairwiseDisjoint(raw[..k])
      invariant StrataOk(raw[..k], designs, safeDesign, excluded)
    {
      var s := raw[k];
      var fault := StratumFault(s, designs, safeDesign, excluded);
      StratumFaultIsExact(s, designs, safeDesign, excluded);
      if fault.Some? {
        return Err(fault.value);
      }
      var ids := ElementsOf(s.workloadIds);
      if seen * ids != {} {
        OverlapIsReal(raw, k);
        return Err(Overlap);
      }
      CollectStep(raw, k);
      OneMoreOk(raw, k, designs, safeDesign, excluded);
      seen := seen + ids;
    }
    assert raw[..|raw|] == raw;
    return Ok(seen);
  }

  /**
   The loader accepts exactly the partitions, and the independent workload
   counts of a partition sum to the number of certified workloads.
   */
  method LoadStrata(
    raw: seq<Stratum>, designs: set<string>, safeDesign: string, excluded: set<string>,
    selection: seq<string>, certified: seq<string>)
    returns (r: Result<seq<Stratum>, ConfigError>)
    ensures r.Ok? <==> PartitionOk(raw, designs, safeDesign, excluded, selection, certified)
    ensures r.Ok? ==> r.value == raw && TotalWorkloads(raw) == |certified|
    ensures r.Err? ==> LoadRefusal(raw, designs, safeDesign, excluded, selection, certified, r.error)
  {
    if raw == [] {
      return Err(EmptyStrata);
    }
    var collected := CollectStrata(raw, designs, safeDesign, excluded);
    if collected.Err? {
      return Err(collected.error);
    }
    CountDistinct(selection);
    CountDistinct(certified);
    var selected, target := ElementsOf(selection), ElementsOf(certified);
    if certified == [] {
      return Err(EmptyArray);
    }
    if |selected| != |selection| || |target| != |certified| {
      return Err(Duplicates);
    }
    if selected * target != {} {
      return Err(Leakage);
    }
    if selected * collected.value != {} {
      LeakIsReal(selected, collected.value, target);
      return Err(Leakage);
    }
    if collected.value != target {
      return Err(NotPartition);
    }
    return Ok(raw);
  }

  lemma {:induction false} LeakIsReal(selected: set<string>, covered: set<string>, target: set<string>)
    requires selected * target == {} && selected * covered != {}
    ensures covered != target
  {
  }

  lemma {:induction false} OverlapIsReal(raw: seq<Stratum>, k: nat)
    requires k < |raw| && Covered(raw[..k]) * ElementsOf(raw[k].workloadIds) != {}
    ensures !PairwiseDisjoint(raw)
  {
    var x :| x in Covered(raw[..k]) && x in raw[k].workloadIds;
    CoveredBySome(raw[..k], x);
    var i :| 0 <= i < k && x in raw[..k][i].workloadIds;
    assert x in ElementsOf(raw[i].workloadIds) && x in ElementsOf(raw[k].workloadIds);
  }

  lemma {:induction false} DisjointStep(raw: seq<Stratum>, k: nat)
    requires k < |raw| && PairwiseDisjoint(raw[..k]) && Covered(raw[..k]) * ElementsOf(raw[k].workloadIds) == {}
    ensures PairwiseDisjoint(raw[..k + 1])
  {
    forall i, j | 0 <= i < j < k + 1
      ensures ElementsOf(raw[i].workloadIds) !! ElementsOf(raw[j].workloadIds)
    {
      if j < k {
        assert raw[..k][i] == raw[i] && raw[..k][j] == raw[j];
      } else {
        forall x | x in raw[i].workloadIds
          ensures x !in ElementsOf(raw[k].workloadIds)
        {
          assert x in raw[..k][i].workloadIds;
          CoveredBySome(raw[..k], x);
          assert x !in Covered(raw[..k]) * ElementsOf(raw[k].workloadIds);
        }
        assert forall x :: x in ElementsOf(raw[i].workloadIds) ==> x !in ElementsOf(raw[k].workloadIds);
      }
    }
  }
}
