/**
 When the synthetic data stays in its supports, and so when a calibration
 never aborts: exact conditions on a plan, and plans that fail them.
 */
module GeneratorProofs {
  import opened Statistics
  import opened Certificate
  import opened Generator

  // ---------- ranges of one draw ----------

  /** The smallest and largest success frequency that a probability allows. */
  function Least(p: real): real { if p >= 1.0 then 1.0 else 0.0 }

  function Most(p: real): real { if p > 0.0 then 1.0 else 0.0 }

  lemma {:induction false} HitsRange(rolls: seq<real>, p: real)
    requires forall i :: 0 <= i < |rolls| ==> 0.0 <= rolls[i] < 1.0
    ensures Least(p) * |rolls| as real <= Hits(rolls, p) as real <= Most(p) * |rolls| as real
  {
    if rolls != [] {
      HitsRange(rolls[..|rolls| - 1], p);
    }
  }

  /** A constant sequence of rolls hits always or never. */
  lemma {:induction false} HitsConstant(n: nat, roll: real, p: real)
    ensures Hits(seq(n, _ => roll), p) == if roll < p then n else 0
  {
    if n > 0 {
      HitsConstant(n - 1, roll, p);
      assert seq(n, _ => roll)[..n - 1] == seq(n - 1, _ => roll);
    }
  }

  lemma {:induction false} DifferenceRange(plan: Plan, s: PlanStratum, d: Draw)
    requires Loaded(plan, s) && Possible(plan, s, d)
    ensures
      var p := OriginProbability(plan, s, d);
      var q := p + Difference(s, d.successUp);
      Least(q) - Most(p) <= DrawnDifference(plan, s, d) <= Most(q) - Least(p)
  {
    var p := OriginProbability(plan, s, d);
    var q := p + Difference(s, d.successUp);
    var n := plan.repetitions as real;
    HitsRange(d.candidateRolls, q);
    HitsRange(d.originRolls, p);
    DivideBounds(Hits(d.candidateRolls, q) as real - Hits(d.originRolls, p) as real, n, Least(q) - Most(p), Most(q) - Least(p));
  }

  lemma {:induction false} SavingRange(plan: Plan, s: PlanStratum, d: Draw)
    requires Loaded(plan, s) && Possible(plan, s, d)
    ensures Saving(s, d.savingUp) - 2.0 * s.jitter <= DrawnSaving(plan, s, d) <= Saving(s, d.savingUp) + 2.0 * s.jitter
  {
    var cost := plan.originCosts[d.cost];
    var base := cost - Saving(s, d.savingUp);
    MeanBounds(Jittered(cost, s.jitter, d.originJitters), cost - s.jitter, cost + s.jitter);
    MeanBounds(Jittered(base, s.jitter, d.candidateJitters), base - s.jitter, base + s.jitter);
  }

  /** The draw at one extreme: every roll and every jitter pulls the same way. */
  function Extreme(plan: Plan, origin: nat, successUp: bool, savingUp: bool, high: bool, p: real, q: real): Draw {
    var n := plan.repetitions;
    var originRoll := if high && p < 1.0 then p else 0.0;
    var candidateRoll := if !high && q < 1.0 then q else 0.0;
    Draw(origin, successUp, seq(n, _ => originRoll), seq(n, _ => candidateRoll),
         0, savingUp, seq(n, _ => high), seq(n, _ => !high))
  }

  lemma {:induction false} MeanConstant(xs: seq<real>, x: real)
    requires xs != [] && forall i :: 0 <= i < |xs| ==> xs[i] == x
    ensures Mean(xs) == x
  {
    MeanBounds(xs, x, x);
  }

  /** The hit counts of the extreme draw. */
  lemma {:induction false} ExtremeHits(n: nat, high: bool, p: real)
    requires 0.0 <= p <= 1.0
    ensures Hits(seq(n, _ => if high && p < 1.0 then p else 0.0), p) as real == (if high then Least(p) else Most(p)) * n as real
  {
    HitsConstant(n, if high && p < 1.0 then p else 0.0, p);
  }

  lemma {:induction false} ExtremePossible(plan: Plan, s: PlanStratum, i: nat, successUp: bool, savingUp: bool, high: bool, p: real, q: real)
    requires Loaded(plan, s) && i < |Probabilities(plan, s)| && 0.0 <= p <= 1.0 && 0.0 <= q <= 1.0
    ensures Possible(plan, s, Extreme(plan, i, successUp, savingUp, high, p, q))
  {
    var d := Extreme(plan, i, successUp, savingUp, high, p, q);
    assert AreRolls(d.originRolls, plan.repetitions);
    assert AreRolls(d.candidateRolls, plan.repetitions);
  }

  /** Hit counts that are multiples of the repetitions give the difference of the factors. */
  lemma {:induction false} HitRatio(candidate: nat, origin: nat, n: nat, x: real, y: real)
    requires n > 0 && candidate as real == x * n as real && origin as real == y * n as real
    ensures FrequencyDifference(candidate, origin, n) == x - y
  {
    var total := candidate as real - origin as real;
    assert total == (x - y) * n as real;
  }

  /** The choice's own probability and its shifted probability are probabilities. */
  lemma {:induction false} ProbabilitiesInRange(plan: Plan, s: PlanStratum, i: nat, up: bool)
    requires Loaded(plan, s) && SideOk(plan, s, up) && i < |Probabilities(plan, s)|
    ensures 0.0 <= Probabilities(plan, s)[i] <= 1.0
    ensures 0.0 <= Probabilities(plan, s)[i] + Difference(s, up) <= 1.0
  {
  }

  lemma {:induction false} ExtremeDifference(plan: Plan, s: PlanStratum, i: nat, successUp: bool, savingUp: bool, high: bool)
    requires Loaded(plan, s) && SideOk(plan, s, successUp) && i < |Probabilities(plan, s)|
    ensures
      var p := Probabilities(plan, s)[i];
      var q := p + Difference(s, successUp);
      var d := Extreme(plan, i, successUp, savingUp, high, p, q);
      && Possible(plan, s, d)
      && DrawnDifference(plan, s, d) == (if high then Most(q) - Least(p) else Least(q) - Most(p))
  {
    ProbabilitiesInRange(plan, s, i, successUp);
    var p := Probabilities(plan, s)[i];
    var q := p + Difference(s, successUp);
    ExtremePossible(plan, s, i, successUp, savingUp, high, p, q);
    ExtremeRatio(plan, s, Extreme(plan, i, successUp, savingUp, high, p, q), high, p, q);
  }

  lemma {:induction false} ExtremeRatio(plan: Plan, s: PlanStratum, d: Draw, high: bool, p: real, q: real)
    requires Loaded(plan, s) && Possible(plan, s, d) && 0.0 <= p <= 1.0 && 0.0 <= q <= 1.0
    requires p == OriginProbability(plan, s, d) && q == p + Difference(s, d.successUp)
    requires d.originRolls == seq(plan.repetitions, _ => if high && p < 1.0 then p else 0.0)
    requires d.candidateRolls == seq(plan.repetitions, _ => if !high && q < 1.0 then q else 0.0)
    ensures DrawnDifference(plan, s, d) == if high then Most(q) - Least(p) else Least(q) - Most(p)
  {
    ExtremeHits(plan.repetitions, high, p);
    ExtremeHits(plan.repetitions, !high, q);
    DrawnRatio(plan, s, d, p, q, if high then Most(q) else Least(q), if high then Least(p) else Most(p));
  }

  lemma {:induction false} DrawnRatio(plan: Plan, s: PlanStratum, d: Draw, p: real, q: real, x: real, y: real)
    requires Loaded(plan, s) && Possible(plan, s, d)
    requires p == OriginProbability(plan, s, d) && q == p + Difference(s, d.successUp)
    requires Hits(d.candidateRolls, q) as real == x * plan.repetitions as real
    requires Hits(d.originRolls, p) as real == y * plan.repetitions as real
    ensures DrawnDifference(plan, s, d) == x - y
  {
    HitRatio(Hits(d.candidateRolls, q), Hits(d.originRolls, p), plan.repetitions, x, y);
  }

  lemma {:induction false} ExtremeSaving(plan: Plan, s: PlanStratum, d: Draw, high: bool)
    requires Loaded(plan, s) && Possible(plan, s, d)
    requires forall k :: 0 <= k < plan.repetitions ==> d.originJitters[k] == high && d.candidateJitters[k] == !high
    ensures DrawnSaving(plan, s, d) == Saving(s, d.savingUp) + Signed(high, 2.0 * s.jitter)
  {
    var cost := plan.originCosts[d.cost];
    var base := cost - Saving(s, d.savingUp);
    MeanConstant(Jittered(cost, s.jitter, d.originJitters), cost + Signed(high, s.jitter));
    MeanConstant(Jittered(base, s.jitter, d.candidateJitters), base + Signed(!high, s.jitter));
  }

  // ---------- when the generator stays in its supports ----------

  /** Validation checks the extremes of a saving, so every draw's saving stays in its support. */
  lemma {:induction false} SavingStays(plan: Plan, s: PlanStratum, d: Draw)
    requires Loaded(plan, s) && DomainOk(plan, s) && Possible(plan, s, d)
    ensures Contains(plan.costSupport, DrawnSaving(plan, s, d))
  {
    SavingRange(plan, s, d);
    assert SideOk(plan, s, d.savingUp);
  }

  predicate SuccessCornerFits(plan: Plan, p: real, q: real) {
    Contains(plan.successSupport, Most(q) - Least(p)) && Contains(plan.successSupport, Least(q) - Most(p))
  }

  /**
   The success support holds at every corner. Validation checks the expected
   difference instead, but a block of repetitions can differ by a whole unit.
   */
  predicate SuccessFits(plan: Plan, s: PlanStratum) {
    forall i, up :: 0 <= i < |Probabilities(plan, s)| ==>
      SuccessCornerFits(plan, Probabilities(plan, s)[i], Probabilities(plan, s)[i] + Difference(s, up))
  }

  lemma {:induction false} SuccessInRange(plan: Plan, s: PlanStratum, d: Draw)
    requires Loaded(plan, s) && SuccessFits(plan, s) && Possible(plan, s, d)
    ensures Contains(plan.successSupport, DrawnDifference(plan, s, d))
  {
    DifferenceRange(plan, s, d);
    var p := Probabilities(plan, s)[d.origin];
    assert SuccessCornerFits(plan, p, p + Difference(s, d.successUp));
  }

  ghost predicate SuccessStays(plan: Plan, s: PlanStratum)
    requires Loaded(plan, s)
  {
    forall d :: Possible(plan, s, d) ==> Contains(plan.successSupport, DrawnDifference(plan, s, d))
  }

  lemma {:induction false} SuccessCornerIsDrawn(plan: Plan, s: PlanStratum, i: nat, up: bool)
    requires Loaded(plan, s) && DomainOk(plan, s) && SuccessStays(plan, s) && i < |Probabilities(plan, s)|
    ensures SuccessCornerFits(plan, Probabilities(plan, s)[i], Probabilities(plan, s)[i] + Difference(s, up))
  {
    assert SideOk(plan, s, up);
    ExtremeDifference(plan, s, i, up, up, true);
    ExtremeDifference(plan, s, i, up, up, false);
  }

  /** For a validated plan, no draw's success difference leaves its support exactly when the corners fit. */
  lemma {:induction false} SuccessStaysExactly(plan: Plan, s: PlanStratum)
    requires Loaded(plan, s) && DomainOk(plan, s)
    ensures SuccessStays(plan, s) <==> SuccessFits(plan, s)
  {
    if SuccessFits(plan, s) {
      forall d | Possible(plan, s, d)
        ensures Contains(plan.successSupport, DrawnDifference(plan, s, d))
      {
        SuccessInRange(plan, s, d);
      }
    }
    if SuccessStays(plan, s) {
      forall i, up | 0 <= i < |Probabilities(plan, s)|
        ensures SuccessCornerFits(plan, Probabilities(plan, s)[i], Probabilities(plan, s)[i] + Difference(s, up))
      {
        SuccessCornerIsDrawn(plan, s, i, up);
      }
    }
  }

  /** A success support that holds every difference of two frequencies. */
  predicate Wide(plan: Plan) {
    plan.successSupport.lower <= -1.0 && 1.0 <= plan.successSupport.upper
  }

  lemma {:induction false} WideSupportFits(plan: Plan, s: PlanStratum)
    requires Wide(plan)
    ensures SuccessFits(plan, s)
  {
    forall i, up | 0 <= i < |Probabilities(plan, s)|
      ensures SuccessCornerFits(plan, Probabilities(plan, s)[i], Probabilities(plan, s)[i] + Difference(s, up))
    {
    }
  }

  function UtilitySupport(plan: Plan): Interval {
    Interval(
      Utility(plan, plan.successSupport.lower, plan.costSupport.lower),
      Utility(plan, plan.successSupport.upper, plan.costSupport.upper))
  }

  /** The utility of the highest and of the lowest draw with the given choices. */
  function Peak(plan: Plan, s: PlanStratum, p: real, successUp: bool, savingUp: bool): real {
    Utility(plan, Most(p + Difference(s, successUp)) - Least(p), Saving(s, savingUp) + 2.0 * s.jitter)
  }

  function Trough(plan: Plan, s: PlanStratum, p: real, successUp: bool, savingUp: bool): real {
    Utility(plan, Least(p + Difference(s, successUp)) - Most(p), Saving(s, savingUp) - 2.0 * s.jitter)
  }

  predicate CornerFits(plan: Plan, s: PlanStratum, p: real, successUp: bool, savingUp: bool) {
    && Peak(plan, s, p, successUp, savingUp) <= UtilitySupport(plan).upper + TOLERANCE
    && Trough(plan, s, p, successUp, savingUp) >= UtilitySupport(plan).lower - TOLERANCE
  }

  /** The derived utility support holds at every corner of the plan. */
  predicate UtilityFits(plan: Plan, s: PlanStratum) {
    forall i, successUp, savingUp :: 0 <= i < |Probabilities(plan, s)| ==>
      CornerFits(plan, s, Probabilities(plan, s)[i], successUp, savingUp)
  }

  lemma {:induction false} MulMonotone(w: real, a: real, b: real)
    requires w >= 0.0 && a <= b
    ensures w * a <= w * b
  {
  }

  lemma {:induction false} UtilityMonotone(plan: Plan, x: real, x': real, y: real, y': real)
    requires plan.taskValue >= 0.0 && plan.costWeight >= 0.0 && x <= x' && y <= y'
    ensures Utility(plan, x, y) <= Utility(plan, x', y')
  {
    MulMonotone(plan.taskValue, x, x');
    MulMonotone(plan.costWeight, y, y');
  }

  /** A draw's utility lies between its trough and its peak. */
  lemma {:induction false} UtilityRange(plan: Plan, s: PlanStratum, d: Draw)
    requires Loaded(plan, s) && Possible(plan, s, d)
    ensures
      var p := OriginProbability(plan, s, d);
      Trough(plan, s, p, d.successUp, d.savingUp) <= Drawn(plan, s, d, "").utilityGain
        <= Peak(plan, s, p, d.successUp, d.savingUp)
  {
    var p := OriginProbability(plan, s, d);
    var q := p + Difference(s, d.successUp);
    var x, y := DrawnDifference(plan, s, d), DrawnSaving(plan, s, d);
    DifferenceRange(plan, s, d);
    SavingRange(plan, s, d);
    UtilityMonotone(plan, x, Most(q) - Least(p), y, Saving(s, d.savingUp) + 2.0 * s.jitter);
    UtilityMonotone(plan, Least(q) - Most(p), x, Saving(s, d.savingUp) - 2.0 * s.jitter, y);
  }

  /** Peak and trough are attained by possible draws. */
  lemma {:induction false} ExtremeIsAttained(plan: Plan, s: PlanStratum, i: nat, successUp: bool, savingUp: bool, high: bool) returns (d: Draw)
    requires Loaded(plan, s) && DomainOk(plan, s) && i < |Probabilities(plan, s)|
    ensures Possible(plan, s, d)
    ensures
      var p := Probabilities(plan, s)[i];
      Drawn(plan, s, d, "").utilityGain
        == if high then Peak(plan, s, p, successUp, savingUp) else Trough(plan, s, p, successUp, savingUp)
  {
    var p := Probabilities(plan, s)[i];
    d := Extreme(plan, i, successUp, savingUp, high, p, p + Difference(s, successUp));
    ExtremeDifference(plan, s, i, successUp, savingUp, high);
    ExtremeSaving(plan, s, d, high);
  }

  lemma {:induction false} UtilityInRange(plan: Plan, s: PlanStratum, d: Draw)
    requires Loaded(plan, s) && UtilityFits(plan, s) && Possible(plan, s, d)
    ensures Contains(UtilitySupport(plan), Drawn(plan, s, d, "").utilityGain)
  {
    UtilityRange(plan, s, d);
    assert CornerFits(plan, s, Probabilities(plan, s)[d.origin], d.successUp, d.savingUp);
  }

  ghost predicate UtilityStays(plan: Plan, s: PlanStratum)
    requires Loaded(plan, s)
  {
    forall d :: Possible(plan, s, d) ==> Contains(UtilitySupport(plan), Drawn(plan, s, d, "").utilityGain)
  }

  /**
   For a validated plan, no possible draw leaves the derived utility support
   exactly when the plan's corners fit in it.
   */
  lemma {:induction false} UtilityStaysExactly(plan: Plan, s: PlanStratum)
    requires Loaded(plan, s) && DomainOk(plan, s)
    ensures UtilityStays(plan, s) <==> UtilityFits(plan, s)
  {
    if UtilityFits(plan, s) {
      forall d | Possible(plan, s, d)
        ensures Contains(UtilitySupport(plan), Drawn(plan, s, d, "").utilityGain)
      {
        UtilityInRange(plan, s, d);
      }
    }
    if UtilityStays(plan, s) {
      forall i, successUp, savingUp | 0 <= i < |Probabilities(plan, s)|
        ensures CornerFits(plan, s, Probabilities(plan, s)[i], successUp, savingUp)
      {
        var high := ExtremeIsAttained(plan, s, i, successUp, savingUp, true);
        var low := ExtremeIsAttained(plan, s, i, successUp, savingUp, false);
      }
    }
  }

  /** How far validation lets a success difference exceed its support. */
  function SuccessSlack(plan: Plan): real { if Wide(plan) then 0.0 else TOLERANCE }

  /** Weights under which the slack of difference and saving together stays within the utility's own. */
  predicate SmallWeights(plan: Plan) {
    if Wide(plan) then plan.costWeight <= 1.0 else plan.taskValue + plan.costWeight <= 1.0
  }

  lemma {:induction false} SlackOfUtility(plan: Plan, x: real, y: real, e: real)
    ensures Utility(plan, x + e, y + TOLERANCE) == Utility(plan, x, y) + plan.taskValue * e + plan.costWeight * TOLERANCE
    ensures Utility(plan, x - e, y - TOLERANCE) == Utility(plan, x, y) - plan.taskValue * e - plan.costWeight * TOLERANCE
  {
  }

  lemma {:induction false} SlackIsSmall(plan: Plan)
    requires SmallWeights(plan)
    ensures plan.taskValue * SuccessSlack(plan) + plan.costWeight * TOLERANCE <= TOLERANCE
  {
    if Wide(plan) {
      assert plan.taskValue * 0.0 == 0.0;
      MulMonotone(TOLERANCE, plan.costWeight, 1.0);
    } else {
      MulMonotone(TOLERANCE, plan.taskValue + plan.costWeight, 1.0);
    }
  }

  lemma {:induction false} SuccessWithinSlack(plan: Plan, s: PlanStratum, i: nat, up: bool)
    requires SuccessFits(plan, s) && i < |Probabilities(plan, s)|
    ensures
      var p := Probabilities(plan, s)[i];
      var q := p + Difference(s, up);
      && Most(q) - Least(p) <= plan.successSupport.upper + SuccessSlack(plan)
      && Least(q) - Most(p) >= plan.successSupport.lower - SuccessSlack(plan)
  {
    assert SuccessCornerFits(plan, Probabilities(plan, s)[i], Probabilities(plan, s)[i] + Difference(s, up));
  }

  lemma {:induction false} SmallWeightCorner(plan: Plan, s: PlanStratum, i: nat, successUp: bool, savingUp: bool)
    requires Loaded(plan, s) && SideOk(plan, s, savingUp) && SuccessFits(plan, s) && SmallWeights(plan)
    requires i < |Probabilities(plan, s)|
    ensures CornerFits(plan, s, Probabilities(plan, s)[i], successUp, savingUp)
  {
    var p := Probabilities(plan, s)[i];
    var q := p + Difference(s, successUp);
    SuccessWithinSlack(plan, s, i, successUp);
    SlackIsSmall(plan);
    PeakWithinSlack(plan, Most(q) - Least(p), Saving(s, savingUp) + 2.0 * s.jitter, SuccessSlack(plan));
    TroughWithinSlack(plan, Least(q) - Most(p), Saving(s, savingUp) - 2.0 * s.jitter, SuccessSlack(plan));
  }

  lemma {:induction false} PeakWithinSlack(plan: Plan, x: real, y: real, e: real)
    requires plan.taskValue >= 0.0 && plan.costWeight >= 0.0
    requires x <= plan.successSupport.upper + e && y <= plan.costSupport.upper + TOLERANCE
    requires plan.taskValue * e + plan.costWeight * TOLERANCE <= TOLERANCE
    ensures Utility(plan, x, y) <= UtilitySupport(plan).upper + TOLERANCE
  {
    UtilityMonotone(plan, x, plan.successSupport.upper + e, y, plan.costSupport.upper + TOLERANCE);
    SlackOfUtility(plan, plan.successSupport.upper, plan.costSupport.upper, e);
  }

  lemma {:induction false} TroughWithinSlack(plan: Plan, x: real, y: real, e: real)
    requires plan.taskValue >= 0.0 && plan.costWeight >= 0.0
    requires x >= plan.successSupport.lower - e && y >= plan.costSupport.lower - TOLERANCE
    requires plan.taskValue * e + plan.costWeight * TOLERANCE <= TOLERANCE
    ensures Utility(plan, x, y) >= UtilitySupport(plan).lower - TOLERANCE
  {
    UtilityMonotone(plan, plan.successSupport.lower - e, x, plan.costSupport.lower - TOLERANCE, y);
    SlackOfUtility(plan, plan.successSupport.lower, plan.costSupport.lower, e);
  }

  /** Small weights always fit: the validation tolerance is not magnified beyond the utility's own. */
  lemma {:induction false} SmallWeightFits(plan: Plan, s: PlanStratum)
    requires Loaded(plan, s) && DomainOk(plan, s) && SuccessFits(plan, s) && SmallWeights(plan)
    ensures UtilityFits(plan, s)
  {
    forall i, successUp, savingUp | 0 <= i < |Probabilities(plan, s)|
      ensures CornerFits(plan, s, Probabilities(plan, s)[i], successUp, savingUp)
    {
      assert SideOk(plan, s, savingUp);
      SmallWeightCorner(plan, s, i, successUp, savingUp);
    }
  }

  // ---------- when evaluation aborts ----------

  /** The calibration evaluates with the plan's own supports. */
  predicate Uses(t: Thresholds, plan: Plan) {
    && t.successSupport == plan.successSupport && t.costSupport == plan.costSupport
    && t.utilitySupport == UtilitySupport(plan)
  }

  predicate PossibleDraws(plan: Plan, s: PlanStratum, draws: seq<Draw>) {
    |draws| == s.workloadCount && forall i :: 0 <= i < |draws| ==> Possible(plan, s, draws[i])
  }

  /** The observations of a list of draws. */
  function DrawnAll(plan: Plan, s: PlanStratum, draws: seq<Draw>): (os: seq<Observation>)
    requires Loaded(plan, s) && PossibleDraws(plan, s, draws)
    ensures |os| == |draws| && forall i :: 0 <= i < |os| ==> os[i] == Drawn(plan, s, draws[i], WorkloadName(s.stratumId, i))
  {
    seq(|draws|, i requires 0 <= i < |draws| => Drawn(plan, s, draws[i], WorkloadName(s.stratumId, i)))
  }

  /** Evaluation succeeds on every list of draws the stratum can yield. */
  ghost predicate NeverAborts(plan: Plan, s: PlanStratum, t: Thresholds, bound: Bound)
    requires Loaded(plan, s) && SupportsOk(t)
  {
    forall draws :: PossibleDraws(plan, s, draws) ==> Evaluate(DrawnAll(plan, s, draws), t, bound).Ok?
  }

  predicate InSupports(plan: Plan, s: PlanStratum, d: Draw)
    requires Loaded(plan, s) && Possible(plan, s, d)
  {
    && Contains(plan.successSupport, DrawnDifference(plan, s, d))
    && Contains(plan.costSupport, DrawnSaving(plan, s, d))
    && Contains(UtilitySupport(plan), Drawn(plan, s, d, "").utilityGain)
  }

  /** Evaluation of a list of draws succeeds exactly when each of them lies in its supports. */
  lemma {:induction false} DrawnEvaluates(
    plan: Plan, s: PlanStratum, draws: seq<Draw>, t: Thresholds, bound: Bound)
    requires Loaded(plan, s) && PossibleDraws(plan, s, draws) && SupportsOk(t) && Uses(t, plan)
    ensures Evaluate(DrawnAll(plan, s, draws), t, bound).Ok?
      <==> forall i :: 0 <= i < |draws| ==> InSupports(plan, s, draws[i])
  {
    var os := DrawnAll(plan, s, draws);
    EvaluateAborts(os, t, bound);
    forall i | 0 <= i < |draws|
      ensures InSupports(plan, s, draws[i]) <==> ObservationFits(os[i], t)
    {
      DrawFits(plan, s, draws[i], t, WorkloadName(s.stratumId, i));
    }
  }

  predicate ObservationFits(o: Observation, t: Thresholds) {
    && Contains(t.successSupport, o.successDifference)
    && Contains(t.costSupport, o.costSaving)
    && Contains(t.utilitySupport, o.utilityGain)
  }

  lemma {:induction false} DrawFits(plan: Plan, s: PlanStratum, d: Draw, t: Thresholds, name: string)
    requires Loaded(plan, s) && Possible(plan, s, d) && Uses(t, plan)
    ensures InSupports(plan, s, d) <==> ObservationFits(Drawn(plan, s, d, name), t)
  {
  }

  /** A stratum whose every list evaluates has every single draw in its supports. */
  lemma {:induction false} EveryDrawInSupports(
    plan: Plan, s: PlanStratum, d: Draw, t: Thresholds, bound: Bound)
    requires Loaded(plan, s) && Possible(plan, s, d) && SupportsOk(t) && Uses(t, plan)
    requires NeverAborts(plan, s, t, bound)
    ensures InSupports(plan, s, d)
  {
    var draws := seq(s.workloadCount, _ => d);
    assert PossibleDraws(plan, s, draws);
    DrawnEvaluates(plan, s, draws, t, bound);
    assert InSupports(plan, s, draws[0]);
  }

  /**
   For a loaded and validated stratum, certificate evaluation never aborts,
   whatever is drawn, exactly when the success and the utility corners fit.
   */
  lemma {:induction false} EvaluationNeverAborts(plan: Plan, s: PlanStratum, t: Thresholds, bound: Bound)
    requires Loaded(plan, s) && DomainOk(plan, s) && SupportsOk(t) && Uses(t, plan)
    ensures NeverAborts(plan, s, t, bound) <==> SuccessFits(plan, s) && UtilityFits(plan, s)
  {
    if SuccessFits(plan, s) && UtilityFits(plan, s) {
      forall draws | PossibleDraws(plan, s, draws)
        ensures Evaluate(DrawnAll(plan, s, draws), t, bound).Ok?
      {
        forall i | 0 <= i < |draws|
          ensures InSupports(plan, s, draws[i])
        {
          SuccessInRange(plan, s, draws[i]);
          SavingStays(plan, s, draws[i]);
          UtilityInRange(plan, s, draws[i]);
        }
        DrawnEvaluates(plan, s, draws, t, bound);
      }
    }
    if NeverAborts(plan, s, t, bound) {
      forall d | Possible(plan, s, d)
        ensures InSupports(plan, s, d)
      {
        EveryDrawInSupports(plan, s, d, t, bound);
      }
      SuccessStaysExactly(plan, s);
      UtilityStaysExactly(plan, s);
    }
  }

  // ---------- validated plans that abort ----------

  /** Evaluation of this one draw aborts, whatever the bound and the remaining thresholds. */
  ghost predicate Aborts(plan: Plan, s: PlanStratum, d: Draw)
    requires Loaded(plan, s) && Possible(plan, s, d)
  {
    forall t, bound, name :: SupportsOk(t) && Uses(t, plan) ==> Evaluate([Drawn(plan, s, d, name)], t, bound).Err?
  }

  lemma {:induction false} OutsideAborts(plan: Plan, s: PlanStratum, d: Draw)
    requires Loaded(plan, s) && Possible(plan, s, d) && !InSupports(plan, s, d)
    ensures Aborts(plan, s, d)
  {
    forall t, bound, name | SupportsOk(t) && Uses(t, plan)
      ensures Evaluate([Drawn(plan, s, d, name)], t, bound).Err?
    {
      var os := [Drawn(plan, s, d, name)];
      EvaluateAborts(os, t, bound);
      DrawFits(plan, s, d, t, name);
      assert !ObservationFits(os[0], t);
    }
  }

  /** A one-workload plan with a saving that does not vary, under unit cost support and no task value. */
  function SimplePlan(success: Interval, w: real): Plan {
    Plan(1, success, Interval(0.0, 1.0), 0.0, w, [0.5], [5.0])
  }

  function SimpleStratum(saving: real): PlanStratum {
    PlanStratum("", 1, 0.0, 0.0, saving, 0.0, 0.0, [])
  }

  lemma {:induction false} SimpleIsLoaded(plan: Plan, s: PlanStratum, success: Interval, w: real, saving: real)
    requires w >= 0.0 && Width(success) > 0.0 && plan == SimplePlan(success, w) && s == SimpleStratum(saving)
    ensures Loaded(plan, s) && Probabilities(plan, s) == [0.5]
  {
  }

  lemma {:induction false} SimpleSideOk(plan: Plan, s: PlanStratum, success: Interval, w: real, saving: real, up: bool)
    requires Contains(success, 0.0) && 0.0 <= saving <= 1.0 + TOLERANCE
    requires plan == SimplePlan(success, w) && s == SimpleStratum(saving)
    ensures SideOk(plan, s, up)
  {
    assert Difference(s, up) == 0.0 && Saving(s, up) == saving;
    assert Probabilities(plan, s) == [0.5];
  }

  lemma {:induction false} SimplePeak(plan: Plan, s: PlanStratum, success: Interval, w: real, saving: real, successUp: bool, savingUp: bool)
    requires plan == SimplePlan(success, w) && s == SimpleStratum(saving)
    ensures Peak(plan, s, 0.5, successUp, savingUp) == w * saving == Trough(plan, s, 0.5, successUp, savingUp)
    ensures UtilitySupport(plan) == Interval(0.0, w)
  {
  }

  /** A plan whose saving sits at the edge of the tolerance around its support. */
  lemma {:induction false} EdgeExists(w: real) returns (plan: Plan, s: PlanStratum)
    requires w > 1.0
    ensures plan.costWeight == w && Loaded(plan, s) && DomainOk(plan, s) && Wide(plan)
    ensures Peak(plan, s, Probabilities(plan, s)[0], true, true) > UtilitySupport(plan).upper + TOLERANCE
  {
    var success, saving := Interval(-1.0, 1.0), 1.0 + TOLERANCE;
    plan, s := SimplePlan(success, w), SimpleStratum(saving);
    SimpleIsLoaded(plan, s, success, w, saving);
    SimpleSideOk(plan, s, success, w, saving, false);
    SimpleSideOk(plan, s, success, w, saving, true);
    SimplePeak(plan, s, success, w, saving, true, true);
    EdgeMagnified(w);
  }

  lemma {:induction false} EdgeMagnified(w: real)
    requires w > 1.0
    ensures w * (1.0 + TOLERANCE) > w + TOLERANCE
  {
    assert w * (1.0 + TOLERANCE) == w + w * TOLERANCE;
  }

  /**
   Validation is not enough for the utility: it tolerates a saving a hair outside
   its support, and a cost weight above one magnifies that beyond the same
   tolerance. Every such weight has a validated plan, with a wide success
   support, and a draw on which evaluation aborts.
   */
  lemma {:induction false} ValidatedPlanCanAbort(w: real) returns (plan: Plan, s: PlanStratum, d: Draw)
    requires w > 1.0
    ensures plan.costWeight == w && Loaded(plan, s) && DomainOk(plan, s) && Wide(plan)
    ensures Possible(plan, s, d) && !Contains(UtilitySupport(plan), Drawn(plan, s, d, "").utilityGain)
    ensures Aborts(plan, s, d)
  {
    plan, s := EdgeExists(w);
    d := ExtremeIsAttained(plan, s, 0, true, true, true);
    OutsideAborts(plan, s, d);
  }

  lemma {:induction false} NarrowExists(half: real) returns (plan: Plan, s: PlanStratum)
    requires 0.0 < half < 1.0 - TOLERANCE
    ensures plan.successSupport == Interval(-half, half) && plan.costWeight <= 1.0
    ensures Loaded(plan, s) && DomainOk(plan, s) && UtilityFits(plan, s)
    ensures Probabilities(plan, s)[0] == 0.5 && Difference(s, true) == 0.0
  {
    var success, saving := Interval(-half, half), 0.5;
    plan, s := SimplePlan(success, 1.0), SimpleStratum(saving);
    SimpleIsLoaded(plan, s, success, 1.0, saving);
    SimpleSideOk(plan, s, success, 1.0, saving, false);
    SimpleSideOk(plan, s, success, 1.0, saving, true);
    SimpleFits(plan, s, success, saving);
  }

  lemma {:induction false} SimpleFits(plan: Plan, s: PlanStratum, success: Interval, saving: real)
    requires 0.0 <= saving <= 1.0 && plan == SimplePlan(success, 1.0) && s == SimpleStratum(saving)
    ensures UtilityFits(plan, s)
  {
    forall i, successUp, savingUp | 0 <= i < |Probabilities(plan, s)|
      ensures CornerFits(plan, s, Probabilities(plan, s)[i], successUp, savingUp)
    {
      assert Probabilities(plan, s)[i] == 0.5;
      SimplePeak(plan, s, success, 1.0, saving, successUp, savingUp);
    }
  }

  /**
   Nor is it enough for the success difference: it bounds the expected
   difference, while drawn frequencies can differ by one. Every symmetric
   support narrower than that has a validated plan, with fitting utility, and a
   draw on which evaluation aborts.
   */
  lemma {:induction false} NarrowSupportCanAbort(half: real) returns (plan: Plan, s: PlanStratum, d: Draw)
    requires 0.0 < half < 1.0 - TOLERANCE
    ensures plan.successSupport == Interval(-half, half) && plan.costWeight <= 1.0
    ensures Loaded(plan, s) && DomainOk(plan, s) && UtilityFits(plan, s)
    ensures Possible(plan, s, d) && !Contains(plan.successSupport, DrawnDifference(plan, s, d))
    ensures Aborts(plan, s, d)
  {
    plan, s := NarrowExists(half);
    d := HighestDifference(plan, s);
    OutsideAborts(plan, s, d);
  }

  lemma {:induction false} HighestDifference(plan: Plan, s: PlanStratum) returns (d: Draw)
    requires Loaded(plan, s) && DomainOk(plan, s)
    ensures
      var p := Probabilities(plan, s)[0];
      Possible(plan, s, d) && DrawnDifference(plan, s, d) == Most(p + Difference(s, true)) - Least(p)
  {
    var p := Probabilities(plan, s)[0];
    d := Extreme(plan, 0, true, true, true, p, p + Difference(s, true));
    ExtremeDifference(plan, s, 0, true, true, true);
  }
}
