/** A calibration of a whole plan: its strata drawn from seeded generators, evaluated and counted. */
module CalibratedPlans {
  import opened Basics
  import opened Certificate
  import opened Calibration
  import opened Generator
  import opened GeneratorProofs

  /** The gates of a plan, apart from its supports. */
  datatype Gates = Gates(alpha: real, successMargin: real, minimumSaving: real, minimumWorkloads: nat)

  const SAFE_DESIGN := "D_origin_reference"
  const CANDIDATE_DESIGN := "D_candidate_reference"

  /** Two gates with two sides each, for every stratum of the family. */
  function FamilySize(strata: seq<PlanStratum>): nat { |strata| * 4 }

  function PlanThresholds(plan: Plan, gates: Gates, strata: seq<PlanStratum>): Thresholds
    requires strata != []
  {
    Thresholds(
      plan.successSupport, plan.costSupport, UtilitySupport(plan), gates.alpha / FamilySize(strata) as real,
      gates.successMargin, gates.minimumSaving, gates.minimumWorkloads, SAFE_DESIGN, CANDIDATE_DESIGN)
  }

  /** The family shares its error: one equal part for each gate and side of each stratum; the rest is the plan's. */
  lemma {:induction false} ThresholdsMeaning(plan: Plan, gates: Gates, strata: seq<PlanStratum>)
    requires strata != []
    ensures
      var t := PlanThresholds(plan, gates, strata);
      && t.adjustedAlpha * (2 * 2 * |strata|) as real == gates.alpha
      && t.successMargin == gates.successMargin && t.minimumSaving == gates.minimumSaving
      && t.minimumWorkloads == gates.minimumWorkloads
      && t.safeDesign == "D_origin_reference" && t.candidateDesign == "D_candidate_reference"
  {
    ShareOf(gates.alpha, FamilySize(strata) as real);
  }

  lemma {:induction false} ShareOf(alpha: real, n: real)
    requires n > 0.0
    ensures alpha / n * n == alpha
  {
  }

  function Truths(strata: seq<PlanStratum>): (truths: seq<Truth>)
    ensures |truths| == |strata|
    ensures forall i :: 0 <= i < |strata| ==>
      truths[i] == Truth(strata[i].stratumId, strata[i].successDifference, strata[i].costSaving)
  {
    seq(|strata|, i requires 0 <= i < |strata| =>
      Truth(strata[i].stratumId, strata[i].successDifference, strata[i].costSaving))
  }

  function Find(strata: seq<PlanStratum>, id: string): Option<PlanStratum> {
    if strata == [] then None
    else if strata[0].stratumId == id then Some(strata[0])
    else Find(strata[1..], id)
  }

  predicate DistinctIds(strata: seq<PlanStratum>) {
    forall i, j :: 0 <= i < j < |strata| ==> strata[i].stratumId != strata[j].stratumId
  }

  lemma {:induction false} FindAt(strata: seq<PlanStratum>, i: nat)
    requires DistinctIds(strata) && i < |strata|
    ensures Find(strata, strata[i].stratumId) == Some(strata[i])
  {
    if i > 0 {
      FindAt(strata[1..], i - 1);
    }
  }

  /** One generator per stratum and simulation. */
  type Seeds = (string, nat) -> Source

  function DrawsOf(plan: Plan, s: PlanStratum, src: Source): (draws: seq<Draw>)
    ensures |draws| == s.workloadCount
    ensures forall k :: 0 <= k < |draws| ==> draws[k] == DrawAt(plan, s, src, Position(plan, 0, k))
  {
    seq(s.workloadCount, k requires 0 <= k < s.workloadCount => DrawAt(plan, s, src, Position(plan, 0, k)))
  }

  lemma {:induction false} DrawsArePossible(plan: Plan, s: PlanStratum, src: Source)
    requires Loaded(plan, s)
    ensures PossibleDraws(plan, s, DrawsOf(plan, s, src))
  {
    forall k | 0 <= k < s.workloadCount
      ensures Possible(plan, s, DrawsOf(plan, s, src)[k])
    {
      DrawAtIsPossible(plan, s, src, Position(plan, 0, k));
    }
  }

  /** What a stratum yields from a fresh generator. */
  function Generated(plan: Plan, s: PlanStratum, src: Source): seq<Observation>
    requires Loaded(plan, s)
  {
    DrawsArePossible(plan, s, src);
    DrawnAll(plan, s, DrawsOf(plan, s, src))
  }

  /** It is what the loop over the workloads returns. */
  lemma {:induction false} ObservedIsGenerated(plan: Plan, s: PlanStratum, src: Source, os: seq<Observation>)
    requires Loaded(plan, s) && |os| == s.workloadCount && Observed(plan, s, src, 0, os)
    ensures os == Generated(plan, s, src)
  {
    DrawsArePossible(plan, s, src);
    forall k | 0 <= k < |os|
      ensures os[k] == Generated(plan, s, src)[k]
    {
      assert ObservedAt(plan, s, src, Position(plan, 0, k), os[k], WorkloadName(s.stratumId, k));
    }
  }

  /** The data of one stratum and simulation. */
  function Data(plan: Plan, strata: seq<PlanStratum>, seeds: Seeds, id: string, sim: nat): seq<Observation> {
    match Find(strata, id)
    case None => []
    case Some(s) => if Loaded(plan, s) then Generated(plan, s, seeds(id, sim)) else []
  }

  function PlanScenario(plan: Plan, gates: Gates, strata: seq<PlanStratum>, bound: Bound, seeds: Seeds): RawScenario
    requires strata != [] && Loaded(plan, strata[0])
  {
    var t := PlanThresholds(plan, gates, strata);
    RawScenario(Truths(strata), t, Evaluated(t, bound, (id: string, sim: nat) => Data(plan, strata, seeds, id, sim)))
  }

  /** A loaded, validated stratum whose corners fit. */
  predicate Fits(plan: Plan, s: PlanStratum) {
    Loaded(plan, s) && DomainOk(plan, s) && SuccessFits(plan, s) && UtilityFits(plan, s)
  }

  predicate FamilyFits(plan: Plan, strata: seq<PlanStratum>) {
    strata != [] && DistinctIds(strata) && forall i :: 0 <= i < |strata| ==> Fits(plan, strata[i])
  }

  lemma {:induction false} GeneratedEvaluates(plan: Plan, s: PlanStratum, src: Source, t: Thresholds, bound: Bound)
    requires Fits(plan, s) && SupportsOk(t) && Uses(t, plan)
    ensures Evaluate(Generated(plan, s, src), t, bound).Ok?
  {
    EvaluationNeverAborts(plan, s, t, bound);
    DrawsArePossible(plan, s, src);
    assert PossibleDraws(plan, s, DrawsOf(plan, s, src));
  }

  lemma {:induction false} ThresholdsUsePlan(plan: Plan, gates: Gates, strata: seq<PlanStratum>)
    requires strata != [] && Loaded(plan, strata[0])
    ensures SupportsOk(PlanThresholds(plan, gates, strata)) && Uses(PlanThresholds(plan, gates, strata), plan)
  {
  }

  lemma {:induction false} DataIsGenerated(plan: Plan, strata: seq<PlanStratum>, seeds: Seeds, i: nat, sim: nat)
    requires DistinctIds(strata) && i < |strata| && Loaded(plan, strata[i])
    ensures Data(plan, strata, seeds, strata[i].stratumId, sim) == Generated(plan, strata[i], seeds(strata[i].stratumId, sim))
  {
    FindAt(strata, i);
  }

  lemma {:induction false} StratumEvaluates(
    plan: Plan, strata: seq<PlanStratum>, seeds: Seeds, i: nat, sim: nat, t: Thresholds, bound: Bound)
    requires DistinctIds(strata) && i < |strata| && Fits(plan, strata[i]) && SupportsOk(t) && Uses(t, plan)
    ensures Evaluate(Data(plan, strata, seeds, strata[i].stratumId, sim), t, bound).Ok?
  {
    DataIsGenerated(plan, strata, seeds, i, sim);
    GeneratedEvaluates(plan, strata[i], seeds(strata[i].stratumId, sim), t, bound);
  }

  /** A family that fits evaluates in every simulation, for any seeds and any bound. */
  lemma {:induction false} FamilyEvaluates(
    plan: Plan, gates: Gates, strata: seq<PlanStratum>, bound: Bound, seeds: Seeds, n: nat)
    requires FamilyFits(plan, strata)
    ensures Fits(plan, strata[0]) && WellFormed(PlanScenario(plan, gates, strata, bound, seeds))
    ensures Evaluates(PlanScenario(plan, gates, strata, bound, seeds), n)
  {
    var t := PlanThresholds(plan, gates, strata);
    var data := (id: string, sim: nat) => Data(plan, strata, seeds, id, sim);
    assert Fits(plan, strata[0]);
    ThresholdsUsePlan(plan, gates, strata);
    EvaluationIsWellFormed(Truths(strata), t, bound, data);
    var s := PlanScenario(plan, gates, strata, bound, seeds);
    forall sim, i | 0 <= sim < n && 0 <= i < |strata|
      ensures s.outcome(s.strata[i], sim).Ok?
    {
      StratumEvaluates(plan, strata, seeds, i, sim, t, bound);
    }
    forall sim | 0 <= sim < n
      ensures AllEvaluate(s, sim, |s.strata|)
    {
    }
  }

  /** One generator per scenario, stratum and simulation. */
  type PlanSeeds = (nat, string, nat) -> Source

  /**
   The calibration of a plan whose families all fit always succeeds, whatever
   is drawn and whatever the bound, and its counters obey the counting laws.
   */
  method Calibrate(
    plan: Plan, gates: Gates, families: seq<seq<PlanStratum>>, bound: Bound, seeds: PlanSeeds,
    planned: nat, override: Option<nat>)
    returns (r: Overall)
    requires forall k :: 0 <= k < |families| ==> FamilyFits(plan, families[k])
    ensures
      var n := if override.Some? && override.value > 0 then override.value else planned;
      && |r.reports| == |families| && r.simulations == |families| * n
      && (forall k :: 0 <= k < |families| ==> r.reports[k].familyFalseSafe + r.reports[k].familyCoverage <= n)
      && r.falseSafe + r.coverage <= r.simulations
  {
    var n := if override.Some? && override.value > 0 then override.value else planned;
    var scenarios: seq<Scenario> := [];
    for k := 0 to |families|
      invariant |scenarios| == k
      invariant forall i :: 0 <= i < k ==> Evaluates(scenarios[i], n)
    {
      var own := (id: string, sim: nat) => seeds(k, id, sim);
      FamilyEvaluates(plan, gates, families[k], bound, own, n);
      scenarios := scenarios + [PlanScenario(plan, gates, families[k], bound, own)];
    }
    var run := RunMonteCarlo(scenarios, planned, override);
    r := run.value;
    assert forall k :: 0 <= k < |families| ==> LawfulReport(scenarios[k], r.reports[k], n);
  }
}
