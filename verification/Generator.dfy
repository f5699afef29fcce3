/**
 The synthetic data behind the calibration. Random draws are explicit: one
 record per workload holds every choice and every uniform roll it consumes.
 */
module Generator {
  import opened Basics
  import opened Statistics
  import opened Certificate
  import opened Numerals

  datatype PlanStratum = PlanStratum(
    stratumId: string,
    workloadCount: nat,
    successDifference: real,
    successSpread: real,
    costSaving: real,
    costSpread: real,
    jitter: real,
    ownProbabilities: seq<real>)

  datatype Plan = Plan(
    repetitions: nat,
    successSupport: Interval,
    costSupport: Interval,
    taskValue: real,
    costWeight: real,
    probabilities: seq<real>,
    originCosts: seq<real>)

  function Probabilities(plan: Plan, s: PlanStratum): seq<real> {
    if s.ownProbabilities != [] then s.ownProbabilities else plan.probabilities
  }

  predicate AreProbabilities(ps: seq<real>) {
    forall i :: 0 <= i < |ps| ==> 0.0 <= ps[i] <= 1.0
  }

  /** What the loader has checked field by field. */
  predicate Loaded(plan: Plan, s: PlanStratum) {
    && plan.repetitions > 0 && s.workloadCount > 0
    && Width(plan.successSupport) > 0.0 && Width(plan.costSupport) > 0.0
    && plan.taskValue >= 0.0 && plan.costWeight >= 0.0
    && s.successSpread >= 0.0 && s.costSpread >= 0.0 && s.jitter >= 0.0
    && plan.probabilities != [] && AreProbabilities(plan.probabilities) && AreProbabilities(s.ownProbabilities)
    && plan.originCosts != []
  }

  function Signed(up: bool, x: real): real { if up then x else -x }

  function Difference(s: PlanStratum, up: bool): real { s.successDifference + Signed(up, s.successSpread) }

  function Saving(s: PlanStratum, up: bool): real { s.costSaving + Signed(up, s.costSpread) }

  /** Shifts go the way they are called, and a stratum's own probabilities replace the plan's. */
  lemma {:induction false} ShiftsAndProbabilities(plan: Plan, s: PlanStratum)
    requires Loaded(plan, s)
    ensures Difference(s, false) + s.successSpread == s.successDifference == Difference(s, true) - s.successSpread
    ensures Saving(s, false) + s.costSpread == s.costSaving == Saving(s, true) - s.costSpread
    ensures |s.ownProbabilities| > 0 ==> Probabilities(plan, s) == s.ownProbabilities
    ensures |s.ownProbabilities| == 0 ==> Probabilities(plan, s) == plan.probabilities
  {
  }

  // ---------- domain validation ----------

  predicate SideOk(plan: Plan, s: PlanStratum, up: bool) {
    && Contains(plan.successSupport, Difference(s, up))
    && (forall i :: 0 <= i < |Probabilities(plan, s)| ==> 0.0 <= Probabilities(plan, s)[i] + Difference(s, up) <= 1.0)
    && Contains(plan.costSupport, Saving(s, up) - 2.0 * s.jitter)
    && Contains(plan.costSupport, Saving(s, up) + 2.0 * s.jitter)
  }

  predicate DomainOk(plan: Plan, s: PlanStratum) { SideOk(plan, s, false) && SideOk(plan, s, true) }

  datatype DomainError = DifferenceLeavesSupport | ProbabilityLeavesUnit | SavingLeavesSupport

  /** What each refusal reports, on one side of one stratum. */
  predicate SideFaulty(plan: Plan, s: PlanStratum, up: bool, e: DomainError) {
    match e
    case DifferenceLeavesSupport => !Contains(plan.successSupport, Difference(s, up))
    case ProbabilityLeavesUnit =>
      exists i :: 0 <= i < |Probabilities(plan, s)|
        && (Probabilities(plan, s)[i] + Difference(s, up) < 0.0 || Probabilities(plan, s)[i] + Difference(s, up) > 1.0)
    case SavingLeavesSupport =>
      || !Contains(plan.costSupport, Saving(s, up) - 2.0 * s.jitter)
      || !Contains(plan.costSupport, Saving(s, up) + 2.0 * s.jitter)
  }

  /** The nested validation loops over strata, signs, probabilities and jitters. */
  method ValidateGeneratorDomain(plan: Plan, strata: seq<PlanStratum>) returns (r: Option<DomainError>)
    ensures r.None? <==> forall k :: 0 <= k < |strata| ==> DomainOk(plan, strata[k])
    ensures r.Some? ==> exists k, up :: 0 <= k < |strata| && SideFaulty(plan, strata[k], up, r.value)
  {
    for k := 0 to |strata|
      invariant forall i :: 0 <= i < k ==> DomainOk(plan, strata[i])
    {
      var low := ValidateSide(plan, strata[k], false);
      if low.Some? {
        assert !DomainOk(plan, strata[k]);
        return low;
      }
      var high := ValidateSide(plan, strata[k], true);
      if high.Some? {
        assert !DomainOk(plan, strata[k]);
        return high;
      }
    }
    return None;
  }

  method ValidateSide(plan: Plan, s: PlanStratum, up: bool) returns (r: Option<DomainError>)
    ensures r.None? <==> SideOk(plan, s, up)
    ensures r.Some? ==> SideFaulty(plan, s, up, r.value)
  {
    var difference := Difference(s, up);
    if !Contains(plan.successSupport, difference) {
      return Some(DifferenceLeavesSupport);
    }
    var ps := Probabilities(plan, s);
    for i := 0 to |ps|
      invariant forall j :: 0 <= j < i ==> 0.0 <= ps[j] + difference <= 1.0
    {
      if !(0.0 <= ps[i] + difference <= 1.0) {
        return Some(ProbabilityLeavesUnit);
      }
    }
    var saving := Saving(s, up);
    if !Contains(plan.costSupport, saving - 2.0 * s.jitter) || !Contains(plan.costSupport, saving + 2.0 * s.jitter) {
      return Some(SavingLeavesSupport);
    }
    return None;
  }

  // ---------- one workload's draws ----------

  datatype Draw = Draw(
    origin: nat,
    successUp: bool,
    originRolls: seq<real>,
    candidateRolls: seq<real>,
    cost: nat,
    savingUp: bool,
    originJitters: seq<bool>,
    candidateJitters: seq<bool>)

  predicate AreRolls(rolls: seq<real>, n: nat) {
    |rolls| == n && forall i :: 0 <= i < n ==> 0.0 <= rolls[i] < 1.0
  }

  /** Choices within their lists, and uniform rolls in [0, 1). */
  predicate Possible(plan: Plan, s: PlanStratum, d: Draw) {
    && d.origin < |Probabilities(plan, s)| && d.cost < |plan.originCosts|
    && AreRolls(d.originRolls, plan.repetitions) && AreRolls(d.candidateRolls, plan.repetitions)
    && |d.originJitters| == plan.repetitions && |d.candidateJitters| == plan.repetitions
  }

  /** How many rolls fall below `p`. */
  function Hits(rolls: seq<real>, p: real): nat {
    if rolls == [] then 0 else Hits(rolls[..|rolls| - 1], p) + (if rolls[|rolls| - 1] < p then 1 else 0)
  }

  function Jittered(base: real, jitter: real, signs: seq<bool>): (block: seq<real>)
    ensures |block| == |signs| && forall i :: 0 <= i < |signs| ==> block[i] == base + Signed(signs[i], jitter)
  {
    seq(|signs|, i requires 0 <= i < |signs| => base + Signed(signs[i], jitter))
  }

  function OriginProbability(plan: Plan, s: PlanStratum, d: Draw): real
    requires Possible(plan, s, d)
  {
    Probabilities(plan, s)[d.origin]
  }

  function FrequencyDifference(candidate: nat, origin: nat, n: nat): real
    requires n > 0
  {
    (candidate as real - origin as real) / n as real
  }

  function BlockSaving(origin: seq<real>, candidate: seq<real>): real
    requires origin != [] && candidate != []
  {
    Mean(origin) - Mean(candidate)
  }

  function DrawnDifference(plan: Plan, s: PlanStratum, d: Draw): real
    requires Loaded(plan, s) && Possible(plan, s, d)
  {
    var p := OriginProbability(plan, s, d);
    FrequencyDifference(Hits(d.candidateRolls, p + Difference(s, d.successUp)), Hits(d.originRolls, p), plan.repetitions)
  }

  function DrawnSaving(plan: Plan, s: PlanStratum, d: Draw): real
    requires Loaded(plan, s) && Possible(plan, s, d)
  {
    var cost := plan.originCosts[d.cost];
    BlockSaving(
      Jittered(cost, s.jitter, d.originJitters),
      Jittered(cost - Saving(s, d.savingUp), s.jitter, d.candidateJitters))
  }

  function Utility(plan: Plan, difference: real, saving: real): real {
    plan.taskValue * difference + plan.costWeight * saving
  }

  function Drawn(plan: Plan, s: PlanStratum, d: Draw, workload: string): Observation
    requires Loaded(plan, s) && Possible(plan, s, d)
  {
    var difference, saving := DrawnDifference(plan, s, d), DrawnSaving(plan, s, d);
    Observation(workload, difference, saving, Utility(plan, difference, saving))
  }

  // ---------- drawing from one generator ----------

  /** What the k-th call of a generator yields: an index below `n` for a choice, or a uniform roll. */
  datatype RawSource = Source(pick: (nat, nat) -> nat, uniform: nat -> real)

  ghost predicate LawfulSource(src: RawSource) {
    && (forall k, n :: n > 0 ==> src.pick(k, n) < n)
    && (forall k :: 0.0 <= src.uniform(k) < 1.0)
  }

  type Source = src: RawSource | LawfulSource(src) witness Source((_, _) => 0, _ => 0.0)

  function Pick(src: Source, k: nat, n: nat): (i: nat)
    ensures n > 0 ==> i < n
  {
    src.pick(k, n)
  }

  function Uniform(src: Source, k: nat): (u: real)
    ensures 0.0 <= u < 1.0
  {
    src.uniform(k)
  }

  function Rolls(src: Source, at: nat, n: nat): (rolls: seq<real>)
    ensures |rolls| == n && forall i :: 0 <= i < n ==> rolls[i] == Uniform(src, at + i)
  {
    seq(n, i requires 0 <= i < n => Uniform(src, at + i))
  }

  /** A choice between a negative and a positive shift. */
  function Sign(src: Source, at: nat): bool { Pick(src, at, 2) == 1 }

  function Signs(src: Source, at: nat, n: nat): (signs: seq<bool>)
    ensures |signs| == n && forall i :: 0 <= i < n ==> signs[i] == Sign(src, at + i)
  {
    seq(n, i requires 0 <= i < n => Sign(src, at + i))
  }

  /** The draw of one workload, in the order in which its parts are drawn. */
  function DrawAt(plan: Plan, s: PlanStratum, src: Source, at: nat): Draw {
    var n := plan.repetitions;
    var half := at + 2 + 2 * n;
    Draw(
      Pick(src, at, |Probabilities(plan, s)|), Sign(src, at + 1), Rolls(src, at + 2, n), Rolls(src, at + 2 + n, n),
      Pick(src, half, |plan.originCosts|), Sign(src, half + 1), Signs(src, half + 2, n), Signs(src, half + 2 + n, n))
  }

  /** Where the k-th workload of a stratum starts drawing. */
  function Position(plan: Plan, start: nat, k: nat): nat {
    if k == 0 then start else Position(plan, start, k - 1) + 4 + 4 * plan.repetitions
  }

  /** Whatever a generator yields is a possible draw. */
  lemma {:induction false} DrawAtIsPossible(plan: Plan, s: PlanStratum, src: Source, at: nat)
    requires Loaded(plan, s)
    ensures Possible(plan, s, DrawAt(plan, s, src, at))
  {
    assert |Probabilities(plan, s)| > 0 && |plan.originCosts| > 0;
    assert AreRolls(Rolls(src, at + 2, plan.repetitions), plan.repetitions);
  }

  /** A generator, advanced by each of its calls. */
  class Generation {
    const source: Source
    var position: nat

    constructor (source: Source)
      ensures this.source == source && position == 0
    {
      this.source, position := source, 0;
    }

    method Choose(n: nat) returns (i: nat)
      requires n > 0
      modifies this
      ensures i == Pick(source, old(position), n) && position == old(position) + 1
    {
      i := Pick(source, position, n);
      position := position + 1;
    }

    method Random() returns (u: real)
      modifies this
      ensures u == Uniform(source, old(position)) && position == old(position) + 1
    {
      u := Uniform(source, position);
      position := position + 1;
    }

    /** How many of `n` rolls fall below `p`. */
    method CountBelow(p: real, n: nat) returns (hits: nat)
      modifies this
      ensures hits == Hits(Rolls(source, old(position), n), p) && position == old(position) + n
    {
      hits := 0;
      for k := 0 to n
        invariant position == old(position) + k
        invariant hits == Hits(Rolls(source, old(position), k), p)
      {
        var u := Random();
        assert Rolls(source, old(position), k + 1)[..k] == Rolls(source, old(position), k);
        if u < p {
          hits := hits + 1;
        }
      }
    }

    method JitterBlock(base: real, jitter: real, n: nat) returns (block: seq<real>)
      modifies this
      ensures block == Jittered(base, jitter, Signs(source, old(position), n)) && position == old(position) + n
    {
      block := [];
      for k := 0 to n
        invariant position == old(position) + k && |block| == k
        invariant forall i :: 0 <= i < k ==> block[i] == base + Signed(Sign(source, old(position) + i), jitter)
      {
        var i := Choose(2);
        block := block + [base + Signed(i == 1, jitter)];
      }
    }
  }

  function WorkloadName(id: string, k: nat): string { id + "-w" + Pad(Decimal(k), 4) }

  /** `o` is the observation of the workload that starts drawing at `at`. */
  predicate ObservedAt(plan: Plan, s: PlanStratum, src: Source, at: nat, o: Observation, name: string) {
    && Loaded(plan, s)
    && Possible(plan, s, DrawAt(plan, s, src, at))
    && o == Drawn(plan, s, DrawAt(plan, s, src, at), name)
  }

  function SuccessAt(plan: Plan, s: PlanStratum, src: Source, at: nat): real
    requires Loaded(plan, s)
  {
    var n := plan.repetitions;
    var p := Probabilities(plan, s)[Pick(src, at, |Probabilities(plan, s)|)];
    var q := p + Difference(s, Sign(src, at + 1));
    FrequencyDifference(Hits(Rolls(src, at + 2 + n, n), q), Hits(Rolls(src, at + 2, n), p), n)
  }

  function SavingAt(plan: Plan, s: PlanStratum, src: Source, at: nat): real
    requires Loaded(plan, s)
  {
    var n := plan.repetitions;
    var cost := plan.originCosts[Pick(src, at, |plan.originCosts|)];
    BlockSaving(
      Jittered(cost, s.jitter, Signs(src, at + 2, n)),
      Jittered(cost - Saving(s, Sign(src, at + 1)), s.jitter, Signs(src, at + 2 + n, n)))
  }

  lemma {:induction false} SuccessIsDrawn(plan: Plan, s: PlanStratum, src: Source, at: nat)
    requires Loaded(plan, s) && Possible(plan, s, DrawAt(plan, s, src, at))
    ensures SuccessAt(plan, s, src, at) == DrawnDifference(plan, s, DrawAt(plan, s, src, at))
  {
  }

  lemma {:induction false} SavingIsDrawn(plan: Plan, s: PlanStratum, src: Source, at: nat)
    requires Loaded(plan, s) && Possible(plan, s, DrawAt(plan, s, src, at))
    ensures SavingAt(plan, s, src, at + 2 + 2 * plan.repetitions) == DrawnSaving(plan, s, DrawAt(plan, s, src, at))
  {
  }

  /** The two halves, drawn one after the other, are one workload's draw. */
  lemma {:induction false} HalvesAreDrawn(plan: Plan, s: PlanStratum, src: Source, at: nat, x: real, y: real, name: string)
    requires Loaded(plan, s) && x == SuccessAt(plan, s, src, at)
    requires y == SavingAt(plan, s, src, at + 2 + 2 * plan.repetitions)
    ensures ObservedAt(plan, s, src, at, Observation(name, x, y, Utility(plan, x, y)), name)
  {
    DrawAtIsPossible(plan, s, src, at);
    SuccessIsDrawn(plan, s, src, at);
    SavingIsDrawn(plan, s, src, at);
  }

  lemma {:induction false} SuccessValue(
    plan: Plan, s: PlanStratum, src: Source, at: nat, origin: nat, up: nat, originHits: nat, candidateHits: nat)
    requires Loaded(plan, s)
    requires origin == Pick(src, at, |Probabilities(plan, s)|) && up == Pick(src, at + 1, 2)
    requires originHits == Hits(Rolls(src, at + 2, plan.repetitions), Probabilities(plan, s)[origin])
    requires candidateHits
      == Hits(Rolls(src, at + 2 + plan.repetitions, plan.repetitions), Probabilities(plan, s)[origin] + Difference(s, up == 1))
    ensures SuccessAt(plan, s, src, at) == FrequencyDifference(candidateHits, originHits, plan.repetitions)
  {
  }

  /** The success half of a workload: two choices and two blocks of rolls. */
  method DrawSuccess(plan: Plan, s: PlanStratum, rng: Generation) returns (x: real)
    requires Loaded(plan, s)
    modifies rng
    ensures x == SuccessAt(plan, s, rng.source, old(rng.position))
    ensures rng.position == old(rng.position) + 2 + 2 * plan.repetitions
  {
    ghost var at := rng.position;
    var ps, n := Probabilities(plan, s), plan.repetitions;
    var origin := rng.Choose(|ps|);
    var up := rng.Choose(2);
    var originSuccesses := rng.CountBelow(ps[origin], n);
    var candidateSuccesses := rng.CountBelow(ps[origin] + Difference(s, up == 1), n);
    SuccessValue(plan, s, rng.source, at, origin, up, originSuccesses, candidateSuccesses);
    x := FrequencyDifference(candidateSuccesses, originSuccesses, n);
  }

  lemma {:induction false} SavingValue(
    plan: Plan, s: PlanStratum, src: Source, at: nat, chosen: nat, up: nat, origin: seq<real>, candidate: seq<real>)
    requires Loaded(plan, s)
    requires chosen == Pick(src, at, |plan.originCosts|) && up == Pick(src, at + 1, 2)
    requires origin == Jittered(plan.originCosts[chosen], s.jitter, Signs(src, at + 2, plan.repetitions))
    requires candidate
      == Jittered(plan.originCosts[chosen] - Saving(s, up == 1), s.jitter, Signs(src, at + 2 + plan.repetitions, plan.repetitions))
    ensures origin != [] && candidate != [] && SavingAt(plan, s, src, at) == BlockSaving(origin, candidate)
  {
  }

  /** The cost half of a workload: two choices and two jittered blocks. */
  method DrawSaving(plan: Plan, s: PlanStratum, rng: Generation) returns (y: real)
    requires Loaded(plan, s)
    modifies rng
    ensures y == SavingAt(plan, s, rng.source, old(rng.position))
    ensures rng.position == old(rng.position) + 2 + 2 * plan.repetitions
  {
    ghost var at := rng.position;
    var costs, n := plan.originCosts, plan.repetitions;
    var chosen := rng.Choose(|costs|);
    var up := rng.Choose(2);
    var originBlock := rng.JitterBlock(costs[chosen], s.jitter, n);
    var candidateBlock := rng.JitterBlock(costs[chosen] - Saving(s, up == 1), s.jitter, n);
    SavingValue(plan, s, rng.source, at, chosen, up, originBlock, candidateBlock);
    y := BlockSaving(originBlock, candidateBlock);
  }

  method DrawWorkload(plan: Plan, s: PlanStratum, rng: Generation, name: string) returns (o: Observation)
    requires Loaded(plan, s)
    modifies rng
    ensures ObservedAt(plan, s, rng.source, old(rng.position), o, name)
    ensures rng.position == old(rng.position) + 4 + 4 * plan.repetitions
  {
    var x := DrawSuccess(plan, s, rng);
    var y := DrawSaving(plan, s, rng);
    HalvesAreDrawn(plan, s, rng.source, old(rng.position), x, y, name);
    o := Observation(name, x, y, Utility(plan, x, y));
  }

  /** The observations of the first workloads of a stratum, drawn in turn from `start` on. */
  predicate Observed(plan: Plan, s: PlanStratum, src: Source, start: nat, os: seq<Observation>) {
    forall k :: 0 <= k < |os| ==> ObservedAt(plan, s, src, Position(plan, start, k), os[k], WorkloadName(s.stratumId, k))
  }

  lemma {:induction false} ObservedNext(
    plan: Plan, s: PlanStratum, src: Source, start: nat, os: seq<Observation>, o: Observation)
    requires Observed(plan, s, src, start, os)
    requires ObservedAt(plan, s, src, Position(plan, start, |os|), o, WorkloadName(s.stratumId, |os|))
    ensures Observed(plan, s, src, start, os + [o])
  {
  }

  /** The loop over the workloads of a stratum, all drawn in turn from one generator. */
  method StratumObservations(plan: Plan, s: PlanStratum, rng: Generation)
    returns (os: seq<Observation>)
    requires Loaded(plan, s)
    modifies rng
    ensures |os| == s.workloadCount && Observed(plan, s, rng.source, old(rng.position), os)
    ensures rng.position == Position(plan, old(rng.position), s.workloadCount)
  {
    ghost var start := rng.position;
    os := [];
    for k := 0 to s.workloadCount
      invariant |os| == k && rng.position == Position(plan, start, k)
      invariant Observed(plan, s, rng.source, start, os)
    {
      os := DrawNext(plan, s, rng, os, start);
    }
  }

  /** One more workload, drawn where the last one stopped. */
  method DrawNext(plan: Plan, s: PlanStratum, rng: Generation, os: seq<Observation>, ghost start: nat)
    returns (os': seq<Observation>)
    requires Loaded(plan, s) && rng.position == Position(plan, start, |os|)
    requires Observed(plan, s, rng.source, start, os)
    modifies rng
    ensures |os'| == |os| + 1 && Observed(plan, s, rng.source, start, os')
    ensures rng.position == Position(plan, start, |os'|)
  {
    var o := DrawWorkload(plan, s, rng, WorkloadName(s.stratumId, |os|));
    ObservedNext(plan, s, rng.source, start, os, o);
    os' := os + [o];
  }
}
