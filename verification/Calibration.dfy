/**
 The Monte Carlo calibration of the certificate: nested loops over scenarios,
 simulations and strata that count certificate states, false-safe commits and
 covered truths. Everything here holds for any bound and any drawn data.
 */
module Calibration {
  import opened Basics
  import opened Certificate

  datatype Truth = Truth(stratumId: string, successDifference: real, costSaving: real)

  /** The truth of a stratum fails a gate that a safe commit would assert. */
  predicate ViolatesGates(s: Truth, t: Thresholds) {
    s.successDifference < -t.successMargin || s.costSaving < t.minimumSaving
  }

  predicate Covers(b: BoundedMean, truth: real) { b.lower <= truth <= b.upper }

  type Outcomes = (Truth, nat) -> Result<StratumCertificate, CertificateError>

  /** One scenario: its strata, its thresholds, and what evaluation gives in each simulation. */
  datatype RawScenario = RawScenario(strata: seq<Truth>, thresholds: Thresholds, outcome: Outcomes)

  /** One dictionary key per stratum, and outcomes that follow the decision table. */
  ghost predicate WellFormed(s: RawScenario) {
    && (forall i, j :: 0 <= i < j < |s.strata| ==> s.strata[i].stratumId != s.strata[j].stratumId)
    && forall truth: Truth, sim: nat {:trigger s.outcome(truth, sim)} ::
         s.outcome(truth, sim).Ok? ==> Tabled(s.outcome(truth, sim).value, s.thresholds)
  }

  const UNIT := Interval(0.0, 1.0)

  type Scenario = s: RawScenario | WellFormed(s)
    witness RawScenario([], Thresholds(UNIT, UNIT, UNIT, 0.0, 0.0, 0.0, 0, "", ""), (_, _) => Err(NoClusters))

  /** The outcomes of a plan: the certificate evaluated on the data drawn for a stratum and simulation. */
  function Evaluated(t: Thresholds, bound: Bound, draw: (string, nat) -> seq<Observation>): Outcomes
    requires SupportsOk(t)
  {
    (truth: Truth, sim: nat) => Evaluate(draw(truth.stratumId, sim), t, bound)
  }

  /** Whatever the bound and the data, evaluation yields a well-formed scenario. */
  lemma {:induction false} EvaluationIsWellFormed(strata: seq<Truth>, t: Thresholds, bound: Bound, draw: (string, nat) -> seq<Observation>)
    requires SupportsOk(t)
    requires forall i, j :: 0 <= i < j < |strata| ==> strata[i].stratumId != strata[j].stratumId
    ensures WellFormed(RawScenario(strata, t, Evaluated(t, bound, draw)))
  {
    var outcome := Evaluated(t, bound, draw);
    forall truth: Truth, sim: nat | outcome(truth, sim).Ok?
      ensures Tabled(outcome(truth, sim).value, t)
    {
      DecisionTable(draw(truth.stratumId, sim), t, bound);
    }
  }

  // ---------- what is counted ----------

  datatype Event = InState(state: CertificateState) | FalseSafe | FalseUnsafe | SuccessCovered | CostCovered | Fallback

  predicate Happens(s: Scenario, truth: Truth, event: Event, sim: nat)
  {
    s.outcome(truth, sim).Ok? &&
    var c := s.outcome(truth, sim).value;
    match event
    case InState(state) => c.decision.state == state
    case FalseSafe => ViolatesGates(truth, s.thresholds) && c.decision.state.SafeToCommit?
    case FalseUnsafe => !ViolatesGates(truth, s.thresholds) && c.decision.state.Unsafe?
    case SuccessCovered => Covers(c.success, truth.successDifference)
    case CostCovered => Covers(c.cost, truth.costSaving)
    case Fallback => c.decision.appliedDesign == s.thresholds.safeDesign && !c.decision.state.SafeToCommit?
  }

  ghost function Tally(s: Scenario, truth: Truth, event: Event, n: nat): nat
  {
    if n == 0 then 0 else Tally(s, truth, event, n - 1) + (if Happens(s, truth, event, n - 1) then 1 else 0)
  }

  /** Some stratum of the family commits falsely. */
  ghost predicate AnyFalseSafe(s: Scenario, k: nat, sim: nat)
    requires k <= |s.strata|
  {
    exists i :: 0 <= i < k && Happens(s, s.strata[i], FalseSafe, sim)
  }

  /** Every bound of the family covers its truth. */
  ghost predicate Simultaneous(s: Scenario, k: nat, sim: nat)
    requires k <= |s.strata|
  {
    forall i :: 0 <= i < k ==>
      Happens(s, s.strata[i], SuccessCovered, sim) && Happens(s, s.strata[i], CostCovered, sim)
  }

  ghost function FalseSafeTally(s: Scenario, n: nat): nat
  {
    if n == 0 then 0 else FalseSafeTally(s, n - 1) + (if AnyFalseSafe(s, |s.strata|, n - 1) then 1 else 0)
  }

  ghost function CoverageTally(s: Scenario, n: nat): nat
  {
    if n == 0 then 0 else CoverageTally(s, n - 1) + (if Simultaneous(s, |s.strata|, n - 1) then 1 else 0)
  }

  // ---------- the counting loops ----------

  /** The per-stratum dictionaries, keyed by stratum and by what each one counts. */
  type Counts = map<(string, Event), nat>

  function Increment(counts: Counts, id: string, event: Event, happened: bool): Counts {
    if happened then counts[(id, event) := (if (id, event) in counts then counts[(id, event)] else 0) + 1] else counts
  }

  function Count(counts: Counts, id: string, event: Event): nat {
    if (id, event) in counts then counts[(id, event)] else 0
  }

  datatype ScenarioReport = ScenarioReport(counts: Counts, familyFalseSafe: nat, familyCoverage: nat)

  datatype CalibrationError = Aborted(cause: CertificateError) | FallbackBroken

  /** The increments one evaluated stratum makes, in the order in which they are made. */
  function Record(counts: Counts, s: Scenario, truth: Truth, c: StratumCertificate): Counts {
    var violates := ViolatesGates(truth, s.thresholds);
    var id, state := truth.stratumId, c.decision.state;
    var c1 := Increment(counts, id, InState(state), true);
    var c2 := Increment(c1, id, Fallback, !state.SafeToCommit?);
    var c3 := Increment(c2, id, FalseSafe, violates && state.SafeToCommit?);
    var c4 := Increment(c3, id, FalseUnsafe, !violates && state.Unsafe?);
    var c5 := Increment(c4, id, SuccessCovered, Covers(c.success, truth.successDifference));
    Increment(c5, id, CostCovered, Covers(c.cost, truth.costSaving))
  }

  lemma {:induction false} RecordCounts(counts: Counts, s: Scenario, truth: Truth, sim: nat, id: string, event: Event)
    requires s.outcome(truth, sim).Ok?
    ensures Count(Record(counts, s, truth, s.outcome(truth, sim).value), id, event)
         == Count(counts, id, event)
            + (if id == truth.stratumId && Happens(s, truth, event, sim) then 1 else 0)
  {
    FallbackIsOrigin(s, truth, sim);
  }

  /** A state that is not safe always falls back to the safe design. */
  lemma {:induction false} FallbackIsOrigin(s: Scenario, truth: Truth, sim: nat)
    requires s.outcome(truth, sim).Ok?
    ensures
      var d := s.outcome(truth, sim).value.decision;
      !d.state.SafeToCommit? ==> d.appliedDesign == s.thresholds.safeDesign
  {
    assert Tabled(s.outcome(truth, sim).value, s.thresholds);
  }

  /** After `sim` whole simulations and `k` strata of the next, every counter is its tally. */
  ghost predicate Tallied(s: Scenario, counts: Counts, sim: nat, k: nat)
    requires k <= |s.strata|
  {
    forall i, event :: 0 <= i < |s.strata| ==>
      Count(counts, s.strata[i].stratumId, event) == Tally(s, s.strata[i], event, if i < k then sim + 1 else sim)
  }

  lemma {:induction false} RecordTallies(s: Scenario, counts: Counts, sim: nat, k: nat)
    requires k < |s.strata| && Tallied(s, counts, sim, k)
    requires s.outcome(s.strata[k], sim).Ok?
    ensures Tallied(s, Record(counts, s, s.strata[k], s.outcome(s.strata[k], sim).value), sim, k + 1)
  {
    var counts' := Record(counts, s, s.strata[k], s.outcome(s.strata[k], sim).value);
    forall i, event | 0 <= i < |s.strata|
      ensures Count(counts', s.strata[i].stratumId, event)
           == Tally(s, s.strata[i], event, if i < k + 1 then sim + 1 else sim)
    {
      RecordCounts(counts, s, s.strata[k], sim, s.strata[i].stratumId, event);
      assert i < k || k < i ==> s.strata[i].stratumId != s.strata[k].stratumId;
    }
  }

  ghost predicate AllEvaluate(s: Scenario, sim: nat, k: nat)
    requires k <= |s.strata|
  {
    forall i :: 0 <= i < k ==> s.outcome(s.strata[i], sim).Ok?
  }

  /** A simulation aborts with the error of its first stratum that does not evaluate, and with nothing else. */
  ghost predicate AbortsAt(s: Scenario, sim: nat, e: CalibrationError) {
    exists k :: 0 <= k < |s.strata| && AllEvaluate(s, sim, k)
      && s.outcome(s.strata[k], sim).Err? && e == Aborted(s.outcome(s.strata[k], sim).error)
  }

  /** One simulation: every stratum evaluated, its counters moved, and the two family flags. */
  method Simulate(s: Scenario, sim: nat, counts: Counts)
    returns (r: Result<(Counts, bool, bool), CalibrationError>)
    requires Tallied(s, counts, sim, 0)
    ensures r.Ok? <==> AllEvaluate(s, sim, |s.strata|)
    ensures r.Ok? ==> Tallied(s, r.value.0, sim + 1, 0)
    ensures r.Ok? ==> (r.value.1 <==> AnyFalseSafe(s, |s.strata|, sim)) && (r.value.2 <==> Simultaneous(s, |s.strata|, sim))
    ensures r.Err? ==> AbortsAt(s, sim, r.error)
  {
    var now := counts;
    var anyFalseSafe, simultaneous := false, true;
    for k := 0 to |s.strata|
      invariant AllEvaluate(s, sim, k) && Tallied(s, now, sim, k)
      invariant anyFalseSafe <==> AnyFalseSafe(s, k, sim)
      invariant simultaneous <==> Simultaneous(s, k, sim)
    {
      var truth := s.strata[k];
      var outcome := s.outcome(truth, sim);
      if outcome.Err? {
        return Err(Aborted(outcome.error));
      }
      var c := outcome.value;
      FallbackIsOrigin(s, truth, sim);
      if !c.decision.state.SafeToCommit? && c.decision.appliedDesign != s.thresholds.safeDesign {
        return Err(FallbackBroken);
      }
      RecordTallies(s, now, sim, k);
      now := Record(now, s, truth, c);
      var falseSafe := ViolatesGates(truth, s.thresholds) && c.decision.state.SafeToCommit?;
      var covered := Covers(c.success, truth.successDifference) && Covers(c.cost, truth.costSaving);
      assert falseSafe <==> Happens(s, s.strata[k], FalseSafe, sim);
      assert covered <==> Happens(s, s.strata[k], SuccessCovered, sim) && Happens(s, s.strata[k], CostCovered, sim);
      FamilyStep(s, k, sim);
      anyFalseSafe := anyFalseSafe || falseSafe;
      simultaneous := simultaneous && covered;
    }
    return Ok((now, anyFalseSafe, simultaneous));
  }

  lemma {:induction false} FamilyStep(s: Scenario, k: nat, sim: nat)
    requires k < |s.strata|
    ensures AnyFalseSafe(s, k + 1, sim) <==> AnyFalseSafe(s, k, sim) || Happens(s, s.strata[k], FalseSafe, sim)
    ensures Simultaneous(s, k + 1, sim) <==>
              && Simultaneous(s, k, sim)
              && Happens(s, s.strata[k], SuccessCovered, sim) && Happens(s, s.strata[k], CostCovered, sim)
  {
  }

  /**
   All simulations of one scenario. It succeeds exactly when every evaluation
   does, and then every counter it reports is the tally of its event.
   */
  method RunScenario(s: Scenario, simulations: nat) returns (r: Result<ScenarioReport, CalibrationError>)
    ensures r.Ok? <==> Evaluates(s, simulations)
    ensures r.Ok? ==> ExactReport(s, r.value, simulations)
    ensures r.Err? ==> exists sim: nat :: sim < simulations && AbortsAt(s, sim, r.error)
  {
    var counts: Counts := map[];
    var falseSafe, coverage := 0, 0;
    for sim := 0 to simulations
      invariant forall i :: 0 <= i < sim ==> AllEvaluate(s, i, |s.strata|)
      invariant Tallied(s, counts, sim, 0)
      invariant falseSafe == FalseSafeTally(s, sim) && coverage == CoverageTally(s, sim)
    {
      var one := Simulate(s, sim, counts);
      if one.Err? {
        return Err(one.error);
      }
      counts := one.value.0;
      falseSafe := falseSafe + (if one.value.1 then 1 else 0);
      coverage := coverage + (if one.value.2 then 1 else 0);
    }
    return Ok(ScenarioReport(counts, falseSafe, coverage));
  }

  // ---------- what each counter counts ----------

  /** The outcome of an evaluation that succeeded. */
  ghost predicate Came(s: Scenario, truth: Truth, sim: nat, c: StratumCertificate) {
    s.outcome(truth, sim) == Ok(c)
  }

  /** Each event in terms of the certificate, the truth and the thresholds. */
  lemma {:induction false} EventMeaning(s: Scenario, truth: Truth, sim: nat, c: StratumCertificate)
    requires Came(s, truth, sim, c)
    ensures
      var t, safe, unsafe := s.thresholds, c.decision.state == SafeToCommit, c.decision.state == Unsafe;
      var trulySafe := truth.successDifference >= -t.successMargin && truth.costSaving >= t.minimumSaving;
      && (forall x :: Happens(s, truth, InState(x), sim) <==> c.decision.state == x)
      && (Happens(s, truth, FalseSafe, sim) <==> safe && !trulySafe)
      && (Happens(s, truth, FalseUnsafe, sim) <==> unsafe && trulySafe)
      && (Happens(s, truth, SuccessCovered, sim) <==>
            c.success.lower <= truth.successDifference && truth.successDifference <= c.success.upper)
      && (Happens(s, truth, CostCovered, sim) <==> c.cost.lower <= truth.costSaving && truth.costSaving <= c.cost.upper)
      && (Happens(s, truth, Fallback, sim) <==> !safe)
  {
    FallbackIsOrigin(s, truth, sim);
  }

  /** The numbers below `n` with a property. */
  ghost function Below(p: nat -> bool, n: nat): set<nat> {
    set k: nat | k < n && p(k)
  }

  lemma {:induction false} BelowNext(p: nat -> bool, n: nat)
    ensures |Below(p, n + 1)| == |Below(p, n)| + (if p(n) then 1 else 0)
  {
    if p(n) {
      assert n !in Below(p, n);
      assert Below(p, n + 1) == Below(p, n) + {n};
    } else {
      assert Below(p, n + 1) == Below(p, n);
    }
  }

  ghost function EventIn(s: Scenario, truth: Truth, event: Event): nat -> bool {
    (sim: nat) => Happens(s, truth, event, sim)
  }

  /** A stratum's tally is the number of simulations in which its event happened. */
  lemma {:induction false} TallyCounts(s: Scenario, truth: Truth, event: Event, n: nat)
    ensures Tally(s, truth, event, n) == |Below(EventIn(s, truth, event), n)|
  {
    if n > 0 {
      TallyCounts(s, truth, event, n - 1);
      BelowNext(EventIn(s, truth, event), n - 1);
    }
  }

  ghost function FalselySafeIn(s: Scenario): nat -> bool { (sim: nat) => AnyFalseSafe(s, |s.strata|, sim) }

  ghost function CoveredIn(s: Scenario): nat -> bool { (sim: nat) => Simultaneous(s, |s.strata|, sim) }

  /** The family's false-safe tally counts the simulations with some false-safe stratum. */
  lemma {:induction false} FalseSafeTallyCounts(s: Scenario, n: nat)
    ensures FalseSafeTally(s, n) == |Below(FalselySafeIn(s), n)|
  {
    if n > 0 {
      FalseSafeTallyCounts(s, n - 1);
      BelowNext(FalselySafeIn(s), n - 1);
    }
  }

  /** Its coverage tally counts the simulations in which every truth is covered. */
  lemma {:induction false} CoverageTallyCounts(s: Scenario, n: nat)
    ensures CoverageTally(s, n) == |Below(CoveredIn(s), n)|
  {
    if n > 0 {
      CoverageTallyCounts(s, n - 1);
      BelowNext(CoveredIn(s), n - 1);
    }
  }

  /** A certificate that knows the truth exactly is unsafe just when the truth violates a gate, and covers it. */
  lemma {:induction false} PerfectKnowledge(truth: Truth, t: Thresholds, c: StratumCertificate)
    requires Tabled(c, t) && c.count >= t.minimumWorkloads
    requires c.success.lower == c.success.upper == truth.successDifference
    requires c.cost.lower == c.cost.upper == truth.costSaving
    ensures ViolatesGates(truth, t) <==> c.decision.state == Unsafe
    ensures !ViolatesGates(truth, t) <==> c.decision.state == SafeToCommit
    ensures Covers(c.success, truth.successDifference) && Covers(c.cost, truth.costSaving)
  {
  }

  // ---------- counting theorems ----------

  /** A false-safe commit contradicts coverage: some bound of that stratum misses its truth. */
  lemma {:induction false} FalseSafeMissesTruth(s: Scenario, truth: Truth, sim: nat)
    requires Happens(s, truth, FalseSafe, sim)
    ensures !Happens(s, truth, SuccessCovered, sim) || !Happens(s, truth, CostCovered, sim)
  {
    assert Tabled(s.outcome(truth, sim).value, s.thresholds);
  }

  /** False-safe families and simultaneously covered families never overlap. */
  lemma {:induction false} FalseSafeAndCoverage(s: Scenario, n: nat)
    ensures FalseSafeTally(s, n) + CoverageTally(s, n) <= n
  {
    if n > 0 {
      FalseSafeAndCoverage(s, n - 1);
      if AnyFalseSafe(s, |s.strata|, n - 1) {
        var i :| 0 <= i < |s.strata| && Happens(s, s.strata[i], FalseSafe, n - 1);
        FalseSafeMissesTruth(s, s.strata[i], n - 1);
        assert !Simultaneous(s, |s.strata|, n - 1);
      }
    }
  }

  /** When every evaluation succeeds, states partition the simulations and fallbacks are the non-safe ones. */
  lemma {:induction false} StatesPartition(s: Scenario, truth: Truth, n: nat)
    requires forall sim :: 0 <= sim < n ==> s.outcome(truth, sim).Ok?
    ensures Tally(s, truth, InState(SafeToCommit), n) + Tally(s, truth, InState(Unsafe), n)
            + Tally(s, truth, InState(InsufficientEvidence), n) == n
    ensures Tally(s, truth, Fallback, n)
         == Tally(s, truth, InState(Unsafe), n) + Tally(s, truth, InState(InsufficientEvidence), n)
    ensures Tally(s, truth, FalseSafe, n)
         == if ViolatesGates(truth, s.thresholds) then Tally(s, truth, InState(SafeToCommit), n) else 0
    ensures Tally(s, truth, FalseUnsafe, n)
         == if ViolatesGates(truth, s.thresholds) then 0 else Tally(s, truth, InState(Unsafe), n)
  {
    if n > 0 {
      StatesPartition(s, truth, n - 1);
      FallbackIsOrigin(s, truth, n - 1);
    }
  }

  /** A stratum's own counters bound the family's from below and above. */
  lemma {:induction false} FamilyBounds(s: Scenario, i: nat, n: nat)
    requires i < |s.strata|
    ensures Tally(s, s.strata[i], FalseSafe, n) <= FalseSafeTally(s, n)
    ensures CoverageTally(s, n) <= Tally(s, s.strata[i], SuccessCovered, n)
    ensures CoverageTally(s, n) <= Tally(s, s.strata[i], CostCovered, n)
  {
    if n > 0 {
      FamilyBounds(s, i, n - 1);
    }
  }

  // ---------- the whole run ----------

  datatype Overall = Overall(reports: seq<ScenarioReport>, falseSafe: nat, coverage: nat, simulations: nat)

  /** Every evaluation of a scenario succeeds. */
  ghost predicate Evaluates(s: Scenario, n: nat) {
    forall sim :: 0 <= sim < n ==> AllEvaluate(s, sim, |s.strata|)
  }

  /** A report whose counters are the tallies of their events. */
  ghost predicate ExactReport(s: Scenario, report: ScenarioReport, n: nat) {
    && Tallied(s, report.counts, n, 0)
    && report.familyFalseSafe == FalseSafeTally(s, n)
    && report.familyCoverage == CoverageTally(s, n)
  }

  ghost function TotalFalseSafe(scenarios: seq<Scenario>, k: nat, n: nat): nat
    requires k <= |scenarios|
  {
    if k == 0 then 0 else TotalFalseSafe(scenarios, k - 1, n) + FalseSafeTally(scenarios[k - 1], n)
  }

  ghost function TotalCoverage(scenarios: seq<Scenario>, k: nat, n: nat): nat
    requires k <= |scenarios|
  {
    if k == 0 then 0 else TotalCoverage(scenarios, k - 1, n) + CoverageTally(scenarios[k - 1], n)
  }

  /** A reported scenario satisfies every per-scenario counting law. */
  ghost predicate LawfulReport(s: Scenario, report: ScenarioReport, n: nat)
  {
    && report.familyFalseSafe + report.familyCoverage <= n
    && forall i :: 0 <= i < |s.strata| ==>
         var id := s.strata[i].stratumId;
         && Count(report.counts, id, InState(SafeToCommit)) + Count(report.counts, id, InState(Unsafe))
            + Count(report.counts, id, InState(InsufficientEvidence)) == n
         && Count(report.counts, id, Fallback)
            == Count(report.counts, id, InState(Unsafe)) + Count(report.counts, id, InState(InsufficientEvidence))
         && Count(report.counts, id, FalseSafe) <= report.familyFalseSafe
         && report.familyCoverage <= Count(report.counts, id, SuccessCovered)
  }

  lemma {:induction false} ReportIsLawful(s: Scenario, report: ScenarioReport, n: nat)
    requires Evaluates(s, n) && ExactReport(s, report, n)
    ensures LawfulReport(s, report, n)
  {
    FalseSafeAndCoverage(s, n);
    forall i | 0 <= i < |s.strata|
      ensures
        var id := s.strata[i].stratumId;
        && Count(report.counts, id, InState(SafeToCommit)) + Count(report.counts, id, InState(Unsafe))
           + Count(report.counts, id, InState(InsufficientEvidence)) == n
        && Count(report.counts, id, Fallback)
           == Count(report.counts, id, InState(Unsafe)) + Count(report.counts, id, InState(InsufficientEvidence))
        && Count(report.counts, id, FalseSafe) <= report.familyFalseSafe
        && report.familyCoverage <= Count(report.counts, id, SuccessCovered)
    {
      var truth := s.strata[i];
      forall sim | 0 <= sim < n
        ensures s.outcome(truth, sim).Ok?
      {
        assert AllEvaluate(s, sim, |s.strata|);
      }
      StatesPartition(s, truth, n);
      FamilyBounds(s, i, n);
      assert forall event :: Count(report.counts, truth.stratumId, event) == Tally(s, truth, event, n);
    }
  }

  /**
   The calibration run over all scenarios. An absent or zero override uses the
   plan's own simulation count. The run succeeds exactly when every evaluation
   does; every counter is then exact, and per scenario and overall, false-safe
   and covered families together never exceed the simulations.
   */
  method RunMonteCarlo(scenarios: seq<Scenario>, planned: nat, override: Option<nat>)
    returns (r: Result<Overall, CalibrationError>)
    ensures
      var n := if override.Some? && override.value > 0 then override.value else planned;
      && (r.Ok? <==> forall i :: 0 <= i < |scenarios| ==> Evaluates(scenarios[i], n))
      && (r.Ok? ==>
        && |r.value.reports| == |scenarios| && r.value.simulations == |scenarios| * n
        && (forall i :: 0 <= i < |scenarios| ==>
             ExactReport(scenarios[i], r.value.reports[i], n) && LawfulReport(scenarios[i], r.value.reports[i], n))
        && r.value.falseSafe == TotalFalseSafe(scenarios, |scenarios|, n)
        && r.value.coverage == TotalCoverage(scenarios, |scenarios|, n)
        && r.value.falseSafe + r.value.coverage <= r.value.simulations)
    ensures r.Err? ==> exists i, sim: nat :: 0 <= i < |scenarios| && AbortsAt(scenarios[i], sim, r.error)
  {
    var n := if override.Some? && override.value > 0 then override.value else planned;
    var reports: seq<ScenarioReport> := [];
    var falseSafe: nat, coverage: nat, simulations: nat := 0, 0, 0;
    for k := 0 to |scenarios|
      invariant |reports| == k && simulations == k * n
      invariant forall i :: 0 <= i < k ==> Evaluates(scenarios[i], n)
      invariant forall i :: 0 <= i < k ==> ExactReport(scenarios[i], reports[i], n) && LawfulReport(scenarios[i], reports[i], n)
      invariant falseSafe == TotalFalseSafe(scenarios, k, n) && coverage == TotalCoverage(scenarios, k, n)
      invariant falseSafe + coverage <= simulations
    {
      var one := RunScenario(scenarios[k], n);
      if one.Err? {
        return Err(one.error);
      }
      ReportIsLawful(scenarios[k], one.value, n);
      reports := reports + [one.value];
      falseSafe := falseSafe + one.value.familyFalseSafe;
      coverage := coverage + one.value.familyCoverage;
      simulations := simulations + n;
      OneMore(k, n);
    }
    return Ok(Overall(reports, falseSafe, coverage, simulations));
  }
}
