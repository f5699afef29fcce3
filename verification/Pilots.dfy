/** The pilot: every combination of conditions, each repetition under one seed across all cells. */
module Pilots {
  import opened Basics
  import opened Numerals
  import opened Sessions
  import opened Coupling

  datatype Pilot = Pilot(
    designs: seq<string>, taskClasses: seq<string>, profiles: seq<string>, multipliers: seq<real>,
    trials: int, baseSeed: int)

  datatype Trial = Trial(cell: Cell, repetition: nat)

  datatype PilotError = UnknownPilotDesign | UnknownPilotTaskClass | UnknownPilotProfile | BadTrials | BadMultipliers

  predicate PilotOk(config: Config, p: Pilot) {
    && (forall i :: 0 <= i < |p.designs| ==> p.designs[i] in config.designs)
    && (forall i :: 0 <= i < |p.taskClasses| ==> p.taskClasses[i] in config.taskClasses)
    && (forall i :: 0 <= i < |p.profiles| ==> p.profiles[i] in config.profiles)
    && p.trials > 0
    && (forall i :: 0 <= i < |p.multipliers| ==> p.multipliers[i] > 0.0)
  }

  // ---------- the order of the trials ----------

  function Repeats(p: Pilot, d: string, t: string, q: string, m: real, n: nat): seq<Trial> {
    if n == 0 then []
    else Repeats(p, d, t, q, m, n - 1) + [Trial(Cell(d, t, q, m, p.baseSeed + n - 1), n - 1)]
  }

  function ByMultiplier(p: Pilot, d: string, t: string, q: string, n: nat): seq<Trial>
    requires n <= |p.multipliers| && p.trials > 0
  {
    if n == 0 then [] else ByMultiplier(p, d, t, q, n - 1) + Repeats(p, d, t, q, p.multipliers[n - 1], p.trials)
  }

  function ByProfile(p: Pilot, d: string, t: string, n: nat): seq<Trial>
    requires n <= |p.profiles| && p.trials > 0
  {
    if n == 0 then [] else ByProfile(p, d, t, n - 1) + ByMultiplier(p, d, t, p.profiles[n - 1], |p.multipliers|)
  }

  function ByTaskClass(p: Pilot, d: string, n: nat): seq<Trial>
    requires n <= |p.taskClasses| && p.trials > 0
  {
    if n == 0 then [] else ByTaskClass(p, d, n - 1) + ByProfile(p, d, p.taskClasses[n - 1], |p.profiles|)
  }

  function ByDesign(p: Pilot, n: nat): seq<Trial>
    requires n <= |p.designs| && p.trials > 0
  {
    if n == 0 then [] else ByDesign(p, n - 1) + ByTaskClass(p, p.designs[n - 1], |p.taskClasses|)
  }

  function Schedule(p: Pilot): seq<Trial>
    requires p.trials > 0
  {
    ByDesign(p, |p.designs|)
  }

  function TrialId(number: nat, repetition: nat): string {
    "pilot-" + Pad(Decimal(number), 6) + "-r" + Pad(Decimal(repetition), 3)
  }

  /** The i-th observation is the session of the i-th trial, under a trial identifier carrying i. */
  predicate Recorded(lib: Library, config: Config, trials: seq<Trial>, observations: seq<Observation>) {
    && |observations| == |trials|
    && forall i :: 0 <= i < |trials| ==> RecordedAt(lib, config, trials[i], observations[i], i)
  }

  predicate RecordedAt(lib: Library, config: Config, x: Trial, o: Observation, i: nat) {
    Known(config, x.cell) && o == Session(lib, config, x.cell, TrialId(i, x.repetition))
  }

  lemma {:induction false} RecordedNext(
    lib: Library, config: Config, trials: seq<Trial>, observations: seq<Observation>, x: Trial, o: Observation)
    requires Recorded(lib, config, trials, observations) && RecordedAt(lib, config, x, o, |observations|)
    ensures Recorded(lib, config, trials + [x], observations + [o])
  {
  }

  /** One more repetition extends the schedule by its trial. */
  lemma {:induction false} RepeatsNext(before: seq<Trial>, p: Pilot, d: string, t: string, q: string, m: real, n: nat)
    ensures before + Repeats(p, d, t, q, m, n) + [Trial(Cell(d, t, q, m, p.baseSeed + n), n)]
      == before + Repeats(p, d, t, q, m, n + 1)
  {
    Append(before, Repeats(p, d, t, q, m, n), [Trial(Cell(d, t, q, m, p.baseSeed + n), n)]);
  }

  lemma {:induction false} Append(before: seq<Trial>, done: seq<Trial>, more: seq<Trial>)
    ensures before + done + more == before + (done + more)
  {
  }

  /** After the checks up front no session is refused. */
  method RunPilot(lib: Library, config: Config, p: Pilot) returns (r: Result<seq<Observation>, PilotError>)
    ensures r.Ok? <==> PilotOk(config, p)
    ensures r.Ok? ==> Recorded(lib, config, Schedule(p), r.value)
    ensures r.Err? ==>
      match r.error
      case UnknownPilotDesign => exists i :: 0 <= i < |p.designs| && p.designs[i] !in config.designs
      case UnknownPilotTaskClass => exists i :: 0 <= i < |p.taskClasses| && p.taskClasses[i] !in config.taskClasses
      case UnknownPilotProfile => exists i :: 0 <= i < |p.profiles| && p.profiles[i] !in config.profiles
      case BadTrials => p.trials <= 0
      case BadMultipliers => exists i :: 0 <= i < |p.multipliers| && p.multipliers[i] <= 0.0
  {
    if exists i :: 0 <= i < |p.designs| && p.designs[i] !in config.designs {
      return Err(UnknownPilotDesign);
    }
    if exists i :: 0 <= i < |p.taskClasses| && p.taskClasses[i] !in config.taskClasses {
      return Err(UnknownPilotTaskClass);
    }
    if exists i :: 0 <= i < |p.profiles| && p.profiles[i] !in config.profiles {
      return Err(UnknownPilotProfile);
    }
    if p.trials <= 0 {
      return Err(BadTrials);
    }
    if exists i :: 0 <= i < |p.multipliers| && p.multipliers[i] <= 0.0 {
      return Err(BadMultipliers);
    }
    var observations := RunCells(lib, config, p);
    return Ok(observations);
  }

  /** The loop over designs. */
  method RunCells(lib: Library, config: Config, p: Pilot) returns (observations: seq<Observation>)
    requires PilotOk(config, p)
    ensures Recorded(lib, config, Schedule(p), observations)
  {
    observations := [];
    ghost var ran: seq<Trial> := [];
    for i := 0 to |p.designs|
      invariant ran == ByDesign(p, i) && Recorded(lib, config, ran, observations)
    {
      observations, ran := RunTaskClasses(lib, config, p, p.designs[i], observations, ran);
    }
  }

  /** The loop over task classes. */
  method RunTaskClasses(
    lib: Library, config: Config, p: Pilot, d: string, observations: seq<Observation>, ghost ran: seq<Trial>)
    returns (observations': seq<Observation>, ghost ran': seq<Trial>)
    requires PilotOk(config, p) && d in config.designs && Recorded(lib, config, ran, observations)
    ensures ran' == ran + ByTaskClass(p, d, |p.taskClasses|) && Recorded(lib, config, ran', observations')
  {
    observations', ran' := observations, ran;
    for j := 0 to |p.taskClasses|
      invariant ran' == ran + ByTaskClass(p, d, j) && Recorded(lib, config, ran', observations')
    {
      observations', ran' := RunProfiles(lib, config, p, d, p.taskClasses[j], observations', ran');
      Append(ran, ByTaskClass(p, d, j), ByProfile(p, d, p.taskClasses[j], |p.profiles|));
    }
  }

  /** The loop over profiles. */
  method RunProfiles(
    lib: Library, config: Config, p: Pilot, d: string, t: string, observations: seq<Observation>, ghost ran: seq<Trial>)
    returns (observations': seq<Observation>, ghost ran': seq<Trial>)
    requires PilotOk(config, p) && d in config.designs && t in config.taskClasses && Recorded(lib, config, ran, observations)
    ensures ran' == ran + ByProfile(p, d, t, |p.profiles|) && Recorded(lib, config, ran', observations')
  {
    observations', ran' := observations, ran;
    for k := 0 to |p.profiles|
      invariant ran' == ran + ByProfile(p, d, t, k) && Recorded(lib, config, ran', observations')
    {
      observations', ran' := RunMultipliers(lib, config, p, d, t, p.profiles[k], observations', ran');
      Append(ran, ByProfile(p, d, t, k), ByMultiplier(p, d, t, p.profiles[k], |p.multipliers|));
    }
  }

  /** The loop over latency multipliers. */
  method RunMultipliers(
    lib: Library, config: Config, p: Pilot, d: string, t: string, q: string,
    observations: seq<Observation>, ghost ran: seq<Trial>)
    returns (observations': seq<Observation>, ghost ran': seq<Trial>)
    requires PilotOk(config, p) && d in config.designs && t in config.taskClasses && q in config.profiles
    requires Recorded(lib, config, ran, observations)
    ensures ran' == ran + ByMultiplier(p, d, t, q, |p.multipliers|) && Recorded(lib, config, ran', observations')
  {
    observations', ran' := observations, ran;
    for l := 0 to |p.multipliers|
      invariant ran' == ran + ByMultiplier(p, d, t, q, l) && Recorded(lib, config, ran', observations')
    {
      observations', ran' := RunTrials(lib, config, p, d, t, q, p.multipliers[l], observations', ran');
      Append(ran, ByMultiplier(p, d, t, q, l), Repeats(p, d, t, q, p.multipliers[l], p.trials));
    }
  }

  /** The innermost loop: one cell's repetitions, each seeded by its number alone. */
  method RunTrials(
    lib: Library, config: Config, p: Pilot, d: string, t: string, q: string, m: real,
    observations: seq<Observation>, ghost ran: seq<Trial>)
    returns (observations': seq<Observation>, ghost ran': seq<Trial>)
    requires p.trials > 0 && Known(config, Cell(d, t, q, m, 0)) && Recorded(lib, config, ran, observations)
    ensures ran' == ran + Repeats(p, d, t, q, m, p.trials) && Recorded(lib, config, ran', observations')
  {
    observations', ran' := observations, ran;
    for repetition := 0 to p.trials
      invariant ran' == ran + Repeats(p, d, t, q, m, repetition) && Recorded(lib, config, ran', observations')
    {
      var seed := p.baseSeed + repetition;
      observations', ran' := RunTrial(lib, config, Cell(d, t, q, m, seed), repetition, observations', ran');
      RepeatsNext(ran, p, d, t, q, m, repetition);
    }
  }

  /** One session of the pilot, recorded under its own number; it is never refused. */
  method RunTrial(
    lib: Library, config: Config, cell: Cell, repetition: nat, observations: seq<Observation>, ghost ran: seq<Trial>)
    returns (observations': seq<Observation>, ghost ran': seq<Trial>)
    requires Known(config, cell) && Recorded(lib, config, ran, observations)
    ensures ran' == ran + [Trial(cell, repetition)] && Recorded(lib, config, ran', observations')
  {
    var session := RunSession(lib, config, cell, TrialId(|observations|, repetition));
    RecordedNext(lib, config, ran, observations, Trial(cell, repetition), session.value);
    observations', ran' := observations + [session.value], ran + [Trial(cell, repetition)];
  }

  // ---------- which trials a pilot holds ----------

  /** The combinations of the pilot's lists, with the seed fixed by the repetition. */
  predicate InPilot(p: Pilot, x: Trial) {
    && x.cell.design in p.designs && x.cell.taskClass in p.taskClasses
    && x.cell.profile in p.profiles && x.cell.multiplier in p.multipliers
    && x.repetition < p.trials && x.cell.seed == p.baseSeed + x.repetition
  }

  lemma {:induction false} InRepeats(p: Pilot, d: string, t: string, q: string, m: real, n: nat, x: Trial)
    ensures x in Repeats(p, d, t, q, m, n)
      <==> x.repetition < n && x.cell == Cell(d, t, q, m, p.baseSeed + x.repetition)
  {
    if n > 0 {
      InRepeats(p, d, t, q, m, n - 1, x);
    }
  }

  lemma {:induction false} InMultipliers(p: Pilot, d: string, t: string, q: string, n: nat, x: Trial)
    requires n <= |p.multipliers| && p.trials > 0
    ensures x in ByMultiplier(p, d, t, q, n)
      <==> && x.repetition < p.trials && x.cell.multiplier in p.multipliers[..n]
           && x.cell == Cell(d, t, q, x.cell.multiplier, p.baseSeed + x.repetition)
  {
    if n > 0 {
      InMultipliers(p, d, t, q, n - 1, x);
      InRepeats(p, d, t, q, p.multipliers[n - 1], p.trials, x);
      assert p.multipliers[..n] == p.multipliers[..n - 1] + [p.multipliers[n - 1]];
    }
  }

  lemma {:induction false} InProfiles(p: Pilot, d: string, t: string, n: nat, x: Trial)
    requires n <= |p.profiles| && p.trials > 0
    ensures x in ByProfile(p, d, t, n)
      <==> && x.cell.profile in p.profiles[..n] && x.cell.multiplier in p.multipliers && x.repetition < p.trials
           && x.cell == Cell(d, t, x.cell.profile, x.cell.multiplier, p.baseSeed + x.repetition)
  {
    if n > 0 {
      InProfiles(p, d, t, n - 1, x);
      InMultipliers(p, d, t, p.profiles[n - 1], |p.multipliers|, x);
      assert p.profiles[..n] == p.profiles[..n - 1] + [p.profiles[n - 1]];
      assert p.multipliers[..|p.multipliers|] == p.multipliers;
    }
  }

  lemma {:induction false} InTaskClasses(p: Pilot, d: string, n: nat, x: Trial)
    requires n <= |p.taskClasses| && p.trials > 0
    ensures x in ByTaskClass(p, d, n)
      <==> x.cell.design == d && x.cell.taskClass in p.taskClasses[..n] && InPilot(p.(designs := [d]), x)
  {
    if n > 0 {
      InTaskClasses(p, d, n - 1, x);
      InProfiles(p, d, p.taskClasses[n - 1], |p.profiles|, x);
      assert p.taskClasses[..n] == p.taskClasses[..n - 1] + [p.taskClasses[n - 1]];
      assert p.profiles[..|p.profiles|] == p.profiles;
    }
  }

  lemma {:induction false} InDesigns(p: Pilot, n: nat, x: Trial)
    requires n <= |p.designs| && p.trials > 0
    ensures x in ByDesign(p, n) <==> x.cell.design in p.designs[..n] && InPilot(p, x)
  {
    if n > 0 {
      InDesigns(p, n - 1, x);
      InTaskClasses(p, p.designs[n - 1], |p.taskClasses|, x);
      assert p.designs[..n] == p.designs[..n - 1] + [p.designs[n - 1]];
      assert p.taskClasses[..|p.taskClasses|] == p.taskClasses;
    }
  }

  /** The schedule holds exactly the combinations of the pilot's lists, seeded by repetition. */
  lemma {:induction false} ScheduleExactly(p: Pilot, x: Trial)
    requires p.trials > 0
    ensures x in Schedule(p) <==> InPilot(p, x)
  {
    InDesigns(p, |p.designs|, x);
    assert p.designs[..|p.designs|] == p.designs;
  }

  /**
   Pairing: each trial has, under every other profile of the pilot, a partner
   with the same seed, which sees the same offers up to price, and the same
   outcome whenever it selects the same representation.
   */
  lemma {:induction false} TrialsArePaired(
    lib: Library, config: Config, p: Pilot, observations: seq<Observation>, i: nat, profile: string) returns (j: nat)
    requires p.trials > 0 && Recorded(lib, config, Schedule(p), observations)
    requires i < |observations| && profile in p.profiles
    ensures j < |observations|
    ensures
      var o, o' := observations[i], observations[j];
      && o'.profile == profile && o'.seed == o.seed
      && o'.design == o.design && o'.taskClass == o.taskClass && o'.multiplier == o.multiplier
      && o'.unavailable == o.unavailable && |o'.offers| == |o.offers|
      && (forall k :: 0 <= k < |o.offers| ==> o'.offers[k].rep == o.offers[k].rep)
      && (o'.selected == o.selected ==> o'.outcome == o.outcome)
  {
    var trials := Schedule(p);
    var x := trials[i];
    var partner := Trial(x.cell.(profile := profile), x.repetition);
    ScheduleExactly(p, x);
    ScheduleExactly(p, partner);
    j :| 0 <= j < |trials| && trials[j] == partner;
    ProfilesShareNoise(lib, config, x.cell, partner.cell);
    if observations[j].selected == observations[i].selected {
      SameSelectionSameOutcome(lib, config, x.cell, partner.cell);
    }
  }

  // ---------- trial identifiers ----------

  lemma {:induction false} PadHasNoDash(n: nat, width: nat)
    ensures '-' !in Pad(Decimal(n), width)
  {
    DecimalHasNo(n, '-');
  }

  /** Trial identifiers are unique, also beyond the padded width. */
  lemma {:induction false} TrialIdInjective(n: nat, r: nat, n': nat, r': nat)
    requires TrialId(n, r) == TrialId(n', r')
    ensures n == n' && r == r'
  {
    var a, b := Pad(Decimal(n), 6), Pad(Decimal(r), 3);
    var a', b' := Pad(Decimal(n'), 6), Pad(Decimal(r'), 3);
    PadHasNoDash(n, 6);
    PadHasNoDash(r, 3);
    PadHasNoDash(n', 6);
    PadHasNoDash(r', 3);
    assert "pilot-" == "pilot" + "-";
    SplitId("pilot", a, b, a', b');
    ParsePrint(n, 10, 6);
    ParsePrint(n', 10, 6);
    ParsePrint(r, 10, 3);
    ParsePrint(r', 10, 3);
  }

  /** Within the padded widths an identifier has one shape, and its two fields read back. */
  lemma {:induction false} TrialIdShape(n: nat, r: nat)
    requires n < 1000000 && r < 1000
    ensures
      var id := TrialId(n, r);
      && |id| == 17 && id[..6] == "pilot-" && id[12..14] == "-r"
      && ParseDecimal(id[6..12]) == Some(n) && ParseDecimal(id[14..]) == Some(r)
  {
    PadFills(n, 6);
    PadFills(r, 3);
    var id, a, b := TrialId(n, r), Pad(Decimal(n), 6), Pad(Decimal(r), 3);
    assert id[6..12] == a && id[14..] == b;
    ParsePrint(n, 10, 6);
    ParsePrint(r, 10, 3);
  }

  lemma {:induction false} PadFills(n: nat, width: nat)
    ensures width == 3 && n < 1000 ==> |Pad(Decimal(n), width)| == 3
    ensures width == 6 && n < 1000000 ==> |Pad(Decimal(n), width)| == 6
  {
    Powers();
    if (width == 3 && n < 1000) || (width == 6 && n < 1000000) {
      PrintLength(n, 10, width);
    }
  }

  lemma {:induction false} Powers()
    ensures Power(10, 3) == 1000 && Power(10, 6) == 1000000
  {
    assert Power(10, 1) == 10 * Power(10, 0) && Power(10, 2) == 10 * Power(10, 1) && Power(10, 3) == 10 * Power(10, 2);
    assert Power(10, 4) == 10 * Power(10, 3) && Power(10, 5) == 10 * Power(10, 4) && Power(10, 6) == 10 * Power(10, 5);
  }

  lemma {:induction false} SplitId(head: string, a: string, b: string, a': string, b': string)
    requires '-' !in a && '-' !in b && '-' !in a' && '-' !in b'
    requires head + "-" + a + "-r" + b == head + "-" + a' + "-r" + b'
    ensures a == a' && b == b'
  {
    assert head + "-" + a + "-r" + b == head + "-" + a + "-" + ("r" + b);
    assert head + "-" + a' + "-r" + b' == head + "-" + a' + "-" + ("r" + b');
    LastDash(head + "-" + a, "r" + b, head + "-" + a', "r" + b');
    LastDash(head, a, head, a');
    assert b == ("r" + b)[1..] && b' == ("r" + b')[1..];
  }

  lemma {:induction false} TrialIdsDistinct(lib: Library, config: Config, trials: seq<Trial>, observations: seq<Observation>, i: nat, j: nat)
    requires Recorded(lib, config, trials, observations) && i < j < |observations|
    ensures observations[i].trial != observations[j].trial
  {
    if observations[i].trial == observations[j].trial {
      TrialIdInjective(i, trials[i].repetition, j, trials[j].repetition);
    }
  }
}
