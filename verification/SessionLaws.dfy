/** What a session reports, in terms of its configuration and its random stream. */
module SessionLaws {
  import opened Basics
  import opened Sessions
  import opened Coupling

  /** Reported figures are not rounded. */
  ghost predicate Unrounded(lib: Library) { forall x :: lib.round(x) == x }

  ghost predicate RoundsMonotonely(lib: Library) { forall x, y :: x <= y ==> lib.round(x) <= lib.round(y) }

  ghost predicate Selects(lib: Library, config: Config, c: Cell, rep: string) {
    Known(config, c) && CellChoice(lib, config, c).selected == Some(rep)
  }

  // ---------- value, bytes, success ----------

  /** The roll that decides success: the first uniform after the choice and the two execution draws. */
  function SuccessRoll(lib: Library, config: Config, c: Cell): real
    requires Known(config, c)
  {
    lib.stream(c.seed).uniform(AfterNormals(lib.stream(c.seed), EntryState(lib, config, c), 2).position)
  }

  /** How the selected representation is served, and how likely it then succeeds. */
  function CellExecution(lib: Library, config: Config, c: Cell, rep: string): Execution
    requires Known(config, c) && rep in config.representations && rep in config.designs[c.design]
  {
    Served(lib.stream(c.seed), EntryState(lib, config, c), config.designs[c.design][rep],
           config.representations[rep].size, c.multiplier)
  }

  function CellProbability(lib: Library, config: Config, c: Cell, rep: string): real
    requires Known(config, c) && rep in config.representations && rep in config.designs[c.design]
  {
    Logistic(lib, Logit(config.taskClasses[c.taskClass], QualityFor(config.representations[rep], c.taskClass),
                        CellExecution(lib, config, c, rep).feltLatency))
  }

  lemma {:induction false} SessionExecuted(lib: Library, config: Config, c: Cell, rep: string)
    requires Selects(lib, config, c, rep)
    ensures rep in config.representations && rep in config.designs[c.design]
    ensures
      var e, p := CellExecution(lib, config, c, rep), CellProbability(lib, config, c, rep);
      SessionOutcome(lib, config, c)
        == Reported(lib, config.taskClasses[c.taskClass], config.costWeight, e, p, SuccessRoll(lib, config, c) < p)
  {
    SelectedIsOffered(lib, config, c);
  }

  /** Unrounded, a report repeats its execution, and value and weighted cost add up to the success's worth. */
  lemma {:induction false} ReportAccounts(lib: Library, task: TaskClass, weight: real, e: Execution, p: real, success: bool)
    requires Unrounded(lib)
    ensures
      var o := Reported(lib, task, weight, e, p, success);
      && o.feltLatency == Some(e.feltLatency) && o.realizedCost == e.realizedCost && o.bytesRead == e.bytesRead
      && o.success == success && o.probability == p
      && Balances(o, task.taskValue, weight)
  {
  }

  /**
   The books balance: value and weighted cost add up to what the success is
   worth, the bytes are the selected representation's, and the session succeeds
   exactly when its roll is below its probability.
   */
  lemma {:induction false} SessionAccounts(lib: Library, config: Config, c: Cell, rep: string)
    requires Selects(lib, config, c, rep) && Unrounded(lib)
    ensures rep in config.representations
    ensures Balances(SessionOutcome(lib, config, c), config.taskClasses[c.taskClass].taskValue, config.costWeight)
    ensures
      var o := SessionOutcome(lib, config, c);
      && o.bytesRead == config.representations[rep].size
      && 0.0 < o.probability < 1.0 && (o.success <==> SuccessRoll(lib, config, c) < o.probability)
      && o.realizedCost >= 0.0 && o.feltLatency.Some?
  {
    var e, p := ExecutedAs(lib, config, c, rep);
    ReportAccounts(lib, config.taskClasses[c.taskClass], config.costWeight, e, p, SuccessRoll(lib, config, c) < p);
  }

  predicate Balances(o: Outcome, worth: real, weight: real) {
    o.value + weight * o.realizedCost == if o.success then worth else 0.0
  }

  /** The execution and the probability behind a report. */
  lemma {:induction false} ExecutedAs(lib: Library, config: Config, c: Cell, rep: string) returns (e: Execution, p: real)
    requires Selects(lib, config, c, rep)
    ensures rep in config.representations && rep in config.designs[c.design]
    ensures e.bytesRead == config.representations[rep].size && e.realizedCost >= 0.0 && 0.0 < p < 1.0
    ensures SessionOutcome(lib, config, c)
      == Reported(lib, config.taskClasses[c.taskClass], config.costWeight, e, p, SuccessRoll(lib, config, c) < p)
  {
    SessionExecuted(lib, config, c, rep);
    e, p := CellExecution(lib, config, c, rep), CellProbability(lib, config, c, rep);
    ProbabilityIsProper(lib, config, c, rep);
  }

  lemma {:induction false} ProbabilityIsProper(lib: Library, config: Config, c: Cell, rep: string)
    requires Known(config, c) && rep in config.representations && rep in config.designs[c.design]
    ensures 0.0 < CellProbability(lib, config, c, rep) < 1.0
  {
    LogisticIsStable(lib, Logit(config.taskClasses[c.taskClass], QualityFor(config.representations[rep], c.taskClass),
                                CellExecution(lib, config, c, rep).feltLatency));
  }

  /** Nothing selected, nothing reported. */
  lemma {:induction false} OutsideReportsNothing(lib: Library, config: Config, c: Cell)
    requires Known(config, c) && CellChoice(lib, config, c).selected == None
    ensures
      var o := SessionOutcome(lib, config, c);
      o.feltLatency == None && o.realizedCost == 0.0 && o.bytesRead == 0 && !o.success && o.probability == 0.0 && o.value == 0.0
  {
  }

  /** What the multiplier stretches. */
  function BaseLatency(lib: Library, config: Config, c: Cell, rep: string): real
    requires Known(config, c) && rep in config.designs[c.design]
  {
    var path := config.designs[c.design][rep];
    NotNegative(path.latency + Normal(lib.stream(c.seed), EntryState(lib, config, c)) * path.jitter)
  }

  /** Felt latency is the multiplier times a non-negative base, and the base does not depend on it. */
  lemma {:induction false} LatencyIsScaled(lib: Library, config: Config, c: Cell, rep: string, m: real)
    requires Selects(lib, config, c, rep) && Unrounded(lib) && m > 0.0
    ensures rep in config.designs[c.design] && BaseLatency(lib, config, c, rep) >= 0.0
    ensures
      var c' := c.(multiplier := m);
      Selects(lib, config, c', rep) && SessionOutcome(lib, config, c').feltLatency == Some(BaseLatency(lib, config, c, rep) * m)
  {
    var c' := c.(multiplier := m);
    assert Known(config, c') && CellChoice(lib, config, c') == CellChoice(lib, config, c);
    SessionExecuted(lib, config, c', rep);
    var e, p := CellExecution(lib, config, c', rep), CellProbability(lib, config, c', rep);
    ReportAccounts(lib, config.taskClasses[c.taskClass], config.costWeight, e, p, SuccessRoll(lib, config, c') < p);
    assert EntryState(lib, config, c') == EntryState(lib, config, c);
    assert e.feltLatency == BaseLatency(lib, config, c, rep) * m;
  }

  /** Without execution noise, latency and cost are the path's own, the latency stretched by the multiplier. */
  lemma {:induction false} QuietExecution(lib: Library, config: Config, c: Cell, rep: string)
    requires Selects(lib, config, c, rep) && Unrounded(lib)
    requires Normal(lib.stream(c.seed), EntryState(lib, config, c)) == 0.0
    requires Normal(lib.stream(c.seed), AfterNormal(lib.stream(c.seed), EntryState(lib, config, c))) == 0.0
    ensures rep in config.designs[c.design]
    ensures
      var path, o := config.designs[c.design][rep], SessionOutcome(lib, config, c);
      && o.feltLatency.Some? && (path.latency >= 0.0 ==> o.feltLatency.value == path.latency * c.multiplier)
      && (path.realizedCost >= 0.0 ==> o.realizedCost == path.realizedCost)
  {
    SessionExecuted(lib, config, c, rep);
    var e, p := CellExecution(lib, config, c, rep), CellProbability(lib, config, c, rep);
    ReportAccounts(lib, config.taskClasses[c.taskClass], config.costWeight, e, p, SuccessRoll(lib, config, c) < p);
    var path := config.designs[c.design][rep];
    QuietService(lib.stream(c.seed), EntryState(lib, config, c), path, config.representations[rep].size, c.multiplier);
    assert path.latency >= 0.0 ==> e.feltLatency == path.latency * c.multiplier;
    assert SessionOutcome(lib, config, c).feltLatency == Some(e.feltLatency);
  }

  lemma {:induction false} QuietService(st: Stream, s: RngState, path: Path, size: int, m: real)
    requires Normal(st, s) == 0.0 && Normal(st, AfterNormal(st, s)) == 0.0
    ensures
      var e := Served(st, s, path, size, m);
      && (path.latency >= 0.0 ==> e.feltLatency == path.latency * m)
      && (path.realizedCost >= 0.0 ==> e.realizedCost == path.realizedCost)
  {
    assert Normal(st, s) * path.jitter == 0.0;
    assert path.realizedCost * (1.0 + 0.0) == path.realizedCost;
  }

  /** A cost draw of at most one deviation moves the cost by at most two percent, and by two percent at one deviation. */
  lemma {:induction false} DriftIsSmall(st: Stream, s: RngState, path: Path, size: int, m: real)
    requires path.realizedCost >= 0.0
    ensures
      var z, cost := Normal(st, AfterNormal(st, s)), Served(st, s, path, size, m).realizedCost;
      && (-1.0 <= z <= 1.0 ==> path.realizedCost * 0.98 <= cost && cost <= path.realizedCost * 1.02)
      && (z == 1.0 ==> cost == path.realizedCost * 1.02)
  {
    var x, z := path.realizedCost, Normal(st, AfterNormal(st, s));
    assert Served(st, s, path, size, m).realizedCost == NotNegative(x * (1.0 + z * 0.02));
    if -1.0 <= z <= 1.0 {
      Within(x, 0.98, 1.0 + z * 0.02, 1.02);
    }
  }

  lemma {:induction false} Within(x: real, low: real, factor: real, high: real)
    requires x >= 0.0 && 0.0 <= low <= factor <= high
    ensures x * low <= NotNegative(x * factor) && NotNegative(x * factor) <= x * high
    ensures factor == high ==> NotNegative(x * factor) == x * high
  {
    Scales(x, 0.0, low);
    Scales(x, low, factor);
    Scales(x, factor, high);
    assert NotNegative(x * factor) == x * factor;
  }

  lemma {:induction false} Scales(x: real, a: real, b: real)
    requires x >= 0.0 && a <= b
    ensures x * a <= x * b
  {
    assert x * (b - a) >= 0.0;
  }

  // ---------- a dearer path ----------

  /** The same system with another realised cost on one path of one design. */
  function Repriced(config: Config, d: string, rep: string, cost: real): Config
    requires d in config.designs && rep in config.designs[d]
  {
    var design := config.designs[d];
    config.(designs := config.designs[d := design[rep := design[rep].(realizedCost := cost)]])
  }

  lemma {:induction false} SameCandidates(design: Design, design': Design, taskId: string, reps: seq<string>, offered: bool)
    requires forall r :: Offered(design, taskId, r) == Offered(design', taskId, r)
    ensures Candidates(design, taskId, reps, offered) == Candidates(design', taskId, reps, offered)
  {
    if reps != [] {
      SameCandidates(design, design', taskId, reps[..|reps| - 1], offered);
    }
  }

  /** Realised costs play no part in the choice. */
  lemma {:induction false} ChoiceIgnoresCost(lib: Library, config: Config, c: Cell, rep: string, cost: real)
    requires Known(config, c) && rep in config.designs[c.design]
    ensures
      var config' := Repriced(config, c.design, rep, cost);
      && Known(config', c) && CellOffers(config', c) == CellOffers(config, c)
      && CellChoice(lib, config', c) == CellChoice(lib, config, c)
      && EntryState(lib, config', c) == EntryState(lib, config, c)
  {
    var config' := Repriced(config, c.design, rep, cost);
    var design, design' := config.designs[c.design], config'.designs[c.design];
    assert forall r :: Offered(design, c.taskClass, r) == Offered(design', c.taskClass, r);
    SameCandidates(design, design', c.taskClass, config.taskClasses[c.taskClass].candidates, true);
    var os, os' := CellOffers(config, c), CellOffers(config', c);
    assert forall i :: 0 <= i < |os| ==> os'[i] == os[i];
    assert os' == os;
  }

  lemma {:induction false} CostRises(a: real, b: real, factor: real)
    requires 0.0 <= a <= b
    ensures NotNegative(a * factor) <= NotNegative(b * factor)
  {
    if factor >= 0.0 {
      assert a * factor <= b * factor;
    } else {
      assert a * factor <= 0.0 && b * factor <= 0.0;
    }
  }

  lemma {:induction false} ValueFalls(weight: real, worth: real, a: real, b: real)
    requires weight >= 0.0 && a <= b
    ensures worth - weight * b <= worth - weight * a
  {
    assert weight * a <= weight * b;
  }

  /**
   Over one seed, a dearer path keeps the choice, the latency and the success,
   and with a non-negative cost weight and monotone rounding never raises the value.
   */
  lemma {:induction false} DearerNeverPays(lib: Library, config: Config, c: Cell, rep: string, cost: real)
    requires Selects(lib, config, c, rep) && RoundsMonotonely(lib) && config.costWeight >= 0.0
    requires rep in config.designs[c.design] && 0.0 <= config.designs[c.design][rep].realizedCost <= cost
    ensures
      var config' := Repriced(config, c.design, rep, cost);
      && Selects(lib, config', c, rep)
      && var o, o' := SessionOutcome(lib, config, c), SessionOutcome(lib, config', c);
         o'.feltLatency == o.feltLatency && o'.success == o.success && o.realizedCost <= o'.realizedCost && o'.value <= o.value
  {
    ChoiceIgnoresCost(lib, config, c, rep, cost);
    var config' := Repriced(config, c.design, rep, cost);
    SessionExecuted(lib, config, c, rep);
    SessionExecuted(lib, config', c, rep);
    var e, e' := CellExecution(lib, config, c, rep), CellExecution(lib, config', c, rep);
    DearerService(lib.stream(c.seed), EntryState(lib, config, c), config.designs[c.design][rep], cost,
      config.representations[rep].size, c.multiplier);
    assert CellProbability(lib, config', c, rep) == CellProbability(lib, config, c, rep);
    var p := CellProbability(lib, config, c, rep);
    DearerReport(lib, config.taskClasses[c.taskClass], config.costWeight, e, e', p, SuccessRoll(lib, config, c) < p);
  }

  lemma {:induction false} DearerService(st: Stream, s: RngState, path: Path, cost: real, size: int, m: real)
    requires 0.0 <= path.realizedCost <= cost
    ensures
      var e, e' := Served(st, s, path, size, m), Served(st, s, path.(realizedCost := cost), size, m);
      e' == e.(realizedCost := e'.realizedCost) && e.realizedCost <= e'.realizedCost
  {
    CostRises(path.realizedCost, cost, 1.0 + Normal(st, AfterNormal(st, s)) * 0.02);
  }

  lemma {:induction false} DearerReport(
    lib: Library, task: TaskClass, weight: real, e: Execution, e': Execution, p: real, success: bool)
    requires RoundsMonotonely(lib) && weight >= 0.0
    requires e' == e.(realizedCost := e'.realizedCost) && e.realizedCost <= e'.realizedCost
    ensures
      var o, o' := Reported(lib, task, weight, e, p, success), Reported(lib, task, weight, e', p, success);
      o'.feltLatency == o.feltLatency && o'.success == o.success && o.realizedCost <= o'.realizedCost && o'.value <= o.value
  {
    ValueFalls(weight, if success then task.taskValue else 0.0, e.realizedCost, e'.realizedCost);
  }

  // ---------- offers, scores and decisions ----------

  /** Every offer repeats its path and representation, at the profile's price or the design's own. */
  lemma {:induction false} OfferMeaning(config: Config, c: Cell, i: nat)
    requires Known(config, c) && i < |CellOffers(config, c)|
    ensures
      var o, design, profile := CellOffers(config, c)[i], config.designs[c.design], config.profiles[c.profile];
      && o.rep in config.taskClasses[c.taskClass].candidates && o.rep in design && design[o.rep].available
      && c.taskClass in design[o.rep].quotes && o.rep in config.representations
      && o.location == design[o.rep].location && o.latency == design[o.rep].latency
      && (c.taskClass in profile && o.rep in profile[c.taskClass] ==> o.price == profile[c.taskClass][o.rep])
      && (!(c.taskClass in profile && o.rep in profile[c.taskClass]) ==> o.price == design[o.rep].quotes[c.taskClass])
      && (o.affordable <==> o.price <= config.taskClasses[c.taskClass].budget)
      && (c.taskClass in config.representations[o.rep].quality ==>
            o.quality == config.representations[o.rep].quality[c.taskClass])
      && (c.taskClass !in config.representations[o.rep].quality ==> o.quality == 0.0)
  {
  }

  lemma {:induction false} CandidatesPartition(design: Design, taskId: string, reps: seq<string>)
    ensures multiset(Candidates(design, taskId, reps, true)) + multiset(Candidates(design, taskId, reps, false)) == multiset(reps)
  {
    if reps != [] {
      CandidatesPartition(design, taskId, reps[..|reps| - 1]);
      assert reps == reps[..|reps| - 1] + [reps[|reps| - 1]];
    }
  }

  /** A representation's score: weighted quality, less the weighted price, plus its own draw of the choice noise. */
  lemma {:induction false} ScoreFormula(lib: Library, config: Config, c: Cell, rep: string) returns (j: nat)
    requires Known(config, c) && rep != OUTSIDE && Lookup(CellChoice(lib, config, c).scores, rep).Some?
    ensures j < |CellOffers(config, c)| && CellOffers(config, c)[j].rep == rep && CellOffers(config, c)[j].affordable
    ensures
      var task, o := config.taskClasses[c.taskClass], CellOffers(config, c)[j];
      Lookup(CellChoice(lib, config, c).scores, rep).value + task.priceWeight * o.price
      == task.qualityWeight * o.quality + Noise(lib.stream(c.seed), FRESH, j + 1) * task.choiceNoise
  {
    j := CellScore(lib, config, c, rep);
  }

  /** Without noise, the outside option scores its utility unless a representation takes its name. */
  lemma {:induction false} OutsideFormula(lib: Library, config: Config, c: Cell)
    requires Known(config, c) && OutsideOffer(config, c).None?
    ensures CellChoice(lib, config, c).scores != []
    ensures
      var task := config.taskClasses[c.taskClass];
      CellChoice(lib, config, c).scores[0].key == "outside_option"
      && CellChoice(lib, config, c).scores[0].score - Noise(lib.stream(c.seed), FRESH, 0) * task.choiceNoise == task.outsideUtility
  {
    LeadMeaning(lib, config, c);
  }

  /** The winner's score is at least every other's, and the reason names what happened. */
  lemma {:induction false} DecisionMeaning(lib: Library, config: Config, c: Cell)
    requires Known(config, c)
    ensures
      var d, os := CellChoice(lib, config, c), CellOffers(config, c);
      && (exists i :: 0 <= i < |d.scores| && d.selected == (if d.scores[i].key == "outside_option" then None else Some(d.scores[i].key))
            && forall j :: 0 <= j < |d.scores| ==> d.scores[j].score <= d.scores[i].score)
      && (d.reason.HighestUtility? <==> d.selected.Some?)
      && (d.reason.OutsideOrUnaffordable? <==> d.selected.None? && exists i :: 0 <= i < |os| && !os[i].affordable)
  {
    var d := CellChoice(lib, config, c);
    var i := Best(d.scores);
    assert FirstMaximum(d.scores, i);
  }

  lemma {:induction false} ScoreGains(task: TaskClass, o: Offer, o': Offer, z: real)
    requires task.qualityWeight >= 0.0 && o'.price == o.price && o.quality <= o'.quality
    ensures Score(task, o, z) <= Score(task, o', z)
  {
    assert task.qualityWeight * o.quality <= task.qualityWeight * o'.quality;
  }

  /** Offers that differ only in a better quality of `r`. */
  predicate Improved(os: seq<Offer>, os': seq<Offer>, r: string) {
    && |os| == |os'|
    && forall i :: 0 <= i < |os| ==>
      os'[i] == os[i].(quality := os'[i].quality) && (if os[i].rep == r then os[i].quality <= os'[i].quality else os'[i] == os[i])
  }

  lemma {:induction false} ImprovedScores(task: TaskClass, os: seq<Offer>, os': seq<Offer>, r: string, st: Stream, s: RngState, n: nat)
    requires task.qualityWeight >= 0.0 && Improved(os, os', r) && n <= |os|
    ensures Lowered(Scores(task, os', st, s, n), Scores(task, os, st, s, n), r)
  {
    if n > 0 {
      ImprovedScores(task, os, os', r, st, s, n - 1);
      var o, o', z := os[n - 1], os'[n - 1], Noise(st, s, n);
      if o.affordable {
        ScoreGains(task, o, o', z);
        LoweredPut(Scores(task, os', st, s, n - 1), Scores(task, os, st, s, n - 1), r, o.rep, Score(task, o', z), Score(task, o, z));
      }
    }
  }

  /** With a non-negative quality weight, a better representation is never dropped. */
  lemma {:induction false} BetterIsKept(task: TaskClass, os: seq<Offer>, os': seq<Offer>, r: string, st: Stream, s: RngState)
    requires task.qualityWeight >= 0.0 && Improved(os, os', r) && Choice(task, os, st, s).selected == Some(r)
    ensures Choice(task, os', st, s).selected == Some(r)
  {
    var d, d' := Scores(task, os, st, s, |os|), Scores(task, os', st, s, |os|);
    ImprovedScores(task, os, os', r, st, s, |os|);
    if d'[Best(d')].key != r {
      LoweredBest(d', d, r);
    }
  }

  /** At equal latency, better quality never turns a success into a failure. */
  lemma {:induction false} BetterNeverHurts(lib: Library, task: TaskClass, quality: real, better: real, latency: real)
    requires task.temperature > 0.0 && quality <= better
    ensures Logistic(lib, Logit(task, quality, latency)) <= Logistic(lib, Logit(task, better, latency))
  {
    LogitRises(task.temperature, quality - task.midpoint, better - task.midpoint);
    LogisticMonotone(lib, Logit(task, quality, latency), Logit(task, better, latency));
  }

  lemma {:induction false} LogitRises(temperature: real, a: real, b: real)
    requires temperature > 0.0 && a <= b
    ensures a / temperature <= b / temperature
  {
  }

  /** At the midpoint and within the latency reference, success is even. */
  lemma {:induction false} MidpointIsEven(lib: Library, task: TaskClass, latency: real)
    requires task.temperature > 0.0 && latency <= task.latencyReference
    ensures Logistic(lib, Logit(task, task.midpoint, latency)) == 0.5
  {
    assert Logit(task, task.midpoint, latency) == 0.0;
    assert lib.exp(0.0) * lib.exp(-0.0) == 1.0 && lib.exp(0.0) > 0.0;
    EvenRoot(lib.exp(0.0));
  }

  lemma {:induction false} EvenRoot(e: real)
    requires e > 0.0 && e * e == 1.0
    ensures e == 1.0
  {
    assert (e - 1.0) * (e + 1.0) == 0.0;
  }

  /** Quality above the midpoint counts by the temperature, and latency beyond the reference by the penalty. */
  lemma {:induction false} LogitTerms(task: TaskClass, quality: real, latency: real)
    requires task.temperature > 0.0
    ensures Logit(task, quality, task.latencyReference) * task.temperature == quality - task.midpoint
    ensures latency >= task.latencyReference ==>
      Logit(task, quality, task.latencyReference) - Logit(task, quality, latency)
      == task.latencyPenalty * (latency - task.latencyReference)
    ensures latency <= task.latencyReference ==>
      Logit(task, quality, latency) == Logit(task, quality, task.latencyReference)
  {
    assert task.latencyPenalty * NotNegative(0.0) == 0.0;
    DivideMultiply(quality - task.midpoint, task.temperature);
  }

  lemma {:induction false} DivideMultiply(x: real, y: real)
    requires y > 0.0
    ensures x / y * y == x
  {
  }

  /** A record repeats its session's conditions, its decision and its rounded scores. */
  lemma {:induction false} RecordRepeatsCell(lib: Library, config: Config, c: Cell, trial: string)
    requires Known(config, c)
    ensures
      var o, d := Session(lib, config, c, trial), CellChoice(lib, config, c);
      && o.trial == trial && o.seed == c.seed && o.design == c.design && o.taskClass == c.taskClass
      && o.profile == c.profile && o.multiplier == c.multiplier
      && o.selected == d.selected && o.reason == d.reason && |o.scores| == |d.scores|
      && (forall i :: 0 <= i < |d.scores| ==>
            o.scores[i].key == d.scores[i].key && o.scores[i].score == lib.round(d.scores[i].score))
      && multiset(seq(|o.offers|, i requires 0 <= i < |o.offers| => o.offers[i].rep)) + multiset(o.unavailable)
         == multiset(config.taskClasses[c.taskClass].candidates)
  {
    var o, design, reps := Session(lib, config, c, trial), config.designs[c.design], config.taskClasses[c.taskClass].candidates;
    CandidatesPartition(design, c.taskClass, reps);
    assert seq(|o.offers|, i requires 0 <= i < |o.offers| => o.offers[i].rep) == Candidates(design, c.taskClass, reps, true);
  }

  /** The reported intervention says exactly which knobs were turned. */
  lemma {:induction false} InterventionMeaning(lib: Library, config: Config, c: Cell, trial: string)
    requires Known(config, c)
    ensures
      var i := Session(lib, config, c, trial).intervention;
      && (i.Quote? || i.QuoteAndLatency? <==> c.profile != "as_designed")
      && (i.Latency? || i.QuoteAndLatency? <==> c.multiplier != 1.0)
  {
  }
}
