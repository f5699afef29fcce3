/**
 Simulated access sessions: offers, the agent's noisy choice, execution, and
 one session over one random stream. The stream is explicit; the exponential
 and the rounding of reported figures are parameters.
 */
module Sessions {
  import opened Basics

  // ---------- the random stream ----------

  /** Uniform rolls by position, and the transform of two rolls into two normals. */
  datatype Stream = Stream(uniform: nat -> real, normals: (real, real) -> (real, real))

  /** How many rolls are consumed, and the second normal of a pair while it is kept. */
  datatype RngState = RngState(position: nat, kept: Option<real>)

  const FRESH := RngState(0, None)

  function Normal(st: Stream, s: RngState): real {
    match s.kept
    case Some(z) => z
    case None => st.normals(st.uniform(s.position), st.uniform(s.position + 1)).0
  }

  function AfterNormal(st: Stream, s: RngState): RngState {
    match s.kept
    case Some(_) => s.(kept := None)
    case None => RngState(s.position + 2, Some(st.normals(st.uniform(s.position), st.uniform(s.position + 1)).1))
  }

  function AfterNormals(st: Stream, s: RngState, n: nat): RngState {
    if n == 0 then s else AfterNormal(st, AfterNormals(st, s, n - 1))
  }

  /** The n-th normal drawn from state `s`. */
  function Noise(st: Stream, s: RngState, n: nat): real { Normal(st, AfterNormals(st, s, n)) }

  class Rng {
    const stream: Stream
    var position: nat
    var kept: Option<real>

    constructor (stream: Stream)
      ensures this.stream == stream && State() == FRESH
    {
      this.stream, position, kept := stream, 0, None;
    }

    ghost function State(): RngState
      reads this
    {
      RngState(position, kept)
    }

    method Random() returns (u: real)
      modifies this
      ensures u == stream.uniform(old(position)) && State() == old(State()).(position := old(position) + 1)
    {
      u := stream.uniform(position);
      position := position + 1;
    }

    /** The state a draw leaves behind depends on neither the mean nor the deviation. */
    method Gauss(mean: real, deviation: real) returns (x: real)
      modifies this
      ensures x == mean + Normal(stream, old(State())) * deviation
      ensures State() == AfterNormal(stream, old(State()))
    {
      var z := kept;
      kept := None;
      if z == None {
        var u := Random();
        var v := Random();
        var pair := stream.normals(u, v);
        kept := Some(pair.1);
        z := Some(pair.0);
      }
      x := mean + z.value * deviation;
    }
  }

  // ---------- configuration ----------

  datatype LibraryFunctions = Library(stream: int -> Stream, exp: real -> real, round: real -> real)

  ghost predicate Lawful(lib: LibraryFunctions) {
    && (forall x :: lib.exp(x) > 0.0)
    && (forall x :: lib.exp(x) * lib.exp(-x) == 1.0)
    && (forall x, y :: x <= y ==> lib.exp(x) <= lib.exp(y))
  }

  type Library = lib: LibraryFunctions | Lawful(lib)
    witness Library(_ => Stream(_ => 0.0, (_, _) => (0.0, 0.0)), _ => 1.0, x => x)

  datatype Path = Path(
    available: bool, location: string, latency: real, jitter: real, realizedCost: real, quotes: map<string, real>)

  datatype Representation = Representation(size: int, quality: map<string, real>)

  type Design = map<string, Path>

  /** Quote overrides per task class and representation. */
  type Profile = map<string, map<string, real>>

  datatype TaskClass = TaskClass(
    candidates: seq<string>, budget: real, taskValue: real, qualityWeight: real, priceWeight: real,
    outsideUtility: real, choiceNoise: real, midpoint: real, temperature: real,
    latencyReference: real, latencyPenalty: real)

  datatype RawConfig = Config(
    representations: map<string, Representation>,
    taskClasses: map<string, TaskClass>,
    designs: map<string, Design>,
    profiles: map<string, Profile>,
    costWeight: real)

  /** What loading has checked: candidates exist and temperatures are positive. */
  predicate LoadedConfig(config: RawConfig) {
    forall t :: t in config.taskClasses ==>
      && config.taskClasses[t].temperature > 0.0
      && forall i :: 0 <= i < |config.taskClasses[t].candidates| ==>
        config.taskClasses[t].candidates[i] in config.representations
  }

  type Config = c: RawConfig | LoadedConfig(c) witness Config(map[], map[], map[], map[], 0.0)

  function QualityFor(r: Representation, taskId: string): real {
    if taskId in r.quality then r.quality[taskId] else 0.0
  }

  function QuoteFor(profile: Profile, taskId: string, rep: string, default: real): real {
    if taskId in profile && rep in profile[taskId] then profile[taskId][rep] else default
  }

  // ---------- offers ----------

  datatype Offer = Offer(
    rep: string, price: real, affordable: bool, location: string, latency: real, quality: real)

  predicate Offered(design: Design, taskId: string, rep: string) {
    rep in design && design[rep].available && taskId in design[rep].quotes
  }

  function Price(design: Design, taskId: string, profile: Profile, rep: string): real
    requires Offered(design, taskId, rep)
  {
    QuoteFor(profile, taskId, rep, design[rep].quotes[taskId])
  }

  /** Representations of the candidates that a design offers, or does not offer, in order. */
  function Candidates(design: Design, taskId: string, reps: seq<string>, offered: bool): (r: seq<string>)
    ensures forall i :: 0 <= i < |r| ==> Offered(design, taskId, r[i]) == offered && r[i] in reps
  {
    if reps == [] then []
    else
      var front := Candidates(design, taskId, reps[..|reps| - 1], offered);
      var rep := reps[|reps| - 1];
      if Offered(design, taskId, rep) == offered then front + [rep] else front
  }

  function OfferOf(config: Config, design: Design, taskId: string, profile: Profile, rep: string): Offer
    requires taskId in config.taskClasses && rep in config.representations && Offered(design, taskId, rep)
  {
    var price := Price(design, taskId, profile, rep);
    Offer(rep, price, price <= config.taskClasses[taskId].budget, design[rep].location, design[rep].latency,
          QualityFor(config.representations[rep], taskId))
  }

  function Offers(config: Config, design: Design, taskId: string, profile: Profile): (os: seq<Offer>)
    requires taskId in config.taskClasses
    ensures |os| == |Candidates(design, taskId, config.taskClasses[taskId].candidates, true)|
    ensures forall i :: 0 <= i < |os| ==>
      os[i].rep == Candidates(design, taskId, config.taskClasses[taskId].candidates, true)[i]
  {
    var reps := Candidates(design, taskId, config.taskClasses[taskId].candidates, true);
    seq(|reps|, i requires 0 <= i < |reps| => OfferOf(config, design, taskId, profile, reps[i]))
  }

  method BuildOffers(config: Config, design: Design, taskId: string, profile: Profile)
    returns (offers: seq<Offer>, unavailable: seq<string>)
    requires taskId in config.taskClasses
    ensures offers == Offers(config, design, taskId, profile)
    ensures unavailable == Candidates(design, taskId, config.taskClasses[taskId].candidates, false)
  {
    var task := config.taskClasses[taskId];
    offers, unavailable := [], [];
    ghost var reps: seq<string> := [];
    for k := 0 to |task.candidates|
      invariant reps == Candidates(design, taskId, task.candidates[..k], true)
      invariant unavailable == Candidates(design, taskId, task.candidates[..k], false)
      invariant |offers| == |reps|
      invariant forall i :: 0 <= i < |reps| ==> reps[i] in config.representations
      invariant forall i :: 0 <= i < |reps| ==> offers[i] == OfferOf(config, design, taskId, profile, reps[i])
    {
      var rep := task.candidates[k];
      assert task.candidates[..k + 1][..k] == task.candidates[..k];
      if rep !in design || !design[rep].available || taskId !in design[rep].quotes {
        unavailable := unavailable + [rep];
      } else {
        offers := offers + [OfferOf(config, design, taskId, profile, rep)];
        reps := reps + [rep];
      }
    }
    assert task.candidates[..|task.candidates|] == task.candidates;
  }

  // ---------- the agent's choice ----------

  const OUTSIDE := "outside_option"

  datatype Entry = Entry(key: string, score: real)

  /** Insertion-ordered assignment: a known key keeps its place, a new one goes last. */
  function Put(scores: seq<Entry>, key: string, score: real): (r: seq<Entry>)
    ensures r != []
  {
    if scores == [] then [Entry(key, score)]
    else if scores[0].key == key then [Entry(key, score)] + scores[1..]
    else [scores[0]] + Put(scores[1..], key, score)
  }

  function Score(task: TaskClass, offer: Offer, z: real): real {
    task.qualityWeight * offer.quality - task.priceWeight * offer.price + z * task.choiceNoise
  }

  function OutsideEntry(task: TaskClass, noise: real): Entry { Entry(OUTSIDE, task.outsideUtility + noise) }

  /** The scores after the first `n` offers, where draw 0 is the outside option's. */
  function Scores(task: TaskClass, offers: seq<Offer>, st: Stream, s: RngState, n: nat): (r: seq<Entry>)
    requires n <= |offers|
    ensures r != []
  {
    if n == 0 then [OutsideEntry(task, Noise(st, s, 0) * task.choiceNoise)]
    else
      var before := Scores(task, offers, st, s, n - 1);
      if offers[n - 1].affordable then Put(before, offers[n - 1].rep, Score(task, offers[n - 1], Noise(st, s, n))) else before
  }

  predicate FirstMaximum(scores: seq<Entry>, i: nat) {
    && i < |scores|
    && (forall j :: 0 <= j < i ==> scores[j].score < scores[i].score)
    && (forall j :: i <= j < |scores| ==> scores[j].score <= scores[i].score)
  }

  function Best(scores: seq<Entry>): (i: nat)
    requires scores != []
    ensures FirstMaximum(scores, i)
  {
    var last := |scores| - 1;
    if last == 0 then 0
    else
      var i := Best(scores[..last]);
      if scores[last].score > scores[i].score then last else i
  }

  datatype Reason = OutsideOption | OutsideOrUnaffordable | HighestUtility

  datatype Decision = Decision(selected: Option<string>, reason: Reason, scores: seq<Entry>)

  function SelectedKey(key: string): Option<string> {
    if key == OUTSIDE then None else Some(key)
  }

  function Decided(offers: seq<Offer>, scores: seq<Entry>): Decision
    requires scores != []
  {
    var selected := SelectedKey(scores[Best(scores)].key);
    var reason :=
      if selected.Some? then HighestUtility
      else if exists i :: 0 <= i < |offers| && !offers[i].affordable then OutsideOrUnaffordable
      else OutsideOption;
    Decision(selected, reason, scores)
  }

  function Choice(task: TaskClass, offers: seq<Offer>, st: Stream, s: RngState): Decision {
    Decided(offers, Scores(task, offers, st, s, |offers|))
  }

  /** Every offer costs one draw, affordable or not. */
  method Choose(task: TaskClass, offers: seq<Offer>, rng: Rng) returns (d: Decision)
    modifies rng
    ensures d == Choice(task, offers, rng.stream, old(rng.State()))
    ensures rng.State() == AfterNormals(rng.stream, old(rng.State()), 1 + |offers|)
  {
    ghost var start := rng.State();
    var outside := rng.Gauss(0.0, task.choiceNoise);
    assert outside == Noise(rng.stream, start, 0) * task.choiceNoise;
    var scores := [OutsideEntry(task, outside)];
    assert Scores(task, offers, rng.stream, start, 0)[0] == OutsideEntry(task, outside);
    for k := 0 to |offers|
      invariant rng.State() == AfterNormals(rng.stream, start, k + 1)
      invariant scores == Scores(task, offers, rng.stream, start, k)
    {
      var noise := rng.Gauss(0.0, task.choiceNoise);
      assert noise == Noise(rng.stream, start, k + 1) * task.choiceNoise;
      if offers[k].affordable {
        var score := task.qualityWeight * offers[k].quality - task.priceWeight * offers[k].price + noise;
        assert score == Score(task, offers[k], Noise(rng.stream, start, k + 1));
        scores := Put(scores, offers[k].rep, score);
      }
    }
    d := Decided(offers, scores);
  }

  // ---------- execution and the outcome ----------

  datatype Execution = Execution(location: string, feltLatency: real, realizedCost: real, bytesRead: int)

  function NotNegative(x: real): real { if x > 0.0 then x else 0.0 }

  function Served(st: Stream, s: RngState, path: Path, size: int, multiplier: real): Execution {
    Execution(
      path.location,
      NotNegative(path.latency + Normal(st, s) * path.jitter) * multiplier,
      NotNegative(path.realizedCost * (1.0 + Normal(st, AfterNormal(st, s)) * 0.02)),
      size)
  }

  method Serve(path: Path, size: int, multiplier: real, rng: Rng) returns (e: Execution)
    modifies rng
    ensures e == Served(rng.stream, old(rng.State()), path, size, multiplier)
    ensures rng.State() == AfterNormals(rng.stream, old(rng.State()), 2)
  {
    ghost var start := rng.State();
    assert AfterNormals(rng.stream, start, 0) == start;
    assert AfterNormals(rng.stream, start, 1) == AfterNormal(rng.stream, start);
    var latency := rng.Gauss(path.latency, path.jitter);
    var drift := rng.Gauss(0.0, 0.02);
    e := Execution(path.location, NotNegative(latency) * multiplier, NotNegative(path.realizedCost * (1.0 + drift)), size);
  }

  function Logit(task: TaskClass, quality: real, feltLatency: real): real
    requires task.temperature > 0.0
  {
    (quality - task.midpoint) / task.temperature
    - task.latencyPenalty * NotNegative(feltLatency - task.latencyReference)
  }

  /** The logistic function, evaluated on the side where the exponential is small. */
  function Logistic(lib: Library, x: real): (p: real)
  {
    if x >= 0.0 then
      assert lib.exp(-x) > 0.0;
      1.0 / (1.0 + lib.exp(-x))
    else
      assert lib.exp(x) > 0.0;
      lib.exp(x) / (1.0 + lib.exp(x))
  }

  datatype Intervention = Physical | Quote | Latency | QuoteAndLatency

  /** Which knobs a session turns, beside its physical design. */
  function InterventionOf(profile: string, multiplier: real): Intervention {
    if profile != "as_designed" then (if multiplier != 1.0 then QuoteAndLatency else Quote)
    else if multiplier != 1.0 then Latency
    else Physical
  }

  datatype Observation = Observation(
    trial: string, seed: int, design: string, taskClass: string, profile: string,
    intervention: Intervention, multiplier: real,
    offers: seq<Offer>, unavailable: seq<string>,
    selected: Option<string>, reason: Reason, scores: seq<Entry>,
    outcome: Outcome)

  /** What a session reports beyond its decision; all empty when nothing was selected. */
  datatype Outcome = Outcome(
    feltLatency: Option<real>, realizedCost: real, bytesRead: int, success: bool, probability: real, value: real)

  const NOTHING := Outcome(None, 0.0, 0, false, 0.0, 0.0)

  datatype SessionError = UnknownDesign | UnknownTaskClass | UnknownProfile | BadMultiplier

  function RoundScores(lib: Library, scores: seq<Entry>): seq<Entry> {
    seq(|scores|, i requires 0 <= i < |scores| => Entry(scores[i].key, lib.round(scores[i].score)))
  }

  function Reported(lib: Library, task: TaskClass, costWeight: real, e: Execution, p: real, success: bool): Outcome {
    var value := (if success then task.taskValue else 0.0) - costWeight * e.realizedCost;
    Outcome(Some(lib.round(e.feltLatency)), lib.round(e.realizedCost), e.bytesRead, success, lib.round(p), lib.round(value))
  }

  /** The outcome of executing on representation `rep` from RNG state `s`. */
  function Executed(
    lib: Library, config: Config, st: Stream, s: RngState, design: Design, taskId: string, rep: string, multiplier: real): Outcome
    requires taskId in config.taskClasses && rep in config.representations && rep in design
  {
    var task := config.taskClasses[taskId];
    var e := Served(st, s, design[rep], config.representations[rep].size, multiplier);
    var p := Logistic(lib, Logit(task, QualityFor(config.representations[rep], taskId), e.feltLatency));
    Reported(lib, task, config.costWeight, e, p, st.uniform(AfterNormals(st, s, 2).position) < p)
  }

  /** One session's conditions. */
  datatype Cell = Cell(design: string, taskClass: string, profile: string, multiplier: real, seed: int)

  predicate Known(config: Config, c: Cell) {
    c.design in config.designs && c.taskClass in config.taskClasses && c.profile in config.profiles && c.multiplier > 0.0
  }

  function CellOffers(config: Config, c: Cell): seq<Offer>
    requires Known(config, c)
  {
    Offers(config, config.designs[c.design], c.taskClass, config.profiles[c.profile])
  }

  function CellChoice(lib: Library, config: Config, c: Cell): Decision
    requires Known(config, c)
  {
    Choice(config.taskClasses[c.taskClass], CellOffers(config, c), lib.stream(c.seed), FRESH)
  }

  /** The RNG state in which a session enters execution. */
  function EntryState(lib: Library, config: Config, c: Cell): RngState
    requires Known(config, c)
  {
    AfterNormals(lib.stream(c.seed), FRESH, 1 + |CellOffers(config, c)|)
  }

  /** A selected key names an offer. */
  lemma {:induction false} ScoredIsOffered(task: TaskClass, offers: seq<Offer>, st: Stream, s: RngState, n: nat, i: nat)
    requires n <= |offers| && i < |Scores(task, offers, st, s, n)|
    ensures
      var key := Scores(task, offers, st, s, n)[i].key;
      key == OUTSIDE || exists j :: 0 <= j < n && offers[j].rep == key && offers[j].affordable
  {
    if n > 0 {
      var before := Scores(task, offers, st, s, n - 1);
      if offers[n - 1].affordable {
        PutKeys(before, offers[n - 1].rep, Score(task, offers[n - 1], Noise(st, s, n)), i);
        if Scores(task, offers, st, s, n)[i].key != offers[n - 1].rep {
          ScoredIsOffered(task, offers, st, s, n - 1, i);
        }
      } else {
        ScoredIsOffered(task, offers, st, s, n - 1, i);
      }
    }
  }

  lemma {:induction false} PutKeys(scores: seq<Entry>, key: string, score: real, i: nat)
    requires i < |Put(scores, key, score)|
    ensures Put(scores, key, score)[i] == Entry(key, score) || (i < |scores| && Put(scores, key, score)[i] == scores[i])
  {
    if scores != [] && scores[0].key != key && i > 0 {
      PutKeys(scores[1..], key, score, i - 1);
    }
  }

  lemma {:induction false} SelectedIsOffered(lib: Library, config: Config, c: Cell)
    requires Known(config, c) && CellChoice(lib, config, c).selected.Some?
    ensures
      var rep := CellChoice(lib, config, c).selected.value;
      Offered(config.designs[c.design], c.taskClass, rep) && rep in config.representations
  {
    var task, offers := config.taskClasses[c.taskClass], CellOffers(config, c);
    var st := lib.stream(c.seed);
    ScoredIsOffered(task, offers, st, FRESH, |offers|, Best(Scores(task, offers, st, FRESH, |offers|)));
  }

  function SessionOutcome(lib: Library, config: Config, c: Cell): Outcome
    requires Known(config, c)
  {
    var d := CellChoice(lib, config, c);
    if d.selected.None? then NOTHING
    else
      SelectedIsOffered(lib, config, c);
      Executed(lib, config, lib.stream(c.seed), EntryState(lib, config, c), config.designs[c.design], c.taskClass,
               d.selected.value, c.multiplier)
  }

  function Session(lib: Library, config: Config, c: Cell, trial: string): Observation
    requires Known(config, c)
  {
    var d := CellChoice(lib, config, c);
    Observation(
      trial, c.seed, c.design, c.taskClass, c.profile, InterventionOf(c.profile, c.multiplier), c.multiplier,
      CellOffers(config, c),
      Candidates(config.designs[c.design], c.taskClass, config.taskClasses[c.taskClass].candidates, false),
      d.selected, d.reason, RoundScores(lib, d.scores), SessionOutcome(lib, config, c))
  }

  /** One session: four refusals, then offers, choice and execution over one stream. */
  method RunSession(lib: Library, config: Config, c: Cell, trial: string) returns (r: Result<Observation, SessionError>)
    ensures r.Ok? <==> Known(config, c)
    ensures r.Ok? ==> r.value == Session(lib, config, c, trial)
    ensures r.Err? ==>
      match r.error
      case UnknownDesign => c.design !in config.designs
      case UnknownTaskClass => c.design in config.designs && c.taskClass !in config.taskClasses
      case UnknownProfile =>
        c.design in config.designs && c.taskClass in config.taskClasses && c.profile !in config.profiles
      case BadMultiplier =>
        && c.design in config.designs && c.taskClass in config.taskClasses && c.profile in config.profiles
        && c.multiplier <= 0.0
  {
    if c.design !in config.designs {
      return Err(UnknownDesign);
    }
    if c.taskClass !in config.taskClasses {
      return Err(UnknownTaskClass);
    }
    if c.profile !in config.profiles {
      return Err(UnknownProfile);
    }
    if c.multiplier <= 0.0 {
      return Err(BadMultiplier);
    }
    var rng := new Rng(lib.stream(c.seed));
    var intervention: Intervention;
    if c.profile != "as_designed" && c.multiplier != 1.0 {
      intervention := QuoteAndLatency;
    } else if c.profile != "as_designed" {
      intervention := Quote;
    } else if c.multiplier != 1.0 {
      intervention := Latency;
    } else {
      intervention := Physical;
    }
    var design, task := config.designs[c.design], config.taskClasses[c.taskClass];
    var offers, unavailable := BuildOffers(config, design, c.taskClass, config.profiles[c.profile]);
    var d := Choose(task, offers, rng);
    var outcome := NOTHING;
    if d.selected.Some? {
      SelectedIsOffered(lib, config, c);
      outcome := Execute(lib, config, design, c.taskClass, d.selected.value, c.multiplier, rng);
    }
    return Ok(Observation(
      trial, c.seed, c.design, c.taskClass, c.profile, intervention, c.multiplier, offers, unavailable,
      d.selected, d.reason, RoundScores(lib, d.scores), outcome));
  }

  method Execute(lib: Library, config: Config, design: Design, taskId: string, rep: string, multiplier: real, rng: Rng)
    returns (o: Outcome)
    requires taskId in config.taskClasses && rep in config.representations && rep in design
    modifies rng
    ensures o == Executed(lib, config, rng.stream, old(rng.State()), design, taskId, rep, multiplier)
  {
    var task, representation := config.taskClasses[taskId], config.representations[rep];
    ghost var start := rng.State();
    var e := Serve(design[rep], representation.size, multiplier, rng);
    var p := Logistic(lib, Logit(task, QualityFor(representation, taskId), e.feltLatency));
    var roll := rng.Random();
    assert roll == rng.stream.uniform(AfterNormals(rng.stream, start, 2).position);
    o := Reported(lib, task, config.costWeight, e, p, roll < p);
  }
}
