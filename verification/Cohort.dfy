/**
 Outcome-blind greedy cohort selection. Text handling (stripping, the decimal
 test, reading an integer) is a parameter: nothing below depends on more than
 its stated law.
 */
module Cohort {
  import opened Basics

  // ---------- text, annotation rows and the selection config ----------

  datatype TextFunctions = TextFunctions(
    strip: string -> string,
    isDecimal: string -> bool,
    readInt: string -> Option<int>)

  /** A decimal string reads as an integer and holds no dash. */
  ghost predicate Lawful(t: TextFunctions) {
    forall s :: t.isDecimal(s) ==> t.readInt(s).Some? && '-' !in s
  }

  type Text = t: TextFunctions | Lawful(t) witness TextFunctions(s => s, s => false, s => None)

  datatype RawRow = Row(
    video: string, frameCount: string, question: string, answer: string,
    qid: string, kind: string, options: seq<string>)

  type Row = r: RawRow | |r.options| == 5 witness Row("", "", "", "", "", "", ["", "", "", "", ""])

  datatype Quota = Quota(stratum: string, types: seq<string>, count: int)

  datatype Config = Config(
    independentUnit: string, onePrimaryQuestion: bool, outcomeBlind: bool,
    quota: seq<Quota>, excluded: seq<string>, selectionId: string, target: int)

  datatype Selected = Selected(
    stratum: string, kind: string, video: string, frameCount: int, qid: int,
    question: string, options: seq<string>, answer: int, answerText: string,
    workload: string, objectId: string, row: nat, rule: string)

  datatype CohortError =
    | NotSourceVideo | NotOnePrimaryQuestion | NotOutcomeBlind | EmptyQuota
    | ExcludedNotDecimal | ExcludedDuplicates | BlankSelectionId
    | BadCount(index: nat) | BlankStratum(index: nat) | DuplicateStratum(name: string)
    | BadTypes(index: nat) | DuplicateTypes(index: nat)
    | BadVideo(row: nat) | BadAnswer(row: nat) | BlankText(row: nat) | BadQid(row: nat) | BadFrameCount(row: nat)
    | QuotaUnmet(name: string, matched: int, count: int)
    | BadTarget | TargetMismatch | CountMismatch | ReusedVideo

  type Outcome = Result<seq<Selected>, CohortError>

  // ---------- checks of the config and of one row ----------

  predicate Distinct(xs: seq<string>) {
    forall i, j :: 0 <= i < j < |xs| ==> xs[i] != xs[j]
  }

  function StripAll(t: Text, xs: seq<string>): (r: seq<string>)
    ensures |r| == |xs| && forall i :: 0 <= i < |xs| ==> r[i] == t.strip(xs[i])
  {
    seq(|xs|, i requires 0 <= i < |xs| => t.strip(xs[i]))
  }

  predicate AllText(t: Text, xs: seq<string>) {
    forall i :: 0 <= i < |xs| ==> t.strip(xs[i]) != ""
  }

  function CheckConfig(t: Text, config: Config): Option<CohortError> {
    if config.independentUnit != "source-video" then Some(NotSourceVideo)
    else if !config.onePrimaryQuestion then Some(NotOnePrimaryQuestion)
    else if !config.outcomeBlind then Some(NotOutcomeBlind)
    else if config.quota == [] then Some(EmptyQuota)
    else if exists i :: 0 <= i < |config.excluded| && !t.isDecimal(config.excluded[i]) then Some(ExcludedNotDecimal)
    else if !Distinct(config.excluded) then Some(ExcludedDuplicates)
    else if t.strip(config.selectionId) == "" then Some(BlankSelectionId)
    else None
  }

  function CheckQuota(t: Text, q: Quota, index: nat, seen: set<string>): Option<CohortError> {
    if q.count <= 0 then Some(BadCount(index))
    else if t.strip(q.stratum) == "" then Some(BlankStratum(index))
    else if t.strip(q.stratum) in seen then Some(DuplicateStratum(t.strip(q.stratum)))
    else if q.types == [] || !AllText(t, q.types) then Some(BadTypes(index))
    else if !Distinct(StripAll(t, q.types)) then Some(DuplicateTypes(index))
    else None
  }

  /** What a row is matched against: one quota entry with its text stripped. */
  datatype Stratum = Stratum(name: string, types: seq<string>, count: int, excluded: seq<string>, rule: string)

  function StratumOf(t: Text, config: Config, k: nat): Stratum
    requires k < |config.quota|
  {
    var q := config.quota[k];
    Stratum(t.strip(q.stratum), StripAll(t, q.types), q.count, config.excluded, t.strip(config.selectionId))
  }

  predicate Eligible(t: Text, c: Stratum, used: set<string>, row: Row) {
    && t.strip(row.kind) in c.types
    && t.strip(row.video) !in c.excluded
    && t.strip(row.video) !in used
  }

  predicate ValidAnswer(t: Text, row: Row) {
    match t.readInt(row.answer) case Some(a) => 0 <= a < 5 case None => false
  }

  predicate HasText(t: Text, row: Row) {
    t.strip(row.question) != "" && AllText(t, row.options)
  }

  predicate Positive(n: Option<int>) { n.Some? && n.value > 0 }

  /** Row numbers in messages and identifiers count the header line, so they start at 2. */
  function CheckRow(t: Text, row: Row, i: nat): Option<CohortError> {
    if !t.isDecimal(t.strip(row.video)) then Some(BadVideo(i + 2))
    else if !ValidAnswer(t, row) then Some(BadAnswer(i + 2))
    else if !HasText(t, row) then Some(BlankText(i + 2))
    else if !t.isDecimal(t.strip(row.qid)) then Some(BadQid(i + 2))
    else if !Positive(t.readInt(row.frameCount)) then Some(BadFrameCount(i + 2))
    else None
  }

  function WorkloadId(stratum: string, video: string, qid: string): string {
    stratum + "-nextqa-val-" + video + "-q" + qid
  }

  function Build(t: Text, c: Stratum, row: Row, i: nat): (x: Selected)
    requires CheckRow(t, row, i).None?
  {
    var video, qid, options := t.strip(row.video), t.strip(row.qid), StripAll(t, row.options);
    var answer := t.readInt(row.answer).value;
    Selected(
      c.name, t.strip(row.kind), video, t.readInt(row.frameCount).value, t.readInt(qid).value,
      t.strip(row.question), options, answer, options[answer],
      WorkloadId(c.name, video, qid), "nextqa-val-" + video, i + 2, c.rule)
  }

  // ---------- the selection as a function ----------

  /** What one stratum still takes from row `i` on. */
  function Scan(t: Text, c: Stratum, rows: seq<Row>, i: nat, used: set<string>, need: nat): (r: Outcome)
    requires i <= |rows|
    ensures r.Ok? ==> |r.value| == need
    decreases |rows| - i
  {
    if need == 0 then Ok([])
    else if i == |rows| then Err(QuotaUnmet(c.name, c.count - need, c.count))
    else if !Eligible(t, c, used, rows[i]) then Scan(t, c, rows, i + 1, used, need)
    else
      match CheckRow(t, rows[i], i)
      case Some(e) => Err(e)
      case None =>
        var x := Build(t, c, rows[i], i);
        After([x], Scan(t, c, rows, i + 1, used + {x.video}, need - 1))
  }

  function After(xs: seq<Selected>, r: Outcome): Outcome {
    match r case Ok(ys) => Ok(xs + ys) case Err(e) => Err(e)
  }

  function Videos(xs: seq<Selected>): set<string> {
    set x | x in xs :: x.video
  }

  /** What the strata from `k` on select. */
  function Fill(t: Text, config: Config, rows: seq<Row>, k: nat, used: set<string>, seen: set<string>): Outcome
    requires k <= |config.quota|
    decreases |config.quota| - k
  {
    if k == |config.quota| then Ok([])
    else
      match CheckQuota(t, config.quota[k], k, seen)
      case Some(e) => Err(e)
      case None =>
        var c := StratumOf(t, config, k);
        match Scan(t, c, rows, 0, used, c.count)
        case Err(e) => Err(e)
        case Ok(xs) => After(xs, Fill(t, config, rows, k + 1, used + Videos(xs), seen + {c.name}))
  }

  /** The quota of the first `k` strata together. */
  function Total(quota: seq<Quota>, k: nat): int
    requires k <= |quota|
  {
    if k == 0 then 0 else Total(quota, k - 1) + quota[k - 1].count
  }

  function Selection(t: Text, config: Config, rows: seq<Row>): Outcome {
    match CheckConfig(t, config)
    case Some(e) => Err(e)
    case None =>
      match Fill(t, config, rows, 0, {}, {})
      case Err(e) => Err(e)
      case Ok(xs) =>
        if config.target <= 0 then Err(BadTarget)
        else if Total(config.quota, |config.quota|) != config.target then Err(TargetMismatch)
        else if |xs| != config.target then Err(CountMismatch)
        else if |Videos(xs)| != |xs| then Err(ReusedVideo)
        else Ok(xs)
  }

  // ---------- the selection as the source runs it ----------

  lemma {:induction false} AfterAfter(xs: seq<Selected>, ys: seq<Selected>, r: Outcome)
    ensures After(xs, After(ys, r)) == After(xs + ys, r)
  {
    if r.Ok? {
      assert xs + (ys + r.value) == xs + ys + r.value;
    }
  }

  lemma {:induction false} AfterNothing(r: Outcome)
    ensures After([], r) == r
  {
    if r.Ok? {
      assert [] + r.value == r.value;
    }
  }

  /** A well-formed eligible row is taken, and the scan goes on after it. */
  lemma {:induction false} ScanTakes(
    t: Text, c: Stratum, rows: seq<Row>, i: nat, used: set<string>, need: nat, taken: seq<Selected>)
    requires i < |rows| && need > 0 && Eligible(t, c, used, rows[i]) && CheckRow(t, rows[i], i).None?
    ensures
      var x := Build(t, c, rows[i], i);
      After(taken, Scan(t, c, rows, i, used, need)) == After(taken + [x], Scan(t, c, rows, i + 1, used + {x.video}, need - 1))
  {
    var x := Build(t, c, rows[i], i);
    AfterAfter(taken, [x], Scan(t, c, rows, i + 1, used + {x.video}, need - 1));
  }

  /** What is taken so far, followed by what the scan takes from row `i` on, is the goal. */
  ghost predicate Towards(goal: Outcome, t: Text, c: Stratum, rows: seq<Row>, i: nat, used: set<string>, taken: seq<Selected>) {
    i <= |rows| && |taken| <= c.count && goal == After(taken, Scan(t, c, rows, i, used, c.count - |taken|))
  }

  /** One row: skipped, refused or taken. */
  method ScanRow(
    t: Text, c: Stratum, rows: seq<Row>, i: nat, used: set<string>, taken: seq<Selected>, ghost goal: Outcome)
    returns (r: Result<(seq<Selected>, set<string>), CohortError>)
    requires i < |rows| && |taken| < c.count && Towards(goal, t, c, rows, i, used, taken)
    ensures r.Err? ==> goal == Err(r.error)
    ensures r.Ok? ==>
      && taken <= r.value.0 && r.value.1 == used + Videos(r.value.0[|taken|..])
      && Towards(goal, t, c, rows, i + 1, r.value.1, r.value.0)
  {
    if !Eligible(t, c, used, rows[i]) {
      assert Videos(taken[|taken|..]) == {};
      return Ok((taken, used));
    }
    var problem := CheckRow(t, rows[i], i);
    if problem.Some? {
      return Err(problem.value);
    }
    var x := Build(t, c, rows[i], i);
    ScanTakes(t, c, rows, i, used, c.count - |taken|, taken);
    assert (taken + [x])[|taken|..] == [x];
    return Ok((taken + [x], used + {x.video}));
  }

  lemma {:induction false} VideosGrow(base: set<string>, taken: seq<Selected>, taken': seq<Selected>)
    requires taken <= taken'
    ensures base + Videos(taken) + Videos(taken'[|taken|..]) == base + Videos(taken')
  {
    assert taken' == taken + taken'[|taken|..];
  }

  /** The row loop of one stratum. */
  method ScanRows(t: Text, c: Stratum, rows: seq<Row>, selected: seq<Selected>, used: set<string>)
    returns (r: Outcome, used': set<string>)
    requires c.count > 0
    ensures r == After(selected, Scan(t, c, rows, 0, used, c.count))
    ensures r.Ok? ==> used' == used + Videos(r.value[|selected|..])
  {
    ghost var goal := Scan(t, c, rows, 0, used, c.count);
    AfterNothing(goal);
    var taken: seq<Selected> := [];
    used' := used;
    var i := 0;
    while i < |rows| && |taken| < c.count
      invariant Towards(goal, t, c, rows, i, used', taken) && used' == used + Videos(taken)
    {
      var row := ScanRow(t, c, rows, i, used', taken, goal);
      if row.Err? {
        return Err(row.error), used';
      }
      VideosGrow(used, taken, row.value.0);
      taken, used', i := row.value.0, row.value.1, i + 1;
    }
    if |taken| != c.count {
      return Err(QuotaUnmet(c.name, |taken|, c.count)), used';
    }
    assert taken + [] == taken && (selected + taken)[|selected|..] == taken;
    return Ok(selected + taken), used';
  }

  lemma {:induction false} FillUnfold(t: Text, config: Config, rows: seq<Row>, k: nat, before: seq<Selected>, used: set<string>, seen: set<string>)
    requires k < |config.quota| && CheckQuota(t, config.quota[k], k, seen).None?
    ensures
      var c := StratumOf(t, config, k);
      match Scan(t, c, rows, 0, used, c.count)
      case Err(e) => Fill(t, config, rows, k, used, seen) == Err(e)
      case Ok(xs) =>
        After(before, Fill(t, config, rows, k, used, seen))
        == After(before + xs, Fill(t, config, rows, k + 1, used + Videos(xs), seen + {c.name}))
  {
    var c := StratumOf(t, config, k);
    var scanned := Scan(t, c, rows, 0, used, c.count);
    if scanned.Ok? {
      AfterAfter(before, scanned.value, Fill(t, config, rows, k + 1, used + Videos(scanned.value), seen + {c.name}));
    }
  }

  /** What is selected so far, followed by what the strata from `k` on select, is the goal. */
  ghost predicate Filling(
    goal: Outcome, t: Text, config: Config, rows: seq<Row>, k: nat, used: set<string>, seen: set<string>, selected: seq<Selected>)
  {
    k <= |config.quota| && used == Videos(selected) && goal == After(selected, Fill(t, config, rows, k, used, seen))
  }

  /** One quota entry: its checks, then its row loop. */
  method FillOne(
    t: Text, config: Config, rows: seq<Row>, k: nat, selected: seq<Selected>, used: set<string>, seen: set<string>,
    ghost goal: Outcome)
    returns (r: Outcome, used': set<string>, seen': set<string>)
    requires k < |config.quota| && Filling(goal, t, config, rows, k, used, seen, selected)
    ensures r.Err? ==> goal == r
    ensures r.Ok? ==> Filling(goal, t, config, rows, k + 1, used', seen', r.value)
  {
    var problem := CheckQuota(t, config.quota[k], k, seen);
    if problem.Some? {
      return Err(problem.value), used, seen;
    }
    var c := StratumOf(t, config, k);
    FillUnfold(t, config, rows, k, selected, used, seen);
    r, used' := ScanRows(t, c, rows, selected, used);
    seen' := seen + {c.name};
  }

  /** The loop over the quota entries. */
  method FillStrata(t: Text, config: Config, rows: seq<Row>) returns (r: Outcome, used: set<string>, quotaTotal: int)
    ensures r == Fill(t, config, rows, 0, {}, {})
    ensures r.Ok? ==> used == Videos(r.value) && quotaTotal == Total(config.quota, |config.quota|)
  {
    ghost var goal := Fill(t, config, rows, 0, {}, {});
    AfterNothing(goal);
    var selected: seq<Selected>, seen: set<string> := [], {};
    used, quotaTotal := {}, 0;
    for k := 0 to |config.quota|
      invariant quotaTotal == Total(config.quota, k)
      invariant Filling(goal, t, config, rows, k, used, seen, selected)
    {
      var filled, used', seen' := FillOne(t, config, rows, k, selected, used, seen, goal);
      if filled.Err? {
        return filled, used, quotaTotal;
      }
      selected, used, seen := filled.value, used', seen';
      quotaTotal := quotaTotal + config.quota[k].count;
    }
    assert selected + [] == selected;
    return Ok(selected), used, quotaTotal;
  }

  method Select(t: Text, config: Config, rows: seq<Row>) returns (r: Outcome)
    ensures r == Selection(t, config, rows)
  {
    var problem := CheckConfig(t, config);
    if problem.Some? {
      return Err(problem.value);
    }
    var filled, used, quotaTotal := FillStrata(t, config, rows);
    if filled.Err? {
      return filled;
    }
    if config.target <= 0 {
      return Err(BadTarget);
    }
    if quotaTotal != config.target {
      return Err(TargetMismatch);
    }
    if |filled.value| != config.target {
      return Err(CountMismatch);
    }
    if |used| != |filled.value| {
      return Err(ReusedVideo);
    }
    return filled;
  }

  // ---------- what greedy selection means ----------

  /**
   `x` is built from the first eligible row at or after `start`, given the
   videos already used, and that row is well formed.
   */
  predicate FirstEligible(t: Text, c: Stratum, rows: seq<Row>, start: int, used: set<string>, x: Selected) {
    var i := x.row - 2;
    && 0 <= start <= i < |rows|
    && Eligible(t, c, used, rows[i])
    && (forall j :: start <= j < i ==> !Eligible(t, c, used, rows[j]))
    && CheckRow(t, rows[i], i).None?
    && x == Build(t, c, rows[i], i)
  }

  /** Each pick is the first eligible row after the previous pick, given all earlier picks. */
  predicate Greedy(t: Text, c: Stratum, rows: seq<Row>, start: int, used: set<string>, xs: seq<Selected>) {
    forall j :: 0 <= j < |xs| ==> GreedyAt(t, c, rows, start, used, xs, j)
  }

  predicate GreedyAt(t: Text, c: Stratum, rows: seq<Row>, start: int, used: set<string>, xs: seq<Selected>, j: nat)
    requires j < |xs|
  {
    FirstEligible(t, c, rows, Start(start, xs, j), used + Videos(xs[..j]), xs[j])
  }

  function Start(start: int, xs: seq<Selected>, j: nat): int
    requires j <= |xs|
  {
    if j == 0 then start else xs[j - 1].row - 1
  }

  lemma {:induction false} GreedyShift(t: Text, c: Stratum, rows: seq<Row>, start: int, used: set<string>, x: Selected, tail: seq<Selected>, j: nat)
    requires j < |tail|
    ensures GreedyAt(t, c, rows, start, used, [x] + tail, j + 1)
      <==> GreedyAt(t, c, rows, x.row - 1, used + {x.video}, tail, j)
  {
    var xs := [x] + tail;
    assert xs[..j + 1] == [x] + tail[..j];
    assert used + {x.video} + Videos(tail[..j]) == used + Videos(xs[..j + 1]);
    assert Start(x.row - 1, tail, j) == Start(start, xs, j + 1);
  }

  lemma {:induction false} GreedyFirst(t: Text, c: Stratum, rows: seq<Row>, start: int, used: set<string>, xs: seq<Selected>)
    requires xs != []
    ensures GreedyAt(t, c, rows, start, used, xs, 0) <==> FirstEligible(t, c, rows, start, used, xs[0])
  {
    assert xs[..0] == [] && used + Videos([]) == used;
  }

  lemma {:induction false} GreedyTail(t: Text, c: Stratum, rows: seq<Row>, start: int, used: set<string>, x: Selected, tail: seq<Selected>)
    requires Greedy(t, c, rows, start, used, [x] + tail)
    ensures Greedy(t, c, rows, x.row - 1, used + {x.video}, tail)
  {
    var start', used' := x.row - 1, used + {x.video};
    forall j | 0 <= j < |tail|
      ensures GreedyAt(t, c, rows, start', used', tail, j)
    {
      assert GreedyAt(t, c, rows, start, used, [x] + tail, j + 1);
      GreedyShift(t, c, rows, start, used, x, tail, j);
    }
  }

  lemma {:induction false} GreedyCons(t: Text, c: Stratum, rows: seq<Row>, start: int, used: set<string>, x: Selected, tail: seq<Selected>)
    requires FirstEligible(t, c, rows, start, used, x)
    requires Greedy(t, c, rows, x.row - 1, used + {x.video}, tail)
    ensures Greedy(t, c, rows, start, used, [x] + tail)
  {
    var xs := [x] + tail;
    forall j | 0 <= j < |xs|
      ensures GreedyAt(t, c, rows, start, used, xs, j)
    {
      if j == 0 {
        GreedyFirst(t, c, rows, start, used, xs);
      } else {
        GreedyConsAt(t, c, rows, start, used, x, tail, j - 1);
      }
    }
  }

  lemma {:induction false} GreedyConsAt(t: Text, c: Stratum, rows: seq<Row>, start: int, used: set<string>, x: Selected, tail: seq<Selected>, j: nat)
    requires j < |tail| && Greedy(t, c, rows, x.row - 1, used + {x.video}, tail)
    ensures GreedyAt(t, c, rows, start, used, [x] + tail, j + 1)
  {
    assert GreedyAt(t, c, rows, x.row - 1, used + {x.video}, tail, j);
    GreedyShift(t, c, rows, start, used, x, tail, j);
  }

  /** Greedy selection, unfolded at its first pick. */
  lemma {:induction false} GreedyUnfold(t: Text, c: Stratum, rows: seq<Row>, start: int, used: set<string>, xs: seq<Selected>)
    requires xs != []
    ensures Greedy(t, c, rows, start, used, xs)
      <==> && FirstEligible(t, c, rows, start, used, xs[0])
           && Greedy(t, c, rows, xs[0].row - 1, used + {xs[0].video}, xs[1..])
  {
    var x, tail := xs[0], xs[1..];
    assert xs == [x] + tail;
    if Greedy(t, c, rows, start, used, xs) {
      assert GreedyAt(t, c, rows, start, used, xs, 0);
      GreedyFirst(t, c, rows, start, used, xs);
      GreedyTail(t, c, rows, start, used, x, tail);
    } else if FirstEligible(t, c, rows, start, used, x) && Greedy(t, c, rows, x.row - 1, used + {x.video}, tail) {
      GreedyCons(t, c, rows, start, used, x, tail);
    }
  }

  /** One stratum's loop succeeds with exactly the greedy sequence of its quota's length. */
  lemma {:induction false} ScanIsGreedy(t: Text, c: Stratum, rows: seq<Row>, i: nat, used: set<string>, need: nat, xs: seq<Selected>)
    requires i <= |rows|
    ensures Scan(t, c, rows, i, used, need) == Ok(xs) <==> |xs| == need && Greedy(t, c, rows, i, used, xs)
    decreases |rows| - i
  {
    if need == 0 {
    } else if xs == [] {
    } else if i == |rows| {
      GreedyUnfold(t, c, rows, i, used, xs);
    } else if !Eligible(t, c, used, rows[i]) {
      SkipRow(t, c, rows, i, used, xs);
      ScanIsGreedy(t, c, rows, i + 1, used, need, xs);
    } else {
      TakeRow(t, c, rows, i, used, xs);
      if CheckRow(t, rows[i], i).None? {
        ScanIsGreedy(t, c, rows, i + 1, used + {Build(t, c, rows[i], i).video}, need - 1, xs[1..]);
        ScanTakesFirst(t, c, rows, i, used, need, xs);
      }
    }
  }

  lemma {:induction false} ScanTakesFirst(
    t: Text, c: Stratum, rows: seq<Row>, i: nat, used: set<string>, need: nat, xs: seq<Selected>)
    requires i < |rows| && need > 0 && Eligible(t, c, used, rows[i]) && CheckRow(t, rows[i], i).None? && xs != []
    ensures
      var x := Build(t, c, rows[i], i);
      (Scan(t, c, rows, i, used, need) == Ok(xs))
      == (xs[0] == x && Scan(t, c, rows, i + 1, used + {x.video}, need - 1) == Ok(xs[1..]))
  {
    assert xs == [xs[0]] + xs[1..];
  }

  lemma {:induction false} FirstEligibleSkips(t: Text, c: Stratum, rows: seq<Row>, i: nat, used: set<string>, x: Selected)
    requires i < |rows| && !Eligible(t, c, used, rows[i])
    ensures FirstEligible(t, c, rows, i, used, x) <==> FirstEligible(t, c, rows, i + 1, used, x)
  {
  }

  lemma {:induction false} SkipRow(t: Text, c: Stratum, rows: seq<Row>, i: nat, used: set<string>, xs: seq<Selected>)
    requires i < |rows| && !Eligible(t, c, used, rows[i]) && xs != []
    ensures Greedy(t, c, rows, i, used, xs) <==> Greedy(t, c, rows, i + 1, used, xs)
  {
    FirstEligibleSkips(t, c, rows, i, used, xs[0]);
    GreedyUnfold(t, c, rows, i, used, xs);
    GreedyUnfold(t, c, rows, i + 1, used, xs);
  }

  lemma {:induction false} FirstEligibleTakes(t: Text, c: Stratum, rows: seq<Row>, i: nat, used: set<string>, x: Selected)
    requires i < |rows| && Eligible(t, c, used, rows[i])
    ensures FirstEligible(t, c, rows, i, used, x)
      <==> CheckRow(t, rows[i], i).None? && x == Build(t, c, rows[i], i)
  {
  }

  lemma {:induction false} TakeRow(t: Text, c: Stratum, rows: seq<Row>, i: nat, used: set<string>, xs: seq<Selected>)
    requires i < |rows| && Eligible(t, c, used, rows[i]) && xs != []
    ensures Greedy(t, c, rows, i, used, xs)
      <==> && CheckRow(t, rows[i], i).None?
           && xs[0] == Build(t, c, rows[i], i)
           && Greedy(t, c, rows, i + 1, used + {xs[0].video}, xs[1..])
  {
    FirstEligibleTakes(t, c, rows, i, used, xs[0]);
    GreedyUnfold(t, c, rows, i, used, xs);
  }
}
