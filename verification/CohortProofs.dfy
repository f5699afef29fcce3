/** What a successful cohort selection guarantees, and what it cannot depend on. */
module CohortProofs {
  import opened Basics
  import opened Cohort
  import opened Numerals

  // ---------- exactly which cohorts are selected ----------

  function Name(t: Text, config: Config, k: nat): string
    requires k < |config.quota|
  {
    t.strip(config.quota[k].stratum)
  }

  function Names(t: Text, config: Config, k: nat): set<string>
    requires k <= |config.quota|
  {
    set j | 0 <= j < k :: Name(t, config, j)
  }

  /** A well-formed quota entry whose stratum was not named before. */
  predicate EntryOk(t: Text, config: Config, k: nat)
    requires k < |config.quota|
  {
    var q := config.quota[k];
    && q.count > 0
    && Name(t, config, k) != ""
    && (forall j :: 0 <= j < k ==> Name(t, config, j) != Name(t, config, k))
    && q.types != [] && AllText(t, q.types) && Distinct(StripAll(t, q.types))
  }

  /** The picks from `Total(k)` to `Total(k + 1)` are stratum k's greedy picks, given everything before them. */
  predicate TakenBy(t: Text, config: Config, rows: seq<Row>, k: nat, xs: seq<Selected>)
    requires k < |config.quota|
  {
    var start, end := Total(config.quota, k), Total(config.quota, k + 1);
    && 0 <= start <= end <= |xs|
    && Greedy(t, StratumOf(t, config, k), rows, 0, Videos(xs[..start]), xs[start..end])
  }

  predicate CohortFrom(t: Text, config: Config, rows: seq<Row>, k: nat, xs: seq<Selected>)
    requires k <= |config.quota|
  {
    && |xs| == Total(config.quota, |config.quota|)
    && forall j :: k <= j < |config.quota| ==> EntryOk(t, config, j) && TakenBy(t, config, rows, j, xs)
  }

  lemma {:induction false} CheckQuotaExactly(t: Text, config: Config, k: nat)
    requires k < |config.quota|
    ensures CheckQuota(t, config.quota[k], k, Names(t, config, k)).None? <==> EntryOk(t, config, k)
  {
  }

  lemma {:induction false} NamesGrow(t: Text, config: Config, k: nat)
    requires k < |config.quota|
    ensures Names(t, config, k + 1) == Names(t, config, k) + {Name(t, config, k)}
  {
  }

  lemma {:induction false} CohortUnfold(t: Text, config: Config, rows: seq<Row>, k: nat, xs: seq<Selected>)
    requires k < |config.quota|
    ensures CohortFrom(t, config, rows, k, xs)
      <==> EntryOk(t, config, k) && TakenBy(t, config, rows, k, xs) && CohortFrom(t, config, rows, k + 1, xs)
  {
  }

  /** Taking stratum k from what follows `done` is what its row loop returns. */
  lemma {:induction false} TakenIsScan(t: Text, config: Config, rows: seq<Row>, k: nat, done: seq<Selected>, xs: seq<Selected>, ys: seq<Selected>)
    requires k < |config.quota| && |done| == Total(config.quota, k) && |xs| == config.quota[k].count
    ensures TakenBy(t, config, rows, k, done + xs + ys)
      <==> Scan(t, StratumOf(t, config, k), rows, 0, Videos(done), |xs|) == Ok(xs)
  {
    var all := done + xs + ys;
    assert all[..|done|] == done;
    assert all[|done|..|done| + |xs|] == xs;
    ScanIsGreedy(t, StratumOf(t, config, k), rows, 0, Videos(done), |xs|, xs);
  }

  lemma {:induction false} FillIsCohort(t: Text, config: Config, rows: seq<Row>, k: nat, done: seq<Selected>, ys: seq<Selected>)
    requires k <= |config.quota| && |done| == Total(config.quota, k)
    ensures Fill(t, config, rows, k, Videos(done), Names(t, config, k)) == Ok(ys)
      <==> CohortFrom(t, config, rows, k, done + ys)
    decreases |config.quota| - k, 2
  {
    if k < |config.quota| {
      CheckQuotaExactly(t, config, k);
      if EntryOk(t, config, k) {
        NamesGrow(t, config, k);
        CohortUnfold(t, config, rows, k, done + ys);
        FillStep(t, config, rows, k, done, ys);
      }
    } else if |done + ys| == |done| {
      assert ys == [];
    }
  }

  lemma {:induction false} VideosJoin(xs: seq<Selected>, ys: seq<Selected>)
    ensures Videos(xs + ys) == Videos(xs) + Videos(ys)
  {
  }

  lemma {:induction false} FillStep(t: Text, config: Config, rows: seq<Row>, k: nat, done: seq<Selected>, ys: seq<Selected>)
    requires k < |config.quota| && |done| == Total(config.quota, k) && EntryOk(t, config, k)
    requires CheckQuota(t, config.quota[k], k, Names(t, config, k)).None?
    requires Names(t, config, k + 1) == Names(t, config, k) + {Name(t, config, k)}
    ensures Fill(t, config, rows, k, Videos(done), Names(t, config, k)) == Ok(ys)
      <==> TakenBy(t, config, rows, k, done + ys) && CohortFrom(t, config, rows, k + 1, done + ys)
    decreases |config.quota| - k, 1
  {
    var count := config.quota[k].count;
    if |ys| < count {
      FillTakesQuota(t, config, rows, k, Videos(done), Names(t, config, k));
    } else {
      var xs, zs := ys[..count], ys[count..];
      assert ys == xs + zs;
      assert done + ys == done + xs + zs;
      FillSplit(t, config, rows, k, done, xs, zs);
    }
  }

  lemma {:induction false} FillSplit(
    t: Text, config: Config, rows: seq<Row>, k: nat, done: seq<Selected>, xs: seq<Selected>, zs: seq<Selected>)
    requires k < |config.quota| && |done| == Total(config.quota, k) && |xs| == config.quota[k].count
    requires CheckQuota(t, config.quota[k], k, Names(t, config, k)).None?
    requires Names(t, config, k + 1) == Names(t, config, k) + {Name(t, config, k)}
    ensures Fill(t, config, rows, k, Videos(done), Names(t, config, k)) == Ok(xs + zs)
      <==> TakenBy(t, config, rows, k, done + xs + zs) && CohortFrom(t, config, rows, k + 1, done + xs + zs)
    decreases |config.quota| - k, 0
  {
    TakenIsScan(t, config, rows, k, done, xs, zs);
    VideosJoin(done, xs);
    FillIsCohort(t, config, rows, k + 1, done + xs, zs);
    ScanThenFill(t, config, rows, k, done, xs, zs);
  }

  lemma {:induction false} FillTakesQuota(t: Text, config: Config, rows: seq<Row>, k: nat, used: set<string>, seen: set<string>)
    requires k < |config.quota|
    ensures
      var r := Fill(t, config, rows, k, used, seen);
      r.Ok? ==> |r.value| >= config.quota[k].count
  {
  }

  lemma {:induction false} ScanThenFill(t: Text, config: Config, rows: seq<Row>, k: nat, done: seq<Selected>, xs: seq<Selected>, zs: seq<Selected>)
    requires k < |config.quota| && |xs| == config.quota[k].count
    requires CheckQuota(t, config.quota[k], k, Names(t, config, k)).None?
    ensures Fill(t, config, rows, k, Videos(done), Names(t, config, k)) == Ok(xs + zs)
      <==> && Scan(t, StratumOf(t, config, k), rows, 0, Videos(done), |xs|) == Ok(xs)
           && Fill(t, config, rows, k + 1, Videos(done) + Videos(xs), Names(t, config, k) + {Name(t, config, k)}) == Ok(zs)
  {
    var scanned := Scan(t, StratumOf(t, config, k), rows, 0, Videos(done), |xs|);
    if scanned.Ok? {
      var rest := Fill(t, config, rows, k + 1, Videos(done) + Videos(scanned.value), Names(t, config, k) + {Name(t, config, k)});
      if rest.Ok? && scanned.value + rest.value == xs + zs {
        assert scanned.value == (xs + zs)[..|xs|] == xs;
        assert rest.value == (xs + zs)[|xs|..] == zs;
      }
    }
  }

  // ---------- every pick is new ----------

  /** The stratum that a position of the cohort belongs to. */
  lemma {:induction false} StratumAt(t: Text, config: Config, rows: seq<Row>, xs: seq<Selected>, p: nat, n: nat) returns (k: nat)
    requires n <= |config.quota| && p < Total(config.quota, n)
    requires forall j :: 0 <= j < |config.quota| ==> EntryOk(t, config, j)
    ensures k < n && InStratum(config, k, p)
  {
    if p < Total(config.quota, n - 1) {
      k := StratumAt(t, config, rows, xs, p, n - 1);
    } else {
      k := n - 1;
      TotalIsNatural(t, config, k);
    }
  }

  lemma {:induction false} TotalIsNatural(t: Text, config: Config, k: nat)
    requires k <= |config.quota| && forall j :: 0 <= j < |config.quota| ==> EntryOk(t, config, j)
    ensures Total(config.quota, k) >= 0
  {
    if k > 0 {
      TotalIsNatural(t, config, k - 1);
      assert EntryOk(t, config, k - 1);
    }
  }

  /** What holds of one position: its stratum, its row, and a video that is neither excluded nor used before. */
  predicate PickedFor(t: Text, config: Config, rows: seq<Row>, xs: seq<Selected>, p: nat, k: nat)
    requires p < |xs| && k < |config.quota|
  {
    NewPick(t, config, rows, Videos(xs[..p]), xs[p], k)
  }

  predicate NewPick(t: Text, config: Config, rows: seq<Row>, used: set<string>, x: Selected, k: nat)
    requires k < |config.quota|
  {
    var c := StratumOf(t, config, k);
    && 2 <= x.row < |rows| + 2
    && CheckRow(t, rows[x.row - 2], x.row - 2).None?
    && x == Build(t, c, rows[x.row - 2], x.row - 2)
    && x.kind in c.types
    && x.video !in config.excluded
    && x.video !in used
  }

  /** Position `p` lies in stratum k's block, whose length is k's quota. */
  predicate InStratum(config: Config, k: nat, p: nat) {
    && k < |config.quota|
    && Total(config.quota, k) <= p < Total(config.quota, k) + config.quota[k].count
  }

  lemma {:induction false} PickIsNew(t: Text, config: Config, rows: seq<Row>, xs: seq<Selected>, p: nat, k: nat)
    requires InStratum(config, k, p) && TakenBy(t, config, rows, k, xs)
    ensures PickedFor(t, config, rows, xs, p, k)
  {
    var start, end := Total(config.quota, k), Total(config.quota, k + 1);
    var block, j := xs[start..end], p - start;
    assert xs[..p] == xs[..start] + block[..j];
    VideosJoin(xs[..start], block[..j]);
    assert GreedyAt(t, StratumOf(t, config, k), rows, 0, Videos(xs[..start]), block, j);
    EligibleIsNew(t, config, rows, k, Start(0, block, j), Videos(xs[..p]), xs[p]);
  }

  lemma {:induction false} EligibleIsNew(t: Text, config: Config, rows: seq<Row>, k: nat, start: int, used: set<string>, x: Selected)
    requires k < |config.quota| && FirstEligible(t, StratumOf(t, config, k), rows, start, used, x)
    ensures NewPick(t, config, rows, used, x, k)
  {
  }

  predicate VideosDistinct(xs: seq<Selected>) {
    forall i, j :: 0 <= i < j < |xs| ==> xs[i].video != xs[j].video
  }

  lemma {:induction false} DistinctCount(xs: seq<Selected>)
    requires VideosDistinct(xs)
    ensures |Videos(xs)| == |xs|
  {
    if xs != [] {
      var front, last := xs[..|xs| - 1], xs[|xs| - 1];
      DistinctCount(front);
      VideosJoin(front, [last]);
      assert xs == front + [last];
      assert Videos([last]) == {last.video};
    }
  }

  lemma {:induction false} CohortIsDistinct(t: Text, config: Config, rows: seq<Row>, xs: seq<Selected>)
    requires CohortFrom(t, config, rows, 0, xs)
    ensures VideosDistinct(xs)
  {
    forall i, j | 0 <= i < j < |xs|
      ensures xs[i].video != xs[j].video
    {
      var k := StratumAt(t, config, rows, xs, j, |config.quota|);
      PickIsNew(t, config, rows, xs, j, k);
      assert xs[i] in xs[..j];
    }
  }

  // ---------- main results ----------

  /**
   Selection succeeds with `xs` exactly when the config is in order, the target
   is the sum of the quotas, and `xs` is the concatenation of each stratum's
   greedy picks. In particular at most one cohort qualifies.
   */
  lemma {:induction false} SelectionExactly(t: Text, config: Config, rows: seq<Row>, xs: seq<Selected>)
    ensures Selection(t, config, rows) == Ok(xs)
      <==> && CheckConfig(t, config).None?
           && config.target > 0
           && config.target == Total(config.quota, |config.quota|)
           && CohortFrom(t, config, rows, 0, xs)
  {
    FillIsCohort(t, config, rows, 0, [], xs);
    assert [] + xs == xs;
    assert Videos([]) == {} && Names(t, config, 0) == {};
    if CohortFrom(t, config, rows, 0, xs) {
      CohortIsDistinct(t, config, rows, xs);
      DistinctCount(xs);
    }
  }

  predicate NotFinal(r: Outcome) {
    r.Err? ==> !r.error.CountMismatch? && !r.error.ReusedVideo?
  }

  lemma {:induction false} ScanNotFinal(t: Text, c: Stratum, rows: seq<Row>, i: nat, used: set<string>, need: nat)
    requires i <= |rows|
    ensures NotFinal(Scan(t, c, rows, i, used, need))
    decreases |rows| - i
  {
    if need > 0 && i < |rows| {
      ScanNotFinal(t, c, rows, i + 1, used, need);
      if Eligible(t, c, used, rows[i]) && CheckRow(t, rows[i], i).None? {
        ScanNotFinal(t, c, rows, i + 1, used + {Build(t, c, rows[i], i).video}, need - 1);
      }
    }
  }

  lemma {:induction false} FillNotFinal(t: Text, config: Config, rows: seq<Row>, k: nat, used: set<string>, seen: set<string>)
    requires k <= |config.quota|
    ensures NotFinal(Fill(t, config, rows, k, used, seen))
    decreases |config.quota| - k
  {
    if k < |config.quota| && CheckQuota(t, config.quota[k], k, seen).None? {
      var c := StratumOf(t, config, k);
      ScanNotFinal(t, c, rows, 0, used, c.count);
      var scanned := Scan(t, c, rows, 0, used, c.count);
      if scanned.Ok? {
        FillNotFinal(t, config, rows, k + 1, used + Videos(scanned.value), seen + {c.name});
      }
    }
  }

  /** The two closing checks, on the number selected and on reused videos, never fire. */
  lemma {:induction false} FinalChecksNeverFire(t: Text, config: Config, rows: seq<Row>)
    ensures NotFinal(Selection(t, config, rows))
  {
    FillNotFinal(t, config, rows, 0, {}, {});
    var filled := Fill(t, config, rows, 0, {}, {});
    if filled.Ok? {
      var xs := filled.value;
      FillIsCohort(t, config, rows, 0, [], xs);
      assert [] + xs == xs;
      assert Videos([]) == {} && Names(t, config, 0) == {};
      CohortIsDistinct(t, config, rows, xs);
      DistinctCount(xs);
    }
  }

  /**
   A successful selection fills every quota exactly, in quota order, from rows
   of the accepted types; no video repeats or is excluded.
   */
  lemma {:induction false} SelectedCohort(t: Text, config: Config, rows: seq<Row>, xs: seq<Selected>)
    requires Selection(t, config, rows) == Ok(xs)
    ensures |xs| == config.target == Total(config.quota, |config.quota|)
    ensures forall k: nat, p: nat :: InStratum(config, k, p) ==> p < |xs| && PickedFor(t, config, rows, xs, p, k)
    ensures VideosDistinct(xs)
  {
    SelectionExactly(t, config, rows, xs);
    CohortIsDistinct(t, config, rows, xs);
    forall k: nat, p: nat | InStratum(config, k, p)
      ensures p < |xs| && PickedFor(t, config, rows, xs, p, k)
    {
      PickIsNew(t, config, rows, xs, p, k);
    }
  }

  // ---------- workload identifiers ----------

  /** A workload identifier determines its video. */
  lemma {:induction false} WorkloadIdInjective(s: string, v: string, q: string, s': string, v': string, q': string)
    requires '-' !in v && '-' !in v' && '-' !in q && '-' !in q'
    requires WorkloadId(s, v, q) == WorkloadId(s', v', q')
    ensures v == v' && q == q' && s == s'
  {
    var head, head' := s + "-nextqa-val", s' + "-nextqa-val";
    assert WorkloadId(s, v, q) == head + "-" + v + "-" + ("q" + q);
    assert WorkloadId(s', v', q') == head' + "-" + v' + "-" + ("q" + q');
    LastDash(head + "-" + v, "q" + q, head' + "-" + v', "q" + q');
    LastDash(head, v, head', v');
    assert q == ("q" + q)[1..] && q' == ("q" + q')[1..];
    assert s == head[..|head| - |"-nextqa-val"|] && s' == head'[..|head'| - |"-nextqa-val"|];
  }

  /** No two selected workloads share an identifier, so keying by it drops none. */
  lemma {:induction false} WorkloadIdsDistinct(t: Text, config: Config, rows: seq<Row>, xs: seq<Selected>, i: nat, j: nat)
    requires Selection(t, config, rows) == Ok(xs) && i < j < |xs|
    ensures xs[i].workload != xs[j].workload
  {
    SelectionExactly(t, config, rows, xs);
    CohortIsDistinct(t, config, rows, xs);
    var k := StratumAt(t, config, rows, xs, i, |config.quota|);
    PickIsNew(t, config, rows, xs, i, k);
    var k' := StratumAt(t, config, rows, xs, j, |config.quota|);
    PickIsNew(t, config, rows, xs, j, k');
    var r, r' := rows[xs[i].row - 2], rows[xs[j].row - 2];
    if xs[i].workload == xs[j].workload {
      WorkloadIdInjective(xs[i].stratum, xs[i].video, t.strip(r.qid), xs[j].stratum, xs[j].video, t.strip(r'.qid));
    }
  }

  // ---------- outcome blindness ----------

  /** Two rows that may differ in answer, question and options, but not in whether these are valid. */
  predicate SameButOutcome(t: Text, r: Row, r': Row) {
    && r.video == r'.video && r.frameCount == r'.frameCount && r.qid == r'.qid && r.kind == r'.kind
    && ValidAnswer(t, r) == ValidAnswer(t, r')
    && HasText(t, r) == HasText(t, r')
  }

  predicate SameButOutcomes(t: Text, rows: seq<Row>, rows': seq<Row>) {
    |rows| == |rows'| && forall i :: 0 <= i < |rows| ==> SameButOutcome(t, rows[i], rows'[i])
  }

  /** A selected workload without its question, options and answer. */
  function Masked(x: Selected): Selected {
    x.(question := "", options := [], answer := 0, answerText := "")
  }

  function MaskAll(xs: seq<Selected>): (r: seq<Selected>)
    ensures |r| == |xs| && forall i :: 0 <= i < |xs| ==> r[i] == Masked(xs[i])
  {
    seq(|xs|, i requires 0 <= i < |xs| => Masked(xs[i]))
  }

  function MaskOutcome(r: Outcome): Outcome {
    match r case Ok(xs) => Ok(MaskAll(xs)) case Err(e) => Err(e)
  }

  lemma {:induction false} MaskedVideos(xs: seq<Selected>, ys: seq<Selected>)
    requires MaskAll(xs) == MaskAll(ys)
    ensures Videos(xs) == Videos(ys)
  {
    assert |xs| == |ys|;
    assert forall i :: 0 <= i < |xs| ==> Masked(xs[i]) == Masked(ys[i]);
    assert forall i :: 0 <= i < |xs| ==> xs[i].video == ys[i].video && xs[i] in xs && ys[i] in ys;
  }

  lemma {:induction false} MaskAfter(xs: seq<Selected>, xs': seq<Selected>, r: Outcome, r': Outcome)
    requires MaskAll(xs) == MaskAll(xs') && MaskOutcome(r) == MaskOutcome(r')
    ensures MaskOutcome(After(xs, r)) == MaskOutcome(After(xs', r'))
  {
    if r.Ok? {
      assert MaskAll(xs + r.value) == MaskAll(xs) + MaskAll(r.value);
      assert MaskAll(xs' + r'.value) == MaskAll(xs') + MaskAll(r'.value);
    }
  }

  lemma {:induction false} RowIsBlind(t: Text, c: Stratum, r: Row, r': Row, i: nat)
    requires SameButOutcome(t, r, r')
    ensures CheckRow(t, r, i) == CheckRow(t, r', i)
    ensures CheckRow(t, r, i).None? ==> Masked(Build(t, c, r, i)) == Masked(Build(t, c, r', i))
  {
  }

  lemma {:induction false} ScanIsBlind(
    t: Text, c: Stratum, rows: seq<Row>, rows': seq<Row>, i: nat, used: set<string>, need: nat)
    requires i <= |rows| && SameButOutcomes(t, rows, rows')
    ensures MaskOutcome(Scan(t, c, rows, i, used, need)) == MaskOutcome(Scan(t, c, rows', i, used, need))
    decreases |rows| - i
  {
    if need > 0 && i < |rows| {
      var row, row' := rows[i], rows'[i];
      RowIsBlind(t, c, row, row', i);
      if !Eligible(t, c, used, row) {
        ScanIsBlind(t, c, rows, rows', i + 1, used, need);
      } else if CheckRow(t, row, i).None? {
        var x, x' := Build(t, c, row, i), Build(t, c, row', i);
        assert x.video == Masked(x).video == Masked(x').video == x'.video;
        ScanIsBlind(t, c, rows, rows', i + 1, used + {x.video}, need - 1);
        MaskAfter([x], [x'],
          Scan(t, c, rows, i + 1, used + {x.video}, need - 1), Scan(t, c, rows', i + 1, used + {x.video}, need - 1));
      }
    }
  }

  lemma {:induction false} FillIsBlind(
    t: Text, config: Config, rows: seq<Row>, rows': seq<Row>, k: nat, used: set<string>, seen: set<string>)
    requires k <= |config.quota| && SameButOutcomes(t, rows, rows')
    ensures MaskOutcome(Fill(t, config, rows, k, used, seen)) == MaskOutcome(Fill(t, config, rows', k, used, seen))
    decreases |config.quota| - k
  {
    if k < |config.quota| && CheckQuota(t, config.quota[k], k, seen).None? {
      var c := StratumOf(t, config, k);
      ScanIsBlind(t, c, rows, rows', 0, used, c.count);
      var r, r' := Scan(t, c, rows, 0, used, c.count), Scan(t, c, rows', 0, used, c.count);
      if r.Ok? {
        MaskedVideos(r.value, r'.value);
        FillIsBlind(t, config, rows, rows', k + 1, used + Videos(r.value), seen + {c.name});
        MaskAfter(r.value, r'.value,
          Fill(t, config, rows, k + 1, used + Videos(r.value), seen + {c.name}),
          Fill(t, config, rows', k + 1, used + Videos(r.value), seen + {c.name}));
      }
    }
  }

  /**
   Outcome blindness: changing answers, questions and options without changing
   their validity gives the same error, or the same workloads in the same order.
   */
  lemma {:induction false} SelectionIsBlind(t: Text, config: Config, rows: seq<Row>, rows': seq<Row>)
    requires SameButOutcomes(t, rows, rows')
    ensures MaskOutcome(Selection(t, config, rows)) == MaskOutcome(Selection(t, config, rows'))
  {
    FillIsBlind(t, config, rows, rows', 0, {}, {});
    var r, r' := Fill(t, config, rows, 0, {}, {}), Fill(t, config, rows', 0, {}, {});
    if r.Ok? {
      MaskedVideos(r.value, r'.value);
      assert |MaskAll(r.value)| == |MaskAll(r'.value)|;
    }
  }

  // ---------- what the checks and the built rows are ----------

  /** Which rows pass, and which check a row fails first. */
  lemma {:induction false} RowVerdicts(t: Text, row: Row, i: nat)
    ensures
      var video := t.isDecimal(t.strip(row.video));
      var answer := t.readInt(row.answer) in {Some(0), Some(1), Some(2), Some(3), Some(4)};
      var text := t.strip(row.question) != "" && forall k :: 0 <= k < 5 ==> t.strip(row.options[k]) != "";
      var qid := t.isDecimal(t.strip(row.qid));
      var frames := t.readInt(row.frameCount) != None && t.readInt(row.frameCount).value >= 1;
      && (CheckRow(t, row, i) == None <==> video && answer && text && qid && frames)
      && (CheckRow(t, row, i) == Some(BadVideo(i + 2)) <==> !video)
      && (CheckRow(t, row, i) == Some(BadAnswer(i + 2)) <==> video && !answer)
      && (CheckRow(t, row, i) == Some(BlankText(i + 2)) <==> video && answer && !text)
      && (CheckRow(t, row, i) == Some(BadQid(i + 2)) <==> video && answer && text && !qid)
      && (CheckRow(t, row, i) == Some(BadFrameCount(i + 2)) <==> video && answer && text && qid && !frames)
  {
  }

  /** A selected workload repeats its row, stripped and read, with the option its answer points to. */
  lemma {:induction false} BuiltFromRow(t: Text, c: Stratum, row: Row, i: nat)
    requires CheckRow(t, row, i).None?
    ensures
      var x := Build(t, c, row, i);
      && x.stratum == c.name && x.rule == c.rule && x.row == i + 2 && x.kind == t.strip(row.kind)
      && x.video == t.strip(row.video) && Some(x.frameCount) == t.readInt(row.frameCount)
      && Some(x.qid) == t.readInt(t.strip(row.qid)) && x.question == t.strip(row.question)
      && |x.options| == 5 && (forall k :: 0 <= k < 5 ==> x.options[k] == t.strip(row.options[k]))
      && Some(x.answer) == t.readInt(row.answer) && 0 <= x.answer <= 4 && x.answerText == t.strip(row.options[x.answer])
      && x.objectId == "nextqa-val-" + t.strip(row.video)
      && x.workload == c.name + "-nextqa-val-" + t.strip(row.video) + "-q" + t.strip(row.qid)
  {
  }

  /** Which configurations are in order, and which check one fails first. */
  lemma {:induction false} ConfigVerdicts(t: Text, config: Config)
    ensures
      var unit, one, blind := config.independentUnit == "source-video", config.onePrimaryQuestion, config.outcomeBlind;
      var decimal := forall i :: 0 <= i < |config.excluded| ==> t.isDecimal(config.excluded[i]);
      var distinct := forall i, j :: 0 <= i < j < |config.excluded| ==> config.excluded[i] != config.excluded[j];
      && (CheckConfig(t, config) == None <==>
            unit && one && blind && |config.quota| > 0 && decimal && distinct && t.strip(config.selectionId) != "")
      && (CheckConfig(t, config) == Some(NotSourceVideo) <==> !unit)
      && (CheckConfig(t, config) == Some(NotOnePrimaryQuestion) <==> unit && !one)
      && (CheckConfig(t, config) == Some(NotOutcomeBlind) <==> unit && one && !blind)
      && (CheckConfig(t, config) == Some(EmptyQuota) <==> unit && one && blind && |config.quota| == 0)
      && (CheckConfig(t, config) == Some(ExcludedNotDecimal) <==> unit && one && blind && |config.quota| > 0 && !decimal)
      && (CheckConfig(t, config) == Some(ExcludedDuplicates) <==>
            unit && one && blind && |config.quota| > 0 && decimal && !distinct)
      && (CheckConfig(t, config) == Some(BlankSelectionId) <==>
            unit && one && blind && |config.quota| > 0 && decimal && distinct && t.strip(config.selectionId) == "")
  {
  }

  /** Which quota entries are refused, and how. */
  lemma {:induction false} QuotaVerdicts(t: Text, q: Quota, index: nat, seen: set<string>)
    ensures
      var r, name := CheckQuota(t, q, index, seen), t.strip(q.stratum);
      var named := q.count >= 1 && name != "" && name !in seen;
      var typed := |q.types| > 0 && forall i :: 0 <= i < |q.types| ==> t.strip(q.types[i]) != "";
      var distinct := forall i, j :: 0 <= i < j < |q.types| ==> t.strip(q.types[i]) != t.strip(q.types[j]);
      && (r == None <==> named && typed && distinct)
      && (r == Some(BadCount(index)) <==> q.count < 1)
      && (r == Some(BlankStratum(index)) <==> q.count >= 1 && name == "")
      && (r == Some(DuplicateStratum(name)) <==> q.count >= 1 && name != "" && name in seen)
      && (r == Some(BadTypes(index)) <==> named && !typed)
      && (r == Some(DuplicateTypes(index)) <==> named && typed && !distinct)
  {
  }

  /** A stratum is its quota entry, stripped, under the config's selection rule. */
  lemma {:induction false} StratumMeaning(t: Text, config: Config, k: nat)
    requires k < |config.quota|
    ensures
      var c := StratumOf(t, config, k);
      c.name == t.strip(config.quota[k].stratum) && c.count == config.quota[k].count && c.rule == t.strip(config.selectionId)
  {
  }

  /** Which rows a stratum may take. */
  lemma {:induction false} EligibleExactly(t: Text, config: Config, k: nat, used: set<string>, row: Row)
    requires k < |config.quota|
    ensures Eligible(t, StratumOf(t, config, k), used, row) <==>
      && (exists i :: 0 <= i < |config.quota[k].types| && t.strip(config.quota[k].types[i]) == t.strip(row.kind))
      && (forall i :: 0 <= i < |config.excluded| ==> config.excluded[i] != t.strip(row.video))
      && t.strip(row.video) !in used
  {
    var c := StratumOf(t, config, k);
    if t.strip(row.kind) in c.types {
      var i :| 0 <= i < |c.types| && c.types[i] == t.strip(row.kind);
      assert t.strip(config.quota[k].types[i]) == t.strip(row.kind);
    }
    if i :| 0 <= i < |config.quota[k].types| && t.strip(config.quota[k].types[i]) == t.strip(row.kind) {
      assert c.types[i] == t.strip(row.kind);
    }
  }
}
