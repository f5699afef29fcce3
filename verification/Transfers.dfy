/**
 The transfer protocol of one Data Agent process.

 A handler thread reserves a transfer, streams it, commits a row and then
 releases the reservation; a failed commit keeps the reservation. A telemetry
 reader samples a watermark, reads the durable summary and samples a second
 watermark. `Apply` gives every atomic step of these threads, so a `Run` is an
 arbitrary interleaving of arbitrarily many of them.
 */
module Transfers {
  import opened Basics
  import opened Ledger

  // ---------- the counters guarded by the in-flight lock ----------

  datatype Counters = Counters(inFlight: map<AccessId, nat>, generations: map<AccessId, nat>)

  datatype Watermark = Watermark(inFlight: nat, generation: nat)

  function Get(m: map<AccessId, nat>, id: AccessId): nat {
    if id in m then m[id] else 0
  }

  function Reserve(c: Counters, id: AccessId): Counters {
    Counters(
      c.inFlight[id := Get(c.inFlight, id) + 1],
      c.generations[id := Get(c.generations, id) + 1])
  }

  function Release(c: Counters, id: AccessId): Counters {
    var remaining := Get(c.inFlight, id) as int - 1;
    if remaining > 0 then c.(inFlight := c.inFlight[id := remaining])
    else c.(inFlight := c.inFlight - {id})
  }

  function Sample(c: Counters, id: AccessId): Watermark {
    Watermark(Get(c.inFlight, id), Get(c.generations, id))
  }

  /** The verdict the reader derives from its two watermarks. */
  predicate Stable(before: Watermark, after: Watermark) {
    before.inFlight == 0 && after.inFlight == 0 && before.generation == after.generation
  }

  /** The guarded dictionaries and the durable rows, updated in place. */
  class TransferService {
    var inFlight: map<AccessId, nat>
    var generations: map<AccessId, nat>
    var rows: seq<Row>

    ghost function View(): Counters
      reads this
    {
      Counters(inFlight, generations)
    }

    constructor ()
      ensures View() == Counters(map[], map[]) && rows == []
    {
      inFlight, generations, rows := map[], map[], [];
    }

    method BeginArtifactDownload(accessId: AccessId)
      modifies this`inFlight, this`generations
      ensures View() == Reserve(old(View()), accessId)
    {
      inFlight := inFlight[accessId := (if accessId in inFlight then inFlight[accessId] else 0) + 1];
      generations := generations[accessId := (if accessId in generations then generations[accessId] else 0) + 1];
    }

    /**
     Commits the row and then drops the reservation. `durable` is the outcome
     of the storage commit; a refused commit changes nothing at all.
     */
    method RecordArtifactDownload(row: Row, durable: bool) returns (recorded: bool)
      modifies this`inFlight, this`rows
      ensures recorded == durable
      ensures rows == if durable then old(rows) + [row] else old(rows)
      ensures View() == if durable then Release(old(View()), row.accessId) else old(View())
    {
      if !durable {
        return false;
      }
      rows := rows + [row];
      var remaining := (if row.accessId in inFlight then inFlight[row.accessId] else 0) as int - 1;
      if remaining > 0 {
        inFlight := inFlight[row.accessId := remaining];
      } else {
        inFlight := inFlight - {row.accessId};
      }
      return true;
    }

    method TransferWatermark(accessId: AccessId) returns (w: Watermark)
      ensures w == Sample(View(), accessId)
    {
      w := Watermark(
        if accessId in inFlight then inFlight[accessId] else 0,
        if accessId in generations then generations[accessId] else 0);
    }
  }

  // ---------- the step system ----------

  /** Where one transfer is. `Lost` is a transfer whose row could not be committed. */
  datatype Phase = Streaming | Committed(row: Row) | Released(row: Row) | Lost(row: Row)

  datatype Transfer = Transfer(accessId: AccessId, phase: Phase)

  datatype Reply = Reply(summary: Summary, inFlight: nat, complete: bool)

  datatype Stage =
    | Started
    | Watched(before: Watermark)
    | Summarized(before: Watermark, summary: Summary)
    | Replied(reply: Reply)

  datatype Reader = Reader(accessId: AccessId, stage: Stage)

  /** Transfers and readers are listed in the order in which they started. */
  datatype State = State(
    counters: Counters,
    rows: seq<Row>,
    transfers: seq<Transfer>,
    readers: seq<Reader>)

  const INIT := State(Counters(map[], map[]), [], [], [])

  datatype Step =
    | Begin(accessId: AccessId)
    | Commit(transfer: nat, row: Row)
    | FailCommit(transfer: nat, row: Row)
    | EndTransfer(transfer: nat)
    | StartRead(accessId: AccessId)
    | FirstWatermark(reader: nat)
    | ReadSummary(reader: nat)
    | SecondWatermark(reader: nat)

  /** `size` gives the fixed size of the artifact behind each access. */
  ghost predicate Enabled(size: AccessId -> nat, s: State, step: Step) {
    match step
    case Begin(_) => true
    case Commit(t, row) =>
      && t < |s.transfers| && s.transfers[t].phase.Streaming?
      && HandlerRow(row, s.transfers[t].accessId, size(s.transfers[t].accessId))
    case FailCommit(t, row) =>
      && t < |s.transfers| && s.transfers[t].phase.Streaming?
      && HandlerRow(row, s.transfers[t].accessId, size(s.transfers[t].accessId))
    case EndTransfer(t) => t < |s.transfers| && s.transfers[t].phase.Committed?
    case StartRead(_) => true
    case FirstWatermark(r) => r < |s.readers| && s.readers[r].stage.Started?
    case ReadSummary(r) => r < |s.readers| && s.readers[r].stage.Watched?
    case SecondWatermark(r) => r < |s.readers| && s.readers[r].stage.Summarized?
  }

  function WithPhase(ts: seq<Transfer>, t: nat, phase: Phase): seq<Transfer>
    requires t < |ts|
  {
    ts[t := ts[t].(phase := phase)]
  }

  function WithStage(rs: seq<Reader>, r: nat, stage: Stage): seq<Reader>
    requires r < |rs|
  {
    rs[r := rs[r].(stage := stage)]
  }

  function MakeReply(before: Watermark, summary: Summary, after: Watermark): Reply {
    Reply(summary, after.inFlight, Stable(before, after))
  }

  ghost function Apply(size: AccessId -> nat, s: State, step: Step): State
    requires Enabled(size, s, step)
  {
    match step
    case Begin(id) =>
      s.(counters := Reserve(s.counters, id), transfers := s.transfers + [Transfer(id, Streaming)])
    case Commit(t, row) =>
      s.(rows := s.rows + [row], transfers := WithPhase(s.transfers, t, Committed(row)))
    case FailCommit(t, row) =>
      s.(transfers := WithPhase(s.transfers, t, Lost(row)))
    case EndTransfer(t) =>
      s.(counters := Release(s.counters, s.transfers[t].accessId),
         transfers := WithPhase(s.transfers, t, Released(s.transfers[t].phase.row)))
    case StartRead(id) =>
      s.(readers := s.readers + [Reader(id, Started)])
    case FirstWatermark(r) =>
      s.(readers := WithStage(s.readers, r, Watched(Sample(s.counters, s.readers[r].accessId))))
    case ReadSummary(r) =>
      s.(readers := WithStage(s.readers, r, Summarized(
           s.readers[r].stage.before, Summarize(RowsFor(s.rows, s.readers[r].accessId)))))
    case SecondWatermark(r) =>
      s.(readers := WithStage(s.readers, r, Replied(MakeReply(
           s.readers[r].stage.before, s.readers[r].stage.summary,
           Sample(s.counters, s.readers[r].accessId)))))
  }

  ghost predicate Next(size: AccessId -> nat, s: State, s': State) {
    exists step :: Enabled(size, s, step) && s' == Apply(size, s, step)
  }

  ghost predicate Run(size: AccessId -> nat, tr: seq<State>) {
    && |tr| > 0
    && tr[0] == INIT
    && forall i :: 0 <= i < |tr| - 1 ==> Next(size, tr[i], tr[i + 1])
  }

  // ---------- what the transfers of one access amount to ----------

  /** Transfers of `id` ever reserved. */
  ghost function Reserved(ts: seq<Transfer>, id: AccessId): nat {
    if ts == [] then 0
    else Reserved(ts[..|ts| - 1], id) + (if ts[|ts| - 1].accessId == id then 1 else 0)
  }

  predicate Open(t: Transfer, id: AccessId) {
    t.accessId == id && !t.phase.Released?
  }

  /** Transfers of `id` whose reservation is still held. */
  ghost function Held(ts: seq<Transfer>, id: AccessId): nat {
    if ts == [] then 0
    else Held(ts[..|ts| - 1], id) + (if Open(ts[|ts| - 1], id) then 1 else 0)
  }

  predicate Durable(t: Transfer, id: AccessId) {
    t.accessId == id && (t.phase.Committed? || t.phase.Released?)
  }

  ghost function RowOf(t: Transfer, id: AccessId): seq<Row> {
    if Durable(t, id) then [t.phase.row] else []
  }

  /** Rows of the durable transfers of `id`, in reservation order. */
  ghost function DurableRows(ts: seq<Transfer>, id: AccessId): seq<Row> {
    if ts == [] then []
    else DurableRows(ts[..|ts| - 1], id) + RowOf(ts[|ts| - 1], id)
  }

  ghost predicate AllReleased(ts: seq<Transfer>, id: AccessId) {
    forall t :: 0 <= t < |ts| && ts[t].accessId == id ==> ts[t].phase.Released?
  }

  /** `summary` aggregates one final row for every transfer of `id` reserved so far. */
  ghost predicate CountsEveryTransfer(ts: seq<Transfer>, id: AccessId, summary: Summary) {
    && AllReleased(ts, id)
    && |DurableRows(ts, id)| == Reserved(ts, id) == summary.requests
    && summary == Summarize(DurableRows(ts, id))
    && Describes(summary, DurableRows(ts, id))
  }

  lemma {:induction false} ReservedUpdate(ts: seq<Transfer>, t: nat, phase: Phase, id: AccessId)
    requires t < |ts|
    ensures Reserved(WithPhase(ts, t, phase), id) == Reserved(ts, id)
  {
    var last := |ts| - 1;
    if t < last {
      assert WithPhase(ts, t, phase)[..last] == WithPhase(ts[..last], t, phase);
      ReservedUpdate(ts[..last], t, phase, id);
    } else {
      assert WithPhase(ts, t, phase)[..last] == ts[..last];
    }
  }

  lemma {:induction false} HeldUpdate(ts: seq<Transfer>, t: nat, phase: Phase, id: AccessId)
    requires t < |ts|
    ensures Held(WithPhase(ts, t, phase), id)
         == Held(ts, id)
            - (if Open(ts[t], id) then 1 else 0)
            + (if Open(WithPhase(ts, t, phase)[t], id) then 1 else 0)
  {
    var last := |ts| - 1;
    if t < last {
      assert WithPhase(ts, t, phase)[..last] == WithPhase(ts[..last], t, phase);
      HeldUpdate(ts[..last], t, phase, id);
    } else {
      assert WithPhase(ts, t, phase)[..last] == ts[..last];
    }
  }

  lemma {:induction false} HeldZero(ts: seq<Transfer>, id: AccessId)
    ensures Held(ts, id) == 0 <==> AllReleased(ts, id)
  {
    if ts != [] {
      var last := |ts| - 1;
      HeldZero(ts[..last], id);
      assert forall t :: 0 <= t < last ==> ts[..last][t] == ts[t];
      if AllReleased(ts, id) {
        assert AllReleased(ts[..last], id);
        assert !Open(ts[last], id);
      } else if AllReleased(ts[..last], id) {
        assert Open(ts[last], id);
      }
    }
  }

  /** How often `x` is the row of a durable transfer of `id`. */
  ghost function RowCount(ts: seq<Transfer>, id: AccessId, x: Row): nat {
    if ts == [] then 0 else RowCount(ts[..|ts| - 1], id, x) + Has(ts[|ts| - 1], id, x)
  }

  ghost function Has(t: Transfer, id: AccessId, x: Row): nat {
    if Durable(t, id) && t.phase.row == x then 1 else 0
  }

  /** How often `x` is a row of `id` in the table. */
  ghost function TableCount(rows: seq<Row>, id: AccessId, x: Row): nat {
    if rows == [] then 0
    else
      var r := rows[|rows| - 1];
      TableCount(rows[..|rows| - 1], id, x) + (if r.accessId == id && r == x then 1 else 0)
  }

  lemma {:induction false} TableCountIsMultiplicity(rows: seq<Row>, id: AccessId, x: Row)
    ensures multiset(RowsFor(rows, id))[x] == TableCount(rows, id, x)
  {
    if rows != [] {
      TableCountIsMultiplicity(rows[..|rows| - 1], id, x);
    }
  }

  lemma {:induction false} RowCountIsMultiplicity(ts: seq<Transfer>, id: AccessId, x: Row)
    ensures multiset(DurableRows(ts, id))[x] == RowCount(ts, id, x)
  {
    if ts != [] {
      RowCountIsMultiplicity(ts[..|ts| - 1], id, x);
    }
  }

  /** Changing the phase of one transfer exchanges its own row and no other. */
  lemma {:induction false} RowCountUpdate(ts: seq<Transfer>, t: nat, phase: Phase, id: AccessId, x: Row)
    requires t < |ts|
    ensures RowCount(WithPhase(ts, t, phase), id, x)
         == RowCount(ts, id, x) - Has(ts[t], id, x) + Has(WithPhase(ts, t, phase)[t], id, x)
  {
    var last := |ts| - 1;
    if t < last {
      assert WithPhase(ts, t, phase)[..last] == WithPhase(ts[..last], t, phase);
      RowCountUpdate(ts[..last], t, phase, id, x);
    } else {
      assert WithPhase(ts, t, phase)[..last] == ts[..last];
    }
  }

  lemma {:induction false} ReleasedAreDurable(ts: seq<Transfer>, id: AccessId)
    requires AllReleased(ts, id)
    ensures |DurableRows(ts, id)| == Reserved(ts, id)
  {
    if ts != [] {
      var last := |ts| - 1;
      assert forall t :: 0 <= t < last ==> ts[..last][t] == ts[t];
      ReleasedAreDurable(ts[..last], id);
    }
  }

  // ---------- the invariant ----------

  ghost predicate CountersAgree(s: State) {
    forall id ::
      && Get(s.counters.inFlight, id) == Held(s.transfers, id)
      && Get(s.counters.generations, id) == Reserved(s.transfers, id)
  }

  /** The table holds the rows of the durable transfers, and nothing else. */
  ghost predicate RowsAgree(s: State) {
    forall id, x :: TableCount(s.rows, id, x) == RowCount(s.transfers, id, x)
  }

  ghost predicate RowsFromHandler(size: AccessId -> nat, s: State) {
    forall i :: 0 <= i < |s.rows| ==> HandlerRow(s.rows[i], s.rows[i].accessId, size(s.rows[i].accessId))
  }

  ghost predicate ReaderSound(s: State, r: Reader) {
    (r.stage.Watched? || r.stage.Summarized?) ==>
      && r.stage.before.generation <= Reserved(s.transfers, r.accessId)
      && (r.stage.before.inFlight == 0 && r.stage.before.generation == Reserved(s.transfers, r.accessId) ==>
            && AllReleased(s.transfers, r.accessId)
            && (r.stage.Summarized? ==> r.stage.summary == Summarize(RowsFor(s.rows, r.accessId))))
  }

  ghost predicate Inv(size: AccessId -> nat, s: State) {
    && CountersAgree(s)
    && RowsAgree(s)
    && RowsFromHandler(size, s)
    && forall r :: 0 <= r < |s.readers| ==> ReaderSound(s, s.readers[r])
  }

  lemma {:induction false} StepKeepsCounters(size: AccessId -> nat, s: State, step: Step, id: AccessId)
    requires CountersAgree(s) && Enabled(size, s, step)
    ensures
      var s' := Apply(size, s, step);
      && Get(s'.counters.inFlight, id) == Held(s'.transfers, id)
      && Get(s'.counters.generations, id) == Reserved(s'.transfers, id)
  {
    var s' := Apply(size, s, step);
    match step
    case Begin(_) =>
      assert s'.transfers[..|s.transfers|] == s.transfers;
    case Commit(t, row) =>
      ReservedUpdate(s.transfers, t, Committed(row), id);
      HeldUpdate(s.transfers, t, Committed(row), id);
    case FailCommit(t, row) =>
      ReservedUpdate(s.transfers, t, Lost(row), id);
      HeldUpdate(s.transfers, t, Lost(row), id);
    case EndTransfer(t) =>
      ReservedUpdate(s.transfers, t, Released(s.transfers[t].phase.row), id);
      HeldUpdate(s.transfers, t, Released(s.transfers[t].phase.row), id);
    case _ =>
  }

  lemma {:induction false} StepKeepsRows(size: AccessId -> nat, s: State, step: Step, id: AccessId, x: Row)
    requires RowsAgree(s) && Enabled(size, s, step)
    ensures
      var s' := Apply(size, s, step);
      TableCount(s'.rows, id, x) == RowCount(s'.transfers, id, x)
  {
    var s' := Apply(size, s, step);
    match step
    case Begin(_) =>
      assert s'.transfers[..|s.transfers|] == s.transfers;
    case Commit(t, row) =>
      RowCountUpdate(s.transfers, t, Committed(row), id, x);
      assert s'.rows[..|s.rows|] == s.rows;
    case FailCommit(t, row) =>
      RowCountUpdate(s.transfers, t, Lost(row), id, x);
    case EndTransfer(t) =>
      RowCountUpdate(s.transfers, t, Released(s.transfers[t].phase.row), id, x);
    case _ =>
  }

  /** A reservation of another access, or an end of a transfer, cannot disturb a reader. */
  lemma {:induction false} TransferKeepsReader(size: AccessId -> nat, s: State, step: Step, reader: Reader)
    requires Enabled(size, s, step) && ReaderSound(s, reader)
    requires step.Begin? || step.Commit? || step.FailCommit? || step.EndTransfer?
    ensures ReaderSound(Apply(size, s, step), reader)
  {
    var s' := Apply(size, s, step);
    var id := reader.accessId;
    match step
    case Begin(a) =>
      assert s'.transfers[..|s.transfers|] == s.transfers;
    case Commit(t, row) =>
      ReservedUpdate(s.transfers, t, Committed(row), id);
      RowsForConcat(s.rows, row, id);
      if row.accessId == id {
        assert !AllReleased(s.transfers, id);
      } else {
        assert RowsFor(s'.rows, id) == RowsFor(s.rows, id);
      }
    case FailCommit(t, row) =>
      ReservedUpdate(s.transfers, t, Lost(row), id);
    case EndTransfer(t) =>
      ReservedUpdate(s.transfers, t, Released(s.transfers[t].phase.row), id);
    case _ =>
  }

  lemma {:induction false} StepKeepsReader(size: AccessId -> nat, s: State, step: Step, r: nat)
    requires Inv(size, s) && Enabled(size, s, step)
    requires r < |Apply(size, s, step).readers|
    ensures ReaderSound(Apply(size, s, step), Apply(size, s, step).readers[r])
  {
    if r < |s.readers| {
      assert ReaderSound(s, s.readers[r]);
      if step.Begin? || step.Commit? || step.FailCommit? || step.EndTransfer? {
        TransferKeepsReader(size, s, step, s.readers[r]);
      } else {
        HeldZero(s.transfers, s.readers[r].accessId);
      }
    }
  }

  lemma {:induction false} StepKeepsInv(size: AccessId -> nat, s: State, step: Step)
    requires Inv(size, s) && Enabled(size, s, step)
    ensures Inv(size, Apply(size, s, step))
  {
    var s' := Apply(size, s, step);
    forall id
      ensures && Get(s'.counters.inFlight, id) == Held(s'.transfers, id)
              && Get(s'.counters.generations, id) == Reserved(s'.transfers, id)
    {
      StepKeepsCounters(size, s, step, id);
    }
    forall id, x
      ensures TableCount(s'.rows, id, x) == RowCount(s'.transfers, id, x)
    {
      StepKeepsRows(size, s, step, id, x);
    }
    forall r | 0 <= r < |s'.readers|
      ensures ReaderSound(s', s'.readers[r])
    {
      StepKeepsReader(size, s, step, r);
    }
  }

  /** The invariant holds in every state of every interleaving. */
  lemma {:induction false} RunKeepsInv(size: AccessId -> nat, tr: seq<State>, i: nat)
    requires Run(size, tr) && i < |tr|
    ensures Inv(size, tr[i])
  {
    if i > 0 {
      RunKeepsInv(size, tr, i - 1);
      assert Next(size, tr[i - 1], tr[i - 1 + 1]);
      var step :| Enabled(size, tr[i - 1], step) && tr[i] == Apply(size, tr[i - 1], step);
      StepKeepsInv(size, tr[i - 1], step);
    }
  }

  // ---------- history along a run ----------

  /** A later transfer list keeps every earlier transfer, released or lost ones unchanged. */
  ghost predicate Extends(ts: seq<Transfer>, ts': seq<Transfer>) {
    && |ts| <= |ts'|
    && forall t :: 0 <= t < |ts| ==>
         && ts'[t].accessId == ts[t].accessId
         && (ts[t].phase.Released? || ts[t].phase.Lost? ==> ts'[t] == ts[t])
  }

  lemma {:induction false} RunExtends(size: AccessId -> nat, tr: seq<State>, i: nat, j: nat)
    requires Run(size, tr) && i <= j < |tr|
    ensures Extends(tr[i].transfers, tr[j].transfers)
    decreases j
  {
    if i < j {
      RunExtends(size, tr, i, j - 1);
      assert Next(size, tr[j - 1], tr[j - 1 + 1]);
    }
  }

  /** Reader `r` samples its second watermark, and replies, between `tr[i]` and `tr[i + 1]`. */
  ghost predicate RepliesAt(tr: seq<State>, i: nat, r: nat) {
    && i + 1 < |tr|
    && r < |tr[i].readers| && r < |tr[i + 1].readers|
    && tr[i].readers[r].stage.Summarized?
    && tr[i + 1].readers[r].stage.Replied?
  }

  lemma {:induction false} ReplyStep(size: AccessId -> nat, tr: seq<State>, i: nat, r: nat)
    requires Run(size, tr) && RepliesAt(tr, i, r)
    ensures
      var before := tr[i].readers[r];
      && tr[i + 1].transfers == tr[i].transfers
      && tr[i + 1].readers[r].accessId == before.accessId
      && tr[i + 1].readers[r].stage.reply
           == MakeReply(before.stage.before, before.stage.summary, Sample(tr[i].counters, before.accessId))
  {
    assert Next(size, tr[i], tr[i + 1]);
  }

  /** Every reply in a run was given at some step, by the reader's second watermark. */
  lemma {:induction false} ReplyHasStep(size: AccessId -> nat, tr: seq<State>, k: nat, r: nat) returns (i: nat)
    requires Run(size, tr) && k < |tr|
    requires r < |tr[k].readers| && tr[k].readers[r].stage.Replied?
    ensures i < k && RepliesAt(tr, i, r) && tr[i + 1].readers[r] == tr[k].readers[r]
    decreases k
  {
    assert Next(size, tr[k - 1], tr[k - 1 + 1]);
    var step :| Enabled(size, tr[k - 1], step) && tr[k] == Apply(size, tr[k - 1], step);
    ReplyOrigin(size, tr[k - 1], step, r);
    if tr[k - 1].readers[r].stage.Replied? {
      i := ReplyHasStep(size, tr, k - 1, r);
    } else {
      i := k - 1;
    }
  }

  /** A reply was there before the step, or its reader had just read the summary. */
  lemma {:induction false} ReplyOrigin(size: AccessId -> nat, s: State, step: Step, r: nat)
    requires Enabled(size, s, step)
    requires r < |Apply(size, s, step).readers| && Apply(size, s, step).readers[r].stage.Replied?
    ensures r < |s.readers|
    ensures s.readers[r].stage.Summarized? || s.readers[r] == Apply(size, s, step).readers[r]
  {
  }

  // ---------- the theorems ----------

  /**
   Quiescence soundness. In every interleaving, a reply that claims to be
   complete aggregates exactly one final row for every transfer of its access
   reserved before its second watermark.
   */
  lemma {:induction false} QuiescenceSound(size: AccessId -> nat, tr: seq<State>, k: nat, r: nat) returns (i: nat)
    requires Run(size, tr) && k < |tr|
    requires r < |tr[k].readers| && tr[k].readers[r].stage.Replied?
    requires tr[k].readers[r].stage.reply.complete
    ensures i < k && RepliesAt(tr, i, r) && tr[i + 1].readers[r] == tr[k].readers[r]
    ensures CountsEveryTransfer(tr[i].transfers, tr[k].readers[r].accessId, tr[k].readers[r].stage.reply.summary)
  {
    i := ReplyHasStep(size, tr, k, r);
    RunKeepsInv(size, tr, i);
    ReplyStep(size, tr, i, r);
    var s := tr[i];
    var id := s.readers[r].accessId;
    assert ReaderSound(s, s.readers[r]);
    ReleasedAreDurable(s.transfers, id);
    forall x
      ensures multiset(RowsFor(s.rows, id))[x] == multiset(DurableRows(s.transfers, id))[x]
    {
      RowCountIsMultiplicity(s.transfers, id, x);
      TableCountIsMultiplicity(s.rows, id, x);
    }
    SummarizePermutation(RowsFor(s.rows, id), DurableRows(s.transfers, id));
    SummaryColumns(DurableRows(s.transfers, id));
  }

  /**
   The verdict's second zero-count test is redundant: a zero first count and an
   unmoved generation already force a zero second count.
   */
  lemma {:induction false} SecondCountImplied(size: AccessId -> nat, tr: seq<State>, i: nat, r: nat)
    requires Run(size, tr) && i < |tr| && r < |tr[i].readers|
    requires tr[i].readers[r].stage.Watched? || tr[i].readers[r].stage.Summarized?
    requires tr[i].readers[r].stage.before.inFlight == 0
    requires tr[i].readers[r].stage.before.generation
          == Sample(tr[i].counters, tr[i].readers[r].accessId).generation
    ensures Sample(tr[i].counters, tr[i].readers[r].accessId).inFlight == 0
  {
    RunKeepsInv(size, tr, i);
    assert ReaderSound(tr[i], tr[i].readers[r]);
    HeldZero(tr[i].transfers, tr[i].readers[r].accessId);
  }

  lemma {:induction false} WatermarkKept(size: AccessId -> nat, tr: seq<State>, a: nat, b: nat, r: nat)
    requires Run(size, tr) && a < b < |tr|
    requires r < |tr[a].readers| && tr[a].readers[r].stage.Started?
    requires r < |tr[a + 1].readers| && tr[a + 1].readers[r].stage.Watched?
    ensures r < |tr[b].readers| && tr[b].readers[r].accessId == tr[a].readers[r].accessId
    ensures tr[b].readers[r].stage.Watched? || tr[b].readers[r].stage.Summarized? ==>
              tr[b].readers[r].stage.before == Sample(tr[a].counters, tr[a].readers[r].accessId)
    ensures !tr[b].readers[r].stage.Started?
    decreases b
  {
    if b == a + 1 {
      assert Next(size, tr[a], tr[a + 1]);
    } else {
      WatermarkKept(size, tr, a, b - 1, r);
      assert Next(size, tr[b - 1], tr[b - 1 + 1]);
    }
  }

  lemma {:induction false} ReservedPrefix(ts: seq<Transfer>, ts': seq<Transfer>, id: AccessId)
    requires Extends(ts, ts')
    ensures Reserved(ts, id) <= Reserved(ts', id)
    ensures AllReleased(ts, id) && Reserved(ts, id) == Reserved(ts', id) ==> AllReleased(ts', id)
    decreases |ts'|
  {
    if |ts| < |ts'| {
      var less := ts'[..|ts'| - 1];
      assert forall t :: 0 <= t < |less| ==> less[t] == ts'[t];
      ReservedPrefix(ts, less, id);
    } else {
      ReservedSame(ts, ts', id);
    }
  }

  lemma {:induction false} ReservedSame(ts: seq<Transfer>, ts': seq<Transfer>, id: AccessId)
    requires |ts| == |ts'|
    requires forall t :: 0 <= t < |ts| ==> ts[t].accessId == ts'[t].accessId
    ensures Reserved(ts, id) == Reserved(ts', id)
  {
    if ts != [] {
      ReservedSame(ts[..|ts| - 1], ts'[..|ts'| - 1], id);
    }
  }

  /**
   Completeness is neither too weak nor too strong: a reply is complete exactly
   when every transfer of the access was already released at the first
   watermark and none was reserved up to the second.
   */
  lemma {:induction false} CompleteExactlyWhenQuiet(size: AccessId -> nat, tr: seq<State>, a: nat, b: nat, r: nat)
    requires Run(size, tr) && a < b && RepliesAt(tr, b, r)
    requires r < |tr[a].readers| && tr[a].readers[r].stage.Started?
    requires r < |tr[a + 1].readers| && tr[a + 1].readers[r].stage.Watched?
    ensures
      var id := tr[a].readers[r].accessId;
      tr[b + 1].readers[r].stage.reply.complete <==>
        && AllReleased(tr[a].transfers, id)
        && Reserved(tr[a].transfers, id) == Reserved(tr[b].transfers, id)
  {
    var id := tr[a].readers[r].accessId;
    WatermarkKept(size, tr, a, b, r);
    ReplyStep(size, tr, b, r);
    RunKeepsInv(size, tr, a);
    RunKeepsInv(size, tr, b);
    RunExtends(size, tr, a, b);
    HeldZero(tr[a].transfers, id);
    HeldZero(tr[b].transfers, id);
    ReservedPrefix(tr[a].transfers, tr[b].transfers, id);
  }

  /** Once a row commit has failed, no later reply for that access is complete. */
  lemma {:induction false} PoisonedForever(size: AccessId -> nat, tr: seq<State>, i: nat, t: nat, j: nat, r: nat)
    requires Run(size, tr) && i <= j
    requires i < |tr| && t < |tr[i].transfers| && tr[i].transfers[t].phase.Lost?
    requires RepliesAt(tr, j, r) && tr[j].readers[r].accessId == tr[i].transfers[t].accessId
    ensures !tr[j + 1].readers[r].stage.reply.complete
    ensures tr[j + 1].readers[r].stage.reply.inFlight > 0
  {
    RunExtends(size, tr, i, j);
    RunKeepsInv(size, tr, j);
    ReplyStep(size, tr, j, r);
    HeldZero(tr[j].transfers, tr[j].readers[r].accessId);
    assert tr[j].transfers[t] == tr[i].transfers[t];
  }

  /** The access a step works on, if it touches the counters or the table at all. */
  ghost function Touches(s: State, step: Step): Option<AccessId> {
    match step
    case Begin(id) => Some(id)
    case Commit(t, _) => if t < |s.transfers| then Some(s.transfers[t].accessId) else None
    case EndTransfer(t) => if t < |s.transfers| then Some(s.transfers[t].accessId) else None
    case _ => None
  }

  /** No step moves the watermark or the rows of another access; a failed commit moves none. */
  lemma {:induction false} StepsAreLocal(size: AccessId -> nat, s: State, step: Step, id: AccessId)
    requires Enabled(size, s, step)
    requires Touches(s, step) != Some(id)
    ensures Sample(Apply(size, s, step).counters, id) == Sample(s.counters, id)
    ensures RowsFor(Apply(size, s, step).rows, id) == RowsFor(s.rows, id)
  {
    if step.Commit? {
      RowsForConcat(s.rows, step.row, id);
    }
  }

  lemma {:induction false} RowsForAreFiltered(rows: seq<Row>, id: AccessId)
    ensures forall i :: 0 <= i < |RowsFor(rows, id)| ==> RowsFor(rows, id)[i].accessId == id && RowsFor(rows, id)[i] in rows
  {
    if rows != [] {
      RowsForAreFiltered(rows[..|rows| - 1], id);
    }
  }

  /** The summary of any reachable table obeys the ledger accounting of its artifact. */
  lemma {:induction false} ReachableAccounting(size: AccessId -> nat, tr: seq<State>, i: nat, id: AccessId)
    requires Run(size, tr) && i < |tr|
    ensures
      var s := Summarize(RowsFor(tr[i].rows, id));
      && s.full <= s.completed <= s.requests
      && s.full * size(id) <= s.bytesSent <= s.requests * size(id)
      && (s.full == s.requests ==> s.bytesSent == s.requests * size(id))
  {
    RunKeepsInv(size, tr, i);
    var rows := RowsFor(tr[i].rows, id);
    RowsForAreFiltered(tr[i].rows, id);
    forall k | 0 <= k < |rows|
      ensures HandlerRow(rows[k], id, size(id))
    {
      var m :| 0 <= m < |tr[i].rows| && tr[i].rows[m] == rows[k];
    }
    LedgerAccounting(rows, id, size(id));
  }
}
