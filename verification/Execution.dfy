/**
 Idempotent execution over every interleaving of calls in any number of Data
 Agent processes. Each process has its own lock pool; all of them share one
 operation table, whose insert refuses an access that is already present.
 */
module Execution {
  import opened Basics
  import opened Ledger
  import LP = LockPool

  datatype Kind = InlineText | ArtifactUri

  /** A response; only the payload value of an artifact is ever rewritten. */
  datatype Response = Response(kind: Kind, value: string, sha256: string, details: string)

  datatype Request = Request(accessId: AccessId, json: string)

  /** A stored operation, with the call that stored it. */
  datatype Operation = Operation(digest: string, response: Response, writer: nat)

  /** Replaces the artifact URL, and nothing else, by a freshly signed one. */
  function Refresh(r: Response, url: string): Response {
    if r.kind.ArtifactUri? then r.(value := url) else r
  }

  predicate SameButUrl(a: Response, b: Response) {
    a == b || (a.kind.ArtifactUri? && b == a.(value := b.value))
  }

  // ---------- the operation table ----------

  type Table = map<AccessId, Operation>

  datatype StoreConflict = StoreConflict

  function Find(table: Table, id: AccessId): Option<Operation> {
    if id in table then Some(table[id]) else None
  }

  /** The insert keeps the row that was there first. */
  function Inserted(table: Table, id: AccessId, operation: Operation): (r: Table)
    ensures id in r && forall other :: other in table ==> other in r && r[other] == table[other]
  {
    if id in table then table else table[id := operation]
  }

  /** What an insert yields: the row now stored, unless it answers another request. */
  function Stored(table: Table, id: AccessId, operation: Operation): Result<Operation, StoreConflict> {
    var row := Inserted(table, id, operation)[id];
    if row.digest == operation.digest then Ok(row) else Err(StoreConflict)
  }

  /** The operation table, updated in place by its insert. */
  class OperationStore {
    var table: Table

    constructor ()
      ensures table == map[]
    {
      table := map[];
    }

    method Get(accessId: AccessId) returns (found: Option<Operation>)
      ensures found == Find(table, accessId)
    {
      found := None;
      if accessId in table {
        found := Some(table[accessId]);
      }
    }

    /** Inserts, or yields the row that was there first if it answers the same request. */
    method PutIfAbsent(accessId: AccessId, operation: Operation) returns (stored: Result<Operation, StoreConflict>)
      modifies this
      ensures table == Inserted(old(table), accessId, operation)
      ensures stored == Stored(old(table), accessId, operation)
    {
      if accessId !in table {
        table := table[accessId := operation];
        return Ok(operation);
      }
      var existing := table[accessId];
      if existing.digest != operation.digest {
        return Err(StoreConflict);
      }
      return Ok(existing);
    }
  }

  datatype Pc =
    | Queued
    | Entered
    | Missed
    | Computed(response: Response)
    | Refused
    | Returned(response: Response)
    | Conflict
    | Failed

  datatype Call = Call(process: nat, thread: nat, request: Request, pc: Pc)

  datatype State = State(pools: seq<LP.Pool>, table: Table, calls: seq<Call>)

  datatype Step =
    | Arrive(process: nat, request: Request)
    | TakeLock(call: nat)
    | Lookup(call: nat, url: string)
    | Compute(call: nat, response: Response)
    | FailCompute(call: nat)
    | Insert(call: nat, url: string)
    | FailInsert(call: nat)
    | Reread(call: nat, url: string)
    | ReleaseLock(call: nat)
    | Leave(call: nat)

  predicate At(s: State, c: nat) {
    && c < |s.calls|
    && s.calls[c].process < |s.pools|
    && s.calls[c].thread < |s.pools[s.calls[c].process].threads|
  }

  function PoolOf(s: State, c: nat): LP.Pool
    requires At(s, c)
  {
    s.pools[s.calls[c].process]
  }

  predicate Done(pc: Pc) { pc.Returned? || pc.Conflict? || pc.Failed? }

  predicate Enabled(s: State, step: Step) {
    match step
    case Arrive(p, _) => p < |s.pools|
    case TakeLock(c) =>
      At(s, c) && s.calls[c].pc.Queued? && LP.Enabled(PoolOf(s, c), LP.Acquire(s.calls[c].thread))
    case Lookup(c, _) => At(s, c) && s.calls[c].pc.Entered?
    case Compute(c, _) => At(s, c) && s.calls[c].pc.Missed?
    case FailCompute(c) => At(s, c) && s.calls[c].pc.Missed?
    case Insert(c, _) => At(s, c) && s.calls[c].pc.Computed?
    case FailInsert(c) => At(s, c) && s.calls[c].pc.Computed?
    case Reread(c, _) => At(s, c) && s.calls[c].pc.Refused?
    case ReleaseLock(c) =>
      At(s, c) && Done(s.calls[c].pc) && LP.Enabled(PoolOf(s, c), LP.Unlock(s.calls[c].thread))
    case Leave(c) =>
      At(s, c) && Done(s.calls[c].pc) && LP.Enabled(PoolOf(s, c), LP.Unregister(s.calls[c].thread))
  }

  function Goto(s: State, c: nat, pc: Pc): State
    requires c < |s.calls|
  {
    s.(calls := s.calls[c := s.calls[c].(pc := pc)])
  }

  function PoolStep(s: State, c: nat, step: LP.Step): State
    requires At(s, c) && LP.Enabled(PoolOf(s, c), step)
  {
    s.(pools := s.pools[s.calls[c].process := LP.Apply(PoolOf(s, c), step)])
  }

  /** What a stored row means to a call: its own answer again, or a conflict. */
  function Answer(op: Operation, digest: string, url: string): Pc {
    if op.digest != digest then Conflict else Returned(Refresh(op.response, url))
  }

  /** The operation a call is about to store. */
  function Computation(digest: Request -> string, s: State, c: nat): Operation
    requires c < |s.calls| && s.calls[c].pc.Computed?
  {
    Operation(digest(s.calls[c].request), s.calls[c].pc.response, c)
  }

  function Apply(digest: Request -> string, s: State, step: Step): State
    requires Enabled(s, step)
  {
    match step
    case Arrive(p, request) =>
      var t := |s.pools[p].threads|;
      var spawned := LP.Apply(s.pools[p], LP.Spawn);
      State(s.pools[p := LP.Apply(spawned, LP.Register(t, request.accessId))], s.table,
            s.calls + [Call(p, t, request, Queued)])
    case TakeLock(c) => Goto(PoolStep(s, c, LP.Acquire(s.calls[c].thread)), c, Entered)
    case Lookup(c, url) =>
      Goto(s, c,
           match Find(s.table, s.calls[c].request.accessId)
           case Some(op) => Answer(op, digest(s.calls[c].request), url)
           case None => Missed)
    case Compute(c, response) => Goto(s, c, Computed(response))
    case FailCompute(c) => Goto(s, c, Failed)
    case Insert(c, url) =>
      var id := s.calls[c].request.accessId;
      Goto(s.(table := Inserted(s.table, id, Computation(digest, s, c))), c,
           if Find(s.table, id).Some? then Refused else Returned(Refresh(s.calls[c].pc.response, url)))
    case FailInsert(c) => Goto(s, c, Failed)
    case Reread(c, url) =>
      Goto(s, c,
           match Find(s.table, s.calls[c].request.accessId)
           case Some(op) => Answer(op, digest(s.calls[c].request), url)
           case None => Failed)
    case ReleaseLock(c) => PoolStep(s, c, LP.Unlock(s.calls[c].thread))
    case Leave(c) => PoolStep(s, c, LP.Unregister(s.calls[c].thread))
  }

  ghost predicate Next(digest: Request -> string, s: State, s': State) {
    exists step :: Enabled(s, step) && s' == Apply(digest, s, step)
  }

  /** A run of any number of processes, starting with empty pools and an empty table. */
  ghost predicate Run(digest: Request -> string, tr: seq<State>) {
    && |tr| > 0
    && (forall p :: 0 <= p < |tr[0].pools| ==> tr[0].pools[p] == LP.EMPTY)
    && tr[0].table == map[] && tr[0].calls == []
    && forall i :: 0 <= i < |tr| - 1 ==> Next(digest, tr[i], tr[i + 1])
  }

  // ---------- the invariant ----------

  /** Between taking the lock and giving an answer. */
  predicate Inside(pc: Pc) { pc.Entered? || pc.Missed? || pc.Computed? || pc.Refused? }

  /** An uncached execution is under way, or has just lost the race to store. */
  predicate Uncached(pc: Pc) { pc.Missed? || pc.Computed? || pc.Refused? }

  /** The call and its thread in the lock pool agree. */
  ghost predicate LockSound(s: State, c: nat)
    requires c < |s.calls|
  {
    && At(s, c)
    && var thread := PoolOf(s, c).threads[s.calls[c].thread];
       && (s.calls[c].pc.Queued? ==> thread.Waiting?)
       && (Inside(s.calls[c].pc) ==> thread.Holding?)
       && (!thread.Idle? ==> thread.accessId == s.calls[c].request.accessId)
  }

  /** The call and the shared table agree. */
  ghost predicate TableSound(digest: Request -> string, s: State, c: nat)
    requires c < |s.calls|
  {
    var call := s.calls[c];
    var id := call.request.accessId;
    && (call.pc.Returned? ==>
          id in s.table && s.table[id].digest == digest(call.request) && SameButUrl(s.table[id].response, call.pc.response))
    && (call.pc.Conflict? ==> id in s.table && s.table[id].digest != digest(call.request))
    && (call.pc.Refused? ==> id in s.table)
    && (Uncached(call.pc) && id in s.table ==>
          s.table[id].writer < |s.calls| && s.calls[s.table[id].writer].process != call.process)
  }

  ghost predicate Inv(digest: Request -> string, s: State) {
    && (forall p :: 0 <= p < |s.pools| ==> LP.Inv(s.pools[p]))
    && (forall c :: 0 <= c < |s.calls| ==> LockSound(s, c) && TableSound(digest, s, c))
    && (forall c, d :: 0 <= c < d < |s.calls| && s.calls[c].process == s.calls[d].process ==>
          s.calls[c].thread != s.calls[d].thread)
    && (forall id :: id in s.table ==> s.table[id].writer < |s.calls|)
  }

  /** Two calls of one process are never inside the critical section of one access together. */
  lemma {:induction false} OneInside(digest: Request -> string, s: State, c: nat, d: nat)
    requires Inv(digest, s) && c < |s.calls| && d < |s.calls|
    requires Inside(s.calls[c].pc) && Inside(s.calls[d].pc)
    requires s.calls[c].process == s.calls[d].process
    requires s.calls[c].request.accessId == s.calls[d].request.accessId
    ensures c == d
  {
    assert LockSound(s, c) && LockSound(s, d);
    LP.OneHolder(PoolOf(s, c), s.calls[c].thread, s.calls[d].thread);
  }

  lemma {:induction false} PoolsKept(digest: Request -> string, s: State, step: Step)
    requires Inv(digest, s) && Enabled(s, step)
    ensures |Apply(digest, s, step).pools| == |s.pools|
    ensures forall p :: 0 <= p < |s.pools| ==> LP.Inv(Apply(digest, s, step).pools[p])
  {
    match step
    case Arrive(p, request) =>
      LP.StepKeepsInv(s.pools[p], LP.Spawn);
      var spawned := LP.Apply(s.pools[p], LP.Spawn);
      LP.StepKeepsInv(spawned, LP.Register(|s.pools[p].threads|, request.accessId));
    case TakeLock(c) => LP.StepKeepsInv(PoolOf(s, c), LP.Acquire(s.calls[c].thread));
    case ReleaseLock(c) => LP.StepKeepsInv(PoolOf(s, c), LP.Unlock(s.calls[c].thread));
    case Leave(c) => LP.StepKeepsInv(PoolOf(s, c), LP.Unregister(s.calls[c].thread));
    case _ =>
  }

  lemma {:induction false} ArriveKeepsLock(digest: Request -> string, s: State, step: Step, d: nat)
    requires Inv(digest, s) && Enabled(s, step) && step.Arrive? && d <= |s.calls|
    ensures LockSound(Apply(digest, s, step), d)
  {
    if d < |s.calls| {
      assert LockSound(s, d);
    }
  }

  lemma {:induction false} OwnLockKept(digest: Request -> string, s: State, step: Step)
    requires Inv(digest, s) && Enabled(s, step) && !step.Arrive?
    ensures LockSound(Apply(digest, s, step), step.call)
  {
    assert LockSound(s, step.call);
  }

  /** A step of one call leaves every other call's thread alone. */
  lemma {:induction false} OtherLockKept(digest: Request -> string, s: State, step: Step, d: nat)
    requires Inv(digest, s) && Enabled(s, step) && !step.Arrive? && d < |s.calls| && d != step.call
    ensures LockSound(Apply(digest, s, step), d)
  {
    assert LockSound(s, d) && LockSound(s, step.call);
    assert s.calls[d].process == s.calls[step.call].process ==> s.calls[d].thread != s.calls[step.call].thread;
  }

  lemma {:induction false} InsertKeepsTable(digest: Request -> string, s: State, step: Step, d: nat)
    requires Inv(digest, s) && Enabled(s, step) && step.Insert? && d < |s.calls|
    ensures TableSound(digest, Apply(digest, s, step), d)
  {
    assert TableSound(digest, s, d);
    if && d != step.call && Uncached(s.calls[d].pc)
       && s.calls[d].process == s.calls[step.call].process
       && s.calls[d].request.accessId == s.calls[step.call].request.accessId
    {
      OneInside(digest, s, d, step.call);
    }
  }

  lemma {:induction false} ArriveKeepsTable(digest: Request -> string, s: State, step: Step, d: nat)
    requires Inv(digest, s) && Enabled(s, step) && step.Arrive? && d <= |s.calls|
    ensures TableSound(digest, Apply(digest, s, step), d)
  {
    if d < |s.calls| {
      assert TableSound(digest, s, d);
    }
  }

  /** Only an insert changes the table. */
  lemma {:induction false} ReadKeepsTable(digest: Request -> string, s: State, step: Step, d: nat)
    requires Inv(digest, s) && Enabled(s, step) && !step.Insert? && !step.Arrive? && d < |s.calls|
    ensures TableSound(digest, Apply(digest, s, step), d)
  {
    assert TableSound(digest, s, d);
  }

  lemma {:induction false} StepKeepsCall(digest: Request -> string, s: State, step: Step, d: nat)
    requires Inv(digest, s) && Enabled(s, step)
    requires d < |Apply(digest, s, step).calls|
    ensures LockSound(Apply(digest, s, step), d) && TableSound(digest, Apply(digest, s, step), d)
  {
    if step.Arrive? {
      ArriveKeepsLock(digest, s, step, d);
    } else if d == step.call {
      OwnLockKept(digest, s, step);
    } else {
      OtherLockKept(digest, s, step, d);
    }
    if step.Insert? {
      InsertKeepsTable(digest, s, step, d);
    } else if step.Arrive? {
      ArriveKeepsTable(digest, s, step, d);
    } else {
      ReadKeepsTable(digest, s, step, d);
    }
  }

  lemma {:induction false} StepKeepsInv(digest: Request -> string, s: State, step: Step)
    requires Inv(digest, s) && Enabled(s, step)
    ensures Inv(digest, Apply(digest, s, step))
  {
    var s' := Apply(digest, s, step);
    PoolsKept(digest, s, step);
    forall d | 0 <= d < |s'.calls|
      ensures LockSound(s', d) && TableSound(digest, s', d)
    {
      StepKeepsCall(digest, s, step, d);
    }
    forall c, d | 0 <= c < d < |s'.calls| && s'.calls[c].process == s'.calls[d].process
      ensures s'.calls[c].thread != s'.calls[d].thread
    {
      if d < |s.calls| {
        assert s.calls[c].thread != s.calls[d].thread;
      } else {
        assert LockSound(s, c);
      }
    }
  }

  lemma {:induction false} RunKeepsInv(digest: Request -> string, tr: seq<State>, i: nat)
    requires Run(digest, tr) && i < |tr|
    ensures Inv(digest, tr[i])
  {
    if i == 0 {
      forall p | 0 <= p < |tr[0].pools|
        ensures LP.Inv(tr[0].pools[p])
      {
        LP.RunKeepsInv([LP.EMPTY], 0);
      }
    } else {
      RunKeepsInv(digest, tr, i - 1);
      assert Next(digest, tr[i - 1], tr[i - 1 + 1]);
      var step :| Enabled(tr[i - 1], step) && tr[i] == Apply(digest, tr[i - 1], step);
      StepKeepsInv(digest, tr[i - 1], step);
    }
  }

  // ---------- the theorems ----------

  /**
   The insert step, followed by the re-reading step when it was refused, does to
   table and caller what the store's insert specifies.
   */
  lemma {:induction false} StoreRefined(digest: Request -> string, s: State, c: nat, url: string)
    requires Enabled(s, Insert(c, url))
    ensures
      var id, op, s' := s.calls[c].request.accessId, Computation(digest, s, c), Apply(digest, s, Insert(c, url));
      && (Find(s.table, id).Some? <==> Enabled(s', Reread(c, url)))
      && var after := if Find(s.table, id).Some? then Apply(digest, s', Reread(c, url)) else s';
         && after.table == Inserted(s.table, id, op)
         && after.calls[c].pc
            == match Stored(s.table, id, op)
               case Ok(row) => Returned(Refresh(row.response, url))
               case Err(_) => Conflict
  {
  }

  // ---------- what an answer is ----------

  /** The stored response with, for an artifact, the given URL in place of the stored one. */
  predicate Fresh(stored: Response, answer: Response, url: string) {
    && answer.kind == stored.kind && answer.sha256 == stored.sha256 && answer.details == stored.details
    && answer.value == (if stored.kind.ArtifactUri? then url else stored.value)
  }

  predicate Answering(step: Step) { step.Lookup? || step.Insert? || step.Reread? }

  /**
   A step that reads or writes the table answers its call exactly as the row
   then stored demands: with the row's response under a freshly signed URL when
   the digests agree, with a conflict when they do not. A lookup without a row
   goes on to compute, an insert that meets a row goes on to read it again.
   */
  lemma {:induction false} AnswersExactly(digest: Request -> string, s: State, step: Step)
    requires Inv(digest, s) && Enabled(s, step) && Answering(step)
    ensures
      var c, s' := step.call, Apply(digest, s, step);
      var id, pc := s.calls[c].request.accessId, s'.calls[c].pc;
      if step.Lookup? && id !in s.table then pc.Missed? && id !in s'.table
      else if step.Insert? && id in s.table then pc.Refused? && s'.table == s.table
      else
        && id in s'.table
        && s'.table == (if step.Insert? then s.table[id := Operation(digest(s.calls[c].request), s.calls[c].pc.response, c)]
                        else s.table)
        && (s'.table[id].digest == digest(s.calls[c].request) ==>
              pc.Returned? && Fresh(s'.table[id].response, pc.response, step.url))
        && (s'.table[id].digest != digest(s.calls[c].request) ==> pc.Conflict?)
  {
    assert TableSound(digest, s, step.call);
  }

  /** Only such a step can give a call its answer. */
  lemma {:induction false} OnlyAnsweringReturns(digest: Request -> string, s: State, step: Step, c: nat)
    requires Enabled(s, step) && c < |Apply(digest, s, step).calls| && Apply(digest, s, step).calls[c].pc.Returned?
    ensures c < |s.calls|
    ensures s.calls[c].pc.Returned? || (Answering(step) && step.call == c)
    ensures s.calls[c].pc.Returned? ==> Apply(digest, s, step).calls[c] == s.calls[c]
  {
  }

  /** `step` takes call `c`, so far unanswered, from `s` to an answer in `s'`. */
  ghost predicate AnsweredBy(digest: Request -> string, s: State, s': State, step: Step, c: nat) {
    && Enabled(s, step) && s' == Apply(digest, s, step) && Answering(step) && step.call == c
    && c < |s.calls| && !s.calls[c].pc.Returned?
    && c < |s'.calls| && s'.calls[c].pc.Returned?
  }

  lemma {:induction false} AnswerHasStep(digest: Request -> string, tr: seq<State>, i: nat, c: nat)
    returns (j: nat, step: Step)
    requires Run(digest, tr) && i < |tr| && c < |tr[i].calls| && tr[i].calls[c].pc.Returned?
    ensures j < i && AnsweredBy(digest, tr[j], tr[j + 1], step, c) && tr[j + 1].calls[c] == tr[i].calls[c]
    decreases i
  {
    assert i > 0;
    assert Next(digest, tr[i - 1], tr[i - 1 + 1]);
    var last :| Enabled(tr[i - 1], last) && tr[i] == Apply(digest, tr[i - 1], last);
    OnlyAnsweringReturns(digest, tr[i - 1], last, c);
    if tr[i - 1].calls[c].pc.Returned? {
      j, step := AnswerHasStep(digest, tr, i - 1, c);
    } else {
      j, step := i - 1, last;
    }
  }

  /**
   Every answer in a run was given at one step, which had just signed the URL it
   carries, and repeats the row that the table still holds.
   */
  lemma {:induction false} AnswerWasFresh(digest: Request -> string, tr: seq<State>, i: nat, c: nat)
    returns (j: nat, step: Step)
    requires Run(digest, tr) && i < |tr| && c < |tr[i].calls| && tr[i].calls[c].pc.Returned?
    ensures j < i && AnsweredBy(digest, tr[j], tr[j + 1], step, c)
    ensures
      var id := tr[i].calls[c].request.accessId;
      id in tr[i].table && Fresh(tr[i].table[id].response, tr[i].calls[c].pc.response, step.url)
  {
    j, step := AnswerHasStep(digest, tr, i, c);
    RunKeepsInv(digest, tr, j);
    AnsweredNow(digest, tr[j], step);
    WriteOnce(digest, tr, j + 1, i, tr[i].calls[c].request.accessId);
  }

  lemma {:induction false} AnsweredNow(digest: Request -> string, s: State, step: Step)
    requires Inv(digest, s) && Enabled(s, step) && Answering(step) && Apply(digest, s, step).calls[step.call].pc.Returned?
    ensures
      var s' := Apply(digest, s, step);
      var call := s'.calls[step.call];
      call.request.accessId in s'.table && Fresh(s'.table[call.request.accessId].response, call.pc.response, step.url)
  {
    AnswersExactly(digest, s, step);
  }

  /** Rows are write-once: whatever is stored stays, unchanged, for the rest of the run. */
  lemma {:induction false} WriteOnce(digest: Request -> string, tr: seq<State>, i: nat, j: nat, id: AccessId)
    requires Run(digest, tr) && i <= j < |tr|
    requires id in tr[i].table
    ensures id in tr[j].table && tr[j].table[id] == tr[i].table[id]
    decreases j
  {
    if i < j {
      WriteOnce(digest, tr, i, j - 1, id);
      assert Next(digest, tr[j - 1], tr[j - 1 + 1]);
    }
  }

  lemma {:induction false} CallsKept(digest: Request -> string, tr: seq<State>, i: nat, j: nat, c: nat)
    requires Run(digest, tr) && i <= j < |tr| && c < |tr[i].calls|
    ensures c < |tr[j].calls|
    ensures tr[j].calls[c].process == tr[i].calls[c].process && tr[j].calls[c].request == tr[i].calls[c].request
    ensures Done(tr[i].calls[c].pc) ==> tr[j].calls[c] == tr[i].calls[c]
    decreases j
  {
    if i < j {
      CallsKept(digest, tr, i, j - 1, c);
      assert Next(digest, tr[j - 1], tr[j - 1 + 1]);
    }
  }

  /**
   Idempotency. Any two successful calls for one access, in any processes and
   at any times of a run, carried the same request digest and were answered
   alike except for the artifact URL.
   */
  lemma {:induction false} SameAnswer(digest: Request -> string, tr: seq<State>, i: nat, c: nat, j: nat, d: nat)
    requires Run(digest, tr) && i < |tr| && j < |tr| && c < |tr[i].calls| && d < |tr[j].calls|
    requires tr[i].calls[c].pc.Returned? && tr[j].calls[d].pc.Returned?
    requires tr[i].calls[c].request.accessId == tr[j].calls[d].request.accessId
    ensures digest(tr[i].calls[c].request) == digest(tr[j].calls[d].request)
    ensures SameButUrl(tr[i].calls[c].pc.response, tr[j].calls[d].pc.response)
  {
    var m := if i < j then j else i;
    CallsKept(digest, tr, i, m, c);
    CallsKept(digest, tr, j, m, d);
    RunKeepsInv(digest, tr, m);
    assert TableSound(digest, tr[m], c) && TableSound(digest, tr[m], d);
  }

  /** A conflict is real: the access is stored for another request, and no call for the refused one is ever answered. */
  lemma {:induction false} ConflictIsReal(digest: Request -> string, tr: seq<State>, i: nat, c: nat, j: nat, d: nat)
    requires Run(digest, tr) && i < |tr| && c < |tr[i].calls| && tr[i].calls[c].pc.Conflict?
    requires j < |tr| && d < |tr[j].calls| && tr[j].calls[d].pc.Returned?
    requires tr[j].calls[d].request.accessId == tr[i].calls[c].request.accessId
    ensures digest(tr[j].calls[d].request) != digest(tr[i].calls[c].request)
  {
    RunKeepsInv(digest, tr, i);
    RunKeepsInv(digest, tr, j);
    assert TableSound(digest, tr[i], c) && TableSound(digest, tr[j], d);
    var id := tr[i].calls[c].request.accessId;
    if i <= j {
      WriteOnce(digest, tr, i, j, id);
    } else {
      WriteOnce(digest, tr, j, i, id);
    }
  }

  /** A call fails only where computing or storing fails: its re-read always finds the row. */
  lemma {:induction false} FailsOnlyByFault(digest: Request -> string, s: State, step: Step, c: nat)
    requires Inv(digest, s) && Enabled(s, step) && c < |s.calls|
    requires !s.calls[c].pc.Failed? && Apply(digest, s, step).calls[c].pc.Failed?
    ensures step == FailCompute(c) || step == FailInsert(c)
  {
    assert TableSound(digest, s, c);
  }

  /**
   In one process, at most one uncached execution per access is in progress at
   a time, and one that finds its row already stored lost to another process:
   a process that has stored a row never executes that access uncached again.
   */
  lemma {:induction false} UncachedAreSerial(digest: Request -> string, tr: seq<State>, i: nat, c: nat)
    requires Run(digest, tr) && i < |tr| && c < |tr[i].calls| && Uncached(tr[i].calls[c].pc)
    ensures forall d :: 0 <= d < |tr[i].calls| && d != c && Uncached(tr[i].calls[d].pc)
                        && tr[i].calls[d].request.accessId == tr[i].calls[c].request.accessId ==>
              tr[i].calls[d].process != tr[i].calls[c].process
    ensures
      var id := tr[i].calls[c].request.accessId;
      id in tr[i].table ==>
        && tr[i].table[id].writer < |tr[i].calls|
        && tr[i].calls[tr[i].table[id].writer].process != tr[i].calls[c].process
  {
    RunKeepsInv(digest, tr, i);
    assert TableSound(digest, tr[i], c);
    forall d | 0 <= d < |tr[i].calls| && d != c && Uncached(tr[i].calls[d].pc)
               && tr[i].calls[d].request.accessId == tr[i].calls[c].request.accessId
      ensures tr[i].calls[d].process != tr[i].calls[c].process
    {
      if tr[i].calls[d].process == tr[i].calls[c].process {
        OneInside(digest, tr[i], c, d);
      }
    }
  }

  /** With a single process the insert never collides. */
  lemma {:induction false} SingleProcessNeverRefused(digest: Request -> string, tr: seq<State>, i: nat, c: nat)
    requires Run(digest, tr) && |tr[0].pools| == 1 && i < |tr| && c < |tr[i].calls|
    ensures !tr[i].calls[c].pc.Refused?
  {
    PoolCount(digest, tr, i);
    RunKeepsInv(digest, tr, i);
    assert LockSound(tr[i], c) && TableSound(digest, tr[i], c);
    var id := tr[i].calls[c].request.accessId;
    if id in tr[i].table {
      assert LockSound(tr[i], tr[i].table[id].writer);
    }
  }

  lemma {:induction false} PoolCount(digest: Request -> string, tr: seq<State>, i: nat)
    requires Run(digest, tr) && i < |tr|
    ensures |tr[i].pools| == |tr[0].pools|
  {
    if i > 0 {
      PoolCount(digest, tr, i - 1);
      assert Next(digest, tr[i - 1], tr[i - 1 + 1]);
    }
  }
}
