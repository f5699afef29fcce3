/**
 The client's reading of transfer telemetry: bounded retries, the quiescence
 poll, and delivery reconciliation, joined to the server's transfer protocol.
 */
module Telemetry {
  import opened Basics
  import opened Ledger
  import opened Transfers

  // ---------- retries ----------

  datatype Attempt<T> = Answered(payload: T) | HttpError(status: nat) | Unavailable | Malformed

  const RETRYABLE_STATUSES: set<nat> := {502, 503, 504}

  predicate Retryable<T>(a: Attempt<T>) {
    a.Unavailable? || (a.HttpError? && a.status in RETRYABLE_STATUSES)
  }

  /**
   `attempt(k)` is what the k-th send would meet. The loop stops at the first
   attempt that is not worth repeating, or at the last one allowed, so its
   "unreachable" exit is never taken.
   */
  method SendWithRetries<T>(attempt: nat -> Attempt<T>, maxRetries: nat) returns (last: Attempt<T>, sends: nat)
    ensures 1 <= sends <= maxRetries + 1
    ensures last == attempt(sends - 1)
    ensures forall k :: 0 <= k < sends - 1 ==> Retryable(attempt(k))
    ensures Retryable(last) ==> sends == maxRetries + 1
  {
    sends := 0;
    while sends < maxRetries + 1
      invariant 0 <= sends <= maxRetries + 1
      invariant forall k :: 0 <= k < sends ==> Retryable(attempt(k))
      invariant sends == 0 || sends < maxRetries + 1
    {
      last := attempt(sends);
      sends := sends + 1;
      if !Retryable(last) || sends == maxRetries + 1 {
        return;
      }
    }
    assert false;
  }

  /** Only a lost connection and the three gateway statuses are worth another attempt. */
  lemma {:induction false} RetryableExactly<T>(a: Attempt<T>)
    ensures Retryable(a) <==> match a case Unavailable => true case HttpError(n) => 502 <= n <= 504 case _ => false
  {
  }

  // ---------- telemetry values ----------

  /** The optional fields are absent in responses of servers that predate them. */
  datatype Report = Report(
    accessId: AccessId,
    objectId: Option<string>,
    representationId: string,
    catalogVersion: Option<string>,
    summary: Summary,
    inFlight: Option<nat>,
    serverComplete: Option<bool>)

  predicate Supported(r: Report) {
    r.inFlight.Some? && r.serverComplete.Some?
  }

  predicate Complete(r: Report) {
    Supported(r) && r.inFlight.value == 0 && r.serverComplete.value
  }

  /** The report of an access whose reader has replied. */
  function ReportOf(
    accessId: AccessId, reply: Reply,
    objectId: Option<string>, representationId: string, catalogVersion: Option<string>): Report
  {
    Report(accessId, objectId, representationId, catalogVersion, reply.summary,
           Some(reply.inFlight), Some(reply.complete))
  }

  /** The client's two signals never disagree with the server's single verdict. */
  lemma {:induction false} CompleteIsServerVerdict(
    before: Watermark, summary: Summary, after: Watermark,
    id: AccessId, o: Option<string>, rep: string, v: Option<string>)
    ensures Complete(ReportOf(id, MakeReply(before, summary, after), o, rep, v)) <==> Stable(before, after)
  {
  }

  // ---------- the quiescence poll ----------

  datatype PollError = BadArgument | Transport | WrongAccess | Unsupported | NotQuiescent

  type Responses = nat -> Result<Report, PollError>

  /** The least integer that is not below `x`. */
  function Ceiling(x: real): (n: int)
    ensures (n - 1) as real < x <= n as real
  {
    if x.Floor as real == x then x.Floor else x.Floor + 1
  }

  /** The decision after one read: return, fail, or `None` to sleep and read again. */
  function Decide(
    read: Result<Report, PollError>, now: real, deadline: real, accessId: AccessId, wait: bool):
    Option<Result<Report, PollError>>
  {
    match read
    case Err(e) => Some(Err(e))
    case Ok(report) =>
      if report.accessId != accessId then Some(Err(WrongAccess))
      else if !wait then Some(Ok(report))
      else if !Supported(report) then Some(Err(Unsupported))
      else if Complete(report) then Some(Ok(report))
      else if now >= deadline then Some(Err(NotQuiescent))
      else None
  }

  /** When a read ends the poll, with what, and when it asks for another one. */
  lemma {:induction false} ReadVerdicts(
    read: Result<Report, PollError>, now: real, deadline: real, accessId: AccessId, wait: bool)
    ensures
      var d := Decide(read, now, deadline, accessId, wait);
      && (forall report :: d == Some(Ok(report)) <==>
            read == Ok(report) && report.accessId == accessId
            && (wait ==> report.inFlight == Some(0) && report.serverComplete == Some(true)))
      && (read.Err? <==> d == Some(read) && read.Err?)
      && (read.Ok? ==>
            && (d == Some(Err(WrongAccess)) <==> read.value.accessId != accessId)
            && (d == Some(Err(Unsupported)) <==>
                  read.value.accessId == accessId && wait && (read.value.inFlight == None || read.value.serverComplete == None))
            && (d == Some(Err(NotQuiescent)) || d == None ==> wait && Supported(read.value) && !Complete(read.value))
            && (d == None ==> now < deadline) && (d == Some(Err(NotQuiescent)) ==> now >= deadline))
  {
  }

  /** The poll made `n` reads: all but the last asked for another, the last decided. */
  ghost predicate Polled(
    response: Responses, clock: nat -> real, deadline: real, accessId: AccessId, wait: bool,
    n: nat, outcome: Result<Report, PollError>)
  {
    && n >= 1
    && (forall k :: 0 <= k < n - 1 ==> Decide(response(k), clock(k), deadline, accessId, wait) == None)
    && Decide(response(n - 1), clock(n - 1), deadline, accessId, wait) == Some(outcome)
  }

  lemma {:induction false} ClockBound(k: nat, poll: real, timeout: real)
    requires poll > 0.0 && k as real * poll < timeout
    ensures k < Ceiling(timeout / poll)
  {
    assert k as real < timeout / poll;
  }

  lemma {:induction false} CeilingIsNatural(timeout: real, poll: real)
    requires poll > 0.0 && timeout >= 0.0
    ensures Ceiling(timeout / poll) >= 0
  {
    assert timeout / poll >= 0.0;
  }

  /** Each sleep advances the clock by at least the poll interval. */
  ghost predicate SleepsFully(clock: nat -> real, startedAt: real, poll: real) {
    clock(0) >= startedAt && forall j: nat :: clock(j + 1) >= clock(j) + poll
  }

  lemma {:induction false} ClockAdvances(clock: nat -> real, startedAt: real, poll: real, k: nat)
    requires SleepsFully(clock, startedAt, poll)
    ensures clock(k) >= startedAt + k as real * poll
  {
    if k > 0 {
      ClockAdvances(clock, startedAt, poll, k - 1);
      assert clock(k - 1 + 1) >= clock(k - 1) + poll;
      assert k as real * poll == (k - 1) as real * poll + poll;
    }
  }

  /** A read that asks for another one came before the deadline, so there are few of them. */
  lemma {:induction false} AskedInTime(
    response: Responses, clock: nat -> real, startedAt: real, timeout: real, poll: real, accessId: AccessId, wait: bool, n: nat)
    requires poll > 0.0 && timeout >= 0.0 && SleepsFully(clock, startedAt, poll)
    requires Decide(response(n), clock(n), startedAt + timeout, accessId, wait) == None
    ensures n < Ceiling(timeout / poll)
  {
    ClockAdvances(clock, startedAt, poll, n);
    ClockBound(n, poll, timeout);
  }

  /** All of the first `n` reads asked for another one. */
  ghost predicate StillAsking(
    response: Responses, clock: nat -> real, deadline: real, accessId: AccessId, wait: bool, n: nat)
  {
    forall k :: 0 <= k < n ==> Decide(response(k), clock(k), deadline, accessId, wait) == None
  }

  lemma {:induction false} FewAsk(
    response: Responses, clock: nat -> real, startedAt: real, timeout: real, poll: real, accessId: AccessId, wait: bool, n: nat)
    requires poll > 0.0 && timeout >= 0.0 && SleepsFully(clock, startedAt, poll)
    requires StillAsking(response, clock, startedAt + timeout, accessId, wait, n)
    ensures n <= Ceiling(timeout / poll)
  {
    if n > 0 {
      AskedInTime(response, clock, startedAt, timeout, poll, accessId, wait, n - 1);
    } else {
      CeilingIsNatural(timeout, poll);
    }
  }

  /**
   `response(k)` answers the k-th read and `clock(k)` is the time checked after
   it; `None` means that the poll is still going on after `horizon` reads. For
   any clock, a poll that ends ends at the first read that decides. When each
   sleep lasts at least the poll interval it ends within a number of reads
   bounded by the timeout.
   */
  method GetAccessTelemetry(
    accessId: AccessId, wait: bool, timeout: real, poll: real,
    response: Responses, clock: nat -> real, startedAt: real, horizon: nat)
    returns (outcome: Option<Result<Report, PollError>>, n: nat)
    ensures (Blank(accessId) || timeout < 0.0 || poll <= 0.0) ==> outcome == Some(Err(BadArgument)) && n == 0
    ensures !(Blank(accessId) || timeout < 0.0 || poll <= 0.0) ==>
      && (outcome.Some? ==> Polled(response, clock, startedAt + timeout, accessId, wait, n, outcome.value))
      && (outcome.None? ==> n == horizon && StillAsking(response, clock, startedAt + timeout, accessId, wait, n))
      && (!wait ==> n <= 1)
      && (SleepsFully(clock, startedAt, poll) ==> n <= Ceiling(timeout / poll) + 1)
      && (SleepsFully(clock, startedAt, poll) && horizon > Ceiling(timeout / poll) ==> outcome.Some?)
  {
    n := 0;
    if Blank(accessId) || timeout < 0.0 || poll <= 0.0 {
      return Some(Err(BadArgument)), 0;
    }
    var deadline := startedAt + timeout;
    while n < horizon
      invariant n <= horizon && StillAsking(response, clock, deadline, accessId, wait, n)
      invariant !wait ==> n == 0
    {
      var decision := Decide(response(n), clock(n), deadline, accessId, wait);
      if decision.Some? {
        if SleepsFully(clock, startedAt, poll) {
          FewAsk(response, clock, startedAt, timeout, poll, accessId, wait, n);
        }
        return Some(decision.value), n + 1;
      }
      n := n + 1;
    }
    if SleepsFully(clock, startedAt, poll) {
      FewAsk(response, clock, startedAt, timeout, poll, accessId, wait, n);
    }
    return None, n;
  }

  lemma {:induction false} ReleasedRowIncluded(ts: seq<Transfer>, id: AccessId, t: nat)
    requires t < |ts| && ts[t].accessId == id && ts[t].phase.Released?
    ensures ts[t].phase.row in DurableRows(ts, id)
  {
    var last := |ts| - 1;
    if t < last {
      ReleasedRowIncluded(ts[..last], id, t);
    } else {
      assert RowOf(ts[last], id) == [ts[t].phase.row];
    }
  }

  /**
   No under-count, end to end. A waiting poll starts when the server is in
   `tr[start]`, and its k-th read is the reply given at `tr[at(k)]`. If it
   returns a report, every transfer reserved before the poll started is final
   and its row is one of the rows that report aggregates.
   */
  lemma {:induction false} NoUnderCount(
    size: AccessId -> nat, tr: seq<State>, start: nat, at: nat -> nat, reader: nat -> nat,
    response: Responses, clock: nat -> real, deadline: real, id: AccessId, n: nat, report: Report,
    o: Option<string>, rep: string, v: Option<string>)
    returns (i: nat)
    requires Run(size, tr) && start < |tr|
    requires Polled(response, clock, deadline, id, true, n, Ok(report))
    requires forall k {:trigger at(k)} {:trigger response(k)} :: 0 <= k < n ==>
      && start <= at(k) && RepliesAt(tr, at(k), reader(k))
      && response(k) == Ok(ReportOf(tr[at(k) + 1].readers[reader(k)].accessId,
                                 tr[at(k) + 1].readers[reader(k)].stage.reply, o, rep, v))
    ensures i == at(n - 1) && start <= i < |tr|
    ensures
      var later := tr[i].transfers;
      && CountsEveryTransfer(later, id, report.summary)
      && Extends(tr[start].transfers, later)
      && Reserved(tr[start].transfers, id) <= report.summary.requests
      && forall t :: 0 <= t < |tr[start].transfers| && tr[start].transfers[t].accessId == id ==>
           later[t].phase.Released? && later[t].phase.row in DurableRows(later, id)
  {
    i := at(n - 1);
    var r := reader(n - 1);
    assert response(n - 1).Ok?;
    var later := tr[i].transfers;
    assert Complete(report);
    var j := QuiescenceSound(size, tr, i + 1, r);
    OneReply(size, tr, j, i, r);
    RunExtends(size, tr, start, i);
    ReservedPrefix(tr[start].transfers, later, id);
    forall t | 0 <= t < |tr[start].transfers| && tr[start].transfers[t].accessId == id
      ensures later[t].phase.Released? && later[t].phase.row in DurableRows(later, id)
    {
      assert later[t].accessId == id;
      ReleasedRowIncluded(later, id, t);
    }
  }

  /** A reader replies once. */
  lemma {:induction false} OneReply(size: AccessId -> nat, tr: seq<State>, j: nat, i: nat, r: nat)
    requires Run(size, tr) && j <= i && RepliesAt(tr, j, r) && RepliesAt(tr, i, r)
    ensures i == j
  {
    if j < i {
      StaysReplied(size, tr, j + 1, i, r);
    }
  }

  lemma {:induction false} StaysReplied(size: AccessId -> nat, tr: seq<State>, a: nat, b: nat, r: nat)
    requires Run(size, tr) && a <= b < |tr|
    requires r < |tr[a].readers| && tr[a].readers[r].stage.Replied?
    ensures r < |tr[b].readers| && tr[b].readers[r] == tr[a].readers[r]
    decreases b
  {
    if a < b {
      StaysReplied(size, tr, a, b - 1, r);
      assert Next(size, tr[b - 1], tr[b - 1 + 1]);
    }
  }

  // ---------- delivery reconciliation ----------

  datatype DeliveryError =
    | TelemetryUnsupported | TelemetryNotQuiescent | TelemetryIncomplete
    | RepresentationMismatch | ObjectMismatch | CatalogMismatch
    | NoDownloadRecorded | NoCompletedRequest | PartialDownloadOnly | BytesBelowArtifactSize

  datatype DeliveryChecks = DeliveryChecks(exactlyOneFullDownload: bool, bytesEqualArtifactSize: bool)

  function ReconcileDelivery(
    report: Report, artifactSize: nat, expectedObject: string,
    expectedRepresentation: string, expectedCatalog: Option<string>): Result<DeliveryChecks, DeliveryError>
  {
    if !Supported(report) then Err(TelemetryUnsupported)
    else if report.inFlight.value != 0 then Err(TelemetryNotQuiescent)
    else if !Complete(report) then Err(TelemetryIncomplete)
    else if report.representationId != expectedRepresentation then Err(RepresentationMismatch)
    else if report.objectId.Some? && report.objectId.value != expectedObject then Err(ObjectMismatch)
    else if expectedCatalog.Some? && report.catalogVersion != expectedCatalog then Err(CatalogMismatch)
    else if report.summary.requests < 1 then Err(NoDownloadRecorded)
    else if report.summary.completed < 1 then Err(NoCompletedRequest)
    else if report.summary.full < 1 then Err(PartialDownloadOnly)
    else if report.summary.bytesSent < artifactSize then Err(BytesBelowArtifactSize)
    else Ok(DeliveryChecks(
      report.summary.full == 1 && report.summary.requests == 1 && report.summary.completed == 1,
      report.summary.bytesSent == artifactSize))
  }

  /**
   For a report of any reachable server state, the byte check cannot refuse
   what the full-download check let through, so delivery is accepted exactly on
   a complete, matching report with a full download; and exactly one full download
   means exactly one artifact's worth of bytes.
   */
  lemma {:induction false} DeliveryImpliedByLedger(
    size: AccessId -> nat, tr: seq<State>, i: nat, report: Report,
    expectedObject: string, expectedRepresentation: string, expectedCatalog: Option<string>)
    requires Run(size, tr) && i < |tr|
    requires report.summary == Summarize(RowsFor(tr[i].rows, report.accessId))
    ensures
      var got := ReconcileDelivery(report, size(report.accessId), expectedObject, expectedRepresentation, expectedCatalog);
      && got != Err(BytesBelowArtifactSize)
      && (got.Ok? <==>
            && Complete(report)
            && report.representationId == expectedRepresentation
            && (report.objectId.Some? ==> report.objectId.value == expectedObject)
            && (expectedCatalog.Some? ==> report.catalogVersion == expectedCatalog)
            && report.summary.full >= 1)
      && (got.Ok? && got.value.exactlyOneFullDownload ==> got.value.bytesEqualArtifactSize)
  {
    ReachableAccounting(size, tr, i, report.accessId);
    var s, n := report.summary, size(report.accessId);
    if s.full >= 1 {
      AtLeastOnce(s.full, n);
    }
  }

  /** Which reports are refused for what, the earlier checks first. */
  lemma {:induction false} DeliveryVerdicts(
    report: Report, size: nat, expectedObject: string, expectedRepresentation: string, expectedCatalog: Option<string>)
    ensures
      var got := ReconcileDelivery(report, size, expectedObject, expectedRepresentation, expectedCatalog);
      && (got == Err(TelemetryUnsupported) <==> report.inFlight == None || report.serverComplete == None)
      && (Supported(report) ==>
            && (got == Err(TelemetryNotQuiescent) <==> report.inFlight != Some(0))
            && (got == Err(TelemetryIncomplete) <==> report.inFlight == Some(0) && report.serverComplete == Some(false)))
      && (Complete(report) ==>
            && (got == Err(RepresentationMismatch) <==> report.representationId != expectedRepresentation)
            && (report.representationId == expectedRepresentation ==>
                  (got == Err(ObjectMismatch) <==> report.objectId != None && report.objectId != Some(expectedObject)))
            && (got == Err(CatalogMismatch) ==> expectedCatalog != None && report.catalogVersion != expectedCatalog)
            && (got == Err(NoDownloadRecorded) ==> report.summary.requests == 0)
            && (got == Err(NoCompletedRequest) ==> report.summary.completed == 0)
            && (got == Err(PartialDownloadOnly) ==> report.summary.full == 0))
      && (got.Ok? ==>
            && report.summary.requests >= 1 && report.summary.completed >= 1 && report.summary.full >= 1
            && size <= report.summary.bytesSent
            && (got.value.exactlyOneFullDownload <==>
                  report.summary.requests == 1 && report.summary.completed == 1 && report.summary.full == 1)
            && (got.value.bytesEqualArtifactSize <==> report.summary.bytesSent == size))
  {
  }

  lemma {:induction false} AtLeastOnce(count: nat, n: nat)
    requires count >= 1
    ensures n <= count * n
  {
  }
}
