/**
 The durable transfer ledger of the Data Agent: one row per artifact transfer,
 and the SQL aggregate that telemetry reports for one access.
 */
module Ledger {
  import opened Basics
  import Statistics

  type AccessId = string

  /** One row of the artifact download table. */
  datatype Row = Row(
    accessId: AccessId,
    rangeStart: int,
    rangeEnd: int,
    bytesSent: nat,
    durationMs: real,
    completed: bool,
    fullArtifact: bool,
    startedAt: real,
    completedAt: real)

  /** The aggregate columns computed over the rows of one access. */
  datatype Summary = Summary(
    requests: nat,
    completed: nat,
    full: nat,
    bytesSent: nat,
    latencyMs: real,
    latestCompletedAt: Option<real>)

  const EMPTY_SUMMARY := Summary(0, 0, 0, 0, 0.0, None)

  function Later(a: Option<real>, b: Option<real>): Option<real> {
    match (a, b)
    case (None, _) => b
    case (_, None) => a
    case (Some(x), Some(y)) => if x < y then b else a
  }

  function AddRow(s: Summary, r: Row): Summary {
    Summary(
      s.requests + 1,
      s.completed + (if r.completed then 1 else 0),
      s.full + (if r.completed && r.fullArtifact then 1 else 0),
      s.bytesSent + r.bytesSent,
      s.latencyMs + r.durationMs,
      Later(s.latestCompletedAt, if r.completed then Some(r.completedAt) else None))
  }

  /** COUNT, the SUMs and the MAX of the summary query, over the given rows. */
  function Summarize(rows: seq<Row>): Summary {
    if rows == [] then EMPTY_SUMMARY
    else AddRow(Summarize(rows[..|rows| - 1]), rows[|rows| - 1])
  }

  /** The WHERE clause of the summary query. */
  function RowsFor(rows: seq<Row>, id: AccessId): seq<Row> {
    if rows == [] then []
    else
      var r := rows[|rows| - 1];
      RowsFor(rows[..|rows| - 1], id) + (if r.accessId == id then [r] else [])
  }

  // ---------- what each column is ----------

  /** The positions of the completed rows, and of those that carried the whole artifact. */
  ghost function CompletedAt(rows: seq<Row>): set<int> {
    set i | 0 <= i < |rows| && rows[i].completed
  }

  ghost function FullAt(rows: seq<Row>): set<int> {
    set i | 0 <= i < |rows| && rows[i].completed && rows[i].fullArtifact
  }

  function BytesColumn(rows: seq<Row>): (xs: seq<real>)
    ensures |xs| == |rows| && forall i :: 0 <= i < |rows| ==> xs[i] == rows[i].bytesSent as real
  {
    seq(|rows|, i requires 0 <= i < |rows| => rows[i].bytesSent as real)
  }

  function LatencyColumn(rows: seq<Row>): (xs: seq<real>)
    ensures |xs| == |rows| && forall i :: 0 <= i < |rows| ==> xs[i] == rows[i].durationMs
  {
    seq(|rows|, i requires 0 <= i < |rows| => rows[i].durationMs)
  }

  /** The latest completion time of the rows: none without a completed row, else a completed row's, not below any other's. */
  ghost predicate IsLatest(latest: Option<real>, rows: seq<Row>) {
    match latest
    case None => forall i :: 0 <= i < |rows| ==> !rows[i].completed
    case Some(t) =>
      && (exists i :: 0 <= i < |rows| && rows[i].completed && rows[i].completedAt == t)
      && forall i :: 0 <= i < |rows| && rows[i].completed ==> rows[i].completedAt <= t
  }

  /** Every aggregate column of the summary, each in terms of the rows alone. */
  ghost predicate Describes(s: Summary, rows: seq<Row>) {
    && s.requests == |rows|
    && s.completed == |CompletedAt(rows)|
    && s.full == |FullAt(rows)|
    && s.bytesSent as real == Statistics.Sum(BytesColumn(rows))
    && s.latencyMs == Statistics.Sum(LatencyColumn(rows))
    && IsLatest(s.latestCompletedAt, rows)
  }

  lemma {:induction false} CompletedNext(rows: seq<Row>, r: Row)
    ensures |CompletedAt(rows + [r])| == |CompletedAt(rows)| + (if r.completed then 1 else 0)
  {
    var last: set<int> := {|rows|};
    assert CompletedAt(rows + [r]) == CompletedAt(rows) + (if r.completed then last else {});
  }

  lemma {:induction false} FullNext(rows: seq<Row>, r: Row)
    ensures |FullAt(rows + [r])| == |FullAt(rows)| + (if r.completed && r.fullArtifact then 1 else 0)
  {
    var last: set<int> := {|rows|};
    assert FullAt(rows + [r]) == FullAt(rows) + (if r.completed && r.fullArtifact then last else {});
  }

  lemma {:induction false} ColumnsNext(rows: seq<Row>, r: Row)
    ensures Statistics.Sum(BytesColumn(rows + [r])) == Statistics.Sum(BytesColumn(rows)) + r.bytesSent as real
    ensures Statistics.Sum(LatencyColumn(rows + [r])) == Statistics.Sum(LatencyColumn(rows)) + r.durationMs
  {
    var next := rows + [r];
    assert BytesColumn(next)[..|rows|] == BytesColumn(rows);
    assert LatencyColumn(next)[..|rows|] == LatencyColumn(rows);
  }

  lemma {:induction false} LatestNext(latest: Option<real>, rows: seq<Row>, r: Row)
    requires IsLatest(latest, rows)
    ensures IsLatest(Later(latest, if r.completed then Some(r.completedAt) else None), rows + [r])
  {
    var next := rows + [r];
    assert forall i :: 0 <= i < |rows| ==> next[i] == rows[i];
    assert next[|rows|] == r;
    if latest.Some? {
      var i :| 0 <= i < |rows| && rows[i].completed && rows[i].completedAt == latest.value;
      assert next[i].completed && next[i].completedAt == latest.value;
    }
  }

  /** The summary query reports what its columns say. */
  lemma {:induction false} SummaryColumns(rows: seq<Row>)
    ensures Describes(Summarize(rows), rows)
  {
    if rows != [] {
      var front, r := rows[..|rows| - 1], rows[|rows| - 1];
      assert rows == front + [r];
      SummaryColumns(front);
      CompletedNext(front, r);
      FullNext(front, r);
      ColumnsNext(front, r);
      LatestNext(Summarize(front).latestCompletedAt, front, r);
    }
  }

  lemma {:induction false} AddRowCommutes(s: Summary, x: Row, y: Row)
    ensures AddRow(AddRow(s, x), y) == AddRow(AddRow(s, y), x)
  {
  }

  lemma {:induction false} SummarizeRemove(rows: seq<Row>, i: nat)
    requires i < |rows|
    ensures Summarize(rows) == AddRow(Summarize(rows[..i] + rows[i + 1..]), rows[i])
  {
    var last := |rows| - 1;
    if i == last {
      assert rows[..i] + rows[i + 1..] == rows[..last];
    } else {
      var front := rows[..last];
      SummarizeRemove(front, i);
      var less := front[..i] + front[i + 1..];
      assert rows[..i] + rows[i + 1..] == less + [rows[last]];
      assert (less + [rows[last]])[..|less|] == less;
      AddRowCommutes(Summarize(less), rows[i], rows[last]);
    }
  }

  /** The summary depends on which rows are present, not on their commit order. */
  lemma {:induction false} SummarizePermutation(a: seq<Row>, b: seq<Row>)
    requires multiset(a) == multiset(b)
    ensures Summarize(a) == Summarize(b)
    decreases |a|
  {
    assert |a| == |multiset(a)| == |multiset(b)| == |b|;
    if a != [] {
      var last := |a| - 1;
      var x := a[last];
      assert x in multiset(b);
      var i :| 0 <= i < |b| && b[i] == x;
      var less := b[..i] + b[i + 1..];
      assert a == a[..last] + [x];
      assert b == b[..i] + [x] + b[i + 1..];
      assert multiset(a[..last]) == multiset(a) - multiset{x};
      assert multiset(less) == multiset(b) - multiset{x};
      SummarizePermutation(a[..last], less);
      SummarizeRemove(b, i);
    }
  }

  /**
   What the transfer handler can write for an artifact of `size` bytes: the
   interval it parsed, a full flag that means the interval is the whole
   artifact, and a byte count that is the whole interval when completed.
   */
  ghost predicate HandlerRow(r: Row, id: AccessId, size: nat) {
    && r.accessId == id
    && (if size == 0 then r.rangeStart == 0 && r.rangeEnd == -1
        else 0 <= r.rangeStart <= r.rangeEnd < size)
    && (r.fullArtifact <==> size == 0 || (r.rangeStart == 0 && r.rangeEnd == size - 1))
    && r.bytesSent <= r.rangeEnd - r.rangeStart + 1
    && (r.completed ==> r.bytesSent == r.rangeEnd - r.rangeStart + 1)
  }

  /**
   Over any rows the handler wrote for one artifact of `size` bytes, a full
   download is a completed request, and every full download accounts for the
   whole artifact. When every request was a full download the byte total is
   exactly that many artifacts.
   */
  lemma {:induction false} LedgerAccounting(rows: seq<Row>, id: AccessId, size: nat)
    requires forall i :: 0 <= i < |rows| ==> HandlerRow(rows[i], id, size)
    ensures
      var s := Summarize(rows);
      && s.full <= s.completed <= s.requests == |rows|
      && s.full * size <= s.bytesSent <= s.requests * size
      && (s.full == s.requests ==> s.bytesSent == s.requests * size)
  {
    if rows != [] {
      var front := rows[..|rows| - 1];
      LedgerAccounting(front, id, size);
      var r := rows[|rows| - 1];
      assert HandlerRow(r, id, size);
      AccountOneRow(Summarize(front), r, id, size);
    }
  }

  lemma {:induction false} AccountOneRow(s: Summary, r: Row, id: AccessId, size: nat)
    requires HandlerRow(r, id, size)
    requires s.full <= s.completed <= s.requests
    requires s.full * size <= s.bytesSent <= s.requests * size
    requires s.full == s.requests ==> s.bytesSent == s.requests * size
    ensures
      var s' := AddRow(s, r);
      && s'.full <= s'.completed <= s'.requests == s.requests + 1
      && s'.full * size <= s'.bytesSent <= s'.requests * size
      && (s'.full == s'.requests ==> s'.bytesSent == s'.requests * size)
  {
    assert r.bytesSent <= size;
    OneMore(s.requests, size);
    OneMore(s.full, size);
  }

  lemma {:induction false} RowsForConcat(rows: seq<Row>, r: Row, id: AccessId)
    ensures RowsFor(rows + [r], id) == RowsFor(rows, id) + (if r.accessId == id then [r] else [])
  {
    assert (rows + [r])[..|rows|] == rows;
  }
}
