/**
 One ranged artifact download, end to end: the client prints a Range header,
 the Data Agent parses and clips it, streams the interval in chunks and prints
 Content-Range, and the strict client parses that and accepts or refuses.
 */
module ByteRanges {
  import opened Basics
  import opened Numerals
  import opened Ledger

  const CHUNK_BYTES: nat := 1024 * 1024

  // ---------- the server's side ----------

  /** Inclusive bounds, and whether a Range header asked for them. */
  datatype Interval = Interval(start: int, end: int, ranged: bool)

  datatype NotSatisfiable = NotSatisfiable

  function Max(a: int, b: int): int { if a < b then b else a }

  function Min(a: int, b: int): int { if a < b then a else b }

  function ParseRange(raw: Option<string>, size: nat): (r: Result<Interval, NotSatisfiable>)
    ensures r.Ok? && size > 0 ==> 0 <= r.value.start <= r.value.end < size
    ensures r.Ok? && size == 0 ==> r.value == Interval(0, -1, false)
    ensures r.Ok? && size > 0 ==> (r.value.ranged <==> raw.Some?)
  {
    if size == 0 then Ok(Interval(0, -1, false))
    else if raw.None? then Ok(Interval(0, size - 1, false))
    else if !("bytes=" <= raw.value) || ',' in raw.value then Err(NotSatisfiable)
    else
      match Partition(raw.value[6..], '-')
      case None => Err(NotSatisfiable)
      case Some((startText, endText)) =>
        var bounds :=
          if startText != "" then
            (ParseDecimal(startText), if endText != "" then ParseDecimal(endText) else Some((size - 1) as nat))
          else
            match ParseDecimal(endText)
            case None => (None, None)
            case Some(suffix) =>
              if suffix == 0 then (None, None)
              else (Some(Max(0, size - suffix) as nat), Some((size - 1) as nat));
        if bounds.0.None? || bounds.1.None? then Err(NotSatisfiable)
        else if bounds.1.value < bounds.0.value || bounds.0.value >= size then Err(NotSatisfiable)
        else Ok(Interval(bounds.0.value, Min(bounds.1.value, size - 1), true))
  }

  /** What interrupts the handler while it writes a response, if anything does. */
  datatype Fault = NoFault | AtHeaders | AtChunk(chunk: nat) | AtFlush

  /**
   The chunk loop. It counts a chunk only after writing it, and it completes
   only when nothing remains; a file shorter than announced ends the loop early.
   */
  method StreamBody(file: seq<Byte>, start: nat, contentLength: nat, fault: Fault)
    returns (sent: seq<Byte>, completed: bool)
    ensures |sent| <= contentLength
    ensures start + |sent| <= Max(start, |file|) && (sent != [] ==> sent == file[start..start + |sent|])
    ensures completed ==> |sent| == contentLength
    ensures fault.NoFault? && start + contentLength <= |file| ==> completed
    ensures fault.NoFault? ==> (completed <==> |sent| == contentLength)
    ensures fault.NoFault? ==> |sent| == Min(contentLength, Max(0, |file| - start))
    ensures fault.AtHeaders? ==> sent == [] && !completed
    ensures fault.AtChunk? && start + contentLength <= |file| ==>
      |sent| == Min(contentLength, fault.chunk * CHUNK_BYTES) && (completed <==> |sent| == contentLength)
    ensures fault.AtFlush? ==> |sent| == Min(contentLength, Max(0, |file| - start)) && (completed <==> contentLength == 0)
  {
    sent := [];
    completed := false;
    if fault.AtHeaders? {
      return;
    }
    var remaining := contentLength;
    var chunks := 0;
    while remaining > 0
      invariant 0 <= remaining == contentLength - |sent|
      invariant start + |sent| <= Max(start, |file|)
      invariant sent != [] ==> sent == file[start..start + |sent|]
      invariant fault.AtChunk? ==> chunks <= fault.chunk
      invariant start + contentLength <= |file| ==> |sent| == Min(contentLength, chunks * CHUNK_BYTES)
    {
      var position := start + |sent|;
      if position >= |file| {
        break;
      }
      var chunk := file[position..Min(position + Min(CHUNK_BYTES, remaining), |file|)];
      if fault == AtChunk(chunks) {
        return;
      }
      sent := sent + chunk;
      remaining := remaining - |chunk|;
      chunks := chunks + 1;
    }
    if fault.AtFlush? && contentLength > 0 {
      return;
    }
    completed := remaining == 0;
  }

  datatype Response = Response(
    status: nat,
    contentRange: Option<string>,
    contentLength: string,
    mediaType: string,
    etag: string,
    body: seq<Byte>)

  datatype Artifact = Artifact(accessId: AccessId, size: nat, mediaType: string, sha256: string)

  function ContentRange(start: nat, end: nat, size: nat): string {
    "bytes " + Decimal(start) + "-" + Decimal(end) + "/" + Decimal(size)
  }

  function Quoted(s: string): string { "\"" + s + "\"" }

  /** The response for an interval whose body is `body`. */
  function Headed(artifact: Artifact, i: Interval, body: seq<Byte>): Response
    requires 0 <= i.start && -1 <= i.end
  {
    Response(
      if i.ranged then 206 else 200,
      if i.ranged && i.end >= 0 then Some(ContentRange(i.start, i.end, artifact.size)) else None,
      Decimal(Max(0, i.end - i.start + 1)),
      artifact.mediaType,
      Quoted(artifact.sha256),
      body)
  }

  function Unsatisfiable(artifact: Artifact): Response {
    Response(416, Some("bytes */" + Decimal(artifact.size)), "0", "", "", [])
  }

  /** The response to a request that nothing interrupts. */
  function Served(artifact: Artifact, file: seq<Byte>, raw: Option<string>): Response
    requires |file| == artifact.size
  {
    match ParseRange(raw, artifact.size)
    case Err(_) => Unsatisfiable(artifact)
    case Ok(i) => Headed(artifact, i, file[i.start..i.end + 1])
  }

  /**
   The transfer handler. `row` is what it records in its finally block, faulted
   or not; an unsatisfiable range records nothing because nothing was reserved.
   */
  method WriteArtifact(
    artifact: Artifact, file: seq<Byte>, raw: Option<string>, fault: Fault,
    startedAt: real, completedAt: real, durationMs: real)
    returns (response: Response, row: Option<Row>)
    ensures row.None? <==> ParseRange(raw, artifact.size).Err?
    ensures row.Some? ==> HandlerRow(row.value, artifact.accessId, artifact.size)
    ensures row.Some? ==>
      var i := ParseRange(raw, artifact.size).value;
      && row.value.rangeStart == i.start && row.value.rangeEnd == i.end
      && row.value.bytesSent == |response.body|
      && row.value.startedAt == startedAt && row.value.completedAt == completedAt && row.value.durationMs == durationMs
    ensures row.Some? && fault.NoFault? && |file| == artifact.size ==> row.value.completed
    ensures raw.None? && fault.NoFault? && |file| == artifact.size ==>
      row.Some? && row.value.completed && row.value.fullArtifact && row.value.bytesSent == |file|
    ensures fault.NoFault? && |file| == artifact.size ==> response == Served(artifact, file, raw)
  {
    var parsed := ParseRange(raw, artifact.size);
    if parsed.Err? {
      return Unsatisfiable(artifact), None;
    }
    var i := parsed.value;
    var contentLength: nat := Max(0, i.end - i.start + 1);
    var sent, completed := StreamBody(file, i.start, contentLength, fault);
    response := Headed(artifact, i, sent);
    row := Some(Row(
      artifact.accessId, i.start, i.end, |sent|, durationMs, completed,
      artifact.size == 0 || (i.start == 0 && i.end == artifact.size - 1),
      startedAt, completedAt));
  }

  // ---------- the client's side ----------

  datatype ClientError =
    | WrongStatus | BadContentRange | RangeDiffers | BadContentLength
    | LengthDiffers | BadEtag | BodyDiffers | NoMediaType
    | RangeTooLarge | ArtifactTooLarge | MediaTypeDiffers | EtagDiffers | DigestDiffers

  datatype Download = Download(data: seq<Byte>, mediaType: string, fullSize: nat, fullDigest: string)

  function RangeHeader(a: nat, b: nat): string {
    "bytes=" + Decimal(a) + "-" + Decimal(b)
  }

  function Triple(x: Option<nat>, y: Option<nat>, z: Option<nat>): Option<(nat, nat, nat)> {
    if x.Some? && y.Some? && z.Some? then Some((x.value, y.value, z.value)) else None
  }

  /** The anchored pattern of three digit runs the client demands of Content-Range. */
  function MatchContentRange(s: string): Option<(nat, nat, nat)> {
    if !("bytes " <= s) then None
    else
      match Partition(s[6..], '-')
      case None => None
      case Some((start, rest)) =>
        match Partition(rest, '/')
        case None => None
        case Some((end, size)) => Triple(ParseDecimal(start), ParseDecimal(end), ParseDecimal(size))
  }

  predicate IsEtag(s: string) {
    |s| == 66 && s[0] == '\"' && s[65] == '\"' && IsDigest(s[1..65])
  }

  /** The client's checks on a response to its request for bytes `a` to `b`, in order. */
  function DownloadRange(response: Response, a: nat, b: nat): Result<Download, ClientError>
    requires a <= b
  {
    if response.status != 206 then Err(WrongStatus)
    else
      match MatchContentRange(if response.contentRange.Some? then response.contentRange.value else "")
      case None => Err(BadContentRange)
      case Some((start, end, fullSize)) =>
        if start != a || end != b || fullSize <= b then Err(RangeDiffers)
        else if ParseDecimal(response.contentLength).None? then Err(BadContentLength)
        else if ParseDecimal(response.contentLength).value != b - a + 1 then Err(LengthDiffers)
        else if !IsEtag(response.etag) then Err(BadEtag)
        else
          var data := response.body[..Min(|response.body|, b - a + 2)];
          if |data| != b - a + 1 then Err(BodyDiffers)
          else if response.mediaType == "" then Err(NoMediaType)
          else Ok(Download(data, response.mediaType, fullSize, response.etag[1..65]))
  }

  /** The whole ranged fetch: the size bound, the download, and both digest checks. */
  function FetchRange(
    response: Response, a: nat, b: nat, maxBytes: nat,
    declaredMediaType: string, declaredSha256: string, expectedSha256: string,
    sha256: seq<Byte> -> string): Result<seq<Byte>, ClientError>
    requires a <= b
  {
    if b - a + 1 > maxBytes then Err(RangeTooLarge)
    else
      match DownloadRange(response, a, b)
      case Err(e) => Err(e)
      case Ok(d) =>
        if d.mediaType != declaredMediaType then Err(MediaTypeDiffers)
        else if d.fullDigest != declaredSha256 then Err(EtagDiffers)
        else if sha256(d.data) != expectedSha256 then Err(DigestDiffers)
        else Ok(d.data)
  }

  // ---------- the round trip ----------

  /** The server reads back exactly the interval the client printed, and clips its end. */
  lemma {:induction false} ParsePrintedRange(a: nat, b: nat, size: nat)
    requires a <= b && size > 0
    ensures ParseRange(Some(RangeHeader(a, b)), size)
         == if a < size then Ok(Interval(a, Min(b, size - 1), true)) else Err(NotSatisfiable)
  {
    var raw := RangeHeader(a, b);
    assert raw[..6] == "bytes=" && raw[6..] == Decimal(a) + ['-'] + Decimal(b);
    DecimalHasNo(a, '-');
    PartitionAt(Decimal(a), '-', Decimal(b));
    DecimalHasNo(a, ',');
    DecimalHasNo(b, ',');
    assert ',' !in raw;
    ParsePrint(a, 10, 0);
    ParsePrint(b, 10, 0);
  }

  /** An open-ended range runs to the last byte. */
  lemma {:induction false} ParseOpenRange(a: nat, size: nat)
    requires size > 0
    ensures ParseRange(Some("bytes=" + Decimal(a) + "-"), size)
         == if a < size then Ok(Interval(a, size - 1, true)) else Err(NotSatisfiable)
  {
    var open := "bytes=" + Decimal(a) + "-";
    assert open[..6] == "bytes=" && open[6..] == Decimal(a) + ['-'] + [];
    DecimalHasNo(a, '-');
    DecimalHasNo(a, ',');
    PartitionAt(Decimal(a), '-', []);
    ParsePrint(a, 10, 0);
  }

  /** A suffix range counts from the end. */
  lemma {:induction false} ParseSuffixRange(k: nat, size: nat)
    requires size > 0
    ensures ParseRange(Some("bytes=-" + Decimal(k)), size)
         == if k > 0 then Ok(Interval(Max(0, size - k), size - 1, true)) else Err(NotSatisfiable)
  {
    var suffix := "bytes=-" + Decimal(k);
    assert suffix[..6] == "bytes=" && suffix[6..] == [] + ['-'] + Decimal(k);
    PartitionAt([], '-', Decimal(k));
    DecimalHasNo(k, ',');
    ParsePrint(k, 10, 0);
  }

  lemma {:induction false} MatchPrintedContentRange(start: nat, end: nat, size: nat)
    ensures MatchContentRange(ContentRange(start, end, size)) == Some((start, end, size))
  {
    var s := ContentRange(start, end, size);
    var rest := Decimal(end) + ['/'] + Decimal(size);
    assert s[..6] == "bytes " && s[6..] == Decimal(start) + ['-'] + rest;
    DecimalHasNo(start, '-');
    PartitionAt(Decimal(start), '-', rest);
    DecimalHasNo(end, '/');
    PartitionAt(Decimal(end), '/', Decimal(size));
    ParsePrint(start, 10, 0);
    ParsePrint(end, 10, 0);
    ParsePrint(size, 10, 0);
  }

  /** Partial content for bytes `a` to `end` of the artifact, as the client's parsers see it. */
  predicate Parsed(r: Response, artifact: Artifact, a: nat, end: nat)
    requires a <= end
  {
    && r.status == 206 && r.contentRange.Some?
    && MatchContentRange(r.contentRange.value) == Some((a, end, artifact.size))
    && ParseDecimal(r.contentLength) == Some(end - a + 1)
    && IsEtag(r.etag) && r.etag[1..65] == artifact.sha256
    && r.mediaType == artifact.mediaType
  }

  /** What the server prints, the client parses. */
  lemma {:induction false} HeadedIsParsed(artifact: Artifact, body: seq<Byte>, a: nat, end: nat)
    requires a <= end < artifact.size && IsDigest(artifact.sha256)
    ensures Parsed(Headed(artifact, Interval(a, end, true), body), artifact, a, end)
  {
    MatchPrintedContentRange(a, end, artifact.size);
    ParsePrint(end - a + 1, 10, 0);
    assert Quoted(artifact.sha256)[1..65] == artifact.sha256;
  }

  /** The client accepts a clipped interval exactly when clipping left it alone. */
  lemma {:induction false} CheckParsed(r: Response, artifact: Artifact, a: nat, end: nat, b: nat)
    requires a <= end <= b && end < artifact.size && |r.body| == end - a + 1
    requires Parsed(r, artifact, a, end) && artifact.mediaType != ""
    ensures DownloadRange(r, a, b)
         == if end == b then Ok(Download(r.body, artifact.mediaType, artifact.size, artifact.sha256)) else Err(RangeDiffers)
  {
    assert r.body[..|r.body|] == r.body;
  }

  /** The response to a request for bytes `a` to `b`: the clipped interval, or no partial content at all. */
  predicate Answers(artifact: Artifact, file: seq<Byte>, response: Response, a: nat, b: nat)
    requires a <= b && |file| == artifact.size
  {
    if a < artifact.size then
      var end := Min(b, artifact.size - 1);
      Parsed(response, artifact, a, end) && response.body == file[a..end + 1]
    else response.status != 206
  }

  lemma {:induction false} AcceptAnswer(artifact: Artifact, file: seq<Byte>, response: Response, a: nat, b: nat)
    requires a <= b && |file| == artifact.size && Answers(artifact, file, response, a, b) && artifact.mediaType != ""
    ensures
      var got := DownloadRange(response, a, b);
      && (got.Ok? <==> b < |file|)
      && (got.Ok? ==> got.value == Download(file[a..b + 1], artifact.mediaType, |file|, artifact.sha256))
  {
    if a < artifact.size {
      CheckParsed(response, artifact, a, Min(b, artifact.size - 1), b);
    }
  }

  lemma {:induction false} ServedAnswers(artifact: Artifact, file: seq<Byte>, raw: string, a: nat, b: nat)
    requires a <= b && |file| == artifact.size && IsDigest(artifact.sha256)
    requires artifact.size > 0 ==>
      ParseRange(Some(raw), artifact.size)
        == if a < artifact.size then Ok(Interval(a, Min(b, artifact.size - 1), true)) else Err(NotSatisfiable)
    ensures Answers(artifact, file, Served(artifact, file, Some(raw)), a, b)
  {
    if a < artifact.size {
      var end := Min(b, artifact.size - 1);
      ServedInterval(artifact, file, raw, Interval(a, end, true));
      HeadedIsParsed(artifact, file[a..end + 1], a, end);
    } else {
      NothingServed(artifact, file, raw);
    }
  }

  lemma {:induction false} ServedInterval(artifact: Artifact, file: seq<Byte>, raw: string, i: Interval)
    requires |file| == artifact.size && ParseRange(Some(raw), artifact.size) == Ok(i) && 0 <= i.start <= i.end < |file|
    ensures Served(artifact, file, Some(raw)) == Headed(artifact, i, file[i.start..i.end + 1])
  {
  }

  lemma {:induction false} NothingServed(artifact: Artifact, file: seq<Byte>, raw: string)
    requires |file| == artifact.size && (artifact.size > 0 ==> ParseRange(Some(raw), artifact.size).Err?)
    ensures Served(artifact, file, Some(raw)).status != 206
  {
  }

  /**
   Range round trip. For every artifact and every `a <= b`, the client accepts
   the served response exactly when byte `b` exists, and then it holds exactly
   bytes `a` to `b`, the full size and the full digest.
   */
  lemma {:induction false} RangeRoundTrip(artifact: Artifact, file: seq<Byte>, a: nat, b: nat)
    requires a <= b && |file| == artifact.size
    requires IsDigest(artifact.sha256) && artifact.mediaType != ""
    ensures
      var got := DownloadRange(Served(artifact, file, Some(RangeHeader(a, b))), a, b);
      && (got.Ok? <==> b < |file|)
      && (got.Ok? ==> got.value == Download(file[a..b + 1], artifact.mediaType, |file|, artifact.sha256))
  {
    if artifact.size > 0 {
      ParsePrintedRange(a, b, artifact.size);
    }
    ServedAnswers(artifact, file, RangeHeader(a, b), a, b);
    AcceptAnswer(artifact, file, Served(artifact, file, Some(RangeHeader(a, b))), a, b);
  }

  // ---------- exactly which headers are served ----------

  /** The three forms of a byte range, each with the interval it asks for before clipping. */
  predicate Asks(x: string, y: string, size: nat, start: int, end: int) {
    || (x != "" && y != "" && ParseDecimal(x) == Some(start) && ParseDecimal(y) == Some(end))
    || (x != "" && y == "" && ParseDecimal(x) == Some(start) && end == size - 1)
    || (x == "" && ParseDecimal(y).Some? && ParseDecimal(y).value > 0
        && start == Max(0, size - ParseDecimal(y).value) && end == size - 1)
  }

  /** A single byte range of one of those forms that starts inside the artifact and does not run backwards. */
  ghost predicate Satisfiable(raw: string, size: nat, i: Interval) {
    exists x, y, end :: WellAsked(raw, x, y, size, i.start, end) && i == Interval(i.start, Min(end, size - 1), true)
  }

  predicate WellAsked(raw: string, x: string, y: string, size: nat, start: int, end: int) {
    raw == "bytes=" + x + "-" + y && Asks(x, y, size, start, end) && start <= end && start < size
  }

  lemma {:induction false} DecimalHasOnlyDigits(s: string, c: char)
    requires s == "" || ParseDecimal(s).Some?
    requires !('0' <= c <= '9')
    ensures c !in s
  {
  }

  lemma {:induction false} AskedPartsAreDigits(x: string, y: string, size: nat, start: int, end: int)
    requires Asks(x, y, size, start, end)
    ensures '-' !in x && ',' !in x && ',' !in y
  {
    DecimalHasOnlyDigits(x, '-');
    DecimalHasOnlyDigits(x, ',');
    DecimalHasOnlyDigits(y, ',');
  }

  /** Cutting a header at its prefix and at its first dash. */
  lemma {:induction false} HeaderSplits(raw: string, x: string, y: string)
    requires raw == "bytes=" + x + "-" + y && '-' !in x && ',' !in x && ',' !in y
    ensures "bytes=" <= raw && ',' !in raw && Partition(raw[6..], '-') == Some((x, y))
  {
    assert raw[..6] == "bytes=" && raw[6..] == x + ['-'] + y;
    PartitionAt(x, '-', y);
    assert forall c :: c in raw <==> c in "bytes=" || c in x || c == '-' || c in y;
    assert ',' !in "bytes=";
  }

  lemma {:induction false} PartitionJoins(s: string, c: char)
    requires Partition(s, c).Some?
    ensures s == Partition(s, c).value.0 + [c] + Partition(s, c).value.1
  {
    var i := Find(s, c);
    assert s == s[..i] + [s[i]] + s[i + 1..];
  }

  /** The parse once the header is split, as a table. */
  lemma {:induction false} SplitParses(raw: string, x: string, y: string, size: nat)
    requires size > 0 && "bytes=" <= raw && ',' !in raw && Partition(raw[6..], '-') == Some((x, y))
    ensures forall i :: ParseRange(Some(raw), size) == Ok(i) <==>
      exists end :: Asks(x, y, size, i.start, end) && i.start <= end && i.start < size
                    && i == Interval(i.start, Min(end, size - 1), true)
  {
    forall i | ParseRange(Some(raw), size) == Ok(i)
      ensures exists end :: Asks(x, y, size, i.start, end) && i.start <= end && i.start < size
                            && i == Interval(i.start, Min(end, size - 1), true)
    {
      var end := if x != "" && y != "" then ParseDecimal(y).value else size - 1;
      assert Asks(x, y, size, i.start, end);
    }
  }

  /** The server serves exactly the satisfiable single ranges, clipped to the artifact. */
  lemma {:induction false} ParseRangeExactly(raw: string, size: nat, i: Interval)
    requires size > 0
    ensures ParseRange(Some(raw), size) == Ok(i) <==> Satisfiable(raw, size, i)
  {
    if ParseRange(Some(raw), size) == Ok(i) {
      var (x, y) := Partition(raw[6..], '-').value;
      SplitParses(raw, x, y, size);
      PartitionJoins(raw[6..], '-');
      assert raw == raw[..6] + raw[6..] == "bytes=" + x + "-" + y;
      var end :| Asks(x, y, size, i.start, end) && i.start <= end && i.start < size
                 && i == Interval(i.start, Min(end, size - 1), true);
      assert WellAsked(raw, x, y, size, i.start, end);
    }
    if Satisfiable(raw, size, i) {
      var x, y, end :| WellAsked(raw, x, y, size, i.start, end) && i == Interval(i.start, Min(end, size - 1), true);
      AskedPartsAreDigits(x, y, size, i.start, end);
      HeaderSplits(raw, x, y);
      SplitParses(raw, x, y, size);
    }
  }

  /** An unsatisfiable range is answered by 416, the artifact's size, and no byte. */
  lemma {:induction false} RefusedResponse(artifact: Artifact, file: seq<Byte>, raw: string)
    requires |file| == artifact.size > 0 && !exists i :: Satisfiable(raw, artifact.size, i)
    ensures
      var r := Served(artifact, file, Some(raw));
      r.status == 416 && r.contentRange == Some("bytes */" + Decimal(artifact.size)) && r.body == []
  {
    var parsed := ParseRange(Some(raw), artifact.size);
    if parsed.Ok? {
      ParseRangeExactly(raw, artifact.size, parsed.value);
    }
  }

  // ---------- the plain download ----------

  /** Without a Range header the whole artifact is served, and said to be. */
  lemma {:induction false} PlainServed(artifact: Artifact, file: seq<Byte>)
    requires |file| == artifact.size
    ensures
      var r := Served(artifact, file, None);
      && r.status == 200 && r.contentRange == None && ParseDecimal(r.contentLength) == Some(|file|)
      && r.mediaType == artifact.mediaType && r.etag == "\"" + artifact.sha256 + "\"" && r.body == file
  {
    ParsePrint(|file|, 10, 0);
    assert file[0..|file|] == file;
  }

  /** The client's whole download: bounded length, bounded read, media type. */
  function DownloadWhole(response: Response, maxBytes: nat): Result<(seq<Byte>, string), ClientError> {
    if response.status != 200 then Err(WrongStatus)
    else if ParseDecimal(response.contentLength).None? then Err(BadContentLength)
    else if ParseDecimal(response.contentLength).value > maxBytes then Err(ArtifactTooLarge)
    else
      var data := response.body[..Min(|response.body|, maxBytes + 1)];
      if |data| > maxBytes then Err(ArtifactTooLarge)
      else if response.mediaType == "" then Err(NoMediaType)
      else Ok((data, response.mediaType))
  }

  /** The whole fetch: the download, then the media type and the digest of the access response. */
  function FetchWhole(
    response: Response, maxBytes: nat, declaredMediaType: string, declaredSha256: string, sha256: seq<Byte> -> string):
    Result<seq<Byte>, ClientError>
  {
    match DownloadWhole(response, maxBytes)
    case Err(e) => Err(e)
    case Ok((data, mediaType)) =>
      if mediaType != declaredMediaType then Err(MediaTypeDiffers)
      else if sha256(data) != declaredSha256 then Err(DigestDiffers)
      else Ok(data)
  }

  /** A plain fetch of a faithfully stored artifact succeeds exactly within the size bound, with the whole file. */
  lemma {:induction false} WholeRoundTrip(artifact: Artifact, file: seq<Byte>, maxBytes: nat, sha256: seq<Byte> -> string)
    requires |file| == artifact.size && artifact.mediaType != "" && sha256(file) == artifact.sha256
    ensures
      var got := FetchWhole(Served(artifact, file, None), maxBytes, artifact.mediaType, artifact.sha256, sha256);
      (got.Ok? <==> |file| <= maxBytes) && (got.Ok? ==> got.value == file)
  {
    PlainServed(artifact, file);
    AcceptWhole(Served(artifact, file, None), file, maxBytes, artifact.mediaType, artifact.sha256, sha256);
  }

  lemma {:induction false} AcceptWhole(
    r: Response, file: seq<Byte>, maxBytes: nat, mediaType: string, digest: string, sha256: seq<Byte> -> string)
    requires r.status == 200 && ParseDecimal(r.contentLength) == Some(|file|) && r.body == file
    requires r.mediaType == mediaType != "" && sha256(file) == digest
    ensures
      var got := FetchWhole(r, maxBytes, mediaType, digest, sha256);
      (got.Ok? <==> |file| <= maxBytes) && (got.Ok? ==> got.value == file)
  {
    assert file[..|file|] == file;
  }

  /** Whatever answers, an accepted whole fetch is the response's body, within the bound and of the declared digest. */
  lemma {:induction false} AcceptedWholeIsVerified(
    r: Response, maxBytes: nat, mediaType: string, digest: string, sha256: seq<Byte> -> string)
    requires FetchWhole(r, maxBytes, mediaType, digest, sha256).Ok?
    ensures
      var data := FetchWhole(r, maxBytes, mediaType, digest, sha256).value;
      r.status == 200 && data == r.body && |data| <= maxBytes && sha256(data) == digest && r.mediaType == mediaType
  {
    var data := r.body[..Min(|r.body|, maxBytes + 1)];
    assert |data| <= maxBytes ==> data == r.body;
  }

  // ---------- the ranged fetch ----------

  /** The full fetch adds only the size bound and the caller's own range digest. */
  lemma {:induction false} FetchRoundTrip(
    artifact: Artifact, file: seq<Byte>, a: nat, b: nat, maxBytes: nat,
    expectedSha256: string, sha256: seq<Byte> -> string)
    requires a <= b && |file| == artifact.size
    requires IsDigest(artifact.sha256) && artifact.mediaType != ""
    ensures
      var got := FetchRange(
        Served(artifact, file, Some(RangeHeader(a, b))), a, b, maxBytes,
        artifact.mediaType, artifact.sha256, expectedSha256, sha256);
      && (got.Ok? <==> b < |file| && b - a + 1 <= maxBytes && sha256(file[a..b + 1]) == expectedSha256)
      && (got.Ok? ==> got.value == file[a..b + 1])
  {
    RangeRoundTrip(artifact, file, a, b);
  }

  /** Whatever answers, the client only ever accepts as many bytes as it asked for. */
  lemma {:induction false} AcceptedIsExact(response: Response, a: nat, b: nat)
    requires a <= b && DownloadRange(response, a, b).Ok?
    ensures
      var d := DownloadRange(response, a, b).value;
      && response.status == 206 && d.data == response.body && |d.data| == b - a + 1
      && MatchContentRange(response.contentRange.value) == Some((a, b, d.fullSize)) && b < d.fullSize
  {
    var data := response.body[..Min(|response.body|, b - a + 2)];
    assert data == response.body;
  }
}
