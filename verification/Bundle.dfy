/**
 The frame bundle: its builder, its validator, and what acceptance means.

 The archive reader and writer, the manifest's JSON codec and SHA-256 are
 functions of a `Codec`. The validator's guarantees hold for every codec; the
 round trip needs only that reading undoes writing.
 */
module Bundle {
  import opened Basics
  import opened Archive
  import opened Names
  import opened Members
  import opened Provenance
  import J = Jpeg

  const SCHEMA_VERSION := "pathfinder.sampled-frame-bundle/v0.1"
  const REPRESENTATION_ID := "sampled_frame_bundle"

  datatype FrameEntry = FrameEntry(
    frameIndex: int,
    timestamp: Double,
    width: int,
    height: int,
    path: string,
    sizeBytes: int,
    sha256: string)

  /** The embedded manifest; `claims` are the fields that must all be false. */
  datatype Manifest = Manifest(
    schemaVersion: string,
    representationId: string,
    objectId: string,
    claims: seq<bool>,
    statement: string,
    source: Source,
    frames: seq<FrameEntry>,
    frameCount: int,
    totalJpegBytes: int)

  datatype Codec = Codec(
    read: seq<Byte> -> Result<seq<TarMember>, ArchiveError>,
    write: seq<Member> -> Option<seq<Byte>>,
    encode: Manifest -> seq<Byte>,
    decode: seq<Byte> -> Option<Manifest>,
    sha256: seq<Byte> -> string,
    lower: string -> string)

  /** Reading undoes writing, decoding undoes encoding, and digests are digests. */
  ghost predicate LawfulCodec(c: Codec) {
    && (forall ms :: c.write(ms).Some? ==> c.read(c.write(ms).value) == Ok(AsRead(ms)))
    && (forall m :: c.decode(c.encode(m)) == Some(m))
    && (forall b :: IsDigest(c.sha256(b)))
  }

  /** The archive half of the law holds for the concrete block codec. */
  lemma {:induction false} UstarReadsWhatItWrites(ms: seq<Member>)
    requires Write(Ustar(), ms).Some?
    ensures Read(Ustar(), Write(Ustar(), ms).value) == Ok(AsRead(ms))
  {
    UstarIsLawful();
    ReadWrite(Ustar(), ms);
  }

  /** The concrete block codec, with the given JSON codec, digest and lower-casing. */
  function UstarCodec(
    encode: Manifest -> seq<Byte>, decode: seq<Byte> -> Option<Manifest>, sha256: seq<Byte> -> string,
    lower: string -> string): Codec
  {
    Codec(raw => ReadUstar(raw), ms => WriteUstar(ms), encode, decode, sha256, lower)
  }

  function ReadUstar(raw: seq<Byte>): Result<seq<TarMember>, ArchiveError> { Read(Ustar(), raw) }

  function WriteUstar(ms: seq<Member>): Option<seq<Byte>> { Write(Ustar(), ms) }

  /** So the whole law needs only that JSON decodes what it encodes and that digests are digests. */
  lemma {:induction false} UstarCodecIsLawful(
    encode: Manifest -> seq<Byte>, decode: seq<Byte> -> Option<Manifest>, sha256: seq<Byte> -> string,
    lower: string -> string)
    requires forall m :: decode(encode(m)) == Some(m)
    requires forall b :: IsDigest(sha256(b))
    ensures LawfulCodec(UstarCodec(encode, decode, sha256, lower))
  {
    var c := UstarCodec(encode, decode, sha256, lower);
    forall ms | c.write(ms).Some?
      ensures c.read(c.write(ms).value) == Ok(AsRead(ms))
    {
      UstarReadsWhatItWrites(ms);
    }
  }

  /** The single definition of a canonical archive: sorted members, written. */
  function CanonicalArchive(c: Codec, ms: seq<Member>): Option<seq<Byte>> {
    c.write(Sorted(ms))
  }

  // ---------- the validator ----------

  const MEDIA_TYPE := "application/x-tar"

  datatype Expected = Expected(objectId: string, sha256: Option<string>, size: Option<nat>, mediaType: string)

  datatype BundleError =
    | BadArgument | WrongMediaType | ArtifactTooLarge | EmptyArtifact | DigestMismatch | SizeMismatched
    | Unreadable(archive: ArchiveError) | BadMembers(member: MemberError)
    | NoManifest | ManifestNotJson | BadSchema | BadRepresentation | WrongObject | ForbiddenClaim | BadStatement
    | NoFrames | TooManyFrames | FrameCountMismatch | UnexpectedMember | MemberCountMismatch
    | BadFrame(position: nat) | DeclaredTotalMismatch | CarriedTotalMismatch | NotCanonical | BadSource(source: SourceError)

  datatype ValidatedFrame = ValidatedFrame(
    frameIndex: int, timestamp: Double, width: int, height: int,
    path: string, sizeBytes: int, sha256: string, jpeg: seq<Byte>)

  datatype Validated = Validated(
    objectId: string, memberCount: nat, totalJpegBytes: int, frames: seq<ValidatedFrame>, source: Source, statement: string)

  /** Entry `i` of the manifest describes the member of frame `i` exactly. */
  predicate EntryOk(c: Codec, e: FrameEntry, i: nat, p: map<string, seq<Byte>>, limits: Limits) {
    && e.frameIndex == i
    && e.path == FrameName(i)
    && e.path in p
    && 1 <= e.sizeBytes == |p[e.path]|
    && IsDigest(e.sha256) && e.sha256 == c.sha256(p[e.path])
    && e.timestamp >= 0
    && 1 <= e.width <= limits.maxFrameDimension
    && 1 <= e.height <= limits.maxFrameDimension
    && J.Dimensions(p[e.path]) == Ok(J.Size(e.width, e.height))
  }

  predicate EntriesOk(c: Codec, es: seq<FrameEntry>, p: map<string, seq<Byte>>, limits: Limits) {
    forall i :: 0 <= i < |es| ==> EntryOk(c, es[i], i, p, limits)
  }

  function FrameOf(e: FrameEntry, p: map<string, seq<Byte>>): ValidatedFrame {
    ValidatedFrame(e.frameIndex, e.timestamp, e.width, e.height, e.path, e.sizeBytes, e.sha256,
                   if e.path in p then p[e.path] else [])
  }

  function FramesOf(es: seq<FrameEntry>, p: map<string, seq<Byte>>): (fs: seq<ValidatedFrame>)
    ensures |fs| == |es| && forall i :: 0 <= i < |es| ==> fs[i] == FrameOf(es[i], p)
  {
    seq(|es|, i requires 0 <= i < |es| => FrameOf(es[i], p))
  }

  function DeclaredBytes(es: seq<FrameEntry>): int {
    if es == [] then 0 else DeclaredBytes(es[..|es| - 1]) + es[|es| - 1].sizeBytes
  }

  function CarriedBytes(fs: seq<ValidatedFrame>): nat {
    if fs == [] then 0 else CarriedBytes(fs[..|fs| - 1]) + |fs[|fs| - 1].jpeg|
  }

  function FrameMembers(names: seq<string>): seq<string> {
    if names == [] then []
    else
      var last := names[|names| - 1];
      FrameMembers(names[..|names| - 1]) + (if last == MANIFEST_NAME then [] else [last])
  }

  predicate AllFrameLike(names: seq<string>) {
    forall i :: 0 <= i < |names| ==> names[i] == MANIFEST_NAME || FrameLike(names[i])
  }

  /** The manifest's own fields, before any frame is looked at. */
  predicate HeadOk(c: Codec, m: Manifest, expected: Expected, limits: Limits) {
    && m.schemaVersion == SCHEMA_VERSION
    && m.representationId == REPRESENTATION_ID
    && !Blank(m.objectId) && m.objectId == expected.objectId
    && (forall i :: 0 <= i < |m.claims| ==> !m.claims[i])
    && StatementOk(c.lower, m.statement)
    && 0 < |m.frames| <= limits.maxFrameCount
    && m.frameCount == |m.frames|
  }

  predicate ManifestOk(c: Codec, m: Manifest, ms: seq<TarMember>, expected: Expected, limits: Limits) {
    && HeadOk(c, m, expected, limits)
    && AllFrameLike(NamesOf(ms))
    && |FrameMembers(NamesOf(ms))| == |m.frames|
    && EntriesOk(c, m.frames, Payloads(ms), limits)
    && m.totalJpegBytes == DeclaredBytes(m.frames)
  }

  predicate OuterOk(c: Codec, raw: seq<Byte>, expected: Expected, limits: Limits) {
    && expected.objectId != "" && expected.mediaType == MEDIA_TYPE
    && 0 < |raw| <= limits.maxArtifactBytes
    && (expected.sha256.Some? ==> IsDigest(c.lower(expected.sha256.value)) && c.sha256(raw) == c.lower(expected.sha256.value))
    && (expected.size.Some? ==> |raw| == expected.size.value)
  }

  /** Which byte strings are frame bundles. */
  predicate Acceptable(c: Codec, raw: seq<Byte>, expected: Expected, limits: Limits) {
    && OuterOk(c, raw, expected, limits)
    && c.read(raw).Ok?
    && var ms := c.read(raw).value;
       && MembersOk(ms, limits)
       && MANIFEST_NAME in Payloads(ms)
       && c.decode(Payloads(ms)[MANIFEST_NAME]).Some?
       && ManifestOk(c, c.decode(Payloads(ms)[MANIFEST_NAME]).value, ms, expected, limits)
       && CanonicalArchive(c, AsMembers(ms)) == Some(raw)
       && var m := c.decode(Payloads(ms)[MANIFEST_NAME]).value;
          SourceOk(m.source, |m.frames|)
  }

  /** What validation yields for an acceptable byte string. */
  function Accepted(c: Codec, raw: seq<Byte>, expected: Expected, limits: Limits): Validated
    requires Acceptable(c, raw, expected, limits)
  {
    var ms := c.read(raw).value;
    var m := c.decode(Payloads(ms)[MANIFEST_NAME]).value;
    Validated(m.objectId, |ms|, m.totalJpegBytes, FramesOf(m.frames, Payloads(ms)), m.source, m.statement)
  }

  lemma {:induction false} DeclaredIsCarried(es: seq<FrameEntry>, p: map<string, seq<Byte>>)
    requires forall i :: 0 <= i < |es| ==> es[i].path in p && es[i].sizeBytes == |p[es[i].path]|
    ensures CarriedBytes(FramesOf(es, p)) == DeclaredBytes(es)
  {
    if es != [] {
      var front := es[..|es| - 1];
      DeclaredIsCarried(front, p);
      assert FramesOf(es, p)[..|es| - 1] == FramesOf(front, p);
    }
  }

  lemma {:induction false} DeclaredAtLeast(es: seq<FrameEntry>)
    requires forall i :: 0 <= i < |es| ==> es[i].sizeBytes >= 1
    ensures DeclaredBytes(es) >= |es|
  {
    if es != [] {
      DeclaredAtLeast(es[..|es| - 1]);
    }
  }

  /** The checks on one entry, after its index. */
  method CheckEntry(c: Codec, e: FrameEntry, i: nat, p: map<string, seq<Byte>>, limits: Limits) returns (ok: bool)
    requires e.frameIndex == i
    ensures ok <==> EntryOk(c, e, i, p, limits)
  {
    if e.path != FrameName(i) || e.path !in p {
      return false;
    }
    var payload := p[e.path];
    if e.sizeBytes < 1 || e.sizeBytes != |payload| || !IsDigest(e.sha256) || e.sha256 != c.sha256(payload) {
      return false;
    }
    if e.timestamp < 0 || e.width < 1 || e.height < 1
       || e.width > limits.maxFrameDimension || e.height > limits.maxFrameDimension {
      return false;
    }
    var declared, _ := J.DeclaredDimensions(payload);
    return declared == Ok(J.Size(e.width, e.height));
  }

  lemma {:induction false} EntriesStep(es: seq<FrameEntry>, k: nat, p: map<string, seq<Byte>>)
    requires k < |es|
    ensures FramesOf(es[..k + 1], p) == FramesOf(es[..k], p) + [FrameOf(es[k], p)]
    ensures DeclaredBytes(es[..k + 1]) == DeclaredBytes(es[..k]) + es[k].sizeBytes
  {
    assert es[..k + 1][..k] == es[..k] && es[..k + 1][k] == es[k];
  }

  /** The entry reported is the first one that is wrong. */
  predicate FirstBad(c: Codec, es: seq<FrameEntry>, p: map<string, seq<Byte>>, limits: Limits, k: nat) {
    k < |es| && EntriesOk(c, es[..k], p, limits) && !EntryOk(c, es[k], k, p, limits)
  }

  lemma {:induction false} EntriesExtend(c: Codec, es: seq<FrameEntry>, p: map<string, seq<Byte>>, limits: Limits, k: nat)
    requires k < |es| && EntriesOk(c, es[..k], p, limits) && EntryOk(c, es[k], k, p, limits)
    ensures EntriesOk(c, es[..k + 1], p, limits)
  {
    var next := es[..k + 1];
    forall i | 0 <= i < |next|
      ensures EntryOk(c, next[i], i, p, limits)
    {
      if i < k {
        assert EntryOk(c, es[..k][i], i, p, limits) && es[..k][i] == next[i];
      }
    }
  }

  ghost predicate AllBelow(seen: set<int>, k: int) { forall i :: i in seen ==> i < k }

  lemma {:induction false} AllBelowNext(seen: set<int>, k: int)
    requires AllBelow(seen, k)
    ensures AllBelow(seen + {k}, k + 1)
  {
  }

  /** The checks on the next entry, its index first: not seen, ascending, and in place. */
  method CheckNext(
    c: Codec, es: seq<FrameEntry>, k: nat, seen: set<int>, previous: int, p: map<string, seq<Byte>>, limits: Limits)
    returns (ok: bool)
    requires k < |es| && EntriesOk(c, es[..k], p, limits) && AllBelow(seen, k) && previous < k
    ensures ok ==> es[k].frameIndex == k && EntriesOk(c, es[..k + 1], p, limits)
    ensures !ok ==> FirstBad(c, es, p, limits, k) && !EntriesOk(c, es, p, limits)
  {
    var e := es[k];
    if e.frameIndex in seen || e.frameIndex <= previous || e.frameIndex != k {
      return false;
    }
    ok := CheckEntry(c, e, k, p, limits);
    if ok {
      EntriesExtend(c, es, p, limits, k);
    }
  }

  /** The frame loop: its redundant index checks, its byte total, and the frames it keeps. */
  method CheckFrames(c: Codec, es: seq<FrameEntry>, p: map<string, seq<Byte>>, limits: Limits)
    returns (r: Result<(seq<ValidatedFrame>, int), nat>)
    ensures r.Ok? <==> EntriesOk(c, es, p, limits)
    ensures r.Ok? ==> r.value == (FramesOf(es, p), DeclaredBytes(es))
    ensures r.Err? ==> FirstBad(c, es, p, limits, r.error)
  {
    var frames: seq<ValidatedFrame>, seen: set<int>, previous, total := [], {}, -1, 0;
    for k := 0 to |es|
      invariant EntriesOk(c, es[..k], p, limits)
      invariant previous == k - 1 && AllBelow(seen, k)
      invariant frames == FramesOf(es[..k], p) && total == DeclaredBytes(es[..k])
    {
      var ok := CheckNext(c, es, k, seen, previous, p, limits);
      if !ok {
        return Err(k);
      }
      EntriesStep(es, k, p);
      AllBelowNext(seen, k);
      seen := seen + {es[k].frameIndex};
      previous := es[k].frameIndex;
      total := total + es[k].sizeBytes;
      frames := frames + [FrameOf(es[k], p)];
    }
    assert es[..|es|] == es;
    return Ok((frames, total));
  }

  /** What each refusal of the manifest's own fields reports. */
  predicate HeadRefusal(c: Codec, m: Manifest, expected: Expected, limits: Limits, e: BundleError) {
    match e
    case BadSchema => m.schemaVersion != SCHEMA_VERSION
    case BadRepresentation => m.representationId != REPRESENTATION_ID
    case WrongObject => Blank(m.objectId) || m.objectId != expected.objectId
    case ForbiddenClaim => true in m.claims
    case BadStatement => !StatementOk(c.lower, m.statement)
    case NoFrames => |m.frames| == 0
    case TooManyFrames => |m.frames| > limits.maxFrameCount
    case FrameCountMismatch => m.frameCount != |m.frames|
    case _ => false
  }

  function HeadFault(c: Codec, m: Manifest, expected: Expected, limits: Limits): (r: Option<BundleError>)
    ensures r.None? <==> HeadOk(c, m, expected, limits)
    ensures r.Some? ==> HeadRefusal(c, m, expected, limits, r.value)
  {
    if m.schemaVersion != SCHEMA_VERSION then Some(BadSchema)
    else if m.representationId != REPRESENTATION_ID then Some(BadRepresentation)
    else if Blank(m.objectId) || m.objectId != expected.objectId then Some(WrongObject)
    else if exists i :: 0 <= i < |m.claims| && m.claims[i] then Some(ForbiddenClaim)
    else if !StatementOk(c.lower, m.statement) then Some(BadStatement)
    else if m.frames == [] then Some(NoFrames)
    else if |m.frames| > limits.maxFrameCount then Some(TooManyFrames)
    else if m.frameCount != |m.frames| then Some(FrameCountMismatch)
    else None
  }

  /** What each refusal before the archive is opened reports. */
  predicate OuterRefusal(c: Codec, raw: seq<Byte>, expected: Expected, limits: Limits, e: BundleError) {
    match e
    case BadArgument => expected.objectId == "" || (expected.sha256.Some? && !IsDigest(c.lower(expected.sha256.value)))
    case WrongMediaType => expected.mediaType != MEDIA_TYPE
    case ArtifactTooLarge => |raw| > limits.maxArtifactBytes
    case EmptyArtifact => |raw| == 0
    case DigestMismatch => expected.sha256.Some? && c.lower(expected.sha256.value) != c.sha256(raw)
    case SizeMismatched => expected.size.Some? && expected.size.value != |raw|
    case _ => false
  }

  function OuterFault(c: Codec, raw: seq<Byte>, expected: Expected, limits: Limits): (r: Option<BundleError>)
    ensures r.None? <==> OuterOk(c, raw, expected, limits)
    ensures r.Some? ==> OuterRefusal(c, raw, expected, limits, r.value)
  {
    if expected.objectId == "" then Some(BadArgument)
    else if expected.mediaType != MEDIA_TYPE then Some(WrongMediaType)
    else if |raw| > limits.maxArtifactBytes then Some(ArtifactTooLarge)
    else if raw == [] then Some(EmptyArtifact)
    else if expected.sha256.Some? && !IsDigest(c.lower(expected.sha256.value)) then Some(BadArgument)
    else if expected.sha256.Some? && c.sha256(raw) != c.lower(expected.sha256.value) then Some(DigestMismatch)
    else if expected.size.Some? && |raw| != expected.size.value then Some(SizeMismatched)
    else None
  }

  /** What each refusal of the manifest half reports; the second byte total never differs. */
  predicate ManifestRefusal(c: Codec, m: Manifest, ms: seq<TarMember>, expected: Expected, limits: Limits, e: BundleError) {
    || HeadRefusal(c, m, expected, limits, e)
    || (e == UnexpectedMember && !AllFrameLike(NamesOf(ms)))
    || (e == MemberCountMismatch && |FrameMembers(NamesOf(ms))| != |m.frames|)
    || (e.BadFrame? && FirstBad(c, m.frames, Payloads(ms), limits, e.position))
    || (e == DeclaredTotalMismatch && m.totalJpegBytes != DeclaredBytes(m.frames))
  }

  /** What each refusal of the archive's contents reports. */
  predicate ContentRefusal(c: Codec, raw: seq<Byte>, ms: seq<TarMember>, expected: Expected, limits: Limits, e: BundleError) {
    || (e.BadMembers? && MembersRefusal(ms, limits, e.member))
    || (e == NoManifest && MANIFEST_NAME !in Payloads(ms))
    || (e == NotCanonical && c.write(Sorted(AsMembers(ms))) != Some(raw))
    || (MANIFEST_NAME in Payloads(ms) && EmbeddedRefusal(c, c.decode(Payloads(ms)[MANIFEST_NAME]), ms, expected, limits, e))
  }

  predicate EmbeddedRefusal(
    c: Codec, manifest: Option<Manifest>, ms: seq<TarMember>, expected: Expected, limits: Limits, e: BundleError)
  {
    match manifest
    case None => e == ManifestNotJson
    case Some(m) =>
      || ManifestRefusal(c, m, ms, expected, limits, e)
      || (e.BadSource? && SourceRefusal(m.source, |m.frames|, e.source))
  }

  /** What each refusal reports: always a fault that is there. */
  predicate Refusal(c: Codec, raw: seq<Byte>, expected: Expected, limits: Limits, e: BundleError) {
    || OuterRefusal(c, raw, expected, limits, e)
    || match c.read(raw)
       case Err(cause) => e == Unreadable(cause)
       case Ok(ms) => ContentRefusal(c, raw, ms, expected, limits, e)
  }

  /** The manifest half of validation, on members already read. */
  method CheckManifest(c: Codec, m: Manifest, ms: seq<TarMember>, expected: Expected, limits: Limits)
    returns (r: Result<seq<ValidatedFrame>, BundleError>)
    ensures r.Ok? <==> ManifestOk(c, m, ms, expected, limits)
    ensures r.Ok? ==> r.value == FramesOf(m.frames, Payloads(ms))
    ensures r == Err(UnexpectedMember) <==>
      HeadOk(c, m, expected, limits) && exists i :: 0 <= i < |ms| && ms[i].name != MANIFEST_NAME && !FrameLike(ms[i].name)
    ensures r.Err? ==> ManifestRefusal(c, m, ms, expected, limits, r.error)
  {
    var head := HeadFault(c, m, expected, limits);
    if head.Some? {
      return Err(head.value);
    }
    if !AllFrameLike(NamesOf(ms)) {
      return Err(UnexpectedMember);
    }
    if |FrameMembers(NamesOf(ms))| != |m.frames| {
      return Err(MemberCountMismatch);
    }
    var checked := CheckFrames(c, m.frames, Payloads(ms), limits);
    if checked.Err? {
      return Err(BadFrame(checked.error));
    }
    assert forall i :: 0 <= i < |m.frames| ==> EntryOk(c, m.frames[i], i, Payloads(ms), limits);
    DeclaredAtLeast(m.frames);
    if m.totalJpegBytes < 1 || m.totalJpegBytes != checked.value.1 {
      return Err(DeclaredTotalMismatch);
    }
    DeclaredIsCarried(m.frames, Payloads(ms));
    if m.totalJpegBytes != CarriedBytes(checked.value.0) {
      return Err(CarriedTotalMismatch);
    }
    return Ok(checked.value.0);
  }

  /**
   Validation accepts exactly the acceptable byte strings, for every codec, and
   each refusal names a fault that is there. Its second byte-total check is the
   one rejection it can never give.
   */
  method ValidateBundle(c: Codec, raw: seq<Byte>, expected: Expected, limits: Limits)
    returns (r: Result<Validated, BundleError>)
    ensures r.Ok? <==> Acceptable(c, raw, expected, limits)
    ensures r.Ok? ==> r.value == Accepted(c, raw, expected, limits)
    ensures r.Err? ==> Refusal(c, raw, expected, limits, r.error)
  {
    var outer := OuterFault(c, raw, expected, limits);
    if outer.Some? {
      return Err(outer.value);
    }
    var read := c.read(raw);
    if read.Err? {
      return Err(Unreadable(read.error));
    }
    var ms := read.value;
    var members := ReadMembers(ms, limits);
    if members.Err? {
      return Err(BadMembers(members.error));
    }
    if MANIFEST_NAME !in members.value.1 {
      return Err(NoManifest);
    }
    var m := c.decode(members.value.1[MANIFEST_NAME]);
    if m.None? {
      return Err(ManifestNotJson);
    }
    var frames := CheckManifest(c, m.value, ms, expected, limits);
    if frames.Err? {
      return Err(frames.error);
    }
    if CanonicalArchive(c, AsMembers(ms)) != Some(raw) {
      return Err(NotCanonical);
    }
    var fault := ValidateSource(m.value.source, |frames.value|);
    if fault.Some? {
      return Err(BadSource(fault.value));
    }
    return Ok(Validated(
      m.value.objectId, |members.value.0|, m.value.totalJpegBytes, frames.value, m.value.source, m.value.statement));
  }
}
