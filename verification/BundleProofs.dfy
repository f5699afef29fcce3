/**
 What acceptance of a bundle implies, and when a built bundle is accepted.
 */
module BundleProofs {
  import opened Basics
  import opened Archive
  import opened Names
  import opened Members
  import opened Bundle
  import opened Provenance

  // ---------- no unaccounted member ----------

  lemma {:induction false} SubsetOfSameSize<T>(a: set<T>, b: set<T>)
    requires a <= b && |a| == |b|
    ensures a == b
  {
    assert b == a + (b - a);
    assert |b| == |a| + |b - a|;
  }

  ghost function NameSet(names: seq<string>): set<string> {
    set i | 0 <= i < |names| :: names[i]
  }

  ghost predicate DistinctNames(names: seq<string>) {
    forall i, j :: 0 <= i < j < |names| ==> names[i] != names[j]
  }

  lemma {:induction false} DistinctSize(names: seq<string>)
    requires DistinctNames(names)
    ensures |NameSet(names)| == |names|
  {
    if names != [] {
      var last := |names| - 1;
      DistinctSize(names[..last]);
      assert NameSet(names) == NameSet(names[..last]) + {names[last]};
      assert names[last] !in NameSet(names[..last]);
    }
  }

  lemma {:induction false} FrameMembersCount(names: seq<string>)
    requires DistinctNames(names)
    ensures |FrameMembers(names)| == |names| - (if MANIFEST_NAME in names then 1 else 0)
  {
    if names != [] {
      var last := |names| - 1;
      FrameMembersCount(names[..last]);
      assert names == names[..last] + [names[last]];
      assert MANIFEST_NAME in names <==> MANIFEST_NAME in names[..last] || names[last] == MANIFEST_NAME;
    }
  }

  function CanonicalNames(n: nat): (names: seq<string>)
    ensures |names| == n && forall i :: 0 <= i < n ==> names[i] == FrameName(i)
  {
    seq(n, i requires 0 <= i => FrameName(i))
  }

  ghost function Canonical(n: nat): set<string> {
    NameSet(CanonicalNames(n))
  }

  lemma {:induction false} CanonicalSize(n: nat)
    ensures |Canonical(n)| == n
  {
    var names := CanonicalNames(n);
    forall i, j | 0 <= i < j < n
      ensures names[i] != names[j]
    {
      if FrameName(i) == FrameName(j) {
        FrameNameInjective(i, j);
      }
    }
    DistinctSize(names);
  }

  ghost function ManifestOf(c: Codec, ms: seq<TarMember>): Manifest
    requires MANIFEST_NAME in Payloads(ms) && c.decode(Payloads(ms)[MANIFEST_NAME]).Some?
  {
    c.decode(Payloads(ms)[MANIFEST_NAME]).value
  }

  /** The pigeonhole step: as many frame members as canonical names, all of which are present. */
  lemma {:induction false} NamesAreCanonical(c: Codec, ms: seq<TarMember>, es: seq<FrameEntry>, limits: Limits)
    requires Distinct(ms) && MANIFEST_NAME in Payloads(ms)
    requires |FrameMembers(NamesOf(ms))| == |es| && EntriesOk(c, es, Payloads(ms), limits)
    ensures NameSet(NamesOf(ms)) == {MANIFEST_NAME} + Canonical(|es|)
    ensures |ms| == |es| + 1
  {
    var names := NamesOf(ms);
    DistinctSize(names);
    assert MANIFEST_NAME in names;
    FrameMembersCount(names);
    forall i | 0 <= i < |es|
      ensures FrameName(i) in NameSet(names) && FrameName(i) != MANIFEST_NAME
    {
      assert EntryOk(c, es[i], i, Payloads(ms), limits);
      var k :| 0 <= k < |ms| && ms[k].name == es[i].path;
      assert names[k] == FrameName(i);
      FrameNameIsFrameLike(i);
    }
    CanonicalSize(|es|);
    var k :| 0 <= k < |names| && names[k] == MANIFEST_NAME;
    assert MANIFEST_NAME in NameSet(names);
    SubsetOfSameSize(Canonical(|es|), NameSet(names) - {MANIFEST_NAME});
  }

  /** Frame `f` is the content of the member of index `i`, and its record describes it. */
  predicate Matches(c: Codec, ms: seq<TarMember>, i: nat, f: ValidatedFrame) {
    && f.frameIndex == i
    && f.path == FrameName(i)
    && TarMember(FrameName(i), CANONICAL_META, |f.jpeg|, f.jpeg) in ms
    && f.sizeBytes == |f.jpeg|
    && f.sha256 == c.sha256(f.jpeg)
    && f.width > 0 && f.height > 0
    && J.Dimensions(f.jpeg) == Ok(J.Size(f.width, f.height))
  }

  lemma {:induction false} EntryMatches(c: Codec, ms: seq<TarMember>, e: FrameEntry, i: nat, limits: Limits)
    requires PrefixOk(ms, limits) && EntryOk(c, e, i, Payloads(ms), limits)
    ensures Matches(c, ms, i, FrameOf(e, Payloads(ms)))
  {
    var k :| 0 <= k < |ms| && ms[k].name == e.path;
    PayloadAt(ms, k);
    assert MemberOk(ms[k], limits);
  }

  /**
   Bundle bijection. The members of an accepted archive are exactly the
   manifest and one canonical frame per index, and the frame handed on for an
   index is the content of its member, matched by size, digest and declared
   dimensions.
   */
  lemma {:induction false} AcceptedIsBijection(c: Codec, raw: seq<Byte>, expected: Expected, limits: Limits)
    requires Acceptable(c, raw, expected, limits)
    ensures
      var ms := c.read(raw).value;
      var v := Accepted(c, raw, expected, limits);
      && NameSet(NamesOf(ms)) == {MANIFEST_NAME} + Canonical(|v.frames|)
      && |ms| == v.memberCount == |v.frames| + 1
      && forall i :: 0 <= i < |v.frames| ==> Matches(c, ms, i, v.frames[i])
  {
    var ms := c.read(raw).value;
    FramesMatch(c, ms, ManifestOf(c, ms).frames, limits);
  }

  lemma {:induction false} FramesMatch(c: Codec, ms: seq<TarMember>, es: seq<FrameEntry>, limits: Limits)
    requires PrefixOk(ms, limits) && MANIFEST_NAME in Payloads(ms)
    requires |FrameMembers(NamesOf(ms))| == |es| && EntriesOk(c, es, Payloads(ms), limits)
    ensures NameSet(NamesOf(ms)) == {MANIFEST_NAME} + Canonical(|es|) && |ms| == |es| + 1
    ensures forall i :: 0 <= i < |es| ==> Matches(c, ms, i, FramesOf(es, Payloads(ms))[i])
  {
    NamesAreCanonical(c, ms, es, limits);
    forall i | 0 <= i < |es|
      ensures Matches(c, ms, i, FramesOf(es, Payloads(ms))[i])
    {
      EntryMatches(c, ms, es[i], i, limits);
    }
  }

  /** An accepted byte string is its own members written in the order in which they were read. */
  lemma {:induction false} AcceptedIsWritten(c: Codec, raw: seq<Byte>, expected: Expected, limits: Limits)
    requires Acceptable(c, raw, expected, limits)
    ensures c.write(AsMembers(c.read(raw).value)) == Some(raw)
  {
    var ms := c.read(raw).value;
    AscendingInOrder(ms);
    SortedFixpoint(AsMembers(ms));
  }

  /** Two accepted byte strings with the same members are the same byte string. */
  lemma {:induction false} ContentsDetermineBytes(
    c: Codec, raw1: seq<Byte>, raw2: seq<Byte>, expected1: Expected, expected2: Expected, limits: Limits)
    requires Acceptable(c, raw1, expected1, limits) && Acceptable(c, raw2, expected2, limits)
    requires AsMembers(c.read(raw1).value) == AsMembers(c.read(raw2).value)
    ensures raw1 == raw2
  {
    assert Some(raw1) == CanonicalArchive(c, AsMembers(c.read(raw1).value)) == Some(raw2);
  }

  // ---------- the builder ----------

  /** What a bundle is built for: the object, its source blocks and the alignment statement. */
  datatype Frozen = Frozen(objectId: string, source: Source, statement: string)

  datatype Image = Image(index: nat, timestamp: Double, width: int, height: int, jpeg: seq<Byte>)

  function EntryFor(c: Codec, image: Image): FrameEntry {
    FrameEntry(image.index, image.timestamp, image.width, image.height,
               FrameName(image.index), |image.jpeg|, c.sha256(image.jpeg))
  }

  function EntriesFor(c: Codec, images: seq<Image>): (es: seq<FrameEntry>)
    ensures |es| == |images| && forall i :: 0 <= i < |images| ==> es[i] == EntryFor(c, images[i])
  {
    seq(|images|, i requires 0 <= i < |images| => EntryFor(c, images[i]))
  }

  function ManifestFor(c: Codec, images: seq<Image>, frozen: Frozen): Manifest {
    Manifest(SCHEMA_VERSION, REPRESENTATION_ID, frozen.objectId, [false, false, false, false, false],
             frozen.statement, frozen.source,
             EntriesFor(c, images), |images|, DeclaredBytes(EntriesFor(c, images)))
  }

  function FrameParts(images: seq<Image>): (ms: seq<Member>)
    ensures |ms| == |images| && forall i :: 0 <= i < |images| ==> ms[i] == Member(FrameName(images[i].index), images[i].jpeg)
  {
    seq(|images|, i requires 0 <= i < |images| => Member(FrameName(images[i].index), images[i].jpeg))
  }

  function Parts(c: Codec, images: seq<Image>, frozen: Frozen): seq<Member> {
    FrameParts(images) + [Member(MANIFEST_NAME, c.encode(ManifestFor(c, images, frozen)))]
  }

  /** The built archive, or nothing when the format cannot express its members. */
  function Built(c: Codec, images: seq<Image>, frozen: Frozen): Option<seq<Byte>> {
    CanonicalArchive(c, Parts(c, images, frozen))
  }

  /** The builder's two accumulating loops. */
  method BuildBundle(c: Codec, images: seq<Image>, frozen: Frozen) returns (archive: Option<seq<Byte>>)
    ensures archive == Built(c, images, frozen)
  {
    var members: seq<Member>, entries: seq<FrameEntry>, total := [], [], 0;
    var k := 0;
    while k < |images|
      invariant 0 <= k <= |images|
      invariant members == FrameParts(images[..k])
      invariant entries == EntriesFor(c, images[..k]) && total == DeclaredBytes(entries)
    {
      var image := images[k];
      assert images[..k + 1] == images[..k] + [image];
      members := members + [Member(FrameName(image.index), image.jpeg)];
      ghost var before := entries;
      entries := entries + [EntryFor(c, image)];
      assert entries[..|before|] == before;
      total := total + |image.jpeg|;
      k := k + 1;
    }
    assert images[..k] == images;
    var document := Manifest(SCHEMA_VERSION, REPRESENTATION_ID, frozen.objectId, [false, false, false, false, false],
                             frozen.statement, frozen.source, entries, |entries|, total);
    members := members + [Member(MANIFEST_NAME, c.encode(document))];
    archive := CanonicalArchive(c, members);
  }

  // ---------- totals and distinctness survive sorting ----------

  function Weight(ms: seq<Member>): nat {
    if ms == [] then 0 else |ms[0].payload| + Weight(ms[1..])
  }

  lemma {:induction false} InsertWeight(m: Member, ms: seq<Member>)
    ensures Weight(Insert(m, ms)) == |m.payload| + Weight(ms)
  {
    if ms == [] || !Less(ms[0].name, m.name) {
      assert ([m] + ms)[1..] == ms;
    } else {
      InsertWeight(m, ms[1..]);
      assert Insert(m, ms)[1..] == Insert(m, ms[1..]);
    }
  }

  lemma {:induction false} SortedWeight(ms: seq<Member>)
    ensures Weight(Sorted(ms)) == Weight(ms)
  {
    if ms != [] {
      SortedWeight(ms[1..]);
      InsertWeight(ms[0], Sorted(ms[1..]));
    }
  }

  lemma {:induction false} WeightSnoc(ms: seq<Member>, m: Member)
    ensures Weight(ms + [m]) == Weight(ms) + |m.payload|
  {
    if ms != [] {
      assert (ms + [m])[1..] == ms[1..] + [m];
      WeightSnoc(ms[1..], m);
    }
  }

  lemma {:induction false} ContainedIsWeight(ms: seq<Member>)
    ensures Contained(AsRead(ms)) == Weight(ms)
  {
    if ms != [] {
      var last := |ms| - 1;
      ContainedIsWeight(ms[..last]);
      assert AsRead(ms)[..last] == AsRead(ms[..last]);
      WeightSnoc(ms[..last], ms[last]);
      assert ms[..last] + [ms[last]] == ms;
    }
  }

  ghost predicate DistinctParts(ms: seq<Member>) {
    forall i, j :: 0 <= i < j < |ms| ==> ms[i].name != ms[j].name
  }

  lemma {:induction false} InsertDistinct(m: Member, ms: seq<Member>)
    requires DistinctParts(ms) && forall i :: 0 <= i < |ms| ==> ms[i].name != m.name
    ensures DistinctParts(Insert(m, ms))
    ensures forall x :: x in Insert(m, ms) <==> x == m || x in ms
  {
    if ms != [] && Less(ms[0].name, m.name) {
      var rest := Insert(m, ms[1..]);
      InsertDistinct(m, ms[1..]);
      forall j | 0 <= j < |rest|
        ensures rest[j].name != ms[0].name
      {
        assert rest[j] in rest;
        if rest[j] != m {
          var k :| 0 <= k < |ms[1..]| && ms[1..][k] == rest[j];
          assert ms[k + 1] == rest[j];
        }
      }
      assert forall x :: x in ms <==> x == ms[0] || x in ms[1..];
    }
  }

  lemma {:induction false} SortedDistinct(ms: seq<Member>)
    requires DistinctParts(ms)
    ensures DistinctParts(Sorted(ms))
    ensures forall x :: x in Sorted(ms) <==> x in ms
  {
    if ms != [] {
      SortedDistinct(ms[1..]);
      forall i | 0 <= i < |Sorted(ms[1..])|
        ensures Sorted(ms[1..])[i].name != ms[0].name
      {
        assert Sorted(ms[1..])[i] in ms[1..];
        var k :| 0 <= k < |ms[1..]| && ms[1..][k] == Sorted(ms[1..])[i];
        assert ms[k + 1] == Sorted(ms[1..])[i];
      }
      InsertDistinct(ms[0], Sorted(ms[1..]));
    }
  }

  lemma {:induction false} SameElements(ms: seq<Member>, x: Member)
    ensures x in Sorted(ms) <==> x in ms
  {
    SortedIsSorted(ms);
    assert x in multiset(ms) <==> x in multiset(Sorted(ms));
  }

  lemma {:induction false} SortedLength(ms: seq<Member>)
    ensures |Sorted(ms)| == |ms|
  {
    SortedIsSorted(ms);
    assert |multiset(ms)| == |multiset(Sorted(ms))|;
  }

  // ---------- the round trip ----------

  predicate ImageOk(image: Image, i: nat, limits: Limits) {
    && image.index == i
    && image.timestamp >= 0
    && 1 <= |image.jpeg| <= limits.maxFrameBytes
    && 1 <= image.width <= limits.maxFrameDimension
    && 1 <= image.height <= limits.maxFrameDimension
    && J.Dimensions(image.jpeg) == Ok(J.Size(image.width, image.height))
    && |FrameName(i)| <= 256
  }

  /** Frames numbered from zero, within the limits, whose headers declare the recorded sizes. */
  predicate Conformant(
    c: Codec, images: seq<Image>, frozen: Frozen, raw: seq<Byte>, expected: Expected, limits: Limits)
  {
    && OuterOk(c, raw, expected, limits)
    && frozen.objectId == expected.objectId && !Blank(frozen.objectId)
    && StatementOk(c.lower, frozen.statement) && SourceOk(frozen.source, |images|)
    && 0 < |images| <= limits.maxFrameCount && |images| + 1 <= limits.maxMemberCount
    && |c.encode(ManifestFor(c, images, frozen))| <= limits.maxManifestBytes
    && Weight(Parts(c, images, frozen)) <= limits.maxContainedBytes
    && forall i :: 0 <= i < |images| ==> ImageOk(images[i], i, limits)
  }

  /** The canonical gate always lets a built archive through. */
  lemma {:induction false} BuiltReads(c: Codec, ps: seq<Member>, raw: seq<Byte>)
    requires LawfulCodec(c) && CanonicalArchive(c, ps) == Some(raw)
    ensures c.read(raw) == Ok(AsRead(Sorted(ps)))
    ensures AsMembers(AsRead(Sorted(ps))) == Sorted(ps)
    ensures CanonicalArchive(c, AsMembers(AsRead(Sorted(ps)))) == Some(raw)
  {
    SortedIsSorted(ps);
    SortedFixpoint(Sorted(ps));
    assert AsMembers(AsRead(Sorted(ps))) == Sorted(ps);
  }

  lemma {:induction false} PartPayload(ps: seq<Member>, x: Member)
    requires Distinct(AsRead(Sorted(ps))) && x in ps
    ensures x.name in Payloads(AsRead(Sorted(ps))) && Payloads(AsRead(Sorted(ps)))[x.name] == x.payload
    ensures TarMember(x.name, CANONICAL_META, |x.payload|, x.payload) in AsRead(Sorted(ps))
  {
    SameElements(ps, x);
    var k :| 0 <= k < |Sorted(ps)| && Sorted(ps)[k] == x;
    PayloadAt(AsRead(Sorted(ps)), k);
  }

  lemma {:induction false} PartsAreDistinct(c: Codec, images: seq<Image>, frozen: Frozen, limits: Limits)
    requires forall i :: 0 <= i < |images| ==> ImageOk(images[i], i, limits)
    ensures DistinctParts(Parts(c, images, frozen))
  {
    var ps := Parts(c, images, frozen);
    forall i, j | 0 <= i < j < |ps|
      ensures ps[i].name != ps[j].name
    {
      assert ImageOk(images[i], i, limits);
      FrameNameIsFrameLike(i);
      if j < |images| {
        assert ImageOk(images[j], j, limits);
        if FrameName(i) == FrameName(j) {
          FrameNameInjective(i, j);
        }
      }
    }
  }

  lemma {:induction false} SortedPartsAscend(ps: seq<Member>)
    requires DistinctParts(ps)
    ensures Distinct(AsRead(Sorted(ps))) && Ascending(AsRead(Sorted(ps)))
  {
    SortedDistinct(ps);
    SortedIsSorted(ps);
    var ts := AsRead(Sorted(ps));
    forall i | 0 < i < |ts|
      ensures Less(ts[i - 1].name, ts[i].name)
    {
      LessIsTotal(ts[i - 1].name, ts[i].name);
    }
  }

  predicate GoodPart(x: Member, limits: Limits) {
    && MemberOk(TarMember(x.name, CANONICAL_META, |x.payload|, x.payload), limits)
    && (x.name == MANIFEST_NAME || FrameLike(x.name))
  }

  lemma {:induction false} FramePartIsOk(image: Image, i: nat, limits: Limits)
    requires ImageOk(image, i, limits)
    ensures GoodPart(Member(FrameName(i), image.jpeg), limits)
  {
    FrameNameIsValid(i);
    FrameNameIsFrameLike(i);
  }

  lemma {:induction false} ManifestPartIsOk(content: seq<Byte>, limits: Limits)
    requires |content| <= limits.maxManifestBytes
    ensures GoodPart(Member(MANIFEST_NAME, content), limits)
  {
    ManifestNameIsValid();
  }

  lemma {:induction false} PartIsOk(c: Codec, images: seq<Image>, frozen: Frozen, limits: Limits, x: Member)
    requires forall i :: 0 <= i < |images| ==> ImageOk(images[i], i, limits)
    requires |c.encode(ManifestFor(c, images, frozen))| <= limits.maxManifestBytes
    requires x in Parts(c, images, frozen)
    ensures GoodPart(x, limits)
  {
    var ps := Parts(c, images, frozen);
    var i :| 0 <= i < |ps| && ps[i] == x;
    if i < |images| {
      assert x == FrameParts(images)[i];
      FramePartIsOk(images[i], i, limits);
    } else {
      ManifestPartIsOk(c.encode(ManifestFor(c, images, frozen)), limits);
    }
  }

  /** Good parts with distinct names, few and light enough, can be read once sorted. */
  lemma {:induction false} SortedPartsAreReadable(ps: seq<Member>, limits: Limits)
    requires DistinctParts(ps) && 0 < |ps| <= limits.maxMemberCount && Weight(ps) <= limits.maxContainedBytes
    requires forall x :: x in ps ==> GoodPart(x, limits)
    ensures MembersOk(AsRead(Sorted(ps)), limits)
    ensures AllFrameLike(NamesOf(AsRead(Sorted(ps))))
  {
    var ts := AsRead(Sorted(ps));
    SortedPartsAscend(ps);
    SortedLength(ps);
    forall i | 0 <= i < |ts|
      ensures MemberOk(ts[i], limits) && (ts[i].name == MANIFEST_NAME || FrameLike(ts[i].name))
    {
      assert Sorted(ps)[i] in Sorted(ps);
      SameElements(ps, Sorted(ps)[i]);
      assert GoodPart(Sorted(ps)[i], limits);
    }
    ContainedIsWeight(Sorted(ps));
    SortedWeight(ps);
  }

  lemma {:induction false} SortedPartsCount(c: Codec, images: seq<Image>, frozen: Frozen)
    requires DistinctParts(Parts(c, images, frozen))
    ensures |AsRead(Sorted(Parts(c, images, frozen)))| == |images| + 1
    ensures |FrameMembers(NamesOf(AsRead(Sorted(Parts(c, images, frozen)))))| == |images|
  {
    var ps := Parts(c, images, frozen);
    var ts := AsRead(Sorted(ps));
    SortedLength(ps);
    SortedPartsAscend(ps);
    FrameMembersCount(NamesOf(ts));
    PartPayload(ps, ps[|images|]);
    var k :| 0 <= k < |ts| && ts[k].name == MANIFEST_NAME;
    assert NamesOf(ts)[k] == MANIFEST_NAME;
  }

  lemma {:induction false} ConformantMembers(
    c: Codec, images: seq<Image>, frozen: Frozen, raw: seq<Byte>, expected: Expected, limits: Limits)
    requires Conformant(c, images, frozen, raw, expected, limits)
    ensures MembersOk(AsRead(Sorted(Parts(c, images, frozen))), limits)
    ensures AllFrameLike(NamesOf(AsRead(Sorted(Parts(c, images, frozen)))))
    ensures |FrameMembers(NamesOf(AsRead(Sorted(Parts(c, images, frozen)))))| == |images|
  {
    var ps := Parts(c, images, frozen);
    PartsAreDistinct(c, images, frozen, limits);
    SortedPartsCount(c, images, frozen);
    forall x | x in ps
      ensures GoodPart(x, limits)
    {
      PartIsOk(c, images, frozen, limits, x);
    }
    SortedPartsAreReadable(ps, limits);
  }

  lemma {:induction false} ConformantEntries(
    c: Codec, images: seq<Image>, frozen: Frozen, raw: seq<Byte>, expected: Expected, limits: Limits)
    requires LawfulCodec(c) && Conformant(c, images, frozen, raw, expected, limits)
    requires Distinct(AsRead(Sorted(Parts(c, images, frozen))))
    ensures EntriesOk(c, EntriesFor(c, images), Payloads(AsRead(Sorted(Parts(c, images, frozen)))), limits)
  {
    var ps := Parts(c, images, frozen);
    forall i | 0 <= i < |images|
      ensures EntryOk(c, EntriesFor(c, images)[i], i, Payloads(AsRead(Sorted(ps))), limits)
    {
      assert ImageOk(images[i], i, limits);
      assert ps[i] == Member(FrameName(i), images[i].jpeg);
      PartPayload(ps, ps[i]);
      assert IsDigest(c.sha256(images[i].jpeg));
    }
  }

  /** The manifest found in a built archive is the one that was put there. */
  lemma {:induction false} BuiltManifest(c: Codec, images: seq<Image>, frozen: Frozen)
    requires LawfulCodec(c) && Distinct(AsRead(Sorted(Parts(c, images, frozen))))
    ensures
      var p := Payloads(AsRead(Sorted(Parts(c, images, frozen))));
      MANIFEST_NAME in p && c.decode(p[MANIFEST_NAME]) == Some(ManifestFor(c, images, frozen))
  {
    var ps := Parts(c, images, frozen);
    assert ps[|images|] == Member(MANIFEST_NAME, c.encode(ManifestFor(c, images, frozen)));
    PartPayload(ps, ps[|images|]);
  }

  lemma {:induction false} PartWasOk(ps: seq<Member>, x: Member, limits: Limits)
    requires MembersOk(AsRead(Sorted(ps)), limits) && x in ps
    ensures |x.payload| <= MemberBound(x.name, limits) && |x.name| <= 256
  {
    PartPayload(ps, x);
    var ts := AsRead(Sorted(ps));
    var k :| 0 <= k < |ts| && ts[k] == TarMember(x.name, CANONICAL_META, |x.payload|, x.payload);
    assert MemberOk(ts[k], limits);
  }

  lemma {:induction false} AcceptedImage(c: Codec, images: seq<Image>, frozen: Frozen, limits: Limits, i: nat)
    requires i < |images| && MembersOk(AsRead(Sorted(Parts(c, images, frozen))), limits)
    requires EntryOk(c, EntryFor(c, images[i]), i, Payloads(AsRead(Sorted(Parts(c, images, frozen)))), limits)
    ensures ImageOk(images[i], i, limits)
    ensures FrameOf(EntryFor(c, images[i]), Payloads(AsRead(Sorted(Parts(c, images, frozen)))))
         == Handed(c, images[i], i)
  {
    var ps := Parts(c, images, frozen);
    assert ps[i] == Member(FrameName(i), images[i].jpeg);
    PartPayload(ps, ps[i]);
    PartWasOk(ps, ps[i], limits);
    FrameNameIsFrameLike(i);
  }

  /** The validated frame that image `i` should come back as. */
  function Handed(c: Codec, image: Image, i: nat): ValidatedFrame {
    ValidatedFrame(i, image.timestamp, image.width, image.height,
                   FrameName(i), |image.jpeg|, c.sha256(image.jpeg), image.jpeg)
  }

  /** If validation accepts a built bundle, the frames it was built from conform and come back. */
  lemma {:induction false} AcceptedConforms(
    c: Codec, images: seq<Image>, frozen: Frozen, raw: seq<Byte>, expected: Expected, limits: Limits)
    requires LawfulCodec(c) && Built(c, images, frozen) == Some(raw)
    requires Acceptable(c, raw, expected, limits)
    ensures Conformant(c, images, frozen, raw, expected, limits)
    ensures
      var v := Accepted(c, raw, expected, limits);
      Frozen(v.objectId, v.source, v.statement) == frozen
    ensures |Accepted(c, raw, expected, limits).frames| == |images|
    ensures forall i :: 0 <= i < |images| ==> Accepted(c, raw, expected, limits).frames[i] == Handed(c, images[i], i)
  {
    var ps := Parts(c, images, frozen);
    BuiltReads(c, ps, raw);
    var ts := AsRead(Sorted(ps));
    BuiltManifest(c, images, frozen);
    var es := EntriesFor(c, images);
    assert EntriesOk(c, es, Payloads(ts), limits);
    forall i | 0 <= i < |images|
      ensures ImageOk(images[i], i, limits) && FrameOf(es[i], Payloads(ts)) == Handed(c, images[i], i)
    {
      assert EntryOk(c, es[i], i, Payloads(ts), limits);
      AcceptedImage(c, images, frozen, limits, i);
    }
    PartWasOk(ps, ps[|images|], limits);
    SortedLength(ps);
    ContainedIsWeight(Sorted(ps));
    SortedWeight(ps);
  }

  lemma {:induction false} ConformantManifest(
    c: Codec, images: seq<Image>, frozen: Frozen, raw: seq<Byte>, expected: Expected, limits: Limits)
    requires LawfulCodec(c) && Conformant(c, images, frozen, raw, expected, limits)
    ensures ManifestOk(c, ManifestFor(c, images, frozen), AsRead(Sorted(Parts(c, images, frozen))), expected, limits)
  {
    ConformantMembers(c, images, frozen, raw, expected, limits);
    ConformantEntries(c, images, frozen, raw, expected, limits);
    ManifestAssembles(c, images, frozen, AsRead(Sorted(Parts(c, images, frozen))), expected, limits);
  }

  lemma {:induction false} ManifestAssembles(
    c: Codec, images: seq<Image>, frozen: Frozen, ts: seq<TarMember>, expected: Expected, limits: Limits)
    requires frozen.objectId == expected.objectId && !Blank(frozen.objectId) && StatementOk(c.lower, frozen.statement)
    requires 0 < |images| <= limits.maxFrameCount
    requires AllFrameLike(NamesOf(ts)) && |FrameMembers(NamesOf(ts))| == |images|
    requires EntriesOk(c, EntriesFor(c, images), Payloads(ts), limits)
    ensures ManifestOk(c, ManifestFor(c, images, frozen), ts, expected, limits)
  {
  }

  /** A conformant built bundle is accepted. */
  lemma {:induction false} ConformsAccepted(
    c: Codec, images: seq<Image>, frozen: Frozen, raw: seq<Byte>, expected: Expected, limits: Limits)
    requires LawfulCodec(c) && Built(c, images, frozen) == Some(raw)
    requires Conformant(c, images, frozen, raw, expected, limits)
    ensures Acceptable(c, raw, expected, limits)
  {
    BuiltReads(c, Parts(c, images, frozen), raw);
    ConformantMembers(c, images, frozen, raw, expected, limits);
    ConformantManifest(c, images, frozen, raw, expected, limits);
    BuiltManifest(c, images, frozen);
  }

  /**
   Builder and validator agree. A built bundle is accepted exactly when its
   frames conform, and then validation hands back the object, the source, the
   statement and the very frames that went in, in order.
   */
  lemma {:induction false} BuildValidateRoundTrip(
    c: Codec, images: seq<Image>, frozen: Frozen, raw: seq<Byte>, expected: Expected, limits: Limits)
    requires LawfulCodec(c) && Built(c, images, frozen) == Some(raw)
    ensures Acceptable(c, raw, expected, limits) <==> Conformant(c, images, frozen, raw, expected, limits)
    ensures Acceptable(c, raw, expected, limits) ==>
      var v := Accepted(c, raw, expected, limits);
      && Frozen(v.objectId, v.source, v.statement) == frozen
      && |v.frames| == |images|
      && forall i :: 0 <= i < |images| ==> v.frames[i] == Handed(c, images[i], i)
  {
    if Conformant(c, images, frozen, raw, expected, limits) {
      ConformsAccepted(c, images, frozen, raw, expected, limits);
    }
    if Acceptable(c, raw, expected, limits) {
      AcceptedConforms(c, images, frozen, raw, expected, limits);
    }
  }

  /** The same for the concrete archive format, whatever JSON codec and digest it is used with. */
  lemma {:induction false} UstarRoundTrip(
    encode: Manifest -> seq<Byte>, decode: seq<Byte> -> Option<Manifest>, sha256: seq<Byte> -> string, lower: string -> string,
    images: seq<Image>, frozen: Frozen, raw: seq<Byte>, expected: Expected, limits: Limits)
    requires forall m :: decode(encode(m)) == Some(m)
    requires forall b :: IsDigest(sha256(b))
    requires Built(UstarCodec(encode, decode, sha256, lower), images, frozen) == Some(raw)
    ensures
      var c := UstarCodec(encode, decode, sha256, lower);
      && (Acceptable(c, raw, expected, limits) <==> Conformant(c, images, frozen, raw, expected, limits))
      && (Acceptable(c, raw, expected, limits) ==>
            && |Accepted(c, raw, expected, limits).frames| == |images|
            && forall i :: 0 <= i < |images| ==> Accepted(c, raw, expected, limits).frames[i] == Handed(c, images[i], i))
  {
    UstarCodecIsLawful(encode, decode, sha256, lower);
    BuildValidateRoundTrip(UstarCodec(encode, decode, sha256, lower), images, frozen, raw, expected, limits);
  }
}
