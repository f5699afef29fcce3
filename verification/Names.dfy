/** Archive member names: their order, their validity, and the canonical frame names. */
module Names {
  import opened Basics
  import opened Numerals

  const MANIFEST_NAME := "frame_bundle_manifest.json"

  /** Lexicographic order on code points. */
  predicate Less(a: string, b: string) {
    b != [] && (a == [] || a[0] < b[0] || (a[0] == b[0] && Less(a[1..], b[1..])))
  }

  lemma {:induction false} LessIsStrict(a: string)
    ensures !Less(a, a)
  {
    if a != [] {
      LessIsStrict(a[1..]);
    }
  }

  lemma {:induction false} LessIsTransitive(a: string, b: string, c: string)
    requires Less(a, b) && Less(b, c)
    ensures Less(a, c)
  {
    if a != [] && a[0] == b[0] == c[0] {
      LessIsTransitive(a[1..], b[1..], c[1..]);
    }
  }

  lemma {:induction false} LessIsTotal(a: string, b: string)
    ensures Less(a, b) || a == b || Less(b, a)
  {
    if a != [] && b != [] && a[0] == b[0] {
      LessIsTotal(a[1..], b[1..]);
    }
  }

  /** The components of a path, between its slashes. */
  function Components(s: string): seq<string>
    decreases |s|
  {
    match Partition(s, '/')
    case None => [s]
    case Some((head, tail)) => [head] + Components(tail)
  }

  predicate IsLetter(c: char) { 'A' <= c <= 'Z' || 'a' <= c <= 'z' }

  predicate Printable(s: string) {
    forall i :: 0 <= i < |s| ==> s[i] >= ' ' && s[i] != 127 as char && s[i] != '\\'
  }

  predicate CleanComponents(parts: seq<string>) {
    forall i :: 0 <= i < |parts| ==> parts[i] != "" && parts[i] != "." && parts[i] != ".."
  }

  /** A relative, printable path with no empty, "." or ".." component and no drive letter. */
  predicate ValidName(s: string) {
    && 0 < |s| <= 256
    && Printable(s)
    && s[0] != '/'
    && !(|s| >= 2 && IsLetter(s[0]) && s[1] == ':')
    && CleanComponents(Components(s))
  }

  /** The canonical member name of frame `i`. */
  function FrameName(i: nat): string {
    "frames/" + Pad(Decimal(i), 3) + ".jpg"
  }

  /** A name of the form frames/DIGITS.jpg. */
  predicate FrameLike(s: string) {
    && |s| >= 12 && s[..7] == "frames/" && s[|s| - 4..] == ".jpg"
    && ParseDecimal(s[7..|s| - 4]).Some?
  }

  lemma {:induction false} FrameNameParts(i: nat)
    ensures |FrameName(i)| == 11 + |Pad(Decimal(i), 3)| >= 14
    ensures FrameName(i)[..7] == "frames/"
    ensures FrameName(i)[7..|FrameName(i)| - 4] == Pad(Decimal(i), 3)
    ensures FrameName(i)[|FrameName(i)| - 4..] == ".jpg"
    ensures ParseDecimal(Pad(Decimal(i), 3)) == Some(i)
  {
    ParsePrint(i, 10, 3);
  }

  /** Zero padding to three digits never makes two frames collide, however many there are. */
  lemma {:induction false} FrameNameInjective(i: nat, j: nat)
    requires FrameName(i) == FrameName(j)
    ensures i == j
  {
    FrameNameParts(i);
    FrameNameParts(j);
  }

  lemma {:induction false} FrameNameIsFrameLike(i: nat)
    ensures FrameLike(FrameName(i)) && FrameName(i) != MANIFEST_NAME
  {
    FrameNameParts(i);
    assert MANIFEST_NAME[6] != '/' && FrameName(i)[..7][6] == FrameName(i)[6];
  }

  lemma {:induction false} PrintableJoin(a: string, b: string)
    requires Printable(a) && Printable(b)
    ensures Printable(a + b)
  {
  }

  lemma {:induction false} NoSlash(s: string)
    requires '/' !in s
    ensures Components(s) == [s]
  {
    assert Find(s, '/') == |s|;
  }

  /** A printable name without a slash is valid unless it is a dot name or a drive. */
  lemma {:induction false} FlatNameIsValid(s: string)
    requires 2 < |s| <= 256 && '/' !in s && Printable(s) && s[1] != ':'
    ensures ValidName(s)
  {
    NoSlash(s);
  }

  /** So is such a name one directory down. */
  lemma {:induction false} NestedNameIsValid(dir: string, tail: string)
    requires 2 < |dir| && 2 < |tail| && |dir| + |tail| < 256
    requires '/' !in dir && '/' !in tail && Printable(dir) && Printable(tail) && dir[1] != ':'
    ensures ValidName(dir + ['/'] + tail)
  {
    PartitionAt(dir, '/', tail);
    NoSlash(tail);
    PrintableJoin(dir, ['/']);
    PrintableJoin(dir + ['/'], tail);
  }

  lemma {:induction false} FrameNameIsValid(i: nat)
    requires |FrameName(i)| <= 256
    ensures ValidName(FrameName(i))
  {
    var d := Pad(Decimal(i), 3);
    assert forall k :: 0 <= k < |d| ==> IsDigit(d[k], 10);
    PrintableJoin(d, ".jpg");
    assert FrameName(i) == "frames" + ['/'] + (d + ".jpg");
    NestedNameIsValid("frames", d + ".jpg");
  }

  lemma {:induction false} ManifestNameIsValid()
    ensures ValidName(MANIFEST_NAME)
  {
    FlatNameIsValid(MANIFEST_NAME);
  }

  // ---------- what the order and the checks mean ----------

  /** The texts agree up to `k`, where `a` ends first or has the smaller character. */
  predicate SmallerAt(a: string, b: string, k: nat) {
    k <= |a| && k < |b| && a[..k] == b[..k] && (k == |a| || a[k] < b[k])
  }

  lemma {:induction false} LessHasWitness(a: string, b: string) returns (k: nat)
    requires Less(a, b)
    ensures SmallerAt(a, b, k)
  {
    if a == [] || a[0] < b[0] {
      k := 0;
    } else {
      k := LessHasWitness(a[1..], b[1..]);
      k := k + 1;
      assert a[..k] == [a[0]] + a[1..][..k - 1] && b[..k] == [b[0]] + b[1..][..k - 1];
    }
  }

  lemma {:induction false} WitnessIsLess(a: string, b: string, k: nat)
    requires SmallerAt(a, b, k)
    ensures Less(a, b)
    decreases k
  {
    if k > 0 {
      assert a[0] == a[..k][0] == b[..k][0] == b[0];
      assert a[1..][..k - 1] == a[..k][1..] == b[..k][1..] == b[1..][..k - 1];
      WitnessIsLess(a[1..], b[1..], k - 1);
    }
  }

  /** Dictionary order: the first difference decides, and a proper prefix comes first. */
  lemma {:induction false} LessIsDictionaryOrder(a: string, b: string)
    ensures Less(a, b) <==> exists k: nat :: SmallerAt(a, b, k)
  {
    if Less(a, b) {
      var k := LessHasWitness(a, b);
    }
    if k: nat :| SmallerAt(a, b, k) {
      WitnessIsLess(a, b, k);
    }
  }

  /** Parts joined by slashes. */
  function Join(parts: seq<string>): string
    requires parts != []
  {
    if |parts| == 1 then parts[0] else parts[0] + ['/'] + Join(parts[1..])
  }

  /** `parts` are what lies between the slashes of `s`. */
  predicate Splits(s: string, parts: seq<string>) {
    parts != [] && Join(parts) == s && forall i :: 0 <= i < |parts| ==> '/' !in parts[i]
  }

  lemma {:induction false} ComponentsSplit(s: string)
    ensures Splits(s, Components(s))
    decreases |s|
  {
    var i := Find(s, '/');
    if i < |s| {
      var head, tail := s[..i], s[i + 1..];
      ComponentsSplit(tail);
      assert Components(s) == [head] + Components(tail);
      assert Components(s)[1..] == Components(tail);
      assert s == head + ['/'] + tail;
    }
  }

  lemma {:induction false} SplitIsUnique(s: string, parts: seq<string>)
    requires Splits(s, parts)
    ensures Components(s) == parts
    decreases |parts|
  {
    if |parts| == 1 {
      NoSlash(parts[0]);
    } else {
      var tail := Join(parts[1..]);
      assert s == parts[0] + ['/'] + tail;
      PartitionAt(parts[0], '/', tail);
      SplitIsUnique(tail, parts[1..]);
      assert parts == [parts[0]] + parts[1..];
    }
  }

  /** Exactly which member names are accepted, in terms of their characters and of the parts between slashes. */
  lemma {:induction false} ValidNameExactly(s: string, parts: seq<string>)
    requires Splits(s, parts)
    ensures ValidName(s) <==>
      && 1 <= |s| <= 256
      && (forall i :: 0 <= i < |s| ==> s[i] as int >= 32 && s[i] as int != 127 && s[i] != '\\')
      && !(|s| >= 2 && s[1] == ':' && ('a' <= s[0] <= 'z' || 'A' <= s[0] <= 'Z'))
      && "" !in parts && "." !in parts && ".." !in parts
  {
    SplitIsUnique(s, parts);
    if s != "" && s[0] == '/' {
      LeadingSlash(s, parts);
    }
  }

  lemma {:induction false} JoinStarts(parts: seq<string>)
    requires parts != [] && parts[0] != ""
    ensures Join(parts) != "" && Join(parts)[0] in parts[0]
  {
    assert Join(parts)[0] == parts[0][0];
  }

  lemma {:induction false} LeadingSlash(s: string, parts: seq<string>)
    requires Splits(s, parts) && s != "" && s[0] == '/'
    ensures parts[0] == ""
  {
    if parts[0] != "" {
      JoinStarts(parts);
    }
  }

  /** The frame pattern: a run of digits between the directory and the extension. */
  lemma {:induction false} FrameLikeExactly(s: string)
    ensures FrameLike(s) <==> exists d :: ParseDecimal(d).Some? && s == "frames/" + d + ".jpg"
  {
    if FrameLike(s) {
      var d := s[7..|s| - 4];
      assert s == s[..7] + d + s[|s| - 4..];
    }
    if d :| ParseDecimal(d).Some? && s == "frames/" + d + ".jpg" {
      assert s[..7] == "frames/" && s[7..|s| - 4] == d && s[|s| - 4..] == ".jpg";
    }
  }

  /** Three digits while they suffice, and no padding beyond. */
  lemma {:induction false} FrameNameWidth(i: nat)
    ensures i < 1000 ==> |FrameName(i)| == 14
    ensures i >= 1000 ==> FrameName(i) == "frames/" + Decimal(i) + ".jpg"
  {
    if i < 1000 {
      assert Power(10, 3) == 10 * Power(10, 2) == 10 * (10 * Power(10, 1)) == 10 * (10 * (10 * Power(10, 0))) == 1000;
      PrintLength(i, 10, 3);
    } else {
      assert |Print(i / 1000, 10)| >= 1;
      assert Print(i, 10) == Print(i / 10, 10) + [DigitChar(i % 10)];
      assert Print(i / 10, 10) == Print(i / 10 / 10, 10) + [DigitChar(i / 10 % 10)];
    }
  }
}
