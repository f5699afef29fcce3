/**
 The JPEG segment walker: it reads the dimensions that a payload declares in
 its first start-of-frame segment, without interpreting any image data.
 */
module Jpeg {
  import opened Basics

  datatype JpegError =
    | NoStartOfImage | NoEndOfImage | BadSegmentLength | TruncatedFrame
    | BadDimensions | PastEnd | Misaligned | NoFrame

  datatype Size = Size(width: nat, height: nat)

  predicate IsFrame(marker: Byte) {
    0xC0 <= marker <= 0xCF && marker != 0xC4 && marker != 0xC8 && marker != 0xCC
  }

  predicate IsStandalone(marker: Byte) { marker == 0x01 || 0xD0 <= marker <= 0xD7 }

  predicate IsStop(marker: Byte) { marker == 0xD9 || marker == 0xDA }

  /** The marker codes of ITU-T T.81 Table B.1: start-of-frame, no parameters, end of image or start of scan. */
  lemma {:induction false} MarkerTable(marker: Byte)
    ensures IsFrame(marker)
      <==> marker in {0xC0, 0xC1, 0xC2, 0xC3, 0xC5, 0xC6, 0xC7, 0xC9, 0xCA, 0xCB, 0xCD, 0xCE, 0xCF}
    ensures IsStandalone(marker) <==> marker in {0x01, 0xD0, 0xD1, 0xD2, 0xD3, 0xD4, 0xD5, 0xD6, 0xD7}
    ensures IsStop(marker) <==> marker in {0xD9, 0xDA}
  {
  }

  function U16(p: seq<Byte>, o: nat): nat
    requires o + 2 <= |p|
  {
    256 * (p[o] as int) + p[o + 1] as int
  }

  /** The first offset from `o` on that is not a fill byte. */
  function SkipFill(p: seq<Byte>, o: nat): (i: nat)
    requires o <= |p|
    ensures o <= i <= |p|
    ensures forall j :: o <= j < i ==> p[j] == 0xFF
    ensures i < |p| ==> p[i] != 0xFF
    decreases |p| - o
  {
    if o < |p| && p[o] == 0xFF then SkipFill(p, o + 1) else o
  }

  /** The walk from `o`, as a recursion with no bound on its depth. */
  function Walk(p: seq<Byte>, o: nat): Result<Size, JpegError>
    requires o <= |p|
    decreases |p| - o
  {
    var m := SkipFill(p, o);
    if m >= |p| then Err(NoFrame)
    else if IsStandalone(p[m]) then Walk(p, m + 1)
    else if IsStop(p[m]) || m + 3 > |p| then Err(NoFrame)
    else if U16(p, m + 1) < 2 then Err(BadSegmentLength)
    else if IsFrame(p[m]) then Frame(p, m + 1)
    else
      var next := m + 1 + U16(p, m + 1);
      if next > |p| then Err(PastEnd)
      else if next < |p| && p[next] != 0xFF then Err(Misaligned)
      else Walk(p, next)
  }

  function Frame(p: seq<Byte>, o: nat): Result<Size, JpegError> {
    if o + 7 > |p| then Err(TruncatedFrame)
    else if U16(p, o + 3) == 0 || U16(p, o + 5) == 0 then Err(BadDimensions)
    else Ok(Size(U16(p, o + 5), U16(p, o + 3)))
  }

  predicate Starts(p: seq<Byte>) { |p| >= 2 && p[0] == 0xFF && p[1] == 0xD8 }

  predicate Ends(p: seq<Byte>) { |p| >= 2 && p[|p| - 2] == 0xFF && p[|p| - 1] == 0xD9 }

  function Dimensions(p: seq<Byte>): Result<Size, JpegError> {
    if !Starts(p) then Err(NoStartOfImage)
    else if !Ends(p) then Err(NoEndOfImage)
    else Walk(p, 2)
  }

  /** The inner loop over fill bytes. */
  method PassFill(p: seq<Byte>, start: nat) returns (offset: nat)
    requires start <= |p|
    ensures offset == SkipFill(p, start)
  {
    offset := start;
    while offset < |p| && p[offset] == 0xFF
      invariant start <= offset <= |p|
      invariant SkipFill(p, offset) == SkipFill(p, start)
    {
      offset := offset + 1;
    }
  }

  /**
   The walker itself: at most `|p|` rounds of two nested loops over an offset.
   Every round consumes a byte, so the bound on the rounds never ends the walk,
   and the result is that of the unbounded recursion.
   */
  method DeclaredDimensions(p: seq<Byte>) returns (r: Result<Size, JpegError>, exhausted: bool)
    ensures r == Dimensions(p)
    ensures !exhausted
  {
    exhausted := false;
    if !Starts(p) {
      return Err(NoStartOfImage), false;
    }
    if !Ends(p) {
      return Err(NoEndOfImage), false;
    }
    var offset := 2;
    var rounds := 0;
    while rounds < |p|
      invariant 0 <= rounds <= |p| && rounds + 2 <= offset <= |p|
      invariant Walk(p, offset) == Walk(p, 2)
    {
      offset := PassFill(p, offset);
      if offset >= |p| {
        return Err(NoFrame), false;
      }
      var marker := p[offset];
      offset := offset + 1;
      rounds := rounds + 1;
      if IsStandalone(marker) {
        continue;
      }
      if IsStop(marker) || offset + 2 > |p| {
        return Err(NoFrame), false;
      }
      var segmentLength := U16(p, offset);
      if segmentLength < 2 {
        return Err(BadSegmentLength), false;
      }
      if IsFrame(marker) {
        if offset + 7 > |p| {
          return Err(TruncatedFrame), false;
        }
        var height := U16(p, offset + 3);
        var width := U16(p, offset + 5);
        if width <= 0 || height <= 0 {
          return Err(BadDimensions), false;
        }
        return Ok(Size(width, height)), false;
      }
      offset := offset + segmentLength;
      if offset > |p| {
        return Err(PastEnd), false;
      }
      if offset < |p| && p[offset] != 0xFF {
        return Err(Misaligned), false;
      }
    }
    return Err(NoFrame), true;
  }

  // ---------- the grammar the walker accepts ----------

  /** A marker with its fill bytes: alone, or heading a counted segment. */
  datatype RawItem =
    | Alone(fill: nat, marker: Byte)
    | Segment(fill: nat, marker: Byte, data: seq<Byte>)

  /** A start-of-frame header, through its width field. */
  datatype RawHeader = Header(fill: nat, marker: Byte, length: nat, precision: Byte, size: Size)

  function Fill(k: nat): (s: seq<Byte>)
    ensures |s| == k && forall i :: 0 <= i < k ==> s[i] == 0xFF
  {
    seq(k, _ => 0xFF)
  }

  function Put16(n: nat): (s: seq<Byte>)
    requires n < 65536
    ensures |s| == 2 && 256 * (s[0] as int) + s[1] as int == n
  {
    [n / 256, n % 256]
  }

  predicate ItemOk(item: RawItem) {
    && item.marker != 0xFF
    && (item.Alone? ==> IsStandalone(item.marker))
    && (item.Segment? ==>
          && !IsStandalone(item.marker) && !IsStop(item.marker) && !IsFrame(item.marker)
          && |item.data| + 2 < 65536)
  }

  predicate HeaderOk(h: RawHeader) {
    IsFrame(h.marker) && 2 <= h.length < 65536 && 0 < h.size.width < 65536 && 0 < h.size.height < 65536
  }

  type Item = item: RawItem | ItemOk(item) witness Alone(0, 0x01)

  type Header = h: RawHeader | HeaderOk(h) witness Header(0, 0xC0, 2, 0, Size(1, 1))

  /**
   Well-formed items and header. A segment must be followed by a fill byte;
   `afterSegment` says that one has just ended. At the very start, and after a
   standalone marker, the walker accepts a marker with no fill byte before it.
   */
  predicate Grammar(items: seq<Item>, h: Header, afterSegment: bool) {
    if items == [] then afterSegment ==> h.fill >= 1
    else (afterSegment ==> items[0].fill >= 1) && Grammar(items[1..], h, items[0].Segment?)
  }

  function ItemBytes(item: Item): seq<Byte> {
    Fill(item.fill) + [item.marker] + (if item.Alone? then [] else Put16(|item.data| + 2) + item.data)
  }

  function HeaderBytes(h: Header): seq<Byte> {
    Fill(h.fill) + [h.marker] + Put16(h.length) + [h.precision] + Put16(h.size.height) + Put16(h.size.width)
  }

  function Serialize(items: seq<Item>, h: Header): seq<Byte> {
    if items == [] then HeaderBytes(h) else ItemBytes(items[0]) + Serialize(items[1..], h)
  }

  /** `s` occurs in `p` at `o`. */
  ghost predicate OccursAt(s: seq<Byte>, p: seq<Byte>, o: nat) {
    o + |s| <= |p| && p[o..o + |s|] == s
  }

  lemma {:induction false} FillThenMarker(p: seq<Byte>, o: nat, k: nat)
    requires o + k < |p|
    requires forall j :: o <= j < o + k ==> p[j] == 0xFF
    requires p[o + k] != 0xFF
    ensures SkipFill(p, o) == o + k
  {
  }

  lemma {:induction false} OccursSplit(a: seq<Byte>, b: seq<Byte>, p: seq<Byte>, o: nat)
    requires OccursAt(a + b, p, o)
    ensures OccursAt(a, p, o) && OccursAt(b, p, o + |a|)
  {
    assert (a + b)[..|a|] == a && (a + b)[|a|..] == b;
    assert p[o..o + |a|] == p[o..o + |a + b|][..|a|];
    assert p[o + |a|..o + |a| + |b|] == p[o..o + |a + b|][|a|..];
  }

  lemma {:induction false} HeaderWalk(p: seq<Byte>, o: nat, h: Header)
    requires OccursAt(HeaderBytes(h), p, o)
    ensures Walk(p, o) == Ok(h.size)
  {
    var s := HeaderBytes(h);
    var k := h.fill;
    assert |s| == k + 8;
    assert forall j :: 0 <= j < |s| ==> s[j] == p[o + j];
    assert forall j :: o <= j < o + k ==> p[j] == s[j - o] == 0xFF;
    assert p[o + k] == s[k] == h.marker;
    FillThenMarker(p, o, k);
    assert s[k + 1] == p[o + k + 1] && s[k + 2] == p[o + k + 2];
    assert s[k + 4] == p[o + k + 4] && s[k + 5] == p[o + k + 5];
    assert s[k + 6] == p[o + k + 6] && s[k + 7] == p[o + k + 7];
  }

  lemma {:induction false} ItemWalk(p: seq<Byte>, o: nat, item: Item)
    requires OccursAt(ItemBytes(item), p, o)
    requires
      var next := o + |ItemBytes(item)|;
      item.Segment? && next < |p| ==> p[next] == 0xFF
    ensures Walk(p, o) == Walk(p, o + |ItemBytes(item)|)
  {
    ItemOccurs(p, o, item);
    FillThenMarker(p, o, item.fill);
  }

  /** The fill bytes, the marker and the length of an item, where it occurs. */
  lemma {:induction false} ItemOccurs(p: seq<Byte>, o: nat, item: Item)
    requires OccursAt(ItemBytes(item), p, o)
    ensures
      var k := item.fill;
      && o + |ItemBytes(item)| <= |p| && k < |ItemBytes(item)|
      && (forall j :: o <= j < o + k ==> p[j] == 0xFF)
      && p[o + k] == item.marker
      && (item.Segment? ==> |ItemBytes(item)| == k + 3 + |item.data| && U16(p, o + k + 1) == |item.data| + 2)
  {
    var s := ItemBytes(item);
    var k := item.fill;
    assert forall j :: 0 <= j < |s| ==> s[j] == p[o + j];
    assert forall j :: o <= j < o + k ==> p[j] == s[j - o] == 0xFF;
    assert p[o + k] == s[k];
    if item.Segment? {
      assert s[k + 1] == p[o + k + 1] && s[k + 2] == p[o + k + 2];
    }
  }

  lemma {:induction false} ItemThenWalk(p: seq<Byte>, o: nat, item: Item, rest: seq<Byte>)
    requires OccursAt(ItemBytes(item) + rest, p, o)
    requires item.Segment? ==> rest != [] && rest[0] == 0xFF
    ensures OccursAt(rest, p, o + |ItemBytes(item)|)
    ensures Walk(p, o) == Walk(p, o + |ItemBytes(item)|)
  {
    var next := o + |ItemBytes(item)|;
    OccursSplit(ItemBytes(item), rest, p, o);
    if item.Segment? {
      assert p[next..next + |rest|][0] == p[next];
    }
    ItemWalk(p, o, item);
  }

  lemma {:induction false} SerializeStarts(items: seq<Item>, h: Header, afterSegment: bool)
    requires Grammar(items, h, afterSegment)
    ensures Serialize(items, h) != []
    ensures afterSegment ==> Serialize(items, h)[0] == 0xFF
  {
    if items == [] {
      assert afterSegment ==> HeaderBytes(h)[0] == Fill(h.fill)[0];
    } else {
      assert afterSegment ==> ItemBytes(items[0])[0] == Fill(items[0].fill)[0];
    }
  }

  /** Completeness: wherever a serialized header chain occurs, the walk reads its frame size. */
  lemma {:induction false} SerializedWalk(p: seq<Byte>, o: nat, items: seq<Item>, h: Header, afterSegment: bool)
    requires Grammar(items, h, afterSegment)
    requires OccursAt(Serialize(items, h), p, o)
    ensures Walk(p, o) == Ok(h.size)
    decreases |items|
  {
    if items == [] {
      HeaderWalk(p, o, h);
    } else {
      var item, rest := items[0], Serialize(items[1..], h);
      var next := o + |ItemBytes(item)|;
      assert OccursAt(rest, p, next) && Walk(p, o) == Walk(p, next) by {
        SerializeStarts(items[1..], h, item.Segment?);
        assert Serialize(items, h) == ItemBytes(item) + rest;
        ItemThenWalk(p, o, item, rest);
      }
      SerializedWalk(p, next, items[1..], h, item.Segment?);
    }
  }

  lemma {:induction false} FillOccurs(p: seq<Byte>, o: nat)
    requires o <= |p|
    ensures p[o..SkipFill(p, o)] == Fill(SkipFill(p, o) - o)
  {
  }

  lemma {:induction false} SkippedSegment(p: seq<Byte>, o: nat, m: nat) returns (item: Item)
    requires o <= m && m + 3 <= |p| && p[o..m] == Fill(m - o) && p[m] != 0xFF
    requires !IsStandalone(p[m]) && !IsStop(p[m]) && !IsFrame(p[m])
    requires 2 <= U16(p, m + 1) && m + 1 + U16(p, m + 1) <= |p|
    ensures item == Segment(m - o, p[m], p[m + 3..m + 1 + U16(p, m + 1)])
    ensures OccursAt(ItemBytes(item), p, o) && o + |ItemBytes(item)| == m + 1 + U16(p, m + 1)
  {
    var next := m + 1 + U16(p, m + 1);
    item := Segment(m - o, p[m], p[m + 3..next]);
    assert Put16(|item.data| + 2) == p[m + 1..m + 3];
    assert p[o..next] == p[o..m] + [p[m]] + (p[m + 1..m + 3] + p[m + 3..next]);
  }

  lemma {:induction false} SkippedAlone(p: seq<Byte>, o: nat, m: nat) returns (item: Item)
    requires o <= m < |p| && p[o..m] == Fill(m - o) && p[m] != 0xFF && IsStandalone(p[m])
    ensures item == Alone(m - o, p[m])
    ensures OccursAt(ItemBytes(item), p, o) && o + |ItemBytes(item)| == m + 1
  {
    item := Alone(m - o, p[m]);
    assert ItemBytes(item) == Fill(m - o) + [p[m]] == p[o..m] + [p[m]];
    assert p[o..m + 1] == p[o..m] + [p[m]];
  }

  /** At `o` stands a standalone marker, or a whole segment that another marker or the end follows. */
  predicate Passes(p: seq<Byte>, o: nat)
    requires o <= |p|
  {
    var m := SkipFill(p, o);
    && m < |p|
    && (IsStandalone(p[m]) ||
        (&& !IsStop(p[m]) && !IsFrame(p[m]) && m + 3 <= |p| && 2 <= U16(p, m + 1)
         && var next := m + 1 + U16(p, m + 1);
            next <= |p| && (next < |p| ==> p[next] == 0xFF)))
  }

  /** Where the walk goes on after it. */
  function AfterItem(p: seq<Byte>, o: nat): (next: nat)
    requires o <= |p| && Passes(p, o)
    ensures o < next <= |p|
  {
    var m := SkipFill(p, o);
    if IsStandalone(p[m]) then m + 1 else m + 1 + U16(p, m + 1)
  }

  lemma {:induction false} WalkPasses(p: seq<Byte>, o: nat)
    requires o <= |p| && Passes(p, o)
    ensures Walk(p, o) == Walk(p, AfterItem(p, o))
  {
  }

  /** The item the walk skips there. */
  lemma {:induction false} SkippedItem(p: seq<Byte>, o: nat) returns (item: Item)
    requires o <= |p| && Passes(p, o)
    ensures OccursAt(ItemBytes(item), p, o) && o + |ItemBytes(item)| == AfterItem(p, o)
    ensures item.Segment? && AfterItem(p, o) < |p| ==> p[AfterItem(p, o)] == 0xFF
    ensures o < |p| && p[o] == 0xFF ==> item.fill >= 1
  {
    var m := SkipFill(p, o);
    FillOccurs(p, o);
    if IsStandalone(p[m]) {
      item := SkippedAlone(p, o, m);
    } else {
      item := SkippedSegment(p, o, m);
    }
  }

  lemma {:induction false} PassesUnlessFrame(p: seq<Byte>, o: nat)
    requires o <= |p| && Walk(p, o).Ok? && !IsFrame(p[SkipFill(p, o)])
    ensures Passes(p, o)
  {
  }

  lemma {:induction false} FoundHeader(p: seq<Byte>, o: nat) returns (h: Header)
    requires o <= |p| && Walk(p, o).Ok? && IsFrame(p[SkipFill(p, o)])
    ensures OccursAt(HeaderBytes(h), p, o) && Walk(p, o) == Ok(h.size)
    ensures p[o] == 0xFF ==> h.fill >= 1
  {
    var m := SkipFill(p, o);
    FillOccurs(p, o);
    h := Header(m - o, p[m], U16(p, m + 1), p[m + 3], Size(U16(p, m + 6), U16(p, m + 4)));
    assert Put16(h.length) == p[m + 1..m + 3];
    assert Put16(h.size.height) == p[m + 4..m + 6];
    assert Put16(h.size.width) == p[m + 6..m + 8];
    assert p[o..m + 8] == HeaderBytes(h);
  }

  /** Soundness: a size the walk reads is that of a serialized header chain at that place. */
  lemma {:induction false} WalkIsSerialized(p: seq<Byte>, o: nat, afterSegment: bool)
    returns (items: seq<Item>, h: Header)
    requires o <= |p| && Walk(p, o).Ok?
    requires afterSegment && o < |p| ==> p[o] == 0xFF
    ensures Grammar(items, h, afterSegment)
    ensures OccursAt(Serialize(items, h), p, o)
    ensures Walk(p, o) == Ok(h.size)
    decreases |p| - o
  {
    if IsFrame(p[SkipFill(p, o)]) {
      items := [];
      h := FoundHeader(p, o);
    } else {
      PassesUnlessFrame(p, o);
      var item := SkippedItem(p, o);
      WalkPasses(p, o);
      var rest;
      rest, h := WalkIsSerialized(p, AfterItem(p, o), item.Segment?);
      items := [item] + rest;
      ChainGrows(p, o, item, rest, h, afterSegment);
    }
  }

  /** An item before a chain makes a chain. */
  lemma {:induction false} ChainGrows(p: seq<Byte>, o: nat, item: Item, rest: seq<Item>, h: Header, afterSegment: bool)
    requires OccursAt(ItemBytes(item), p, o) && OccursAt(Serialize(rest, h), p, o + |ItemBytes(item)|)
    requires Grammar(rest, h, item.Segment?) && (afterSegment ==> item.fill >= 1)
    ensures Grammar([item] + rest, h, afterSegment) && OccursAt(Serialize([item] + rest, h), p, o)
  {
    var items := [item] + rest;
    assert items[0] == item && items[1..] == rest;
    OccursJoin(ItemBytes(item), Serialize(rest, h), p, o);
  }

  lemma {:induction false} OccursJoin(a: seq<Byte>, b: seq<Byte>, p: seq<Byte>, o: nat)
    requires OccursAt(a, p, o) && OccursAt(b, p, o + |a|)
    ensures OccursAt(a + b, p, o)
  {
    assert p[o..o + |a + b|] == p[o..o + |a|] + p[o + |a|..o + |a| + |b|];
  }

  /**
   Printer to parser: an image that is a start-of-image marker, any grammatical
   header chain, any tail, and an end-of-image marker declares its frame size.
   */
  lemma {:induction false} SerializedImage(items: seq<Item>, h: Header, tail: seq<Byte>)
    requires Grammar(items, h, false)
    ensures Dimensions([0xFF, 0xD8] + Serialize(items, h) + tail + [0xFF, 0xD9]) == Ok(h.size)
  {
    var s := Serialize(items, h);
    var p := [0xFF, 0xD8] + s + tail + [0xFF, 0xD9];
    assert p[2..2 + |s|] == s;
    SerializedWalk(p, 2, items, h, false);
  }

  ghost predicate ChainAt(items: seq<Item>, h: Header, p: seq<Byte>, size: Size) {
    Grammar(items, h, false) && h.size == size && OccursAt(Serialize(items, h), p, 2)
  }

  /** The walk accepts exactly the images whose header chain is grammatical. */
  lemma {:induction false} AcceptsExactlyGrammar(p: seq<Byte>, size: Size)
    ensures Dimensions(p) == Ok(size) <==>
            Starts(p) && Ends(p) && exists items, h :: ChainAt(items, h, p, size)
  {
    if Dimensions(p) == Ok(size) {
      var items, h := WalkIsSerialized(p, 2, false);
      assert ChainAt(items, h, p, size);
    }
    if items, h :| Starts(p) && Ends(p) && ChainAt(items, h, p, size) {
      SerializedWalk(p, 2, items, h, false);
    }
  }

  /**
   Image data is ignored: some prefix, ending with a frame's width field,
   decides. Every other image with that prefix declares the same size.
   */
  lemma {:induction false} OnlyHeaderMatters(p: seq<Byte>) returns (end: nat)
    requires Dimensions(p).Ok?
    ensures end <= |p| && U16At(p, end - 2) == Dimensions(p).value.width
    ensures forall q :: |q| >= end && q[..end] == p[..end] && Ends(q) ==> Dimensions(q) == Dimensions(p)
  {
    var items, h := WalkIsSerialized(p, 2, false);
    var s := Serialize(items, h);
    end := 2 + |s|;
    WidthEnds(p, items, h);
    forall q | |q| >= end && q[..end] == p[..end] && Ends(q)
      ensures Dimensions(q) == Dimensions(p)
    {
      SameChain(p, q, end, items, h);
    }
  }

  /** A payload that shares the header chain declares its size. */
  lemma {:induction false} SameChain(p: seq<Byte>, q: seq<Byte>, end: nat, items: seq<Item>, h: Header)
    requires Starts(p) && Ends(q) && Grammar(items, h, false) && OccursAt(Serialize(items, h), p, 2)
    requires end == 2 + |Serialize(items, h)| <= |p| && end <= |q| && q[..end] == p[..end]
    ensures Dimensions(q) == Ok(h.size)
  {
    assert q[0] == q[..end][0] == p[0] && q[1] == q[..end][1] == p[1];
    assert q[2..end] == q[..end][2..] == p[2..end];
    SerializedWalk(q, 2, items, h, false);
  }

  /** The chain ends with its width field. */
  lemma {:induction false} WidthEnds(p: seq<Byte>, items: seq<Item>, h: Header)
    requires OccursAt(Serialize(items, h), p, 2)
    ensures U16At(p, |Serialize(items, h)|) == h.size.width
  {
    var s := Serialize(items, h);
    EndsWithWidth(items, h);
    assert s[|s| - 2] == p[|s|] && s[|s| - 1] == p[|s| + 1];
  }

  ghost function U16At(p: seq<Byte>, o: int): int {
    if 0 <= o && o + 2 <= |p| then U16(p, o) else -1
  }

  lemma {:induction false} EndsWithWidth(items: seq<Item>, h: Header)
    ensures |Serialize(items, h)| >= 2
    ensures U16(Serialize(items, h), |Serialize(items, h)| - 2) == h.size.width
    decreases |items|
  {
    if items != [] {
      EndsWithWidth(items[1..], h);
    }
  }

  // ---------- what a refusal reports ----------

  function ItemsBytes(items: seq<Item>): seq<Byte> {
    if items == [] then [] else ItemBytes(items[0]) + ItemsBytes(items[1..])
  }

  /** What each refusal reports about the marker found from `o` on. */
  predicate FaultAt(p: seq<Byte>, o: nat, e: JpegError)
    requires o <= |p|
  {
    var m := SkipFill(p, o);
    match e
    case NoFrame => m == |p| || IsStop(p[m]) || m + 3 > |p|
    case BadSegmentLength => m + 3 <= |p| && p[m + 1] == 0 && p[m + 2] < 2
    case TruncatedFrame => m < |p| < m + 8 && IsFrame(p[m])
    case BadDimensions =>
      && m + 8 <= |p| && IsFrame(p[m])
      && ((p[m + 4] == 0 && p[m + 5] == 0) || (p[m + 6] == 0 && p[m + 7] == 0))
    case PastEnd => m + 3 <= |p| && !IsFrame(p[m]) && m + 1 + U16(p, m + 1) > |p|
    case Misaligned =>
      && m + 3 <= |p| && !IsFrame(p[m]) && m + 1 + U16(p, m + 1) < |p|
      && p[m + 1 + U16(p, m + 1)] != 0xFF
    case _ => false
  }

  lemma {:induction false} StopsOnFault(p: seq<Byte>, o: nat)
    requires o <= |p| && Walk(p, o).Err? && !Passes(p, o)
    ensures FaultAt(p, o, Walk(p, o).error)
  {
  }

  /** Whole items from `o` up to `at`, where the marker has the fault. */
  ghost predicate Refused(p: seq<Byte>, o: nat, items: seq<Item>, at: nat, e: JpegError) {
    OccursAt(ItemsBytes(items), p, o) && at == o + |ItemsBytes(items)| && at <= |p| && FaultAt(p, at, e)
  }

  lemma {:induction false} RefusedLater(p: seq<Byte>, o: nat, item: Item, rest: seq<Item>, at: nat, e: JpegError)
    requires OccursAt(ItemBytes(item), p, o) && Refused(p, o + |ItemBytes(item)|, rest, at, e)
    ensures Refused(p, o, [item] + rest, at, e)
  {
    OccursJoin(ItemBytes(item), ItemsBytes(rest), p, o);
  }

  /** A refused walk passes whole items and stops at one that has the fault it reports. */
  lemma {:induction false} WalkRefusal(p: seq<Byte>, o: nat, e: JpegError) returns (items: seq<Item>, at: nat)
    requires o <= |p| && Walk(p, o) == Err(e)
    ensures Refused(p, o, items, at, e)
    decreases |p| - o
  {
    if Passes(p, o) {
      var item := SkippedItem(p, o);
      WalkPasses(p, o);
      var rest;
      rest, at := WalkRefusal(p, AfterItem(p, o), e);
      items := [item] + rest;
      RefusedLater(p, o, item, rest, at, e);
    } else {
      items, at := [], o;
      StopsOnFault(p, o);
    }
  }

  /** Before the walk, only the two end markers of the payload are refused. */
  lemma {:induction false} EndsRefusal(p: seq<Byte>)
    ensures Dimensions(p) == Err(NoStartOfImage) <==> !([0xFF, 0xD8] <= p)
    ensures Dimensions(p) == Err(NoEndOfImage) <==>
      [0xFF, 0xD8] <= p && !(p[|p| - 2] == 0xFF && p[|p| - 1] == 0xD9)
  {
    if Starts(p) {
      assert p[..2] == [0xFF, 0xD8];
      if Walk(p, 2).Err? {
        var _, at := WalkRefusal(p, 2, Walk(p, 2).error);
      }
    }
  }
}
