/**
 A concrete USTAR block codec for frame bundles: 512-byte headers with fixed
 metadata, octal sizes and a checksum, payloads padded to whole blocks, two
 zero blocks and record padding at the end. Reading undoes writing.
 */
module Archive {
  import opened Basics
  import opened Numerals

  datatype Member = Member(name: string, payload: seq<Byte>)

  /** Member metadata as a reader reports it. */
  datatype Meta = Meta(
    regular: bool, mtime: int, uid: int, gid: int, uname: string, gname: string, mode: int)

  const CANONICAL_META := Meta(true, 0, 0, 0, "", "", 420)

  /** A member as a reader reports it; `content` is what reading past `size` yields. */
  datatype TarMember = TarMember(name: string, meta: Meta, size: nat, content: seq<Byte>)

  function AsRead(ms: seq<Member>): (ts: seq<TarMember>)
    ensures |ts| == |ms|
    ensures forall i :: 0 <= i < |ms| ==>
      ts[i] == TarMember(ms[i].name, CANONICAL_META, |ms[i].payload|, ms[i].payload)
  {
    seq(|ms|, i requires 0 <= i < |ms| =>
      TarMember(ms[i].name, CANONICAL_META, |ms[i].payload|, ms[i].payload))
  }

  datatype ArchiveError = Truncated | BadHeader

  const BLOCK: nat := 512
  const RECORD: nat := 10240

  predicate IsAscii(s: string) {
    forall i :: 0 <= i < |s| ==> '\0' < s[i] < 128 as char
  }

  function Ascii(s: string): (b: seq<Byte>)
    requires forall i :: 0 <= i < |s| ==> s[i] < 128 as char
    ensures |b| == |s| && forall i :: 0 <= i < |s| ==> b[i] == s[i] as int
  {
    seq(|s|, i requires 0 <= i < |s| => s[i] as int)
  }

  function Text(b: seq<Byte>): (s: string)
    ensures |s| == |b| && forall i :: 0 <= i < |b| ==> s[i] as int == b[i]
  {
    seq(|b|, i requires 0 <= i < |b| => b[i] as char)
  }

  function Nul(k: nat): (b: seq<Byte>)
    ensures |b| == k && forall i :: 0 <= i < k ==> b[i] == 0
  {
    seq(k, _ => 0)
  }

  /** Names and sizes that the fixed-width fields can hold. */
  predicate Fits(name: string, size: nat) {
    0 < |name| <= 100 && IsAscii(name) && |Print(size, 8)| <= 11
  }

  /** Up to a hundred ASCII characters, and sizes of up to eleven octal digits. */
  lemma {:induction false} FitsExactly(name: string, size: nat)
    ensures Fits(name, size) <==>
      1 <= |name| <= 100 && (forall i :: 0 <= i < |name| ==> 1 <= name[i] as int <= 127) && size < Power(8, 11)
  {
    if |Print(size, 8)| <= 11 {
      PrintLengthBounds(size, 8, 11);
    }
    if size < Power(8, 11) {
      PrintLength(size, 8, 11);
    }
  }

  function NameField(name: string): (b: seq<Byte>)
    requires |name| <= 100 && IsAscii(name)
    ensures |b| == 100
  {
    Ascii(name) + Nul(100 - |name|)
  }

  function OctalField(n: nat, digits: nat): (b: seq<Byte>)
    requires |Print(n, 8)| <= digits
    ensures |b| == digits + 1
  {
    Ascii(Pad(Print(n, 8), digits)) + [0]
  }

  /** The mode, user and group fields. */
  const OWNER: seq<Byte> := Ascii("0000644") + [0] + Ascii("0000000") + [0] + Ascii("0000000") + [0]

  /** The type flag, the empty link name, the magic, and the empty owner, device and prefix fields. */
  const TRAILER: seq<Byte> := Ascii("0") + Nul(100) + Ascii("ustar") + [0] + Ascii("00") + Nul(247)

  function Sum(b: seq<Byte>): (n: nat)
    ensures n <= 255 * |b|
  {
    if b == [] then 0 else Sum(b[..|b| - 1]) + b[|b| - 1] as int
  }

  lemma {:induction false} ChecksumFits(b: seq<Byte>)
    requires |b| == BLOCK
    ensures |Print(Sum(b), 8)| <= 6
  {
    assert Sum(b) <= 130560;
    calc {
      Power(8, 6);
      8 * Power(8, 5);
      8 * 8 * Power(8, 4);
      8 * 8 * 8 * Power(8, 3);
      8 * 8 * 8 * 8 * Power(8, 2);
      8 * 8 * 8 * 8 * 8 * Power(8, 1);
      8 * 8 * 8 * 8 * 8 * 8 * Power(8, 0);
      262144;
    }
    PrintLength(Sum(b), 8, 6);
  }

  /** The header up to its checksum field: name, owner, size, and a zero time. */
  function Front(name: string, size: nat): (b: seq<Byte>)
    requires Fits(name, size)
    ensures |b| == 148
  {
    NameField(name) + OWNER + OctalField(size, 11) + (Ascii("00000000000") + [0])
  }

  function Header(name: string, size: nat): (b: seq<Byte>)
    requires Fits(name, size)
    ensures |b| == BLOCK
  {
    var front := Front(name, size);
    var blanked := front + Ascii("        ") + TRAILER;
    ChecksumFits(blanked);
    front + (OctalField(Sum(blanked), 6) + Ascii(" ")) + TRAILER
  }

  function FirstNul(b: seq<Byte>): (i: nat)
    ensures i <= |b|
    ensures forall j :: 0 <= j < i ==> b[j] != 0
    ensures i < |b| ==> b[i] == 0
  {
    if b == [] || b[0] == 0 then 0 else 1 + FirstNul(b[1..])
  }

  /** The name and size of a header block, which must be exactly the canonical one for them. */
  function ParseHeader(block: seq<Byte>): Option<(string, nat)>
    requires |block| == BLOCK
  {
    var name := Text(block[..FirstNul(block[..100])]);
    match Parse(Text(block[124..135]), 8)
    case None => None
    case Some(size) =>
      if Fits(name, size) && block == Header(name, size) then Some((name, size)) else None
  }

  lemma {:induction false} NameFieldParses(name: string)
    requires 0 < |name| <= 100 && IsAscii(name)
    ensures FirstNul(NameField(name)) == |name|
    ensures Text(NameField(name)[..|name|]) == name
  {
    var b := NameField(name);
    assert forall j :: 0 <= j < |name| ==> b[j] == Ascii(name)[j] != 0;
    if |name| < 100 {
      assert b[|name|] == Nul(100 - |name|)[0];
    }
    assert Text(b[..|name|]) == name;
  }

  lemma {:induction false} HeaderParses(name: string, size: nat)
    requires Fits(name, size)
    ensures ParseHeader(Header(name, size)) == Some((name, size))
  {
    var h := Header(name, size);
    var front := Front(name, size);
    assert h[..148] == front;
    assert h[..100] == front[..100] == NameField(name);
    assert h[124..135] == front[124..135] == Ascii(Pad(Print(size, 8), 11));
    assert Text(h[124..135]) == Pad(Print(size, 8), 11);
    NameFieldParses(name);
    assert h[..|name|] == h[..100][..|name|];
    ParsePrint(size, 8, 11);
  }

  lemma {:induction false} HeaderNotNul(name: string, size: nat)
    requires Fits(name, size)
    ensures Header(name, size) != Nul(BLOCK)
  {
    assert Header(name, size)[0] == Front(name, size)[0] == NameField(name)[0] == Ascii(name)[0] != 0;
  }

  /** The fields of a header block before its checksum, each at its place in the USTAR format. */
  lemma {:induction false} HeaderFields(name: string, size: nat)
    requires Fits(name, size)
    ensures
      var h := Header(name, size);
      && h[..|name|] == Ascii(name) && h[|name|..100] == Nul(100 - |name|)
      && h[100..107] == Ascii("0000644") && h[107] == 0
      && h[108..115] == Ascii("0000000") && h[115] == 0 && h[116..123] == Ascii("0000000") && h[123] == 0
      && Parse(Text(h[124..135]), 8) == Some(size) && h[135] == 0
      && h[136..147] == Ascii("00000000000") && h[147] == 0
  {
    var h, front := Header(name, size), Front(name, size);
    assert h[..148] == front;
    var field := NameField(name);
    assert front[..100] == field && h[..100] == field;
    assert h[..|name|] == h[..100][..|name|] == field[..|name|] == Ascii(name);
    assert h[|name|..100] == h[..100][|name|..] == field[|name|..] == Nul(100 - |name|);
    assert front[100..124] == OWNER && h[100..124] == OWNER;
    OwnerFields(h);
    assert h[124..135] == front[124..135] == Ascii(Pad(Print(size, 8), 11));
    assert Text(h[124..135]) == Pad(Print(size, 8), 11);
    ParsePrint(size, 8, 11);
    assert h[135] == front[135] == OctalField(size, 11)[11] == 0;
    assert h[136..148] == front[136..148] == Ascii("00000000000") + [0];
    assert h[136..147] == h[136..148][..11] && h[147] == h[136..148][11];
  }

  lemma {:induction false} OwnerFields(h: seq<Byte>)
    requires |h| == BLOCK && h[100..124] == OWNER
    ensures h[100..107] == Ascii("0000644") && h[107] == 0
    ensures h[108..115] == Ascii("0000000") && h[115] == 0 && h[116..123] == Ascii("0000000") && h[123] == 0
  {
    SubSlice(h, 100, 124, 0, 7);
    SubSlice(h, 100, 124, 8, 15);
    SubSlice(h, 100, 124, 16, 23);
    var o := h[100..124];
    assert o[0..7] == Ascii("0000644") && o[8..15] == Ascii("0000000") && o[16..23] == Ascii("0000000");
    assert h[107] == o[7] && h[115] == o[15] && h[123] == o[23];
  }

  lemma {:induction false} SubSlice(h: seq<Byte>, a: nat, b: nat, c: nat, d: nat)
    requires a <= b <= |h| && c <= d <= b - a
    ensures h[a..b][c..d] == h[a + c..a + d]
  {
    var x, y := h[a..b][c..d], h[a + c..a + d];
    assert |x| == d - c && |y| == d - c;
    forall i | 0 <= i < d - c
      ensures x[i] == y[i]
    {
      assert x[i] == h[a..b][c + i] == h[a + (c + i)];
      assert y[i] == h[a + c + i];
    }
  }

  /** The checksum is that of the block with a blank checksum field; type, magic and version follow, the rest is zero. */
  lemma {:induction false} HeaderChecksum(name: string, size: nat)
    requires Fits(name, size)
    ensures
      var h := Header(name, size);
      && Parse(Text(h[148..154]), 8) == Some(Sum(h[..148] + Ascii("        ") + h[156..])) && h[154] == 0 && h[155] == 32
      && h[156] == 48 && h[157..257] == Nul(100)
      && h[257..262] == Ascii("ustar") && h[262] == 0 && h[263..265] == Ascii("00") && h[265..] == Nul(247)
  {
    var h, front := Header(name, size), Front(name, size);
    var blanked := front + Ascii("        ") + TRAILER;
    ChecksumFits(blanked);
    var field := OctalField(Sum(blanked), 6);
    assert h == front + (field + Ascii(" ")) + TRAILER;
    assert h[..148] == front && h[156..] == TRAILER;
    assert h[148..156] == field + Ascii(" ");
    assert h[148..154] == h[148..156][..6] == field[..6] == Ascii(Pad(Print(Sum(blanked), 8), 6));
    assert Text(h[148..154]) == Pad(Print(Sum(blanked), 8), 6);
    ParsePrint(Sum(blanked), 8, 6);
    assert h[154] == h[148..156][6] && h[155] == h[148..156][7];
    TrailerFields(h);
  }

  lemma {:induction false} TrailerFields(h: seq<Byte>)
    requires |h| == BLOCK && h[156..] == TRAILER
    ensures h[156] == 48 && h[157..257] == Nul(100)
    ensures h[257..262] == Ascii("ustar") && h[262] == 0 && h[263..265] == Ascii("00") && h[265..] == Nul(247)
  {
    var t := h[156..];
    assert h[156] == t[0] && h[157..257] == t[1..101];
    assert h[257..262] == t[101..106] && h[262] == t[106] && h[263..265] == t[107..109] && h[265..] == t[109..];
  }

  // ---------- the frame around the headers ----------

  /** A header format: what it can express, how it prints, and how it parses. */
  datatype Headers = Headers(
    fits: (string, nat) -> bool,
    put: (string, nat) -> seq<Byte>,
    parse: seq<Byte> -> Option<(string, nat)>)

  /** Printed headers are nonzero whole blocks that parse back. */
  ghost predicate Lawful(h: Headers) {
    forall name: string, size: nat {:trigger h.put(name, size)} :: h.fits(name, size) ==>
      && |h.put(name, size)| == BLOCK
      && h.put(name, size) != Nul(BLOCK)
      && h.parse(h.put(name, size)) == Some((name, size))
  }

  function Padding(size: nat, unit: nat): (k: nat)
    requires unit == BLOCK || unit == RECORD
    ensures k < unit && (size + k) % unit == 0
  {
    PaddingFillsBlock(size);
    PaddingFillsRecord(size);
    if size % unit == 0 then 0 else unit - size % unit
  }

  lemma {:induction false} PaddingFillsBlock(size: nat)
    ensures size % 512 == 0 || (size + (512 - size % 512)) % 512 == 0
  {
  }

  lemma {:induction false} PaddingFillsRecord(size: nat)
    ensures size % 10240 == 0 || (size + (10240 - size % 10240)) % 10240 == 0
  {
  }

  function EntryBytes(h: Headers, m: Member): seq<Byte> {
    h.put(m.name, |m.payload|) + (m.payload + Nul(Padding(|m.payload|, BLOCK)))
  }

  predicate AllFit(h: Headers, ms: seq<Member>) {
    forall i :: 0 <= i < |ms| ==> h.fits(ms[i].name, |ms[i].payload|)
  }

  function Entries(h: Headers, ms: seq<Member>): seq<Byte> {
    if ms == [] then [] else EntryBytes(h, ms[0]) + Entries(h, ms[1..])
  }

  /** Members in the given order; members the format cannot express are refused. */
  function Write(h: Headers, ms: seq<Member>): Option<seq<Byte>> {
    if !AllFit(h, ms) then None
    else
      var body := Entries(h, ms) + Nul(2 * BLOCK);
      Some(body + Nul(Padding(|body|, RECORD)))
  }

  /** A written archive: its entries in whole blocks, at least two blocks of zeros, up to the next whole record. */
  lemma {:induction false} WrittenShape(h: Headers, ms: seq<Member>)
    requires Lawful(h) && Write(h, ms).Some?
    ensures
      var raw, n := Write(h, ms).value, |Entries(h, ms)|;
      && raw[..n] == Entries(h, ms) && n % 512 == 0 && |raw| % 10240 == 0
      && n + 1024 <= |raw| < n + 1024 + 10240 && forall i :: n <= i < |raw| ==> raw[i] == 0
  {
    var raw, es := Write(h, ms).value, Entries(h, ms);
    EntriesFillBlocks(h, ms);
    var body := es + Nul(2 * BLOCK);
    assert raw == body + Nul(Padding(|body|, RECORD));
    assert raw[..|es|] == es;
  }

  lemma {:induction false} EntriesFillBlocks(h: Headers, ms: seq<Member>)
    requires Lawful(h) && AllFit(h, ms)
    ensures |Entries(h, ms)| % 512 == 0
  {
    if ms != [] {
      var m := ms[0];
      assert h.fits(m.name, |m.payload|);
      assert |h.put(m.name, |m.payload|)| == 512;
      assert (|m.payload| + Padding(|m.payload|, BLOCK)) % 512 == 0;
      EntriesFillBlocks(h, ms[1..]);
    }
  }

  /** One entry: its header, its payload, and zeros. */
  lemma {:induction false} EntryShape(h: Headers, m: Member)
    requires Lawful(h) && h.fits(m.name, |m.payload|)
    ensures
      var e := EntryBytes(h, m);
      && |e| >= 512 + |m.payload| && e[..512] == h.put(m.name, |m.payload|) && e[512..512 + |m.payload|] == m.payload
      && forall i :: 512 + |m.payload| <= i < |e| ==> e[i] == 0
  {
    assert |h.put(m.name, |m.payload|)| == 512;
  }

  function ReadFrom(h: Headers, raw: seq<Byte>, o: nat): Result<seq<TarMember>, ArchiveError>
    decreases |raw| - o
  {
    if o + BLOCK > |raw| then Err(Truncated)
    else if raw[o..o + BLOCK] == Nul(BLOCK) then Ok([])
    else
      match h.parse(raw[o..o + BLOCK])
      case None => Err(BadHeader)
      case Some((name, size)) =>
        var start := o + BLOCK;
        if start + size > |raw| then Err(Truncated)
        else
          match ReadFrom(h, raw, start + size + Padding(size, BLOCK))
          case Err(e) => Err(e)
          case Ok(rest) => Ok([TarMember(name, CANONICAL_META, size, raw[start..start + size])] + rest)
  }

  function Read(h: Headers, raw: seq<Byte>): Result<seq<TarMember>, ArchiveError> { ReadFrom(h, raw, 0) }

  /** `bytes` stand at offset `o`. */
  predicate Holds(raw: seq<Byte>, o: nat, bytes: seq<Byte>) {
    o + |bytes| <= |raw| && raw[o..o + |bytes|] == bytes
  }

  lemma {:induction false} HoldsBoth(raw: seq<Byte>, o: nat, a: seq<Byte>, b: seq<Byte>)
    requires Holds(raw, o, a + b)
    ensures Holds(raw, o, a) && Holds(raw, o + |a|, b)
  {
    assert raw[o..o + |a|] == raw[o..o + |a + b|][..|a|];
    assert raw[o + |a|..o + |a| + |b|] == raw[o..o + |a + b|][|a|..];
  }

  lemma {:induction false} ReadOne(h: Headers, raw: seq<Byte>, o: nat, m: Member, rest: seq<TarMember>)
    requires Lawful(h) && h.fits(m.name, |m.payload|) && Holds(raw, o, EntryBytes(h, m))
    requires ReadFrom(h, raw, o + |EntryBytes(h, m)|) == Ok(rest)
    ensures ReadFrom(h, raw, o) == Ok([TarMember(m.name, CANONICAL_META, |m.payload|, m.payload)] + rest)
  {
    var size := |m.payload|;
    var head, padding := h.put(m.name, size), Nul(Padding(size, BLOCK));
    HoldsBoth(raw, o, head, m.payload + padding);
    HoldsBoth(raw, o + |head|, m.payload, padding);
  }

  lemma {:induction false} AsReadSplit(ms: seq<Member>)
    requires ms != []
    ensures AsRead(ms)
         == [TarMember(ms[0].name, CANONICAL_META, |ms[0].payload|, ms[0].payload)] + AsRead(ms[1..])
  {
  }

  lemma {:induction false} ReadEnd(h: Headers, raw: seq<Byte>, o: nat)
    requires Holds(raw, o, Nul(BLOCK))
    ensures ReadFrom(h, raw, o) == Ok(AsRead([]))
  {
    assert AsRead([]) == [];
  }

  lemma {:induction false} ReadNext(h: Headers, raw: seq<Byte>, o: nat, ms: seq<Member>)
    requires Lawful(h) && ms != [] && h.fits(ms[0].name, |ms[0].payload|) && Holds(raw, o, EntryBytes(h, ms[0]))
    requires ReadFrom(h, raw, o + |EntryBytes(h, ms[0])|) == Ok(AsRead(ms[1..]))
    ensures ReadFrom(h, raw, o) == Ok(AsRead(ms))
  {
    ReadOne(h, raw, o, ms[0], AsRead(ms[1..]));
    AsReadSplit(ms);
  }

  /** Entry by entry from `o` on, the members stand in `raw`, and then an end block. */
  ghost predicate Stand(h: Headers, raw: seq<Byte>, o: nat, ms: seq<Member>)
    decreases |ms|
  {
    if ms == [] then Holds(raw, o, Nul(BLOCK))
    else Holds(raw, o, EntryBytes(h, ms[0])) && Stand(h, raw, o + |EntryBytes(h, ms[0])|, ms[1..])
  }

  lemma {:induction false} EntriesStand(h: Headers, raw: seq<Byte>, o: nat, ms: seq<Member>)
    requires Holds(raw, o, Entries(h, ms)) && Holds(raw, o + |Entries(h, ms)|, Nul(BLOCK))
    ensures Stand(h, raw, o, ms)
    decreases |ms|
  {
    if ms != [] {
      var e := EntryBytes(h, ms[0]);
      HoldsBoth(raw, o, e, Entries(h, ms[1..]));
      EntriesStand(h, raw, o + |e|, ms[1..]);
    }
  }

  lemma {:induction false} ReadEntries(h: Headers, raw: seq<Byte>, o: nat, ms: seq<Member>)
    requires Lawful(h) && AllFit(h, ms) && Stand(h, raw, o, ms)
    ensures ReadFrom(h, raw, o) == Ok(AsRead(ms))
    decreases |ms|
  {
    if ms == [] {
      ReadEnd(h, raw, o);
    } else {
      ReadEntries(h, raw, o + |EntryBytes(h, ms[0])|, ms[1..]);
      ReadNext(h, raw, o, ms);
    }
  }

  /** Reading a written archive gives the members back, in order, with canonical metadata. */
  lemma {:induction false} ReadWrite(h: Headers, ms: seq<Member>)
    requires Lawful(h) && Write(h, ms).Some?
    ensures Read(h, Write(h, ms).value) == Ok(AsRead(ms))
  {
    var raw, es := Write(h, ms).value, Entries(h, ms);
    assert Holds(raw, 0, es);
    assert raw[|es|..|es| + BLOCK] == Nul(BLOCK);
    EntriesStand(h, raw, 0, ms);
    ReadEntries(h, raw, 0, ms);
  }

  /** The canonical header format. */
  function Ustar(): Headers {
    Headers(
      (name: string, size: nat) => Fits(name, size),
      (name: string, size: nat) => if Fits(name, size) then Header(name, size) else [],
      (block: seq<Byte>) => if |block| == BLOCK then ParseHeader(block) else None)
  }

  lemma {:induction false} UstarIsLawful()
    ensures Lawful(Ustar())
  {
    forall name: string, size: nat | Ustar().fits(name, size)
      ensures |Ustar().put(name, size)| == BLOCK
      ensures Ustar().put(name, size) != Nul(BLOCK)
      ensures Ustar().parse(Ustar().put(name, size)) == Some((name, size))
    {
      HeaderNotNul(name, size);
      HeaderParses(name, size);
    }
  }
}
