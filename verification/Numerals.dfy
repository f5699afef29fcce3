/** Positional numerals as text: printing, zero padding, parsing, and their round trips. */
module Numerals {
  import opened Basics

  function DigitChar(d: nat): (c: char)
    requires d < 10
    ensures '0' <= c <= '9' && DigitValue(c) == d
  {
    ('0' as int + d) as char
  }

  predicate IsDigit(c: char, base: nat) {
    '0' <= c <= '9' && DigitValue(c) < base
  }

  /** `n` in the given base, most significant digit first, with no leading zero. */
  function Print(n: nat, base: nat): (s: string)
    requires base == 8 || base == 10
    ensures s != [] && forall i :: 0 <= i < |s| ==> IsDigit(s[i], base)
    decreases n
  {
    if n < base then [DigitChar(n)] else Print(n / base, base) + [DigitChar(n % base)]
  }

  function DigitValue(c: char): nat
    requires '0' <= c <= '9'
  {
    c as int - '0' as int
  }

  /** The number a digit string denotes. */
  function Value(s: string, base: nat): nat
    requires base == 8 || base == 10
    requires forall i :: 0 <= i < |s| ==> IsDigit(s[i], base)
  {
    if s == [] then 0
    else
      var high := Value(s[..|s| - 1], base);
      assert IsDigit(s[|s| - 1], base);
      (if base == 8 then 8 * high else 10 * high) + DigitValue(s[|s| - 1])
  }

  /** A nonempty digit string parses; everything else is refused. */
  function Parse(s: string, base: nat): Option<nat>
    requires base == 8 || base == 10
  {
    if s != [] && (forall i :: 0 <= i < |s| ==> IsDigit(s[i], base)) then Some(Value(s, base))
    else None
  }

  function Zeros(k: nat): (s: string)
    ensures |s| == k && forall i :: 0 <= i < k ==> s[i] == '0'
  {
    seq(k, _ => '0')
  }

  /** Zero padding on the left to a minimum width. */
  function Pad(s: string, width: nat): string {
    if |s| < width then Zeros(width - |s|) + s else s
  }

  function Decimal(n: nat): string { Print(n, 10) }

  function ParseDecimal(s: string): Option<nat> { Parse(s, 10) }

  /** The digits of the two bases, written out. */
  lemma {:induction false} DigitAlphabet(c: char)
    ensures IsDigit(c, 8) <==> c in "01234567"
    ensures IsDigit(c, 10) <==> c in "0123456789"
  {
    if '0' <= c <= '9' {
      assert "0123456789"[DigitValue(c)] == c;
      if c <= '7' {
        assert "01234567"[DigitValue(c)] == c;
      }
    }
  }

  lemma {:induction false} ValueOfPrint(n: nat, base: nat)
    requires base == 8 || base == 10
    ensures Value(Print(n, base), base) == n
    decreases n
  {
    if n < base {
      assert [DigitChar(n)][..0] == [];
    } else {
      ValueOfPrint(n / base, base);
      assert Print(n, base)[..|Print(n, base)| - 1] == Print(n / base, base);
    }
  }

  lemma {:induction false} ValueOfZeros(k: nat, base: nat)
    requires base == 8 || base == 10
    ensures Value(Zeros(k), base) == 0
  {
    if k > 0 {
      ValueOfZeros(k - 1, base);
      assert Zeros(k)[..k - 1] == Zeros(k - 1);
    }
  }

  lemma {:induction false} ValueOfPadded(k: nat, s: string, base: nat)
    requires base == 8 || base == 10
    requires forall i :: 0 <= i < |s| ==> IsDigit(s[i], base)
    ensures Value(Zeros(k) + s, base) == Value(s, base)
    decreases |s|
  {
    if s == [] {
      ValueOfZeros(k, base);
      assert Zeros(k) + s == Zeros(k);
    } else {
      var front := s[..|s| - 1];
      ValueOfPadded(k, front, base);
      assert (Zeros(k) + s)[..k + |s| - 1] == Zeros(k) + front;
    }
  }

  /** Padding and printing lose nothing: parsing gives the number back. */
  lemma {:induction false} ParsePrint(n: nat, base: nat, width: nat)
    requires base == 8 || base == 10
    ensures Parse(Pad(Print(n, base), width), base) == Some(n)
    ensures Parse(Print(n, base), base) == Some(n)
  {
    ValueOfPrint(n, base);
    var s := Print(n, base);
    if |s| < width {
      ValueOfPadded(width - |s|, s, base);
    }
  }

  /** A number below base^width prints in at most `width` digits. */
  lemma {:induction false} PrintLength(n: nat, base: nat, width: nat)
    requires (base == 8 || base == 10) && width >= 1
    requires n < Power(base, width)
    ensures |Print(n, base)| <= width
    decreases n
  {
    if n >= base {
      assert Power(base, 1) == base * Power(base, 0) == base;
      assert width > 1;
      DivideBelow(n, base, Power(base, width - 1));
      PrintLength(n / base, base, width - 1);
    }
  }

  /** And only such a number does. */
  lemma {:induction false} PrintLengthBounds(n: nat, base: nat, width: nat)
    requires (base == 8 || base == 10) && |Print(n, base)| <= width
    ensures n < Power(base, width)
    decreases n
  {
    if n < base {
      PowerGrows(base, width);
    } else {
      PrintLengthBounds(n / base, base, width - 1);
      MultiplyAbove(n, base, Power(base, width - 1));
    }
  }

  lemma {:induction false} PowerGrows(base: nat, width: nat)
    requires (base == 8 || base == 10) && width >= 1
    ensures Power(base, width) >= base
  {
    if width > 1 {
      PowerGrows(base, width - 1);
    } else {
      assert Power(base, 1) == base * Power(base, 0) == base;
    }
  }

  lemma {:induction false} MultiplyAbove(n: nat, base: nat, p: nat)
    requires (base == 8 || base == 10) && n / base < p
    ensures n < base * p
  {
  }

  function Power(base: nat, k: nat): nat {
    if k == 0 then 1 else base * Power(base, k - 1)
  }

  lemma {:induction false} DivideBelow(n: nat, base: nat, p: nat)
    requires (base == 8 || base == 10) && n < base * p
    ensures n / base < p
  {
  }

  /** The position of the first `c`, or the length when there is none. */
  function Find(s: string, c: char): (i: nat)
    ensures i <= |s|
    ensures forall j :: 0 <= j < i ==> s[j] != c
    ensures i < |s| ==> s[i] == c
  {
    if s == [] || s[0] == c then 0 else 1 + Find(s[1..], c)
  }

  /** The text before and after the first `c`, if there is one. */
  function Partition(s: string, c: char): Option<(string, string)> {
    var i := Find(s, c);
    if i == |s| then None else Some((s[..i], s[i + 1..]))
  }

  lemma {:induction false} PartitionAt(head: string, c: char, tail: string)
    requires c !in head
    ensures Partition(head + [c] + tail, c) == Some((head, tail))
  {
    var s := head + [c] + tail;
    assert s[|head|] == c;
    assert forall i :: 0 <= i < |head| ==> s[i] == head[i];
    assert s[..|head|] == head;
    assert s[|head| + 1..] == tail;
  }

  lemma {:induction false} DecimalHasNo(n: nat, c: char)
    requires !('0' <= c <= '9')
    ensures c !in Decimal(n)
  {
    assert forall i :: 0 <= i < |Decimal(n)| ==> IsDigit(Decimal(n)[i], 10);
  }

  lemma {:induction false} LaterDash(a: string, b: string, c: string, d: string)
    requires a + "-" + b == c + "-" + d && |a| < |c|
    ensures '-' in b
  {
    var s := a + "-" + b;
    assert s[|c|] == '-';
    assert s[|c|] == b[|c| - |a| - 1];
  }

  /** Text splits uniquely at its last dash. */
  lemma {:induction false} LastDash(a: string, b: string, c: string, d: string)
    requires '-' !in b && '-' !in d && a + "-" + b == c + "-" + d
    ensures a == c && b == d
  {
    if |a| < |c| {
      LaterDash(a, b, c, d);
    } else if |c| < |a| {
      LaterDash(c, d, a, b);
    }
    var s := a + "-" + b;
    assert a == s[..|a|] && c == s[..|c|];
    assert b == s[|a| + 1..] && d == s[|c| + 1..];
  }
}
