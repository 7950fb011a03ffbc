/**
 Hexadecimal text: byte ranges without leading zero bytes, and integers at a fixed width.
 */
module Hexadecimal {
  import opened ByteStrings

  type Nibble = x: int | 0 <= x < 16

  function Digit(d: Nibble): char { "0123456789abcdef"[d] }

  function DigitValue(c: char): nat {
    if '0' <= c <= '9' then c as nat - '0' as nat
    else if 'a' <= c <= 'f' then c as nat - 'a' as nat + 10
    else 0
  }

  /** The number a string of digits stands for. */
  function HexValue(s: string): nat {
    if s == [] then 0 else 16 * HexValue(s[..|s| - 1]) + DigitValue(s[|s| - 1])
  }

  /** The big-endian value of a byte string. */
  function BigValue(b: Bytes): nat {
    if b == [] then 0 else 256 * BigValue(b[..|b| - 1]) + b[|b| - 1] as nat
  }

  function Pair(b: byte): string { [Digit(b as int / 16), Digit(b as int % 16)] }

  /** Two digits a byte. */
  function HexOf(b: Bytes): string {
    if b == [] then "" else HexOf(b[..|b| - 1]) + Pair(b[|b| - 1])
  }

  function DropZeros(b: Bytes): Bytes {
    if b != [] && b[0] == 0 then DropZeros(b[1..]) else b
  }

  const PREFIX := "0x"

  function Prefixed(prefix: bool, s: string): string { if prefix then PREFIX + s else s }

  /** The digits of a byte range: leading zero bytes dropped, "00" when nothing is left. */
  function HexData(b: Bytes): string {
    var d := DropZeros(b);
    if d == [] then "00" else HexOf(d)
  }

  lemma DropZerosAt(b: Bytes, i: nat)
    requires i <= |b|
    ensures DropZeros(b[i..]) == if i < |b| && b[i] == 0 then DropZeros(b[i + 1..]) else b[i..]
  {
    if i < |b| { assert b[i..][0] == b[i] && b[i..][1..] == b[i + 1..]; }
  }

  lemma HexOfNext(b: Bytes, k: nat)
    requires k < |b|
    ensures HexOf(b[..k + 1]) == HexOf(b[..k]) + Pair(b[k])
  {
    assert b[..k + 1][..k] == b[..k];
  }

  /** The digits of the bytes from `i` on, after what is there. */
  method AppendHex(before: string, b: Bytes, i: nat) returns (output: string)
    requires i <= |b|
    ensures output == before + HexOf(b[i..])
  {
    hide HexOf, Pair;
    ghost var rest := b[i..];
    output := before;
    NoBytes(rest[..0]);
    for k := i to |b|
      invariant output == before + HexOf(rest[..k - i])
    {
      HexOfNext(rest, k - i);
      output := output + Pair(b[k]);
    }
    assert rest[..|b| - i] == rest;
  }

  lemma NoBytes(b: Bytes)
    requires b == []
    ensures HexOf(b) == ""
  {
  }

  method RangeToHexData(b: Bytes, prefix: bool) returns (output: string)
    ensures output == (if prefix then "0x" else "") + HexData(b)
  {
    hide HexOf, DropZeros;
    output := if prefix then PREFIX else "";
    var start := |output|;
    var i := 0;
    assert b[0..] == b;
    while i < |b| && b[i] == 0
      invariant 0 <= i <= |b|
      invariant DropZeros(b[i..]) == DropZeros(b)
    {
      DropZerosAt(b, i);
      i := i + 1;
    }
    DropZerosAt(b, i);
    output := AppendHex(output, b, i);
    HexOfLength(b[i..]);
    if |output| - start == 0 { output := output + "00"; }
  }

  lemma {:induction false} HexOfLength(b: Bytes)
    ensures |HexOf(b)| == 2 * |b|
    decreases |b|
  {
    if b != [] { HexOfLength(b[..|b| - 1]); }
  }

  lemma DigitRoundTrip(d: Nibble)
    ensures DigitValue(Digit(d)) == d
  {
  }

  /** The digits decode to the value of the bytes. */
  lemma {:induction false} HexOfValue(b: Bytes)
    ensures HexValue(HexOf(b)) == BigValue(b)
    decreases |b|
  {
    if b != [] {
      var front, x := HexOf(b[..|b| - 1]), b[|b| - 1];
      HexOfValue(b[..|b| - 1]);
      var s := front + Pair(x);
      assert s[..|s| - 1] == front + [Digit(x as int / 16)];
      assert s[..|s| - 1][..|s| - 2] == front;
      DigitRoundTrip(x as int / 16);
      DigitRoundTrip(x as int % 16);
    }
  }

  lemma {:induction false} ZeroInFront(b: Bytes)
    requires b != [] && b[0] == 0
    ensures BigValue(b) == BigValue(b[1..])
    decreases |b|
  {
    if |b| > 1 {
      ZeroInFront(b[..|b| - 1]);
      assert b[..|b| - 1][1..] == b[1..][..|b| - 2];
    }
  }

  lemma {:induction false} DropZerosFacts(b: Bytes)
    ensures BigValue(DropZeros(b)) == BigValue(b)
    ensures DropZeros(b) != [] ==> DropZeros(b)[0] != 0
    decreases |b|
  {
    if b != [] && b[0] == 0 {
      ZeroInFront(b);
      DropZerosFacts(b[1..]);
    }
  }

  lemma {:induction false} LeadingDigitCounts(b: Bytes)
    requires b != [] && b[0] != 0
    ensures BigValue(b) > 0
    decreases |b|
  {
    if |b| > 1 { LeadingDigitCounts(b[..|b| - 1]); }
  }

  /** Without leading zeros the value determines the bytes. */
  lemma {:induction false} ValueDetermines(a: Bytes, b: Bytes)
    requires a != [] ==> a[0] != 0
    requires b != [] ==> b[0] != 0
    requires BigValue(a) == BigValue(b)
    ensures a == b
    decreases |a|
  {
    if a == [] {
      if b != [] { LeadingDigitCounts(b); }
    } else if b == [] {
      LeadingDigitCounts(a);
    } else {
      ValueDetermines(a[..|a| - 1], b[..|b| - 1]);
      assert a == a[..|a| - 1] + [a[|a| - 1]];
      assert b == b[..|b| - 1] + [b[|b| - 1]];
    }
  }

  predicate OnlyDigits(s: string) { forall i :: 0 <= i < |s| ==> s[i] in "0123456789abcdef" }

  lemma DigitIsDigit(d: Nibble)
    ensures Digit(d) in "0123456789abcdef"
  {
  }

  lemma {:induction false} HexOfDigits(b: Bytes)
    ensures OnlyDigits(HexOf(b))
    decreases |b|
  {
    if b != [] {
      HexOfDigits(b[..|b| - 1]);
      DigitIsDigit(b[|b| - 1] as int / 16);
      DigitIsDigit(b[|b| - 1] as int % 16);
    }
  }

  /** The first two digits are those of the first byte. */
  lemma {:induction false} HexOfFirst(b: Bytes)
    requires b != []
    ensures |HexOf(b)| >= 2 && HexOf(b)[..2] == Pair(b[0])
    decreases |b|
  {
    HexOfLength(b);
    if |b| > 1 { HexOfFirst(b[..|b| - 1]); }
  }

  /** The text is made of lower-case digits, and more than two digits never start with a zero byte. */
  lemma HexDataIsShortest(b: Bytes)
    ensures OnlyDigits(HexData(b))
    ensures |HexData(b)| > 2 ==> !("00" <= HexData(b))
  {
    var d := DropZeros(b);
    DropZerosFacts(b);
    if d != [] {
      HexOfDigits(d);
      HexOfFirst(d);
      PairOfZero(d[0]);
    }
  }

  lemma PairOfZero(b: byte)
    ensures Pair(b) == "00" ==> b == 0
  {
    DigitRoundTrip(b as int / 16);
    DigitRoundTrip(b as int % 16);
    if Pair(b) == "00" {
      assert Pair(b)[0] == '0' && Pair(b)[1] == '0';
    }
  }

  lemma NoDigits(s: string)
    requires |s| == 2 && s[0] == '0' && s[1] == '0'
    ensures HexValue(s) == 0
  {
    var t := s[..1];
    assert s[..|s| - 1] == t && t[..|t| - 1] == [];
    assert HexValue(t) == 0;
  }

  lemma HexOfDecodes(d: Bytes)
    requires d != []
    ensures HexValue(HexOf(d)) == BigValue(d)
    ensures |HexOf(d)| % 2 == 0 && |HexOf(d)| >= 2
  {
    HexOfValue(d);
    HexOfLength(d);
  }

  /** The digits decode to the big-endian value, and are even in number and at least two. */
  lemma HexDataDecodes(b: Bytes)
    ensures HexValue(HexData(b)) == BigValue(b)
    ensures |HexData(b)| % 2 == 0 && |HexData(b)| >= 2
  {
    var d := DropZeros(b);
    DropZerosFacts(b);
    if d == [] {
      NoDigits(HexData(b));
    } else {
      HexOfDecodes(d);
    }
  }

  /** Two byte ranges print alike exactly when they have the same big-endian value. */
  lemma HexDataIsCanonical(a: Bytes, b: Bytes)
    ensures HexData(a) == HexData(b) <==> BigValue(a) == BigValue(b)
  {
    HexDataDecodes(a);
    HexDataDecodes(b);
    DropZerosFacts(a);
    DropZerosFacts(b);
    if BigValue(a) == BigValue(b) { ValueDetermines(DropZeros(a), DropZeros(b)); }
  }

  // ----- integers at a fixed width

  /** The shortest digits of a number; "0" for zero. */
  function Shortest(n: nat): string {
    if n < 16 then [Digit(n)] else Shortest(n / 16) + [Digit(n % 16)]
  }

  function Zeros(n: nat): string { seq(n, i => '0') }

  /** What the format yields: prefix, zeros up to the width, digits. */
  function Format(n: nat, width: nat, prefix: bool): string {
    var digits := Shortest(n);
    var used := |digits| + (if prefix then |PREFIX| else 0);
    Prefixed(prefix, Zeros(if used < width then width - used else 0) + digits)
  }

  /** The width computed for an integer of `size` bytes. */
  function HexWidth(size: nat, prefix: bool): nat {
    (if 2 * size > 2 then 2 * size else 2) + (if prefix then 2 else 0)
  }

  function RefToHexString(n: nat, size: nat, prefix: bool): string {
    Format(n, HexWidth(size, prefix), prefix)
  }

  function Pow16(n: nat): nat { if n == 0 then 1 else 16 * Pow16(n - 1) }

  lemma {:induction false} ShortestFacts(n: nat, k: nat)
    requires n < Pow16(k)
    ensures |Shortest(n)| <= (if k == 0 then 1 else k)
    ensures HexValue(Shortest(n)) == n
    decreases n
  {
    if n < 16 {
      DigitRoundTrip(n);
      assert [Digit(n)][..0] == [];
    } else {
      ShortestFacts(n / 16, k - 1);
      DigitRoundTrip(n % 16);
      var s := Shortest(n);
      assert s[..|s| - 1] == Shortest(n / 16);
    }
  }

  lemma {:induction false} ShortestDigits(n: nat)
    ensures OnlyDigits(Shortest(n))
    decreases n
  {
    if n < 16 {
      DigitIsDigit(n);
    } else {
      ShortestDigits(n / 16);
      DigitIsDigit(n % 16);
    }
  }

  lemma {:induction false} ZerosInFront(k: nat, s: string)
    ensures HexValue(Zeros(k) + s) == HexValue(s)
    decreases |s|, k
  {
    var z := Zeros(k) + s;
    if s != [] {
      assert z[..|z| - 1] == Zeros(k) + s[..|s| - 1];
      ZerosInFront(k, s[..|s| - 1]);
    } else if k > 0 {
      assert z[..|z| - 1] == Zeros(k - 1) + s;
      ZerosInFront(k - 1, s);
    }
  }

  /** The digits at full width. */
  function PaddedDigits(n: nat, size: nat): string
    requires |Shortest(n)| <= 2 * size
  {
    Zeros(2 * size - |Shortest(n)|) + Shortest(n)
  }

  lemma PaddedFacts(n: nat, size: nat)
    requires n < Pow16(2 * size) && size >= 1
    ensures |Shortest(n)| <= 2 * size
    ensures var d := PaddedDigits(n, size); |d| == 2 * size && HexValue(d) == n && OnlyDigits(d)
  {
    ShortestFacts(n, 2 * size);
    ZerosInFront(2 * size - |Shortest(n)|, Shortest(n));
    ShortestDigits(n);
  }

  lemma FormatPads(n: nat, size: nat, prefix: bool)
    requires size >= 1 && |Shortest(n)| <= 2 * size
    ensures RefToHexString(n, size, prefix) == Prefixed(prefix, PaddedDigits(n, size))
  {
  }

  lemma PrefixedIs(prefix: bool, d: string)
    ensures var s := Prefixed(prefix, d);
            && |s| == |d| + (if prefix then 2 else 0)
            && (prefix ==> "0x" <= s && s[2..] == d) && (!prefix ==> s == d)
  {
  }

  /** An unsigned integer of `size` bytes prints at exactly two digits a byte, and its digits parse back
      to it. */
  lemma RefToHexStringDecodes(n: nat, size: nat, prefix: bool)
    requires n < Pow16(2 * size) && size >= 1
    ensures var s := RefToHexString(n, size, prefix);
            && |s| == 2 * size + (if prefix then 2 else 0)
            && (prefix ==> "0x" <= s)
            && HexValue(if prefix then s[2..] else s) == n
            && OnlyDigits(if prefix then s[2..] else s)
  {
    hide RefToHexString, Prefixed, PaddedDigits, HexValue, OnlyDigits, Shortest, Pow16;
    PaddedFacts(n, size);
    FormatPads(n, size, prefix);
    PrefixedIs(prefix, PaddedDigits(n, size));
  }
}
