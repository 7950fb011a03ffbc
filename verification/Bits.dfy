/** Numbers as strings of bits, least significant bit first. */
module Bits {
  import opened Arithmetic

  function Pow2(n: nat): (r: nat)
    ensures r >= 1
  {
    if n == 0 then 1 else 2 * Pow2(n - 1)
  }

  /** The number a string of bits stands for. */
  function Number(bits: seq<bool>): nat {
    if bits == [] then 0 else (if bits[0] then 1 else 0) + 2 * Number(bits[1..])
  }

  lemma {:induction false} NumberBound(bits: seq<bool>)
    ensures Number(bits) < Pow2(|bits|)
  {
    if bits != [] { NumberBound(bits[1..]); }
  }

  lemma {:induction false} NumberSplit(bits: seq<bool>, n: nat)
    requires n <= |bits|
    ensures Number(bits) == Number(bits[..n]) + Pow2(n) * Number(bits[n..])
    decreases n
  {
    if n == 0 {
      assert bits[..0] == [] && bits[0..] == bits;
    } else {
      var rest := bits[1..];
      NumberSplit(rest, n - 1);
      assert rest[n - 1..] == bits[n..];
      assert Number(bits[..n]) == (if bits[0] then 1 else 0) + 2 * Number(rest[..n - 1]) by {
        assert bits[..n][1..] == rest[..n - 1];
      }
      ScaleProduct(2, Pow2(n - 1), Number(bits[n..]));
    }
  }

  lemma {:induction false} NumberInjective(a: seq<bool>, b: seq<bool>)
    requires |a| == |b| && Number(a) == Number(b)
    ensures a == b
    decreases |a|
  {
    if a != [] {
      NumberInjective(a[1..], b[1..]);
      assert a == [a[0]] + a[1..] && b == [b[0]] + b[1..];
    }
  }

  lemma LowBitsAreRemainder(bits: seq<bool>, n: nat)
    requires n <= |bits|
    ensures Number(bits) % Pow2(n) == Number(bits[..n])
  {
    NumberSplit(bits, n);
    NumberBound(bits[..n]);
    RemainderUnique(Number(bits), Pow2(n), Number(bits[n..]), Number(bits[..n]));
  }

  /** The sum of 2^i over the set bits below n. */
  function PowerSum(bits: seq<bool>, n: nat): nat
    requires n <= |bits|
  {
    if n == 0 then 0 else PowerSum(bits, n - 1) + (if bits[n - 1] then Pow2(n - 1) else 0)
  }

  lemma {:induction false} PowerSumIsNumber(bits: seq<bool>, n: nat)
    requires n <= |bits|
    ensures PowerSum(bits, n) == Number(bits[..n])
  {
    if n > 0 {
      PowerSumIsNumber(bits, n - 1);
      NumberSplit(bits[..n], n - 1);
      assert bits[..n][..n - 1] == bits[..n - 1];
      assert bits[..n][n - 1..] == [bits[n - 1]];
    }
  }
}
