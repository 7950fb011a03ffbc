/** The nested hash of adapters, peripherals and services. */
module Hashing {
  import opened Bits

  /** A size_t of 64 bits, least significant bit first. */
  type Hash = h: seq<bool> | |h| == 64 witness seq(64, i => false)

  /** Shifting left by one bit drops the top bit. */
  function ShiftLeft(x: Hash): Hash { [false] + x[..63] }

  function Xor(x: Hash, y: Hash): Hash { seq(64, i requires 0 <= i < 64 => x[i] != y[i]) }

  /** One combining step: xor a type's hash code with a hash shifted left by one bit. */
  function Combine(typeHash: Hash, inner: Hash): Hash { Xor(typeHash, ShiftLeft(inner)) }

  /** The hash of an owner: the backend object's hash, itself combined from the string hash of the
      address or UUID, combined once more. */
  function Nested(outerType: Hash, innerType: Hash, nameHash: Hash): Hash {
    Combine(outerType, Combine(innerType, nameHash))
  }

  lemma XorLoses(t: Hash, x: Hash, y: Hash, n: nat)
    requires n <= 64
    ensures Xor(t, x)[..n] == Xor(t, y)[..n] <==> x[..n] == y[..n]
  {
    assert forall i :: 0 <= i < n ==> Xor(t, x)[..n][i] == (t[i] != x[..n][i]);
    assert forall i :: 0 <= i < n ==> Xor(t, y)[..n][i] == (t[i] != y[..n][i]);
  }

  /** A combining step loses the top bit of what it combines. */
  lemma CombineLoses(t: Hash, x: Hash, y: Hash, n: nat)
    requires 0 < n <= 64
    ensures Combine(t, x)[..n] == Combine(t, y)[..n] <==> x[..n - 1] == y[..n - 1]
  {
    XorLoses(t, ShiftLeft(x), ShiftLeft(y), n);
    assert ShiftLeft(x)[..n] == [false] + x[..n - 1];
    assert ShiftLeft(y)[..n] == [false] + y[..n - 1];
    assert ([false] + x[..n - 1])[1..] == x[..n - 1];
    assert ([false] + y[..n - 1])[1..] == y[..n - 1];
  }

  /** Two nested hashes of one pair of types collide exactly when the string hashes agree on their
      low 62 bits: the two shifts discard the top two. */
  lemma NestedCollides(t: Hash, u: Hash, a: Hash, b: Hash)
    ensures Nested(t, u, a) == Nested(t, u, b) <==> a[..62] == b[..62]
  {
    CombineLoses(t, Combine(u, a), Combine(u, b), 64);
    CombineLoses(u, a, b, 63);
    assert Nested(t, u, a)[..64] == Nested(t, u, a);
    assert Nested(t, u, b)[..64] == Nested(t, u, b);
  }

  /** Agreeing on the low 62 bits is agreeing modulo 2^62. */
  lemma Low62IsModulo(a: Hash, b: Hash)
    ensures a[..62] == b[..62] <==> Number(a) % Pow2(62) == Number(b) % Pow2(62)
  {
    LowBitsAreRemainder(a, 62);
    LowBitsAreRemainder(b, 62);
    if Number(a[..62]) == Number(b[..62]) { NumberInjective(a[..62], b[..62]); }
  }

  /** Bit for bit: the type's hash, flipped where the next lower bit of what it combines is set. */
  lemma CombineBits(t: Hash, x: Hash, i: nat)
    requires i < 64
    ensures Combine(t, x)[i] == if i > 0 && x[i - 1] then !t[i] else t[i]
  {
  }

  /** For one name, different types have different hashes. */
  lemma CombineSeparatesTypes(t: Hash, u: Hash, x: Hash)
    ensures Combine(t, x) == Combine(u, x) <==> t == u
  {
    forall i: nat | i < 64 ensures (Combine(t, x)[i] == Combine(u, x)[i]) == (t[i] == u[i]) {
      CombineBits(t, x, i);
      CombineBits(u, x, i);
    }
    if Combine(t, x) == Combine(u, x) {
      assert forall i :: 0 <= i < 64 ==> t[i] == u[i];
    }
  }
}
