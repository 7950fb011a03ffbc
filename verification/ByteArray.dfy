/**
 Byte arrays as unsigned integers: little-endian on every host.
 */
module ByteArray {
  import opened Arithmetic
  import opened ByteStrings

  /** How the host lays out an integer in memory. */
  datatype Host = LittleEndian | BigEndian

  function Pow256(n: nat): (r: nat)
    ensures r >= 1
  {
    if n == 0 then 1 else 256 * Pow256(n - 1)
  }

  function LittleBytes(v: nat, n: nat): (b: Bytes)
    ensures |b| == n
  {
    if n == 0 then [] else [(v % 256) as byte] + LittleBytes(v / 256, n - 1)
  }

  function LittleValue(b: Bytes): nat {
    if b == [] then 0 else b[0] as nat + 256 * LittleValue(b[1..])
  }

  function Reverse(b: Bytes): (r: Bytes)
    ensures |r| == |b|
  {
    seq(|b|, i requires 0 <= i < |b| => b[|b| - 1 - i])
  }

  /** The memory image of an `n`-byte integer, and the integer of a memory image. */
  function Store(host: Host, v: nat, n: nat): Bytes {
    if host.LittleEndian? then LittleBytes(v, n) else Reverse(LittleBytes(v, n))
  }

  function Load(host: Host, b: Bytes): nat {
    if host.LittleEndian? then LittleValue(b) else LittleValue(Reverse(b))
  }

  /** Conversion between native and little-endian order, in either direction: a byte swap on a
      big-endian host. */
  function SwapOrder(host: Host, v: nat, n: nat): nat {
    if host.LittleEndian? then v else LittleValue(Reverse(LittleBytes(v, n)))
  }

  /** The number of bytes that hold a value of `size` bytes, with characters of `charSize` bytes. */
  function CharsPerValue(size: nat, charSize: nat): (r: nat)
    requires charSize > 0
    ensures r * charSize >= size && (r > 0 ==> (r - 1) * charSize < size)
  {
    var quot, rem := size / charSize, size % charSize;
    assert size == quot * charSize + rem;
    quot + (if rem > 0 then 1 else 0)
  }

  class ByteArrayObject {
    var data: Bytes

    /** From an unsigned integer of `n` one-byte characters. */
    constructor FromUnsigned(host: Host, v: nat, n: nat)
      requires v < Pow256(n)
      ensures data == LittleBytes(v, n)
    {
      data := seq(CharsPerValue(n, 1), i => 0);
      new;
      data := Store(host, SwapOrder(host, v, n), n) + data[n..];
      StoreSwapped(host, v, n);
    }

    /** As an unsigned integer of `n` bytes; reads the first `n` bytes, which must be there. Warns when
        data is left over. */
    method ToI(host: Host, n: nat) returns (v: nat, warned: bool)
      requires n <= |data|
      ensures v == LittleValue(data[..n]) && v < Pow256(n)
      ensures warned <==> n < |data|
    {
      warned := n < |data|;
      v := SwapOrder(host, Load(host, data[..n]), n);
      LoadSwapped(host, data[..n]);
      LittleValueBound(data[..n]);
    }
  }

  lemma LowByte(x: byte, high: nat)
    ensures (x as nat + 256 * high) % 256 == x as nat && (x as nat + 256 * high) / 256 == high
  {
  }

  lemma {:induction false} BytesOfValue(b: Bytes)
    ensures LittleBytes(LittleValue(b), |b|) == b
    decreases |b|
  {
    if b != [] {
      BytesOfValue(b[1..]);
      LowByte(b[0], LittleValue(b[1..]));
      assert b == [b[0]] + b[1..];
    }
  }

  lemma {:induction false} ValueOfBytes(v: nat, n: nat)
    requires v < Pow256(n)
    ensures LittleValue(LittleBytes(v, n)) == v
    decreases n
  {
    if n > 0 { ValueOfBytes(v / 256, n - 1); }
  }

  lemma {:induction false} LittleValueBound(b: Bytes)
    ensures LittleValue(b) < Pow256(|b|)
    decreases |b|
  {
    if b != [] { LittleValueBound(b[1..]); }
  }

  lemma ReverseTwice(b: Bytes)
    ensures Reverse(Reverse(b)) == b
  {
  }

  /** Storing a value in little-endian order gives its little-endian bytes on every host. */
  lemma StoreSwapped(host: Host, v: nat, n: nat)
    requires v < Pow256(n)
    ensures Store(host, SwapOrder(host, v, n), n) == LittleBytes(v, n)
  {
    BytesOfValue(Reverse(LittleBytes(v, n)));
    ReverseTwice(LittleBytes(v, n));
  }

  /** Loading bytes in little-endian order gives their little-endian value on every host. */
  lemma LoadSwapped(host: Host, b: Bytes)
    ensures SwapOrder(host, Load(host, b), |b|) == LittleValue(b)
  {
    BytesOfValue(Reverse(b));
    ReverseTwice(b);
  }

  lemma {:induction false} PrefixIsRemainder(b: Bytes, n: nat)
    requires n <= |b|
    ensures LittleValue(b[..n]) == LittleValue(b) % Pow256(n)
    decreases n
  {
    ValueSplit(b, n);
    LittleValueBound(b[..n]);
    RemainderUnique(LittleValue(b), Pow256(n), LittleValue(b[n..]), LittleValue(b[..n]));
  }

  lemma {:induction false} ValueSplit(b: Bytes, n: nat)
    requires n <= |b|
    ensures LittleValue(b) == LittleValue(b[..n]) + Pow256(n) * LittleValue(b[n..])
    decreases n
  {
    if n == 0 {
      assert b[0..] == b;
    } else {
      ValueSplit(b[1..], n - 1);
      assert b[..n][1..] == b[1..][..n - 1];
      assert b[1..][n - 1..] == b[n..];
      Regroup(b[0] as nat, LittleValue(b[1..][..n - 1]), Pow256(n - 1), LittleValue(b[n..]));
    }
  }

  lemma Regroup(x: nat, low: nat, p: nat, high: nat)
    ensures x + 256 * (low + p * high) == (x + 256 * low) + (256 * p) * high
  {
    ScaleProduct(256, p, high);
  }

  /** Encoding at one width and decoding at a width no larger gives the value modulo 2^(8u). */
  lemma DecodeEncoded(v: nat, n: nat, u: nat)
    requires v < Pow256(n) && u <= n
    ensures LittleValue(LittleBytes(v, n)[..u]) == v % Pow256(u)
  {
    ValueOfBytes(v, n);
    PrefixIsRemainder(LittleBytes(v, n), u);
  }

  lemma DivideTwice(v: nat, p: nat)
    requires p > 0
    ensures (v / 256) / p == v / (256 * p)
  {
    var q := (v / 256) / p;
    var r := (v / 256) % p;
    ScaleProduct(256, p, q);
    assert v / 256 == p * q + r;
    RemainderUnique(v, 256 * p, q, 256 * r + v % 256);
  }

  /** The byte at `i` is the value's digit of weight 256^i. */
  lemma {:induction false} ByteAt(v: nat, n: nat, i: nat)
    requires i < n
    ensures LittleBytes(v, n)[i] as nat == (v / Pow256(i)) % 256
    decreases i
  {
    if i > 0 {
      ByteAt(v / 256, n - 1, i - 1);
      DivideTwice(v, Pow256(i - 1));
    }
  }

  /** Where the hosts put the byte of weight 256^i. */
  lemma StoredByteAt(host: Host, v: nat, n: nat, i: nat)
    requires i < n
    ensures Store(host, v, n)[if host.LittleEndian? then i else n - 1 - i] as nat == (v / Pow256(i)) % 256
    ensures Load(host, Store(host, v, n)) == LittleValue(LittleBytes(v, n))
  {
    ByteAt(v, n, i);
    ReverseTwice(LittleBytes(v, n));
  }
}
