/** Byte strings and their three-way comparison. */
module ByteStrings {

  newtype byte = x: int | 0 <= x < 256

  type Bytes = seq<byte>

  /** The comparison of two byte strings as unsigned characters: negative, zero or positive. */
  function Compare(a: Bytes, b: Bytes): (r: int)
    ensures -1 <= r <= 1
    decreases |a|
  {
    if a == [] then (if b == [] then 0 else -1)
    else if b == [] then 1
    else if a[0] != b[0] then (if a[0] < b[0] then -1 else 1)
    else Compare(a[1..], b[1..])
  }

  /** Equality as the byte array defines it, through the comparison. */
  predicate EqualTo(a: Bytes, b: Bytes) { Compare(a, b) == 0 }

  lemma {:induction false} EqualToIsEquality(a: Bytes, b: Bytes)
    ensures EqualTo(a, b) <==> a == b
    decreases |a|
  {
    if a != [] && b != [] {
      assert a == [a[0]] + a[1..] && b == [b[0]] + b[1..];
      EqualToIsEquality(a[1..], b[1..]);
    }
  }

  lemma {:induction false} CompareAntisymmetric(a: Bytes, b: Bytes)
    ensures Compare(a, b) == -Compare(b, a)
    decreases |a|
  {
    if a != [] && b != [] { CompareAntisymmetric(a[1..], b[1..]); }
  }

  lemma {:induction false} CompareTransitive(a: Bytes, b: Bytes, c: Bytes)
    requires Compare(a, b) <= 0 && Compare(b, c) <= 0
    ensures Compare(a, c) <= 0
    decreases |a|
  {
    if a != [] && b != [] && c != [] && a[0] == b[0] && b[0] == c[0] {
      CompareTransitive(a[1..], b[1..], c[1..]);
    }
  }

  /** The order is that of the first bytes that differ. */
  lemma {:induction false} CompareByFirstDifference(a: Bytes, b: Bytes, i: nat)
    requires i < |a| && i < |b| && a[..i] == b[..i] && a[i] != b[i]
    ensures Compare(a, b) < 0 <==> a[i] < b[i]
    ensures Compare(a, b) > 0 <==> a[i] > b[i]
    decreases i
  {
    if i > 0 {
      assert a[0] == a[..i][0] && b[0] == b[..i][0];
      assert a[1..][..i - 1] == a[..i][1..] && b[1..][..i - 1] == b[..i][1..];
      CompareByFirstDifference(a[1..], b[1..], i - 1);
    }
  }

  /** A proper prefix is less. */
  lemma {:induction false} ComparePrefix(a: Bytes, b: Bytes)
    requires a < b
    ensures Compare(a, b) < 0
    decreases |a|
  {
    if a != [] { ComparePrefix(a[1..], b[1..]); }
  }
}
