/**
 A set of named flags: one bit per field name.
 */
module NamedBitSet {
  import opened Bits
  import opened Common
  import opened Strings

  predicate Distinct(fields: seq<string>) {
    forall i, j :: 0 <= i < j < |fields| ==> fields[i] != fields[j]
  }

  /** The names of the set bits, in field order. */
  function FlagNames(fields: seq<string>, bits: seq<bool>): seq<string>
    requires |bits| == |fields|
  {
    if fields == [] then []
    else (if bits[0] then [fields[0]] else []) + FlagNames(fields[1..], bits[1..])
  }

  /** The bits of the fields that occur among the names. */
  function BitsOf(fields: seq<string>, names: seq<string>): seq<bool> {
    seq(|fields|, i requires 0 <= i < |fields| => fields[i] in names)
  }

  function Filtered(fields: seq<string>, names: seq<string>): seq<string> {
    if fields == [] then []
    else (if fields[0] in names then [fields[0]] else []) + Filtered(fields[1..], names)
  }

  lemma NamesFrom(fields: seq<string>, bits: seq<bool>, i: nat)
    requires i < |fields| == |bits|
    ensures FlagNames(fields[i..], bits[i..])
         == (if bits[i] then [fields[i]] else []) + FlagNames(fields[i + 1..], bits[i + 1..])
  {
    assert fields[i..][1..] == fields[i + 1..] && bits[i..][1..] == bits[i + 1..];
  }

  lemma NoNames(fields: seq<string>, bits: seq<bool>)
    requires |fields| == |bits| == 0
    ensures FlagNames(fields, bits) == []
  {
  }

  class NamedBits {
    const fields: seq<string>
    var bits: seq<bool>

    predicate Valid() reads this { |bits| == |fields| }

    constructor (fields: seq<string>)
      ensures Valid() && this.fields == fields && bits == seq(|fields|, i => false)
    {
      this.fields := fields;
      bits := seq(|fields|, i => false);
    }

    /** The first field with this name; fails for other names. */
    method IndexOf(name: string) returns (r: Result<nat>)
      ensures r.Ok? ==> r.value < |fields| && fields[r.value] == name
      ensures r.Ok? ==> forall j :: 0 <= j < r.value ==> fields[j] != name
      ensures r.Err? ==> name !in fields && r.error == InvalidArgument
    {
      for i := 0 to |fields|
        invariant forall j :: 0 <= j < i ==> fields[j] != name
      {
        if fields[i] == name { return Ok(i); }
      }
      return Err(InvalidArgument);
    }

    /** Sets the named bits; stops at the first invalid name. */
    method SetAll(names: seq<string>) returns (r: Result<()>)
      requires Valid() && Distinct(fields) && bits == seq(|fields|, i => false)
      modifies this`bits
      ensures Valid()
      ensures r.Ok? <==> forall n :: 0 <= n < |names| ==> names[n] in fields
      ensures r.Ok? ==> bits == BitsOf(fields, names)
      ensures r.Ok? ==> forall i :: 0 <= i < |fields| ==> (bits[i] <==> fields[i] in names)
      ensures r.Err? ==> r.error == InvalidArgument
    {
      for n := 0 to |names|
        invariant Valid()
        invariant forall m :: 0 <= m < n ==> names[m] in fields
        invariant bits == BitsOf(fields, names[..n])
      {
        var i := IndexOf(names[n]);
        if i.Err? { return Err(i.error); }
        assert names[..n + 1] == names[..n] + [names[n]];
        bits := bits[i.value := true];
      }
      assert names[..|names|] == names;
      return Ok(());
    }

    /** Sets each named bit to its tester's answer; the names are the keys of a map. */
    method SetTested(testers: seq<(string, bool)>) returns (r: Result<()>)
      requires Valid() && Distinct(fields) && bits == seq(|fields|, i => false)
      requires forall m, n :: 0 <= m < n < |testers| ==> testers[m].0 != testers[n].0
      modifies this`bits
      ensures Valid()
      ensures r.Ok? <==> forall n :: 0 <= n < |testers| ==> testers[n].0 in fields
      ensures r.Ok? ==> forall i :: 0 <= i < |fields| ==> (bits[i] <==> (fields[i], true) in testers)
    {
      for n := 0 to |testers|
        invariant Valid()
        invariant forall m :: 0 <= m < n ==> testers[m].0 in fields
        invariant forall i :: 0 <= i < |fields| ==> (bits[i] <==> (fields[i], true) in testers[..n])
      {
        var (name, value) := testers[n];
        var i := IndexOf(name);
        if i.Err? { return Err(i.error); }
        assert testers[..n + 1] == testers[..n] + [testers[n]];
        assert (fields[i.value], true) !in testers[..n];
        bits := bits[i.value := value];
      }
      assert testers[..|testers|] == testers;
      return Ok(());
    }

    method Names() returns (names: seq<string>)
      requires Valid()
      ensures names == FlagNames(fields, bits)
    {
      hide FlagNames;
      names := [];
      assert fields[0..] == fields && bits[0..] == bits;
      for i := 0 to |fields|
        invariant names + FlagNames(fields[i..], bits[i..]) == FlagNames(fields, bits)
      {
        NamesFrom(fields, bits, i);
        if bits[i] { names := names + [fields[i]]; }
      }
      NoNames(fields[|fields|..], bits[|fields|..]);
    }

    method ToS() returns (s: string)
      requires Valid()
      ensures s == Printed(fields, bits)
    {
      var names := Names();
      s := Join(names, "|");
    }
  }

  // ----- names and bits

  lemma {:induction false} NamesAreSetFields(fields: seq<string>, bits: seq<bool>, i: nat)
    requires |bits| == |fields| && Distinct(fields) && i < |fields|
    ensures fields[i] in FlagNames(fields, bits) <==> bits[i]
    decreases |fields|
  {
    assert Distinct(fields[1..]);
    if i == 0 {
      NamesAreFields(fields[1..], bits[1..]);
      assert fields[0] !in fields[1..];
    } else {
      assert fields[i] == fields[1..][i - 1] && fields[i] != fields[0];
      NamesAreSetFields(fields[1..], bits[1..], i - 1);
    }
  }

  lemma {:induction false} NamesAreFields(fields: seq<string>, bits: seq<bool>)
    requires |bits| == |fields|
    ensures forall x :: x in FlagNames(fields, bits) ==> x in fields
    decreases |fields|
  {
    if fields != [] { NamesAreFields(fields[1..], bits[1..]); }
  }

  /** The flag names stand in field order, each once. */
  lemma {:induction false} NamesInOrder(fields: seq<string>, bits: seq<bool>, p: nat, q: nat) returns (i: nat, j: nat)
    requires |bits| == |fields| && p < q < |FlagNames(fields, bits)|
    ensures i < j < |fields| && bits[i] && bits[j]
    ensures fields[i] == FlagNames(fields, bits)[p] && fields[j] == FlagNames(fields, bits)[q]
    decreases |fields|
  {
    var d := if bits[0] then 1 else 0;
    if p >= d {
      i, j := NamesInOrder(fields[1..], bits[1..], p - d, q - d);
      i, j := i + 1, j + 1;
    } else {
      j := NameFrom(fields[1..], bits[1..], q - 1);
      i, j := 0, j + 1;
    }
  }

  lemma {:induction false} NameFrom(fields: seq<string>, bits: seq<bool>, q: nat) returns (j: nat)
    requires |bits| == |fields| && q < |FlagNames(fields, bits)|
    ensures j < |fields| && bits[j] && fields[j] == FlagNames(fields, bits)[q]
    decreases |fields|
  {
    var d := if bits[0] then 1 else 0;
    if q >= d {
      j := NameFrom(fields[1..], bits[1..], q - d);
      j := j + 1;
    } else {
      j := 0;
    }
  }

  /** Building a set from the flag names of a set gives the set back. */
  lemma BitsOfFlagNames(fields: seq<string>, bits: seq<bool>)
    requires |bits| == |fields| && Distinct(fields)
    ensures BitsOf(fields, FlagNames(fields, bits)) == bits
    ensures forall x :: x in FlagNames(fields, bits) ==> x in fields
  {
    NamesAreFields(fields, bits);
    forall i | 0 <= i < |fields| ensures BitsOf(fields, FlagNames(fields, bits))[i] == bits[i] {
      NamesAreSetFields(fields, bits, i);
    }
  }

  /** Building a set from any list of names, in any order and with repeats, gives as flag names the
      fields that occur in the list. */
  lemma {:induction false} FlagNamesOfBits(fields: seq<string>, names: seq<string>)
    ensures FlagNames(fields, BitsOf(fields, names)) == Filtered(fields, names)
    decreases |fields|
  {
    if fields != [] {
      assert BitsOf(fields, names)[1..] == BitsOf(fields[1..], names);
      FlagNamesOfBits(fields[1..], names);
    }
  }

  // ----- the integer conversion

  /** The integer is the sum of 2^i over the set bits, fits the width, and determines the set. */
  lemma IntegerFacts(bits: seq<bool>, other: seq<bool>)
    requires |bits| == |other| <= 64
    ensures Number(bits) == PowerSum(bits, |bits|) < Pow2(|bits|)
    ensures Number(bits) == Number(other) <==> bits == other
  {
    assert bits[..|bits|] == bits;
    PowerSumIsNumber(bits, |bits|);
    NumberBound(bits);
    if Number(bits) == Number(other) { NumberInjective(bits, other); }
  }

  // ----- the printed form

  predicate PlainFields(fields: seq<string>) {
    forall i :: 0 <= i < |fields| ==> Plain(fields[i], '|')
  }

  function Printed(fields: seq<string>, bits: seq<bool>): string
    requires |bits| == |fields|
  {
    Join(FlagNames(fields, bits), "|")
  }

  /** Splitting the printed form recovers the flag names, so equal strings mean equal sets. */
  lemma PrintedIsInjective(fields: seq<string>, bits: seq<bool>, other: seq<bool>)
    requires |bits| == |other| == |fields| && Distinct(fields) && PlainFields(fields)
    ensures Split(Printed(fields, bits), '|') == FlagNames(fields, bits)
    ensures Printed(fields, bits) == Printed(fields, other) <==> bits == other
  {
    NamesSplit(fields, bits);
    NamesSplit(fields, other);
    BitsOfFlagNames(fields, bits);
    BitsOfFlagNames(fields, other);
  }

  lemma NamesSplit(fields: seq<string>, bits: seq<bool>)
    requires |bits| == |fields| && PlainFields(fields)
    ensures Split(Printed(fields, bits), '|') == FlagNames(fields, bits)
  {
    NamesAreFields(fields, bits);
    forall i | 0 <= i < |FlagNames(fields, bits)| ensures Plain(FlagNames(fields, bits)[i], '|') {
      assert FlagNames(fields, bits)[i] in fields;
    }
    SplitUndoesJoin(FlagNames(fields, bits), '|');
  }

  const CAPABILITY_NAMES := ["read", "write_request", "write_command", "notify", "indicate"]

  const STATUS_FLAG_NAMES := ["initialized", "connected", "connectable", "paired"]

  /** The two name lists in use are distinct, not empty and free of the separator. */
  lemma NamesInUse()
    ensures Distinct(CAPABILITY_NAMES) && PlainFields(CAPABILITY_NAMES)
    ensures Distinct(STATUS_FLAG_NAMES) && PlainFields(STATUS_FLAG_NAMES)
  {
    assert "read"[0] == 'r' && "notify"[0] == 'n' && "indicate"[0] == 'i';
    assert "write_request"[6] == 'r' && "write_command"[6] == 'c';
    assert |"initialized"| == 11 && |"connected"| == 9 && |"paired"| == 6;
    assert "connectable"[0] == 'c' && "initialized"[0] == 'i';
  }
}
