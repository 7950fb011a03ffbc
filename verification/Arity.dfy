/**
 The arity check for callbacks: parameters are counted per kind in 8-bit counters, and the
 check is made on the counters.
 */
module Arity {
  import opened Common

  datatype Kind = Req | Opt | Rest | KeyReq | Key | KeyRest

  /** How many parameters have a kind. */
  function CountOf(params: seq<Kind>, k: Kind): nat {
    if params == [] then 0 else (if params[0] == k then 1 else 0) + CountOf(params[1..], k)
  }

  /** A Ruby object given as a callback: nil, a proc or lambda with its parameters, or anything else. */
  datatype Callable = Nil | Proc(isLambda: bool, params: seq<Kind>) | Other

  const COUNTER_MODULUS: nat := 256

  /** The counters hold each kind's count, in 8 bits. */
  ghost predicate Counted(counts: map<Kind, nat>, params: seq<Kind>) {
    forall k :: k in counts && counts[k] == CountOf(params, k) % COUNTER_MODULUS
  }

  lemma NothingCounted(counts: map<Kind, nat>)
    requires counts == map[Req := 0, Opt := 0, Rest := 0, KeyReq := 0, Key := 0, KeyRest := 0]
    ensures Counted(counts, [])
  {
    forall k: Kind ensures k in counts && counts[k] == 0 {
      match k { case Req => case Opt => case Rest => case KeyReq => case Key => case KeyRest => }
    }
  }

  lemma CountedNext(counts: map<Kind, nat>, params: seq<Kind>, p: Kind)
    requires Counted(counts, params)
    ensures Counted(counts[p := (counts[p] + 1) % COUNTER_MODULUS], params + [p])
  {
    hide CountOf;
    forall k: Kind
      ensures CountOf(params + [p], k) % COUNTER_MODULUS == (if p == k then (counts[k] + 1) % COUNTER_MODULUS else counts[k])
    {
      CountAppend(params, p, k);
      AddsOne(CountOf(params, k));
    }
  }

  lemma AddsOne(n: nat)
    ensures (n % COUNTER_MODULUS + 1) % COUNTER_MODULUS == (n + 1) % COUNTER_MODULUS
  {
  }

  class CallbackTraits {
    var isLambda: bool
    var counts: map<Kind, nat>

    constructor (isLambda: bool, params: seq<Kind>)
      ensures this.isLambda == isLambda
      ensures Counted(counts, params)
    {
      this.isLambda := isLambda;
      counts := map[Req := 0, Opt := 0, Rest := 0, KeyReq := 0, Key := 0, KeyRest := 0];
      new;
      NothingCounted(counts);
      for i := 0 to |params|
        invariant Counted(counts, params[..i])
        invariant this.isLambda == isLambda
      {
        CountedNext(counts, params[..i], params[i]);
        assert params[..i + 1] == params[..i] + [params[i]];
        counts := counts[params[i] := (counts[params[i]] + 1) % COUNTER_MODULUS];
      }
      assert params[..|params|] == params;
    }

    /** Whether the lambda accepts exactly `n` positional arguments, as the counters have it. */
    method AcceptsNArgs(n: nat) returns (b: bool)
      requires forall k: Kind :: k in counts
      ensures b == (!isLambda || CountersAccept(counts[Req], counts[Opt], counts[Rest], counts[KeyReq], n))
    {
      if !isLambda { return true; }
      if counts[KeyReq] > 0 { return false; }
      var min := counts[Req];
      var max := if counts[Rest] > 0 then COUNTER_MODULUS - 1 else (min + counts[Opt]) % COUNTER_MODULUS;
      return min <= n && n <= max;
    }
  }

  /** The test on the counters; the upper limit is kept in 8 bits. */
  predicate CountersAccept(req: nat, opt: nat, rest: nat, keyReq: nat, n: nat) {
    keyReq == 0 && req <= n <= (if rest > 0 then COUNTER_MODULUS - 1 else (req + opt) % COUNTER_MODULUS)
  }

  predicate CodeAccepts(params: seq<Kind>, n: nat) {
    CountersAccept(CountOf(params, Req) % COUNTER_MODULUS, CountOf(params, Opt) % COUNTER_MODULUS,
                   CountOf(params, Rest) % COUNTER_MODULUS, CountOf(params, KeyReq) % COUNTER_MODULUS, n)
  }

  method AssertAcceptsNArgs(val: Callable, n: nat, allowNil: bool) returns (r: Result<()>)
    ensures r.Ok? <==> if val.Nil? then allowNil
                       else val.Proc? && (val.isLambda ==> CodeAccepts(val.params, n))
    ensures r.Err? ==> r.error == InvalidArgument
  {
    if val.Nil? {
      if allowNil { return Ok(()); }
      return Err(InvalidArgument);
    }
    if !val.Proc? { return Err(InvalidArgument); }
    var traits := new CallbackTraits(val.isLambda, val.params);
    var accepted := traits.AcceptsNArgs(n);
    if accepted { return Ok(()); }
    return Err(InvalidArgument);
  }

  lemma {:induction false} CountAppend(params: seq<Kind>, p: Kind, k: Kind)
    ensures CountOf(params + [p], k) == CountOf(params, k) + (if p == k then 1 else 0)
    decreases |params|
  {
    if params == [] {
      assert [] + [p] == [p] && [p][1..] == [];
    } else {
      assert (params + [p])[1..] == params[1..] + [p];
      CountAppend(params[1..], p, k);
    }
  }

  // ----- what a call means

  /** How many of the arguments each parameter receives. Arguments are consumed in order, so this is
      an assignment of the arguments to the parameters. */
  predicate Fills(params: seq<Kind>, fill: seq<nat>) {
    && |fill| == |params|
    && forall i :: 0 <= i < |params| ==>
      match params[i]
      case Req => fill[i] == 1
      case Opt => fill[i] <= 1
      case Rest => true
      case KeyReq => false
      case _ => fill[i] == 0
  }

  function Sum(fill: seq<nat>): nat { if fill == [] then 0 else fill[0] + Sum(fill[1..]) }

  /** A lambda can be called with exactly `n` positional arguments: some assignment fills every
      required parameter, leaves no argument over, and no keyword is required. */
  ghost predicate CanCall(params: seq<Kind>, n: nat) {
    exists fill :: Fills(params, fill) && Sum(fill) == n
  }

  /** The plain rule. */
  predicate InRange(params: seq<Kind>, n: nat) {
    && CountOf(params, KeyReq) == 0
    && CountOf(params, Req) <= n
    && (CountOf(params, Rest) > 0 || n <= CountOf(params, Req) + CountOf(params, Opt))
  }

  lemma {:induction false} FillsInRange(params: seq<Kind>, fill: seq<nat>)
    requires Fills(params, fill)
    ensures InRange(params, Sum(fill))
    decreases |params|
  {
    if params != [] {
      assert forall i :: 0 <= i < |params[1..]| ==> params[1..][i] == params[i + 1] && fill[1..][i] == fill[i + 1];
      FillsInRange(params[1..], fill[1..]);
    }
  }

  /** What the first parameter takes of `n` arguments. */
  function Take(params: seq<Kind>, n: nat): nat
    requires params != []
  {
    var others := CountOf(params[1..], Req);
    match params[0]
    case Req => 1
    case Opt => if n > others then 1 else 0
    case Rest => if n > others then n - others else 0
    case _ => 0
  }

  lemma {:induction false} InRangeFills(params: seq<Kind>, n: nat) returns (fill: seq<nat>)
    requires InRange(params, n)
    ensures Fills(params, fill) && Sum(fill) == n
    decreases |params|
  {
    if params == [] {
      fill := [];
    } else {
      var k := Take(params, n);
      var rest := InRangeFills(params[1..], n - k);
      fill := [k] + rest;
      assert fill[1..] == rest;
      assert forall i :: 1 <= i < |params| ==> params[i] == params[1..][i - 1] && fill[i] == rest[i - 1];
    }
  }

  lemma CallableIsInRange(params: seq<Kind>, n: nat)
    ensures CanCall(params, n) <==> InRange(params, n)
  {
    if CanCall(params, n) {
      var fill :| Fills(params, fill) && Sum(fill) == n;
      FillsInRange(params, fill);
    }
    if InRange(params, n) {
      var fill := InRangeFills(params, n);
    }
  }

  lemma SmallCountersExact(req: nat, opt: nat, rest: nat, keyReq: nat, n: nat)
    requires rest <= 255 && keyReq <= 255 && req + opt <= 255 && n <= 255
    ensures CountersAccept(req % COUNTER_MODULUS, opt % COUNTER_MODULUS, rest % COUNTER_MODULUS,
                           keyReq % COUNTER_MODULUS, n)
       <==> PlainRule(req, opt, rest, keyReq, n)
  {
  }

  /** With every count, and required plus optional, at most 255, the check accepts exactly the calls
      that an assignment of the arguments allows. */
  lemma CheckIsExact(params: seq<Kind>, n: nat)
    requires n <= 255
    requires forall k: Kind :: CountOf(params, k) <= 255
    requires CountOf(params, Req) + CountOf(params, Opt) <= 255
    ensures CodeAccepts(params, n) <==> CanCall(params, n)
  {
    hide CountOf, CountersAccept, CanCall;
    CallableIsInRange(params, n);
    SmallCountersExact(CountOf(params, Req), CountOf(params, Opt), CountOf(params, Rest),
                       CountOf(params, KeyReq), n);
  }

  /** The condition on the counts under which the 8-bit check is right for every n up to 255. */
  predicate CountsFit(req: nat, opt: nat, rest: nat, keyReq: nat) {
    var refusesAll := rest % 256 == 0 && req % 256 + opt % 256 >= 256;
    if keyReq > 0 then keyReq % 256 > 0 || refusesAll
    else if req > 255 then refusesAll
    else rest % 256 > 0 || (req + opt) % 256 == 255 || (rest == 0 && req + opt <= 255)
  }

  predicate PlainRule(req: nat, opt: nat, rest: nat, keyReq: nat, n: nat) {
    keyReq == 0 && req <= n && (rest > 0 || n <= req + opt)
  }

  predicate Agree(req: nat, opt: nat, rest: nat, keyReq: nat, n: nat) {
    CountersAccept(req % 256, opt % 256, rest % 256, keyReq % 256, n) <==> PlainRule(req, opt, rest, keyReq, n)
  }

  lemma CountersAgree(req: nat, opt: nat, rest: nat, keyReq: nat)
    ensures (forall n :: 0 <= n <= 255 ==> Agree(req, opt, rest, keyReq, n)) <==> CountsFit(req, opt, rest, keyReq)
  {
    var low, high := req % 256, (req % 256 + opt % 256) % 256;
    if Agree(req, opt, rest, keyReq, low) && Agree(req, opt, rest, keyReq, high) && Agree(req, opt, rest, keyReq, 255) {
      assert CountsFit(req, opt, rest, keyReq);
    }
  }

  /** Whatever the parameter list, the check is right for every n up to 255 exactly when the counts
      fit: a checkable condition, which counts of at most 255 in all meet. */
  lemma CheckIsRightExactly(params: seq<Kind>)
    ensures (forall n :: 0 <= n <= 255 ==> (CodeAccepts(params, n) <==> CanCall(params, n)))
       <==> CountsFit(CountOf(params, Req), CountOf(params, Opt), CountOf(params, Rest), CountOf(params, KeyReq))
  {
    var r, o, s, k := CountOf(params, Req), CountOf(params, Opt), CountOf(params, Rest), CountOf(params, KeyReq);
    forall n | 0 <= n <= 255
      ensures (CodeAccepts(params, n) <==> CanCall(params, n)) <==> Agree(r, o, s, k, n)
    {
      CallableIsInRange(params, n);
    }
    CountersAgree(r, o, s, k);
  }

  // ----- parameter lists for which the check is wrong

  function Repeated(k: Kind, n: nat): seq<Kind> { seq(n, i => k) }

  lemma {:induction false} CountRepeated(k: Kind, n: nat, l: Kind)
    ensures CountOf(Repeated(k, n), l) == if k == l then n else 0
    decreases n
  {
    if n > 0 {
      assert Repeated(k, n)[1..] == Repeated(k, n - 1);
      CountRepeated(k, n - 1, l);
    }
  }

  lemma {:induction false} CountConcat(a: seq<Kind>, b: seq<Kind>, k: Kind)
    ensures CountOf(a + b, k) == CountOf(a, k) + CountOf(b, k)
    decreases |a|
  {
    if a == [] {
      assert a + b == b;
    } else {
      assert (a + b)[1..] == a[1..] + b;
      CountConcat(a[1..], b, k);
    }
  }

  /** With 256 required parameters, or any positive multiple, the counter is back at zero: the check
      accepts a callback for no arguments, which cannot be called with none. */
  lemma AcceptsTooFew(m: nat)
    requires m > 0
    ensures var params := Repeated(Req, m * COUNTER_MODULUS); CodeAccepts(params, 0) && !CanCall(params, 0)
  {
    var params := Repeated(Req, m * COUNTER_MODULUS);
    forall k: Kind ensures CountOf(params, k) == if k == Req then m * COUNTER_MODULUS else 0 {
      CountRepeated(Req, m * COUNTER_MODULUS, k);
    }
    CallableIsInRange(params, 0);
  }

  /** With both counts within a byte and their sum beyond it the upper limit wraps below the lower
      one: no number of arguments is accepted, though every one between the limits is callable. */
  lemma RefusesAll(required: nat, optional: nat, n: nat)
    requires required <= 255 && optional <= 255 && required + optional >= COUNTER_MODULUS
    requires required <= n <= 255
    ensures var params := Repeated(Req, required) + Repeated(Opt, optional);
            CanCall(params, n) && !CodeAccepts(params, n)
  {
    var params := Repeated(Req, required) + Repeated(Opt, optional);
    forall k: Kind
      ensures CountOf(params, k) == if k == Req then required else if k == Opt then optional else 0
    {
      CountConcat(Repeated(Req, required), Repeated(Opt, optional), k);
      CountRepeated(Req, required, k);
      CountRepeated(Opt, optional, k);
    }
    CallableIsInRange(params, n);
  }
}
