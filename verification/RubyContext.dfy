/**
 The in-Ruby marker: a use count kept by guards that can be moved. A move assignment counts the
 target's new hold but never gives back the emptied source's.
 */
module RubyContext {
  import opened Common

  /** The counter is 64 bits wide. */
  const COUNT_MODULUS: nat := 0x1_0000_0000_0000_0000

  function Increment(n: nat): nat { (n + 1) % COUNT_MODULUS }

  function Decrement(n: nat): nat { (n + COUNT_MODULUS - 1) % COUNT_MODULUS }

  /** A count after an optional increment and an optional decrement. */
  function Adjust(n: nat, gained: bool, lost: bool): nat {
    (n + COUNT_MODULUS + (if gained then 1 else 0) - (if lost then 1 else 0)) % COUNT_MODULUS
  }

  class InRuby {
    var useCount: nat

    constructor ()
      ensures useCount == 0
    {
      useCount := 0;
    }

    predicate State() reads this { useCount > 0 }
  }

  class InRubyGuard {
    var inRuby: InRuby?

    constructor (c: InRuby)
      requires c.useCount < COUNT_MODULUS
      modifies c
      ensures inRuby == c && c.useCount == Adjust(old(c.useCount), true, false)
    {
      inRuby := c;
      new;
      if inRuby != null { inRuby.useCount := Increment(inRuby.useCount); }
    }

    method Destroy()
      requires inRuby != null ==> inRuby.useCount < COUNT_MODULUS
      modifies inRuby
      ensures inRuby != null ==> inRuby.useCount == Adjust(old(inRuby.useCount), false, true)
    {
      if inRuby != null { inRuby.useCount := Decrement(inRuby.useCount); }
    }

    constructor Move(other: InRubyGuard)
      requires other.inRuby != null ==> other.inRuby.useCount < COUNT_MODULUS
      modifies other, other.inRuby
      ensures inRuby == old(other.inRuby) && other.inRuby == null
      ensures inRuby != null ==> inRuby.useCount == Adjust(old(other.inRuby.useCount), true, false)
    {
      inRuby := null;
      new;
      MoveAssign(other);
    }

    /** Works for a self-move, and for two guards on one context. */
    method MoveAssign(other: InRubyGuard)
      requires inRuby != null ==> inRuby.useCount < COUNT_MODULUS
      requires other.inRuby != null ==> other.inRuby.useCount < COUNT_MODULUS
      modifies this, other, inRuby, other.inRuby
      ensures other.inRuby == null
      ensures this != other ==> inRuby == old(other.inRuby)
      ensures old(inRuby) != null ==>
        old(inRuby).useCount == Adjust(old(inRuby.useCount), old(inRuby == other.inRuby), true)
      ensures old(other.inRuby) != null ==>
        old(other.inRuby).useCount == Adjust(old(other.inRuby.useCount), true, old(inRuby == other.inRuby))
    {
      var former := inRuby;
      inRuby := other.inRuby;
      if inRuby != null { inRuby.useCount := Increment(inRuby.useCount); }
      if former != null { former.useCount := Decrement(former.useCount); }
      other.inRuby := null;
    }
  }

  // ----- accounting over whole runs

  /** All contexts and live guards, and how many moves have been made out of a guard on each context. */
  datatype World<C(==), G(==)> = World(count: map<C, nat>, guards: map<G, Option<C>>, moved: map<C, nat>)

  datatype GuardOp<C, G> = Create(g: G, c: C) | MoveNew(g: G, from: G)
                   | MoveInto(g: G, from: G) | Destroy(g: G)

  predicate Enabled<C, G>(w: World<C, G>, op: GuardOp<C, G>) {
    match op
    case Create(g, c) => g !in w.guards && c in w.count
    case MoveNew(g, from) => g !in w.guards && from in w.guards
    case MoveInto(g, from) => g in w.guards && from in w.guards
    case Destroy(g) => g in w.guards
  }

  /** Every context's count adjusted for a guard that takes hold of `gained` and lets go of `lost`. */
  function Recount<C>(count: map<C, nat>, gained: Option<C>, lost: Option<C>): map<C, nat> {
    map c | c in count :: Adjust(count[c], gained == Some(c), lost == Some(c))
  }

  function MovedOut<C>(moved: map<C, nat>, from: Option<C>): map<C, nat> {
    map c | c in moved :: moved[c] + (if from == Some(c) then 1 else 0)
  }

  /** What the guard operations do, as their contracts say. */
  function Perform<C, G>(w: World<C, G>, op: GuardOp<C, G>): World<C, G>
    requires Enabled(w, op)
  {
    match op
    case Create(g, c) => w.(count := Recount(w.count, Some(c), None), guards := w.guards[g := Some(c)])
    case MoveNew(g, from) => MoveTo(w.(guards := w.guards[g := None]), g, from)
    case MoveInto(g, from) => MoveTo(w, g, from)
    case Destroy(g) => w.(count := Recount(w.count, None, w.guards[g]), guards := w.guards - {g})
  }

  function MoveTo<C, G>(w: World<C, G>, g: G, from: G): World<C, G>
    requires g in w.guards && from in w.guards
  {
    World(Recount(w.count, w.guards[from], w.guards[g]),
          w.guards[g := w.guards[from]][from := None],
          MovedOut(w.moved, w.guards[from]))
  }

  function PerformAll<C, G>(w: World<C, G>, ops: seq<GuardOp<C, G>>): Option<World<C, G>>
    decreases |ops|
  {
    if ops == [] then Some(w)
    else if Enabled(w, ops[0]) then PerformAll(Perform(w, ops[0]), ops[1..])
    else None
  }

  function Holders<C, G>(w: World<C, G>, c: C): set<G> { set g | g in w.guards && w.guards[g] == Some(c) }

  function Live<C, G>(w: World<C, G>, c: C): nat { |Holders(w, c)| }

  /** Each context's count is its live guards plus the moves made out of a guard on it. */
  ghost predicate Accounted<C, G>(w: World<C, G>) {
    && w.moved.Keys == w.count.Keys
    && (forall g :: g in w.guards && w.guards[g].Some? ==> w.guards[g].value in w.count)
    && (forall c :: c in w.count ==> w.count[c] == (Live(w, c) + w.moved[c]) % COUNT_MODULUS)
  }

  lemma AdjustIs(n: nat, x: nat, gained: bool, lost: bool)
    requires n == x % COUNT_MODULUS && (lost ==> x + (if gained then 1 else 0) >= 1)
    ensures Adjust(n, gained, lost) == (x + (if gained then 1 else 0) - (if lost then 1 else 0)) % COUNT_MODULUS
  {
  }

  lemma HoldersUpdate<C, G>(w: World<C, G>, g: G, h: Option<C>, c: C)
    ensures var w' := w.(guards := w.guards[g := h]);
            Live(w', c) == Live(w, c) - (if g in w.guards && w.guards[g] == Some(c) then 1 else 0)
                                      + (if h == Some(c) then 1 else 0)
  {
    var a, b := Holders(w, c), Holders(w.(guards := w.guards[g := h]), c);
    assert a - {g} == b - {g};
    assert |a - {g}| == |a| - (if g in a then 1 else 0);
    assert |b - {g}| == |b| - (if g in b then 1 else 0);
  }

  lemma CreateKeeps<C, G>(w: World<C, G>, g: G, c: C)
    requires Accounted(w) && Enabled(w, Create(g, c))
    ensures Accounted(Perform(w, Create(g, c)))
  {
    hide Adjust;
    var w' := Perform(w, Create(g, c));
    forall d | d in w'.count ensures w'.count[d] == (Live(w', d) + w'.moved[d]) % COUNT_MODULUS {
      HoldersUpdate(w, g, Some(c), d);
      assert Holders(w', d) == Holders(w.(guards := w.guards[g := Some(c)]), d);
      AdjustIs(w.count[d], Live(w, d) + w.moved[d], Some(c) == Some(d), false);
    }
  }

  lemma DestroyKeeps<C, G>(w: World<C, G>, g: G)
    requires Accounted(w) && Enabled(w, Destroy(g))
    ensures Accounted(Perform(w, Destroy(g)))
  {
    hide Adjust;
    var w' := Perform(w, Destroy(g));
    forall d | d in w'.count ensures w'.count[d] == (Live(w', d) + w'.moved[d]) % COUNT_MODULUS {
      HoldersUpdate(w, g, None, d);
      assert Holders(w', d) == Holders(w.(guards := w.guards[g := None]), d);
      AdjustIs(w.count[d], Live(w, d) + w.moved[d], false, w.guards[g] == Some(d));
    }
  }

  lemma MoveKeeps<C, G>(w: World<C, G>, g: G, from: G)
    requires Accounted(w) && g in w.guards && from in w.guards
    ensures Accounted(MoveTo(w, g, from))
  {
    hide Adjust;
    var w' := MoveTo(w, g, from);
    var w1 := w.(guards := w.guards[g := w.guards[from]]);
    forall d | d in w'.count ensures w'.count[d] == (Live(w', d) + w'.moved[d]) % COUNT_MODULUS {
      HoldersUpdate(w, g, w.guards[from], d);
      HoldersUpdate(w1, from, None, d);
      assert Holders(w', d) == Holders(w1.(guards := w1.guards[from := None]), d);
      AdjustIs(w.count[d], Live(w, d) + w.moved[d], w.guards[from] == Some(d), w.guards[g] == Some(d));
    }
  }

  lemma PerformKeeps<C, G>(w: World<C, G>, op: GuardOp<C, G>)
    requires Accounted(w) && Enabled(w, op)
    ensures Accounted(Perform(w, op))
  {
    match op
    case Create(g, c) => CreateKeeps(w, g, c);
    case Destroy(g) => DestroyKeeps(w, g);
    case MoveInto(g, from) => MoveKeeps(w, g, from);
    case MoveNew(g, from) =>
      var w1 := w.(guards := w.guards[g := None]);
      forall d | d in w1.count ensures Live(w1, d) == Live(w, d) {
        HoldersUpdate(w, g, None, d);
      }
      MoveKeeps(w1, g, from);
  }

  predicate NewWorld<C, G>(w: World<C, G>) {
    && w.guards == map[] && w.moved.Keys == w.count.Keys
    && (forall c :: c in w.count ==> w.count[c] == 0 && w.moved[c] == 0)
  }

  lemma {:induction false} KeepsAccounted<C, G>(w: World<C, G>, ops: seq<GuardOp<C, G>>)
    requires Accounted(w) && PerformAll(w, ops).Some?
    ensures Accounted(PerformAll(w, ops).value)
    decreases |ops|
  {
    if ops != [] {
      PerformKeeps(w, ops[0]);
      KeepsAccounted(Perform(w, ops[0]), ops[1..]);
    }
  }

  /** After any sequence of creations, moves of every kind and destructions, each context's count is
      its live guards plus the moves made out of a guard on it. */
  lemma GuardAccounting<C, G>(w: World<C, G>, ops: seq<GuardOp<C, G>>)
    requires NewWorld(w) && PerformAll(w, ops).Some?
    ensures Accounted(PerformAll(w, ops).value)
  {
    forall c | c in w.count ensures Live(w, c) == 0 { assert Holders(w, c) == {}; }
    KeepsAccounted(w, ops);
  }

  /** While a guard on a context lives, its state is true, and letting go of it does not wrap below
      zero, exactly when live guards and moves out do not add up to a multiple of 2^64. */
  lemma HeldMeansInRuby<C, G>(w: World<C, G>, g: G, c: C)
    requires Accounted(w) && g in w.guards && w.guards[g] == Some(c)
    ensures c in w.count && (w.count[c] > 0 <==> (Live(w, c) + w.moved[c]) % 0x1_0000_0000_0000_0000 != 0)
    ensures Perform(w, Destroy(g)).count[c] + 1 == w.count[c] <==> w.count[c] > 0
    ensures 0 < Live(w, c) + w.moved[c]
  {
    assert g in Holders(w, c);
  }

  /** With all guards gone the state is false exactly when no move was made, modulo the width. */
  lemma ReleasedExactlyWithoutMoves<C, G>(w: World<C, G>, c: C)
    requires Accounted(w) && c in w.count && Live(w, c) == 0
    ensures w.count[c] == 0 <==> w.moved[c] % 0x1_0000_0000_0000_0000 == 0
  {
  }

  predicate MoveFree<C, G>(ops: seq<GuardOp<C, G>>) { forall i :: 0 <= i < |ops| ==> ops[i].Create? || ops[i].Destroy? }

  lemma {:induction false} MoveFreeKeepsMoved<C, G>(w: World<C, G>, ops: seq<GuardOp<C, G>>)
    requires MoveFree(ops) && PerformAll(w, ops).Some?
    ensures PerformAll(w, ops).value.moved == w.moved
    ensures PerformAll(w, ops).value.count.Keys == w.count.Keys
    decreases |ops|
  {
    if ops != [] {
      assert ops[0].Create? || ops[0].Destroy?;
      assert forall i :: 0 <= i < |ops[1..]| ==> ops[1..][i] == ops[i + 1];
      MoveFreeKeepsMoved(Perform(w, ops[0]), ops[1..]);
    }
  }

  lemma SameAccount<C, G>(w: World<C, G>, w': World<C, G>, c: C)
    requires Accounted(w) && Accounted(w') && c in w.count && w'.moved == w.moved
    requires Live(w', c) == Live(w, c)
    ensures c in w'.count && w'.count[c] == w.count[c]
  {
    assert c in w'.moved;
  }

  /** Over a move-free stretch that ends with as many live guards on a context as it began with, the
      count returns to its starting value: a queue callback under its guard, for one. */
  lemma BalancedStretch<C, G>(w: World<C, G>, ops: seq<GuardOp<C, G>>, c: C)
    requires Accounted(w) && MoveFree(ops) && PerformAll(w, ops).Some? && c in w.count
    requires Live(PerformAll(w, ops).value, c) == Live(w, c)
    ensures c in PerformAll(w, ops).value.count && PerformAll(w, ops).value.count[c] == w.count[c]
  {
    MoveFreeKeepsMoved(w, ops);
    KeepsAccounted(w, ops);
    SameAccount(w, PerformAll(w, ops).value, c);
  }

  function AssignTemporary<C, G>(global: G, temporary: G, c: C): seq<GuardOp<C, G>> {
    [Create(temporary, c), MoveInto(global, temporary), Destroy(temporary)]
  }

  lemma AssignTemporaryRun<C, G>(w: World<C, G>, global: G, temporary: G, c: C)
    requires c in w.count && c in w.moved && global in w.guards && w.guards[global] == None && temporary !in w.guards
    ensures var r := PerformAll(w, AssignTemporary(global, temporary, c));
            && r.Some? && r.value.guards == w.guards[global := Some(c)]
            && c in r.value.count && c in r.value.moved && r.value.moved[c] == w.moved[c] + 1
  {
    var ops := AssignTemporary(global, temporary, c);
    var w1 := Perform(w, ops[0]);
    var w2 := Perform(w1, ops[1]);
    var w3 := Perform(w2, ops[2]);
    assert PerformAll(w2, [ops[2]]) == Some(w3) by { assert [ops[2]][1..] == []; }
    assert PerformAll(w1, ops[1..]) == Some(w3) by { assert ops[1..][1..] == [ops[2]]; }
    assert PerformAll(w, ops) == Some(w3);
    assert w3.guards == w.guards[global := Some(c)];
  }

  lemma LeakCount<C, G>(w: World<C, G>, w': World<C, G>, global: G, c: C)
    requires Accounted(w') && c in w'.count && w'.moved[c] == 1 && Live(w, c) == 0
    requires global in w.guards && w.guards[global] == None && w'.guards == w.guards[global := Some(c)]
    ensures Live(w', c) == 1 && w'.count[c] == 2
  {
    HoldersUpdate(w, global, Some(c), c);
    assert Holders(w', c) == Holders(w.(guards := w.guards[global := Some(c)]), c);
  }

  /** The initialisation idiom, assigning a temporary guard to an empty global one, leaves a count of
      two for one live guard. */
  lemma AssigningTemporaryLeaks<C, G>(w: World<C, G>, global: G, temporary: G, c: C, ops: seq<GuardOp<C, G>>)
    requires Accounted(w) && c in w.count && w.moved[c] == 0 && Live(w, c) == 0
    requires global in w.guards && w.guards[global] == None && temporary !in w.guards
    requires ops == AssignTemporary(global, temporary, c)
    ensures PerformAll(w, ops).Some?
    ensures var w' := PerformAll(w, ops).value; Live(w', c) == 1 && c in w'.count && w'.count[c] == 2
  {
    AssignTemporaryRun(w, global, temporary, c);
    KeepsAccounted(w, ops);
    LeakCount(w, PerformAll(w, ops).value, global, c);
  }
}
