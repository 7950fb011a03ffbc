/**
 Guard objects and the accounting: the operations on real guards and contexts do to the world of
 counts exactly what the accounting says, with aliased contexts and self-moves included.
 */
module GuardObjects {
  import opened Common
  import opened RubyContext

  type Objects = World<InRuby, InRubyGuard>

  function Held(o: InRubyGuard): Option<InRuby>
    reads o
  {
    if o.inRuby == null then None else Some(o.inRuby)
  }

  ghost predicate ShowsCounts(w: Objects)
    reads w.count.Keys
  {
    forall c :: c in w.count ==> c.useCount == w.count[c] < COUNT_MODULUS
  }

  ghost predicate ShowsGuards(w: Objects)
    reads w.guards.Keys
  {
    forall g :: g in w.guards ==> Held(g) == w.guards[g] && (g.inRuby != null ==> g.inRuby in w.count)
  }

  /** The contexts and the live guards are in the state that the world describes. */
  ghost predicate Shows(w: Objects)
    reads w.count.Keys, w.guards.Keys
  {
    ShowsCounts(w) && ShowsGuards(w)
  }

  /** A count stays within its width, and stays as it is when nothing is gained or lost. */
  lemma AdjustFacts()
    ensures forall n: nat, gained: bool, lost: bool :: Adjust(n, gained, lost) < COUNT_MODULUS
    ensures forall n: nat :: n < COUNT_MODULUS ==> Adjust(n, false, false) == n
  {
  }

  method CreateGuard(ghost w: Objects, c: InRuby) returns (g: InRubyGuard)
    requires Shows(w) && c in w.count
    modifies c
    ensures fresh(g) && Enabled(w, Create(g, c)) && Shows(Perform(w, Create(g, c)))
  {
    hide Adjust;
    AdjustFacts();
    g := new InRubyGuard(c);
  }

  method MoveConstruct(ghost w: Objects, from: InRubyGuard) returns (g: InRubyGuard)
    requires Shows(w) && from in w.guards
    modifies from, from.inRuby
    ensures fresh(g) && Enabled(w, MoveNew(g, from)) && Shows(Perform(w, MoveNew(g, from)))
  {
    hide Adjust;
    AdjustFacts();
    g := new InRubyGuard.Move(from);
  }

  method MoveAssignGuard(ghost w: Objects, g: InRubyGuard, from: InRubyGuard)
    requires Shows(w) && Enabled(w, MoveInto(g, from))
    modifies g, from, g.inRuby, from.inRuby
    ensures Shows(Perform(w, MoveInto(g, from)))
  {
    hide Adjust;
    AdjustFacts();
    g.MoveAssign(from);
  }

  method DestroyGuard(ghost w: Objects, g: InRubyGuard)
    requires Shows(w) && Enabled(w, GuardOp.Destroy(g))
    modifies g.inRuby
    ensures Shows(Perform(w, GuardOp.Destroy(g)))
  {
    hide Adjust;
    AdjustFacts();
    g.Destroy();
  }

  /** What the marker answers: whether live guards and moves out of a guard add up to something that is
      not a multiple of 2^64. */
  lemma StateExactly(w: Objects, c: InRuby)
    requires Shows(w) && Accounted(w) && c in w.count
    ensures c.State() <==> (Live(w, c) + w.moved[c]) % 0x1_0000_0000_0000_0000 != 0
  {
  }

  /** The marker is set while a guard on it lives, as long as the true count fits its 64 bits, and clear
      with no live guard and no move made. */
  lemma StateFollowsGuards(w: Objects, c: InRuby)
    requires Shows(w) && Accounted(w) && c in w.count && Live(w, c) + w.moved[c] < 0x1_0000_0000_0000_0000
    ensures (exists g :: g in w.guards && Held(g) == Some(c)) ==> c.State()
    ensures w.moved[c] == 0 && (forall g :: g in w.guards ==> g.inRuby != c) ==> !c.State()
  {
    StateExactly(w, c);
    if g :| g in w.guards && Held(g) == Some(c) { assert g in Holders(w, c); }
    if forall g :: g in w.guards ==> g.inRuby != c { assert Holders(w, c) == {}; }
  }
}
