/**
 One client of the shared callback queue: among all the closures that the process pushes, its own
 are waiting, popped and begun in an order that depends only on what else of its own waited.
 */
module QueueShares {
  import opened Common
  import opened RubyQueue
  import opened RubyQueueInvariant
  import opened RubyQueueTheorems

  /** The closures of one client. */
  type Share = Fn -> bool

  /** The index of the client's last item; -1 when it has none. */
  function Latest(es: seq<Entry>, own: Share): (r: int)
    ensures -1 <= r < |es|
    ensures r >= 0 ==> own(es[r].fn)
    ensures forall i :: r < i < |es| ==> !own(es[i].fn)
  {
    if es == [] then -1
    else if own(es[|es| - 1].fn) then |es| - 1
    else
      var r := Latest(es[..|es| - 1], own);
      assert forall i :: 0 <= i < |es| - 1 ==> es[..|es| - 1][i] == es[i];
      r
  }

  // ----- what one step does to the items

  predicate Begins(m: Memory, m': Memory) {
    && m'.started != [] && m'.started == m.started + [m'.started[|m'.started| - 1]]
    && SameItems(m, m')
  }

  /** A step leaves the items alone, appends one, pops the newest, or begins one. */
  predicate ItemsMove(m: Memory, m': Memory) {
    || (m'.started == m.started && (SameItems(m, m') || Appends(m, m') || Pops(m, m')))
    || Begins(m, m')
  }

  lemma PushItemsMove(m: Memory, t: Tid, p: PushPC, v: Move)
    requires PushStep(m, t, p) == Some(v)
    ensures ItemsMove(m, v.m)
  {
  }

  lemma AskItemsMove(m: Memory, t: Tid, p: AskPC, c: Choice, v: Move)
    requires AskStep(m, t, p, c) == Some(v)
    ensures ItemsMove(m, v.m)
  {
  }

  lemma PopMove(m: Memory, t: Tid, e: Entry, v: Move)
    requires m.q != [] && m.q[|m.q| - 1] == e && LoopStep(m, t, PopBack(e)) == Some(v)
    ensures v.m.started == m.started && Pops(m, v.m)
  {
  }

  lemma BeginMove(m: Memory, t: Tid, e: Entry, v: Move)
    requires LoopStep(m, t, Gvl(e)) == Some(v)
    ensures Begins(m, v.m)
  {
  }

  lemma OtherLoopMove(m: Memory, t: Tid, p: LoopPC, v: Move)
    requires !p.PopBack? && !p.Gvl? && LoopStep(m, t, p) == Some(v)
    ensures v.m.started == m.started && SameItems(m, v.m)
  {
    match p
    case Lock =>
    case SetRunning =>
    case Test =>
    case Acquire =>
    case Retest =>
    case QLock =>
    case Back =>
    case QUnlock(_) =>
    case Callback(_) =>
    case Clear =>
    case Unlock =>
  }

  lemma LoopItemsMove(m: Memory, t: Tid, p: LoopPC, v: Move)
    requires EntryFits(m, Looping(p)) && LoopStep(m, t, p) == Some(v)
    ensures ItemsMove(m, v.m)
  {
    hide LoopStep, Pops, Begins, SameItems;
    match p
    case PopBack(e) => PopMove(m, t, e, v);
    case Gvl(e) => BeginMove(m, t, e, v);
    case _ => OtherLoopMove(m, t, p, v);
  }

  lemma LocalItems(m: Memory, t: Tid, p: PC, c: Choice, v: Move)
    requires EntryFits(m, p) && Local(m, t, p, c) == Some(v)
    ensures ItemsMove(m, v.m)
  {
    match p
    case Pushing(pp) => PushItemsMove(m, t, pp, v);
    case Asking(pp) => AskItemsMove(m, t, pp, c, v);
    case Looping(pp) => LoopItemsMove(m, t, pp, v);
    case _ =>
  }

  lemma StepItems(s: State, t: Tid, c: Choice)
    requires Inv(s) && Step(s, t, c).Some?
    ensures ItemsMove(s.m, Step(s, t, c).value.m)
  {
    hide Local, ItemsMove, EntryFits;
    LocalItems(s.m, t, s.pc[t], c, Local(s.m, t, s.pc[t], c).value);
  }

  // ----- order within a share

  /** The client's items are popped in the order of their pushes, and none waits that was pushed
      before a popped one. */
  ghost predicate InOrder(m: Memory, own: Share) {
    && (forall i, j :: 0 <= i < j < |m.popped| && own(m.popped[i].fn) && own(m.popped[j].fn) ==>
          m.popped[i].ticket < m.popped[j].ticket)
    && (forall i, j :: 0 <= i < |m.popped| && 0 <= j < |m.q| && own(m.popped[i].fn) && own(m.q[j].fn) ==>
          m.popped[i].ticket < m.q[j].ticket)
  }

  /** The step pops one of the client's items while another one waits. */
  predicate Crosses(m: Memory, m': Memory, own: Share) {
    && |m'.popped| > |m.popped| && own(m'.popped[|m'.popped| - 1].fn)
    && exists j :: 0 <= j < |m'.q| && own(m'.q[j].fn)
  }

  /** No pop in the schedule took one of the client's items while another one waited. */
  predicate NeverCrosses(s: State, evs: seq<Event>, own: Share)
    decreases |evs|
  {
    evs == [] ||
    match Step(s, evs[0].t, evs[0].c)
    case None => false
    case Some(s1) => !Crosses(s.m, s1.m, own) && NeverCrosses(s1, evs[1..], own)
  }

  lemma InOrderAppend(m: Memory, m': Memory, own: Share)
    requires Ordered(m) && Appends(m, m')
    ensures InOrder(m', own) <==> InOrder(m, own)
  {
    forall i | 0 <= i < |m.popped| ensures m.popped[i].ticket < |m.pushed| { PoppedWasPushed(m, i); }
    assert forall j :: 0 <= j < |m.q| ==> m'.q[j] == m.q[j];
  }

  lemma PoppedWasPushed(m: Memory, i: nat)
    requires Ordered(m) && i < |m.popped|
    ensures m.popped[i].ticket < |m.pushed| && m.pushed[m.popped[i].ticket] == m.popped[i]
  {
    assert m.popped[i] in multiset(m.popped);
    assert m.popped[i] in multiset(m.pushed);
    var k :| 0 <= k < |m.pushed| && m.pushed[k] == m.popped[i];
  }

  /** A pop keeps the client's order exactly when it does not cross. */
  lemma InOrderPop(m: Memory, m': Memory, own: Share)
    requires Ordered(m) && Pops(m, m')
    ensures InOrder(m', own) <==> InOrder(m, own) && !Crosses(m, m', own)
  {
    var n, k := |m.q| - 1, |m.popped|;
    assert m'.popped[k] == m.q[n];
    assert forall i :: 0 <= i < k ==> m'.popped[i] == m.popped[i];
    assert forall j :: 0 <= j < n ==> m'.q[j] == m.q[j];
    if InOrder(m', own) {
      forall i, j | 0 <= i < k && 0 <= j < |m.q| && own(m.popped[i].fn) && own(m.q[j].fn)
        ensures m.popped[i].ticket < m.q[j].ticket
      {
        assert m'.popped[i] == m.popped[i];
        if j < n { assert m'.q[j] == m.q[j]; }
      }
    }
  }

  lemma InOrderStep(s: State, t: Tid, c: Choice, own: Share)
    requires Inv(s) && Step(s, t, c).Some?
    ensures var m' := Step(s, t, c).value.m;
            InOrder(m', own) <==> InOrder(s.m, own) && !Crosses(s.m, m', own)
  {
    var m' := Step(s, t, c).value.m;
    StepItems(s, t, c);
    if Appends(s.m, m') {
      InOrderAppend(s.m, m', own);
    } else if Pops(s.m, m') {
      InOrderPop(s.m, m', own);
    }
  }

  lemma {:induction false} InOrderRun(s: State, evs: seq<Event>, own: Share)
    requires Inv(s) && RunFrom(s, evs).Some?
    ensures InOrder(RunFrom(s, evs).value.m, own) <==> InOrder(s.m, own) && NeverCrosses(s, evs, own)
    decreases |evs|
  {
    if evs != [] {
      StepKeepsInv(s, evs[0].t, evs[0].c);
      InOrderStep(s, evs[0].t, evs[0].c, own);
      InOrderRun(Step(s, evs[0].t, evs[0].c).value, evs[1..], own);
    }
  }

  /** On every run of the queue, whatever the other clients push, a client's items keep their push
      order exactly when no pop took one of them while another one waited. */
  lemma ShareOrderExactly(s: State, evs: seq<Event>, own: Share)
    requires Init(s) && RunFrom(s, evs).Some?
    ensures InOrder(RunFrom(s, evs).value.m, own) <==> NeverCrosses(s, evs, own)
  {
    InitInv(s);
    InOrderRun(s, evs, own);
  }

  /** Single waiting items suffice for every client. */
  lemma SingleItemsInOrder(s: State, own: Share)
    requires Reachable(s) && AllOnes(s.m.depths)
    ensures InOrder(s.m, own)
  {
    hide InOrder, TicketsOrdered;
    ReachableInv(s);
    StraightInOrder(s.m, own);
  }

  lemma StraightInOrder(m: Memory, own: Share)
    requires TicketsOrdered(m.pushed, m.q) && m.pushed == m.popped + m.q
    ensures InOrder(m, own)
  {
    hide TicketsOrdered;
    forall i | 0 <= i < |m.popped| ensures m.popped[i].ticket == i { TicketAt(m.pushed, m.q, i); }
    forall j | 0 <= j < |m.q| ensures m.q[j].ticket == |m.popped| + j { TicketAt(m.pushed, m.q, |m.popped| + j); }
  }

  lemma TicketAt(pushed: seq<Entry>, q: seq<Entry>, i: nat)
    requires TicketsOrdered(pushed, q) && i < |pushed|
    ensures pushed[i].ticket == i
  {
  }

  // ----- begun items

  /** All of the client's items have begun. */
  ghost predicate AllBegun(m: Memory, own: Share) {
    forall e :: e in m.pushed && own(e.fn) ==> e in m.started
  }

  lemma StartedWasPushed(s: State, i: nat)
    requires Inv(s) && i < |s.m.started|
    ensures i < |s.m.popped| && s.m.popped[i] == s.m.started[i]
    ensures s.m.started[i].ticket < |s.m.pushed| && s.m.pushed[s.m.started[i].ticket] == s.m.started[i]
  {
    PoppedIsStartedAndHand(s);
    PoppedWasPushed(s.m, i);
  }

  /** In order and with everything begun, the client's last begun item is its last pushed item. */
  lemma LastBegunIsLastPushed(s: State, own: Share)
    requires Inv(s) && InOrder(s.m, own) && AllBegun(s.m, own)
    ensures var b, p := Latest(s.m.started, own), Latest(s.m.pushed, own);
            if p < 0 then b < 0 else b >= 0 && s.m.started[b].ticket == p
  {
    var b, p := Latest(s.m.started, own), Latest(s.m.pushed, own);
    if b >= 0 { StartedWasPushed(s, b); }
    if p >= 0 {
      var i :| 0 <= i < |s.m.started| && s.m.started[i] == s.m.pushed[p];
      StartedWasPushed(s, i);
    }
  }
}
