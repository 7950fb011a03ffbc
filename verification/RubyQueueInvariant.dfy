/**
 The inductive invariant of the callback queue.

 Each conjunct is kept in two stages: a quantifier-free lemma about the local step
 of one thread, and a lemma that carries it to all threads.
 */
module RubyQueueInvariant {
  import opened Common
  import opened RubyQueue

  /** _starting admits one consumer. */
  ghost predicate OneConsumer(s: State) {
    && (forall t :: t in s.pc && Loopish(s.pc[t]) ==> s.m.starting)
    && (forall t, u :: t in s.pc && u in s.pc && Loopish(s.pc[t]) && Loopish(s.pc[u]) ==> t == u)
  }

  /** The queue mutex is held by exactly the thread inside a critical section. */
  ghost predicate MutexOwned(s: State) {
    && (s.m.mtx.Some? ==> s.m.mtx.value in s.pc)
    && (forall t :: t in s.pc ==> (HoldsMtx(s.pc[t]) <==> s.m.mtx == Some(t)))
  }

  /** The run mutex: its holders are the threads at the matching program points. */
  ghost predicate RunLockOwned(s: State) {
    && (s.m.runOwner.Some? ==> s.m.runOwner.value in s.pc && s.m.runShared == {})
    && (forall t :: t in s.pc ==> (HoldsRunExclusive(s.pc[t]) <==> s.m.runOwner == Some(t)))
    && (forall t :: t in s.m.runShared <==> t in s.pc && HoldsRunShared(s.pc[t]))
  }

  /** _running is set exactly while the consumer is inside the loop body. */
  ghost predicate RunningExact(s: State) {
    && (s.m.running ==> s.m.runOwner.Some? && s.m.runOwner.value in s.pc && InBody(s.pc[s.m.runOwner.value]))
    && (forall t :: t in s.pc && InBody(s.pc[t]) ==> s.m.running)
  }

  /** Semaphore accounting: every item and the stop token is in the semaphore, owed, or forfeited. */
  ghost predicate TokensBalance(s: State) {
    && |s.m.q| + StopToken(s.m) == s.m.sem + Count(s.pc, Owing) + s.m.forfeited
    && Count(s.pc, Backed) <= |s.m.q|
  }

  function StopToken(m: Memory): nat { if m.stopReleased then 1 else 0 }

  predicate IsRelease(p: PC) { p.Stopping? && p.stop.Release? }

  /** The stop token is released once, by the one thread that set the flag. */
  ghost predicate StopOnce(s: State) {
    && (s.m.stopReleased ==> s.m.stopping)
    && (forall t :: t in s.pc && IsRelease(s.pc[t]) ==> s.m.stopping && !s.m.stopReleased)
    && (forall t, u :: t in s.pc && u in s.pc && IsRelease(s.pc[t]) && IsRelease(s.pc[u]) ==> t == u)
    && (s.m.stopping && !s.m.stopReleased ==> exists t :: t in s.pc && IsRelease(s.pc[t]))
  }

  /** A token is forfeited only on the way out. */
  ghost predicate ForfeitOnce(s: State) {
    && s.m.forfeited <= 1
    && (s.m.forfeited == 1 ==> s.m.starting)
    && (forall t :: t in s.pc && Loopish(s.pc[t]) && !Leaving(s.pc[t]) ==> s.m.forfeited == 0)
  }

  ghost predicate AllOnes(d: seq<nat>) { forall i :: 0 <= i < |d| ==> d[i] == 1 }

  /** Tickets number the pushes, and the deque holds pushed items in the order of their pushes. */
  ghost predicate TicketsOrdered(pushed: seq<Entry>, q: seq<Entry>) {
    && (forall i :: 0 <= i < |pushed| ==> pushed[i].ticket == i)
    && (forall i, j :: 0 <= i < j < |q| ==> q[i].ticket < q[j].ticket)
    && (forall i :: 0 <= i < |q| ==> q[i] in pushed)
  }

  /** Every pushed item was popped or is waiting. */
  ghost predicate ItemsCounted(m: Memory) { multiset(m.pushed) == multiset(m.popped) + multiset(m.q) }

  /** The pops followed the push order exactly when each saw a single item. */
  ghost predicate FifoSoFar(m: Memory) {
    && |m.depths| == |m.popped|
    && if AllOnes(m.depths) then m.pushed == m.popped + m.q else !(m.popped <= m.pushed)
  }

  /** The order of pushes, waiting items and pops. */
  ghost predicate Ordered(m: Memory) {
    TicketsOrdered(m.pushed, m.q) && ItemsCounted(m) && FifoSoFar(m)
  }

  /** Popped and not begun, for a thread at `p`. */
  function HandOf(p: PC): seq<Entry> {
    if InHand(p) then [p.at.entry] else []
  }

  /** Pops reach callbacks: what is popped and not begun is in the consumer's hand. */
  ghost predicate InHandAccount(s: State) {
    && (forall t :: t in s.pc && Loopish(s.pc[t]) ==> s.m.popped == s.m.started + HandOf(s.pc[t]))
    && ((forall t :: t in s.pc ==> !Loopish(s.pc[t])) ==> s.m.popped == s.m.started)
    && (forall t :: t in s.pc ==> EntryFits(s.m, s.pc[t]))
  }

  /** The item a consumer has read is the newest waiting one, and the one it runs is the last begun. */
  predicate EntryFits(m: Memory, p: PC) {
    && (p.Looping? && p.at.PopBack? ==> m.q != [] && m.q[|m.q| - 1] == p.at.entry)
    && (p.Looping? && p.at.Callback? ==> m.started != [] && m.started[|m.started| - 1] == p.at.entry)
  }

  /** No callback is executing or committed. */
  ghost predicate NoneActive(pc: map<Tid, PC>) { forall t :: t in pc ==> !Active(pc[t]) }

  ghost predicate Quiet(s: State) { s.m.stopping && NoneActive(s.pc) }

  /** Answers that say "stopped" are given only in quiet states. */
  ghost predicate AnswersTrue(s: State) {
    && (forall t :: t in s.pc && SawStopping(s.pc[t]) ==> s.m.stopping)
    && (forall t :: t in s.pc && SawQuiet(s.pc[t]) ==> NoneActive(s.pc))
  }

  ghost predicate Inv(s: State) {
    && OneConsumer(s) && MutexOwned(s) && RunLockOwned(s) && RunningExact(s)
    && TokensBalance(s) && StopOnce(s) && ForfeitOnce(s)
    && Ordered(s.m) && InHandAccount(s)
    && AnswersTrue(s)
  }

  lemma InitOrdered(m: Memory)
    requires m.q == [] && m.pushed == [] && m.popped == [] && m.depths == []
    ensures Ordered(m)
  {
  }

  lemma InitInv(s: State)
    requires Init(s)
    ensures Inv(s)
  {
    hide Ordered;
    CountNone(s.pc, Owing);
    CountNone(s.pc, Backed);
    InitOrdered(s.m);
  }

  // ----- what one local step may do

  predicate StartMove(m: Memory, p: PC, v: Move) {
    && (m.starting ==> v.m.starting)
    && (p != Starting(Spawn) && Loopish(p) ==> Loopish(v.pc))
    && (Loopish(v.pc) && !Loopish(p) ==> !m.starting && v.m.starting)
  }

  predicate MutexMove(m: Memory, t: Tid, p: PC, v: Move) {
    && (v.m.mtx == m.mtx || (v.m.mtx == Some(t) && m.mtx == None) || (v.m.mtx == None && HoldsMtx(p)))
    && ((HoldsMtx(p) <==> m.mtx == Some(t)) ==> (HoldsMtx(v.pc) <==> v.m.mtx == Some(t)))
  }

  /** Thread `t` holds the run mutex as its program point says. */
  predicate RunLockFits(m: Memory, t: Tid, p: PC) {
    && (HoldsRunExclusive(p) <==> m.runOwner == Some(t))
    && (HoldsRunShared(p) <==> t in m.runShared)
    && (m.runOwner.Some? ==> m.runShared == {})
  }

  predicate RunLockMove(m: Memory, t: Tid, p: PC, v: Move) {
    && RunLockFits(v.m, t, v.pc)
    && (v.m.runOwner == m.runOwner || (v.m.runOwner == Some(t) && m.runOwner == None)
        || (v.m.runOwner == None && m.runOwner == Some(t)))
    && (v.m.runShared == m.runShared || v.m.runShared == m.runShared + {t} || v.m.runShared == m.runShared - {t})
  }

  predicate RunningMove(m: Memory, p: PC, v: Move) {
    && (InBody(v.pc) && !InBody(p) ==> v.m.running)
    && (InBody(p) && !InBody(v.pc) ==> !v.m.running)
    && ((InBody(p) <==> InBody(v.pc)) ==> v.m.running == m.running || (HoldsRunShared(p) && !v.m.running))
  }

  function Weight(f: PC -> bool, p: PC): nat { if f(p) then 1 else 0 }

  /** Tokens move between the semaphore, the debts and the forfeits. */
  predicate TokenMove(m: Memory, p: PC, v: Move) {
    && |v.m.q| + StopToken(v.m) - v.m.sem - v.m.forfeited - Weight(Owing, v.pc)
       == |m.q| + StopToken(m) - m.sem - m.forfeited - Weight(Owing, p)
    && (|v.m.q| - Weight(Backed, v.pc) >= |m.q| - Weight(Backed, p)
        || (p == Looping(Retest) && !m.stopping && v == Move(Looping(QLock), m)))
  }

  predicate StopMove(m: Memory, p: PC, v: Move) {
    && (m.stopping ==> v.m.stopping)
    && v.m.stopReleased == (m.stopReleased || IsRelease(p))
    && (IsRelease(v.pc) ==> !m.stopping && v.m.stopping)
    && (v.m.stopping && !m.stopping ==> IsRelease(v.pc))
  }

  predicate ForfeitMove(m: Memory, p: PC, v: Move) {
    && v.m.forfeited == m.forfeited + (if p == Looping(Retest) && Leaving(v.pc) then 1 else 0)
    && (Leaving(p) ==> Leaving(v.pc))
  }

  predicate SameItems(m: Memory, m': Memory) {
    m'.q == m.q && m'.pushed == m.pushed && m'.popped == m.popped && m'.depths == m.depths
  }

  predicate Appends(m: Memory, m': Memory) {
    && m'.q != [] && m'.q[|m'.q| - 1].ticket == |m.pushed|
    && m'.q == m.q + [m'.q[|m'.q| - 1]] && m'.pushed == m.pushed + [m'.q[|m'.q| - 1]]
    && m'.popped == m.popped && m'.depths == m.depths
  }

  predicate Pops(m: Memory, m': Memory) {
    && m.q != []
    && m'.q == m.q[..|m.q| - 1] && m'.popped == m.popped + [m.q[|m.q| - 1]]
    && m'.depths == m.depths + [|m.q|] && m'.pushed == m.pushed
  }

  predicate ItemMove(m: Memory, p: PC, v: Move) {
    && (SameItems(m, v.m) || (HoldsMtx(p) && (Appends(m, v.m) || Pops(m, v.m))))
    && (m.popped == m.started + HandOf(p) ==> v.m.popped == v.m.started + HandOf(v.pc))
    && (!Loopish(p) ==> v.m.started == m.started && v.m.popped == m.popped)
    && EntryFits(v.m, v.pc)
  }

  /** A callback begins only for a committed thread, which commits only while stop is not requested. */
  predicate StartedMove(m: Memory, p: PC, v: Move) {
    && (v.m.started == m.started || (Committed(p) && !Committed(v.pc) && |v.m.started| == |m.started| + 1))
    && (Committed(v.pc) && !Committed(p) ==> !m.stopping)
  }

  predicate AnswerMove(m: Memory, p: PC, v: Move) {
    && (SawStopping(v.pc) && !SawStopping(p) ==> v.m.stopping)
    && (SawQuiet(v.pc) && !SawQuiet(p) ==> SawStopping(v.pc) && SawStopping(p) && (!m.running || m.runOwner == None))
    && (Active(v.pc) && !Active(p) ==> !m.stopping)
  }

  /** The contract of a step of a thread at `p`: flags and locks. */
  predicate LockContract(m: Memory, t: Tid, p: PC, v: Move) {
    && StartMove(m, p, v) && MutexMove(m, t, p, v)
    && (RunLockFits(m, t, p) ==> RunLockMove(m, t, p, v)) && RunningMove(m, p, v)
  }

  /** The contract of a step of a thread at `p`: tokens, items and answers. */
  predicate AccountContract(m: Memory, p: PC, v: Move) {
    && TokenMove(m, p, v) && StopMove(m, p, v) && ForfeitMove(m, p, v)
    && StartedMove(m, p, v) && ItemMove(m, p, v) && AnswerMove(m, p, v)
  }

  predicate MovePre(m: Memory, p: PC) {
    && EntryFits(m, p)
    && (IsRelease(p) ==> m.stopping && !m.stopReleased)
  }

  lemma PushLocks(m: Memory, t: Tid, p: PushPC, v: Move)
    requires PushStep(m, t, p) == Some(v)
    ensures LockContract(m, t, Pushing(p), v)
  {
  }

  lemma PushTokens(m: Memory, t: Tid, p: PushPC, v: Move)
    requires PushStep(m, t, p) == Some(v)
    ensures TokenMove(m, Pushing(p), v) && StopMove(m, Pushing(p), v) && ForfeitMove(m, Pushing(p), v)
  {
  }

  lemma PushItems(m: Memory, t: Tid, p: PushPC, v: Move)
    requires PushStep(m, t, p) == Some(v)
    ensures ItemMove(m, Pushing(p), v) && StartedMove(m, Pushing(p), v) && AnswerMove(m, Pushing(p), v)
  {
  }

  lemma StopContract(m: Memory, t: Tid, p: StopPC, v: Move)
    requires MovePre(m, Stopping(p)) && StopStep(m, t, p) == Some(v)
    ensures LockContract(m, t, Stopping(p), v) && AccountContract(m, Stopping(p), v)
  {
  }

  lemma AskLocks(m: Memory, t: Tid, p: AskPC, c: Choice, v: Move)
    requires AskStep(m, t, p, c) == Some(v)
    ensures LockContract(m, t, Asking(p), v)
  {
  }

  lemma AskTokens(m: Memory, t: Tid, p: AskPC, c: Choice, v: Move)
    requires AskStep(m, t, p, c) == Some(v)
    ensures TokenMove(m, Asking(p), v) && StopMove(m, Asking(p), v) && ForfeitMove(m, Asking(p), v)
  {
  }

  lemma AskItems(m: Memory, t: Tid, p: AskPC, c: Choice, v: Move)
    requires AskStep(m, t, p, c) == Some(v)
    ensures ItemMove(m, Asking(p), v) && StartedMove(m, Asking(p), v) && AnswerMove(m, Asking(p), v)
  {
  }

  lemma StartContract(m: Memory, t: Tid, p: StartPC, v: Move)
    requires StartStep(m, t, p) == Some(v)
    ensures LockContract(m, t, Starting(p), v) && AccountContract(m, Starting(p), v)
  {
  }

  lemma LoopLocks(m: Memory, t: Tid, p: LoopPC, v: Move)
    requires LoopStep(m, t, p) == Some(v)
    ensures LockContract(m, t, Looping(p), v)
  {
  }

  lemma LoopTokens(m: Memory, t: Tid, p: LoopPC, v: Move)
    requires LoopStep(m, t, p) == Some(v)
    ensures TokenMove(m, Looping(p), v) && StopMove(m, Looping(p), v) && ForfeitMove(m, Looping(p), v)
  {
  }

  lemma LoopItems(m: Memory, t: Tid, p: LoopPC, v: Move)
    requires MovePre(m, Looping(p)) && LoopStep(m, t, p) == Some(v)
    ensures ItemMove(m, Looping(p), v)
  {
  }

  lemma LoopAnswers(m: Memory, t: Tid, p: LoopPC, v: Move)
    requires LoopStep(m, t, p) == Some(v)
    ensures StartedMove(m, Looping(p), v) && AnswerMove(m, Looping(p), v)
  {
  }

  lemma LocalContract(m: Memory, t: Tid, p: PC, c: Choice, v: Move)
    requires MovePre(m, p) && Local(m, t, p, c) == Some(v)
    ensures LockContract(m, t, p, v) && AccountContract(m, p, v)
  {
    match p
    case Pushing(pp) => PushLocks(m, t, pp, v); PushTokens(m, t, pp, v); PushItems(m, t, pp, v);
    case Stopping(pp) => StopContract(m, t, pp, v);
    case Asking(pp) => AskLocks(m, t, pp, c, v); AskTokens(m, t, pp, c, v); AskItems(m, t, pp, c, v);
    case Starting(pp) => StartContract(m, t, pp, v);
    case Looping(pp) =>
      LoopLocks(m, t, pp, v); LoopTokens(m, t, pp, v); LoopItems(m, t, pp, v); LoopAnswers(m, t, pp, v);
    case _ =>
  }

  // ----- from one thread to all threads

  /** Thread `t` moves by `v`, the others stay. */
  ghost predicate Moved(s: State, t: Tid, v: Move, s': State) {
    && t in s.pc
    && s' == State(v.m, s.pc[t := v.pc])
  }

  lemma KeepsOneConsumer(s: State, t: Tid, v: Move, s': State)
    requires OneConsumer(s) && Moved(s, t, v, s') && StartMove(s.m, s.pc[t], v)
    ensures OneConsumer(s')
  {
  }

  lemma KeepsMutexOwned(s: State, t: Tid, v: Move, s': State)
    requires MutexOwned(s) && Moved(s, t, v, s') && MutexMove(s.m, t, s.pc[t], v)
    ensures MutexOwned(s')
  {
  }

  lemma KeepsRunLockOwned(s: State, t: Tid, v: Move, s': State)
    requires RunLockOwned(s) && Moved(s, t, v, s') && RunLockMove(s.m, t, s.pc[t], v)
    ensures RunLockOwned(s')
  {
  }

  lemma KeepsRunningExact(s: State, t: Tid, v: Move, s': State)
    requires RunLockOwned(s) && RunLockOwned(s') && RunningExact(s)
    requires Moved(s, t, v, s') && RunLockMove(s.m, t, s.pc[t], v) && RunningMove(s.m, s.pc[t], v)
    ensures RunningExact(s')
  {
  }

  lemma OwingCoversBacked(pc: map<Tid, PC>, t: Tid)
    requires t in pc && pc[t] == Looping(Retest)
    ensures Count(pc, Backed) + 1 <= Count(pc, Owing)
  {
    var a, b := Where(pc, Backed), Where(pc, Owing);
    assert a + {t} <= b;
    SubsetSize(a + {t}, b);
  }

  lemma SubsetSize<T>(a: set<T>, b: set<T>)
    requires a <= b
    ensures |a| <= |b|
  {
    assert |b| == |a| + |b - a| by { assert b == a + (b - a); }
  }

  lemma KeepsTokensBalance(s: State, t: Tid, v: Move, s': State)
    requires TokensBalance(s) && StopOnce(s)
    requires Moved(s, t, v, s') && TokenMove(s.m, s.pc[t], v)
    ensures TokensBalance(s')
  {
    CountUpdate(s.pc, t, v.pc, Owing);
    CountUpdate(s.pc, t, v.pc, Backed);
    if s.pc[t] == Looping(Retest) { OwingCoversBacked(s.pc, t); }
  }

  lemma KeepsStopOnce(s: State, t: Tid, v: Move, s': State)
    requires StopOnce(s) && Moved(s, t, v, s') && StopMove(s.m, s.pc[t], v)
    ensures StopOnce(s')
  {
    if s'.m.stopping && !s'.m.stopReleased {
      if s.m.stopping {
        var u :| u in s.pc && IsRelease(s.pc[u]);
        assert u in s'.pc && IsRelease(s'.pc[u]);
      } else {
        assert t in s'.pc && IsRelease(s'.pc[t]);
      }
    }
  }

  lemma KeepsForfeitOnce(s: State, t: Tid, v: Move, s': State)
    requires OneConsumer(s) && ForfeitOnce(s)
    requires Moved(s, t, v, s') && StartMove(s.m, s.pc[t], v) && ForfeitMove(s.m, s.pc[t], v)
    ensures ForfeitOnce(s')
  {
  }

  lemma TicketsAppend(pushed: seq<Entry>, q: seq<Entry>, e: Entry)
    requires TicketsOrdered(pushed, q) && e.ticket == |pushed|
    ensures TicketsOrdered(pushed + [e], q + [e])
  {
    forall i | 0 <= i < |q| ensures q[i].ticket < |pushed| {
      assert q[i] in pushed;
      var k :| 0 <= k < |pushed| && pushed[k] == q[i];
    }
    assert forall i :: 0 <= i < |q| ==> (q + [e])[i] == q[i];
    assert (pushed + [e])[|pushed|] == e;
  }

  lemma FifoAppend(m: Memory, m': Memory)
    requires FifoSoFar(m) && Appends(m, m') && |m.popped| <= |m.pushed|
    ensures FifoSoFar(m')
  {
    if AllOnes(m.depths) {
      assert m'.pushed == m'.popped + m'.q;
    } else {
      assert m'.pushed[..|m.popped|] == m.pushed[..|m.popped|];
    }
  }

  lemma KeepsOrderedAppend(m: Memory, m': Memory)
    requires Ordered(m) && Appends(m, m')
    ensures Ordered(m')
  {
    hide TicketsOrdered, FifoSoFar;
    NoLongerThanPushed(m);
    TicketsAppend(m.pushed, m.q, m'.q[|m.q|]);
    FifoAppend(m, m');
  }

  lemma NoLongerThanPushed(m: Memory)
    requires ItemsCounted(m)
    ensures |m.popped| + |m.q| == |m.pushed|
  {
    assert |multiset(m.pushed)| == |multiset(m.popped)| + |multiset(m.q)|;
  }

  lemma AllOnesAppend(d: seq<nat>, n: nat)
    ensures AllOnes(d + [n]) <==> AllOnes(d) && n == 1
  {
    assert (d + [n])[|d|] == n;
    assert forall i :: 0 <= i < |d| ==> d[i] == (d + [n])[i];
  }

  lemma PrefixOfPrefix(a: seq<Entry>, e: Entry, b: seq<Entry>)
    ensures a + [e] <= b ==> a <= b
  {
    assert a <= a + [e];
  }

  lemma TicketsPop(pushed: seq<Entry>, q: seq<Entry>)
    requires TicketsOrdered(pushed, q) && q != []
    ensures TicketsOrdered(pushed, q[..|q| - 1])
  {
  }

  lemma ItemsPop(m: Memory, m': Memory)
    requires ItemsCounted(m) && Pops(m, m')
    ensures ItemsCounted(m')
  {
    assert m.q == m'.q + [m.q[|m.q| - 1]];
  }

  lemma FifoPop(m: Memory, m': Memory)
    requires FifoSoFar(m) && TicketsOrdered(m.pushed, m.q) && Pops(m, m')
    ensures FifoSoFar(m')
  {
    var n, e := |m.q| - 1, m.q[|m.q| - 1];
    AllOnesAppend(m.depths, |m.q|);
    if AllOnes(m.depths) {
      if n == 0 {
        assert m'.pushed == m'.popped + m'.q;
      } else {
        assert m.pushed[|m.popped|] == m.q[0] != e == m'.popped[|m.popped|];
      }
    } else {
      PrefixOfPrefix(m.popped, e, m.pushed);
    }
  }

  lemma KeepsOrderedPop(m: Memory, m': Memory)
    requires Ordered(m) && Pops(m, m')
    ensures Ordered(m')
  {
    hide TicketsOrdered, FifoSoFar, ItemsCounted;
    TicketsPop(m.pushed, m.q);
    ItemsPop(m, m');
    FifoPop(m, m');
  }

  lemma KeepsInHand(s: State, t: Tid, v: Move, s': State)
    requires OneConsumer(s) && MutexOwned(s) && InHandAccount(s)
    requires Moved(s, t, v, s') && StartMove(s.m, s.pc[t], v) && ItemMove(s.m, s.pc[t], v)
    ensures InHandAccount(s')
  {
    if forall u :: u in s'.pc ==> !Loopish(s'.pc[u]) {
      assert forall u :: u in s.pc && u != t ==> u in s'.pc && s'.pc[u] == s.pc[u];
      assert s'.pc[t] == v.pc;
    }
  }

  lemma KeepsAnswers(s: State, t: Tid, v: Move, s': State)
    requires RunLockOwned(s) && RunningExact(s) && AnswersTrue(s)
    requires Moved(s, t, v, s') && StopMove(s.m, s.pc[t], v) && AnswerMove(s.m, s.pc[t], v)
    ensures AnswersTrue(s')
  {
  }

  lemma KeepsOrdered(s: State, t: Tid, v: Move, s': State)
    requires Ordered(s.m) && Moved(s, t, v, s') && ItemMove(s.m, s.pc[t], v)
    ensures Ordered(s'.m)
  {
    if Appends(s.m, v.m) {
      KeepsOrderedAppend(s.m, v.m);
    } else if Pops(s.m, v.m) {
      KeepsOrderedPop(s.m, v.m);
    }
  }

  lemma RunLockFitsAt(s: State, t: Tid)
    requires RunLockOwned(s) && t in s.pc
    ensures RunLockFits(s.m, t, s.pc[t])
  {
  }

  /** One thread moving keeps everything. */
  lemma KeepsInv(s: State, t: Tid, v: Move, s': State)
    requires Inv(s) && Moved(s, t, v, s')
    requires LockContract(s.m, t, s.pc[t], v) && AccountContract(s.m, s.pc[t], v)
    ensures Inv(s')
  {
    RunLockFitsAt(s, t);
    KeepsOneConsumer(s, t, v, s');
    KeepsMutexOwned(s, t, v, s');
    KeepsRunLockOwned(s, t, v, s');
    KeepsRunningExact(s, t, v, s');
    KeepsTokensBalance(s, t, v, s');
    KeepsStopOnce(s, t, v, s');
    KeepsForfeitOnce(s, t, v, s');
    KeepsOrdered(s, t, v, s');
    KeepsInHand(s, t, v, s');
    KeepsAnswers(s, t, v, s');
  }

  /** The winner of `start`, thread `t`, creates the consumer `u`. */
  ghost predicate Spawns(s: State, t: Tid, u: Tid, s': State) {
    && t in s.pc && s.pc[t] == Starting(Spawn) && u !in s.pc
    && s' == State(s.m, s.pc[t := Idle][u := Looping(LoopPC.Lock)])
  }

  lemma SpawnKeepsLocks(s: State, t: Tid, u: Tid, s': State)
    requires OneConsumer(s) && MutexOwned(s) && RunLockOwned(s) && RunningExact(s) && Spawns(s, t, u, s')
    ensures OneConsumer(s') && MutexOwned(s') && RunLockOwned(s') && RunningExact(s')
  {
  }

  lemma SpawnKeepsTokens(s: State, t: Tid, u: Tid, s': State)
    requires OneConsumer(s) && TokensBalance(s) && ForfeitOnce(s) && Spawns(s, t, u, s')
    ensures TokensBalance(s') && ForfeitOnce(s')
  {
    CountUpdate(s.pc, t, Idle, Owing);
    CountUpdate(s.pc, t, Idle, Backed);
    CountUpdate(s.pc[t := Idle], u, Looping(LoopPC.Lock), Owing);
    CountUpdate(s.pc[t := Idle], u, Looping(LoopPC.Lock), Backed);
  }

  lemma SpawnKeepsStop(s: State, t: Tid, u: Tid, s': State)
    requires StopOnce(s) && Spawns(s, t, u, s')
    ensures StopOnce(s')
  {
    if s.m.stopping && !s.m.stopReleased {
      var w :| w in s.pc && IsRelease(s.pc[w]);
      assert w in s'.pc && IsRelease(s'.pc[w]);
    }
  }

  lemma SpawnKeepsItems(s: State, t: Tid, u: Tid, s': State)
    requires OneConsumer(s) && InHandAccount(s) && AnswersTrue(s) && Spawns(s, t, u, s')
    ensures InHandAccount(s') && AnswersTrue(s')
  {
  }

  /** Every step of every thread keeps the invariant. */
  lemma StepKeepsInv(s: State, t: Tid, c: Choice)
    requires Inv(s) && Step(s, t, c).Some?
    ensures Inv(Step(s, t, c).value)
  {
    var v := Local(s.m, t, s.pc[t], c).value;
    if s.pc[t] == Starting(Spawn) {
      var s' := Step(s, t, c).value;
      SpawnKeepsLocks(s, t, c.child, s');
      SpawnKeepsTokens(s, t, c.child, s');
      SpawnKeepsStop(s, t, c.child, s');
      SpawnKeepsItems(s, t, c.child, s');
    } else {
      LocalContract(s.m, t, s.pc[t], c, v);
      KeepsInv(s, t, v, Step(s, t, c).value);
    }
  }

  /** Every run keeps the invariant. */
  lemma {:induction false} RunKeepsInv(s: State, evs: seq<Event>)
    requires Inv(s) && RunFrom(s, evs).Some?
    ensures Inv(RunFrom(s, evs).value)
    decreases |evs|
  {
    if evs != [] {
      StepKeepsInv(s, evs[0].t, evs[0].c);
      RunKeepsInv(Step(s, evs[0].t, evs[0].c).value, evs[1..]);
    }
  }

  /** Reached from a new queue by some schedule of any threads. */
  ghost predicate Reachable(s: State) {
    exists init, evs :: Init(init) && RunFrom(init, evs) == Some(s)
  }

  lemma ReachableInv(s: State)
    requires Reachable(s)
    ensures Inv(s)
  {
    var init, evs :| Init(init) && RunFrom(init, evs) == Some(s);
    InitInv(init);
    RunKeepsInv(init, evs);
  }
}
