/** Items pushed after stop: exactly when one of them can still start. */
module RubyQueueLate {
  import opened Common
  import opened RubyQueue
  import opened RubyQueueInvariant
  import opened RubyQueueTheorems
  import opened RubyQueueRuns
  import opened RubyQueueShutdown
  import opened QueueShares

  /** The consumer is past its second stop test and has not looked at the deque. */
  ghost predicate Claiming(s: State) { exists u :: u in s.pc && s.pc[u] == Looping(QLock) }

  /** Some item from position `n` of the push order on has started. */
  ghost predicate StartedFrom(m: Memory, n: nat) {
    exists i :: 0 <= i < |m.started| && m.started[i].ticket >= n
  }

  // ----- none starts

  /** What a thread at `p` has in hand was pushed before position `n`, and it claims nothing new. */
  predicate OldInHand(m: Memory, p: PC, n: nat) {
    p.Looping? ==>
      match p.at
      case QLock => false
      case Back => m.q != [] ==> m.q[|m.q| - 1].ticket < n
      case PopBack(e) => e.ticket < n
      case QUnlock(e) => e.ticket < n
      case Gvl(e) => e.ticket < n
      case _ => true
  }

  ghost predicate OnlyOld(s: State, n: nat) {
    && s.m.stopping && !StartedFrom(s.m, n)
    && forall t :: t in s.pc ==> OldInHand(s.m, s.pc[t], n)
  }

  lemma LoopKeepsOld(m: Memory, t: Tid, p: LoopPC, v: Move, n: nat)
    requires m.stopping && OldInHand(m, Looping(p), n) && LoopStep(m, t, p) == Some(v)
    ensures OldInHand(v.m, v.pc, n)
    ensures v.m.started == m.started || (p.Gvl? && v.m.started == m.started + [p.entry] && p.entry.ticket < n)
  {
  }

  lemma LocalKeepsOld(m: Memory, t: Tid, p: PC, c: Choice, v: Move, n: nat)
    requires m.stopping && OldInHand(m, p, n) && Local(m, t, p, c) == Some(v)
    requires p.Looping? || v.m.started == m.started
    ensures OldInHand(v.m, v.pc, n)
    ensures StartedFrom(v.m, n) ==> StartedFrom(m, n)
  {
    match p
    case Looping(pp) =>
      LoopKeepsOld(m, t, pp, v, n);
      assert forall i :: 0 <= i < |m.started| ==> v.m.started[i] == m.started[i];
    case Pushing(_) =>
    case _ =>
  }

  lemma OnlyOldStep(s: State, t: Tid, c: Choice, n: nat)
    requires Inv(s) && OnlyOld(s, n) && Step(s, t, c).Some?
    ensures OnlyOld(Step(s, t, c).value, n)
  {
    var p := s.pc[t];
    var v := Local(s.m, t, p, c).value;
    LocalContract(s.m, t, p, c, v);
    LocalKeepsOld(s.m, t, p, c, v, n);
    OnlyOldMove(s, t, v, Step(s, t, c).value, n);
  }

  lemma OnlyOldMove(s: State, t: Tid, v: Move, s': State, n: nat)
    requires OnlyOld(s, n) && MutexOwned(s) && t in s.pc && t in s'.pc
    requires s'.m == v.m && s'.pc[t] == v.pc && v.m.stopping
    requires OldInHand(v.m, v.pc, n) && !StartedFrom(v.m, n) && ItemMove(s.m, s.pc[t], v)
    requires forall u :: u in s'.pc && u != t ==> (u in s.pc && s'.pc[u] == s.pc[u]) || s'.pc[u] == Looping(LoopPC.Lock)
    ensures OnlyOld(s', n)
  {
    forall u | u in s'.pc ensures OldInHand(s'.m, s'.pc[u], n) {
      if u != t && u in s.pc && s'.pc[u] == s.pc[u] && s.pc[u] == Looping(Back) {
        assert HoldsMtx(s.pc[u]);
        assert !HoldsMtx(s.pc[t]);
      }
    }
  }

  lemma {:induction false} OnlyOldRun(s: State, evs: seq<Event>, n: nat)
    requires Inv(s) && OnlyOld(s, n) && RunFrom(s, evs).Some?
    ensures OnlyOld(RunFrom(s, evs).value, n)
    decreases |evs|
  {
    hide Inv, OnlyOld, Step;
    if evs != [] {
      StepKeepsInv(s, evs[0].t, evs[0].c);
      OnlyOldStep(s, evs[0].t, evs[0].c, n);
      OnlyOldRun(Step(s, evs[0].t, evs[0].c).value, evs[1..], n);
    }
  }

  lemma OnlyOldNow(s: State)
    requires Inv(s) && s.m.stopping && !Claiming(s)
    ensures OnlyOld(s, |s.m.pushed|)
  {
    var n := |s.m.pushed|;
    forall i | 0 <= i < |s.m.started| ensures s.m.started[i].ticket < n { StartedWasPushed(s, i); }
    forall t | t in s.pc ensures OldInHand(s.m, s.pc[t], n) {
      if InHand(s.pc[t]) {
        PoppedWasPushed(s.m, |s.m.started|);
      } else if s.m.q != [] {
        assert s.m.q[|s.m.q| - 1] in s.m.pushed;
        assert EntryFits(s.m, s.pc[t]);
      }
    }
  }

  /** With stop requested and nobody claiming, no item pushed from now on ever starts. */
  lemma LateItemsNeverStart(s: State, evs: seq<Event>)
    requires Reachable(s) && s.m.stopping && !Claiming(s) && RunFrom(s, evs).Some?
    ensures !StartedFrom(RunFrom(s, evs).value.m, |s.m.pushed|)
  {
    ReachableInv(s);
    OnlyOldNow(s);
    OnlyOldRun(s, evs, |s.m.pushed|);
  }

  // ----- one starts

  /** A thread that will still append `fn`: any caller in a release build, and in either build a push
      that is past its test. */
  predicate MayAppend(m: Memory, p: PC, fn: Fn) {
    || ((Resting(p) || p == Pushing(PushPC.Test(fn))) && !(m.stopping && m.debug))
    || p == Pushing(PushPC.Lock(fn)) || p == Pushing(Append(fn))
  }

  function Stages(p: PC): nat {
    if Resting(p) then 4 else if p.Pushing? then
      match p.push
      case Test(_) => 3
      case Lock(_) => 2
      case _ => 1
    else 0
  }

  /** The deque's newest item is `fn`, pushed at position `n` or later; the consumer `u` waits for the
      mutex, which is free. */
  predicate LateOnTop(s: State, u: Tid, n: nat, fn: Fn) {
    && u in s.pc && s.pc[u] == Looping(QLock) && s.m.mtx == None
    && s.m.q != [] && s.m.q[|s.m.q| - 1].ticket >= n && s.m.q[|s.m.q| - 1].fn == fn
  }

  /** One event or two that bring the append nearer. */
  lemma AppendNearer(s: State, t: Tid, u: Tid, fn: Fn) returns (evs: seq<Event>)
    requires Reachable(s) && t in s.pc && MayAppend(s.m, s.pc[t], fn)
    requires u in s.pc && s.pc[u] == Looping(QLock)
    ensures RunFrom(s, evs).Some?
    ensures var s' := RunFrom(s, evs).value;
            && |s.m.pushed| <= |s'.m.pushed| && u in s'.pc && s'.pc[u] == Looping(QLock) && t in s'.pc
            && (LateOnTop(s', u, |s.m.pushed|, fn)
                || (MayAppend(s'.m, s'.pc[t], fn) && (Stages(s'.pc[t]) < Stages(s.pc[t])
                    || (Stages(s'.pc[t]) == Stages(s.pc[t]) && s.m.mtx.Some? && s'.m.mtx.None?))))
  {
    var p := s.pc[t];
    if Resting(p) {
      evs := [Event(t, Call(Pushing(PushPC.Test(fn))))];
      assert evs[1..] == [];
    } else if p.push.Append? {
      evs := PusherLeaves(s, t);
    } else if p.push.Lock? && s.m.mtx.Some? {
      ReachableInv(s);
      MutexHolderCanStep(s, u);
      evs := PusherLeaves(s, s.m.mtx.value);
    } else {
      evs := OneStep(s, t);
    }
  }

  lemma {:induction false} AppendOnTop(s: State, t: Tid, u: Tid, fn: Fn, n: nat) returns (evs: seq<Event>)
    requires Reachable(s) && t in s.pc && MayAppend(s.m, s.pc[t], fn) && n <= |s.m.pushed|
    requires u in s.pc && s.pc[u] == Looping(QLock)
    ensures RunFrom(s, evs).Some? && LateOnTop(RunFrom(s, evs).value, u, n, fn)
    decreases Stages(s.pc[t]), if s.m.mtx.Some? then 1 else 0
  {
    hide Step, Reachable;
    var first := AppendNearer(s, t, u, fn);
    var s1 := RunFrom(s, first).value;
    if LateOnTop(s1, u, |s.m.pushed|, fn) {
      evs := first;
    } else {
      ReachableAfter(s, first);
      var rest := AppendOnTop(s1, t, u, fn, n);
      RunFromConcat(s, first, rest);
      evs := first + rest;
    }
  }

  /** With a consumer claiming, what a thread may still append can start: its item is pushed behind the
      stop and is the next to run. */
  lemma LateItemStarts(s: State, t: Tid, u: Tid, fn: Fn) returns (evs: seq<Event>)
    requires Reachable(s) && t in s.pc && MayAppend(s.m, s.pc[t], fn)
    requires u in s.pc && s.pc[u] == Looping(QLock)
    ensures RunFrom(s, evs).Some?
    ensures var m' := RunFrom(s, evs).value.m;
            && m'.started != [] && m'.started[|m'.started| - 1].fn == fn
            && m'.started[|m'.started| - 1].ticket >= |s.m.pushed|
  {
    var first := AppendOnTop(s, t, u, fn, |s.m.pushed|);
    var s1 := RunFrom(s, first).value;
    PopAndCallLocally(s1.m, u);
    var rest := AloneSteps(s1, u, 6);
    RunFromConcat(s, first, rest);
    evs := first + rest;
  }

  /** From a state in which stop has been requested and some thread may still append, an item pushed from
      now on can start if and only if the consumer is past its second stop test and has not yet locked
      the deque. In a release build every caller may still append. */
  lemma LateItemCanStartExactly(s: State, t: Tid, fn: Fn)
    requires Reachable(s) && s.m.stopping && t in s.pc && MayAppend(s.m, s.pc[t], fn)
    ensures (exists evs :: RunFrom(s, evs).Some? && StartedFrom(RunFrom(s, evs).value.m, |s.m.pushed|))
       <==> Claiming(s)
  {
    if u :| u in s.pc && s.pc[u] == Looping(QLock) {
      var evs := LateItemStarts(s, t, u, fn);
      var m' := RunFrom(s, evs).value.m;
      assert m'.started[|m'.started| - 1].ticket >= |s.m.pushed|;
    }
    if evs :| RunFrom(s, evs).Some? && StartedFrom(RunFrom(s, evs).value.m, |s.m.pushed|) {
      if !Claiming(s) { LateItemsNeverStart(s, evs); }
    }
  }

  /** After stop, with nobody claiming: a debug build refuses a whole push; a release build queues an item,
      and adds a token, for a callback that never starts. */
  lemma PushAfterStop(s: State, t: Tid, fn: Fn, later: seq<Event>)
    requires Reachable(s) && s.m.stopping && !Claiming(s) && t in s.pc && Resting(s.pc[t]) && s.m.mtx == None
    ensures var evs := CallAlone(t, Pushing(PushPC.Test(fn)), if s.m.debug then 1 else 5);
            var m' := if s.m.debug then s.m else Pushed(s.m, fn);
            var s1 := State(m', s.pc[t := Idle]);
            && RunFrom(s, evs) == Some(s1)
            && (RunFrom(s1, later).Some? ==> !StartedFrom(RunFrom(s1, later).value.m, |s.m.pushed|))
  {
    var p := Pushing(PushPC.Test(fn));
    if s.m.debug {
      assert LocalRun(s.m, t, Idle, 0) == Some(Move(Idle, s.m));
      assert LocalRun(s.m, t, p, 1) == Some(Move(Idle, s.m));
      CallAloneRun(s, t, p, 1);
    } else {
      PushLocally(s.m, t, fn);
      CallAloneRun(s, t, p, 5);
    }
    var evs := CallAlone(t, p, if s.m.debug then 1 else 5);
    var s1 := RunFrom(s, evs).value;
    if RunFrom(s1, later).Some? {
      RunFromConcat(s, evs, later);
      LateItemsNeverStart(s, evs + later);
    }
  }

  /** A stop by an idle thread. */
  lemma StopReaches(s: State, t: Tid) returns (s': State)
    requires Reachable(s) && t in s.pc && s.pc[t] == Idle && !s.m.stopping
    ensures Reachable(s') && s' == State(s.m.(stopping := true, sem := s.m.sem + 1, stopReleased := true), s.pc)
  {
    var m1 := s.m.(stopping := true);
    var m2 := m1.(sem := m1.sem + 1, stopReleased := true);
    assert LocalRun(m1, t, Stopping(StopPC.Release(Client)), 1) == Some(Move(Idle, m2));
    assert LocalRun(s.m, t, Stopping(StopPC.Set(Client)), 2) == Some(Move(Idle, m2));
    CallAloneRun(s, t, Stopping(StopPC.Set(Client)), 2);
    ReachableAfter(s, CallAlone(t, Stopping(StopPC.Set(Client)), 2));
    assert s.pc[t := Idle] == s.pc;
    s' := State(m2, s.pc);
  }

  /** So it happens: in a release build two items are waiting and stop has returned; an item pushed now
      starts. */
  lemma LatePushRuns(late: Fn)
    ensures exists s, evs ::
      && Reachable(s) && !s.m.debug && s.m.stopping && s.m.stopReleased && |s.m.pushed| == 2
      && RunFrom(s, evs).Some?
      && exists e :: e in RunFrom(s, evs).value.m.started && e.fn == late && e.ticket >= 2
  {
    var s := ClaimedAndStopped();
    var evs := LateItemStarts(s, 0, 1, late);
    var m' := RunFrom(s, evs).value.m;
    assert m'.started[|m'.started| - 1] in m'.started;
  }

  lemma ClaimedAndStopped() returns (s: State)
    ensures Reachable(s) && !s.m.debug && s.m.stopping && s.m.stopReleased && |s.m.pushed| == 2
    ensures s.pc == map[0 := Idle, 1 := Looping(QLock)]
  {
    var s0 := TwoWaiting(7, 8);
    ClaimLocally(s0.m, 1);
    LocalRunReaches(s0, 1, 3);
    var s1 := State(s0.m.(sem := s0.m.sem - 1), s0.pc[1 := Looping(QLock)]);
    s := StopReaches(s1, 0);
  }
}
