/** What the callback queue guarantees on every run. */
module RubyQueueTheorems {
  import opened Common
  import opened RubyQueue
  import opened RubyQueueInvariant

  // ----- quiescence

  /** A quiet state stays quiet, and nothing starts in it. */
  lemma QuietStep(s: State, t: Tid, c: Choice)
    requires Inv(s) && Quiet(s) && Step(s, t, c).Some?
    ensures Quiet(Step(s, t, c).value)
    ensures Step(s, t, c).value.m.started == s.m.started
  {
    var v := Local(s.m, t, s.pc[t], c).value;
    LocalContract(s.m, t, s.pc[t], c, v);
  }

  lemma {:induction false} QuietForever(s: State, evs: seq<Event>)
    requires Inv(s) && Quiet(s) && RunFrom(s, evs).Some?
    ensures Quiet(RunFrom(s, evs).value)
    ensures RunFrom(s, evs).value.m.started == s.m.started
    decreases |evs|
  {
    if evs != [] {
      StepKeepsInv(s, evs[0].t, evs[0].c);
      QuietStep(s, evs[0].t, evs[0].c);
      QuietForever(Step(s, evs[0].t, evs[0].c).value, evs[1..]);
    }
  }

  /** Once `stopped` has answered true, or `stop_on_exit` has returned without killing, no
      callback is executing or on its way, and none ever starts, whatever the threads do. */
  lemma Quiescence(s: State, t: Tid, evs: seq<Event>)
    requires Reachable(s) && t in s.pc && ReportsStopped(s.pc[t])
    requires RunFrom(s, evs).Some?
    ensures var s' := RunFrom(s, evs).value;
            && s'.m.started == s.m.started
            && forall u :: u in s'.pc ==> !Active(s'.pc[u])
  {
    ReachableInv(s);
    assert SawQuiet(s.pc[t]);
    QuietForever(s, evs);
  }

  lemma FlagIsAccurate(s: State)
    requires RunLockOwned(s) && RunningExact(s)
    ensures !s.m.running <==> forall u :: u in s.pc ==> !InBody(s.pc[u])
    ensures s.m.runOwner == None ==> forall u :: u in s.pc ==> !InBody(s.pc[u])
    ensures s.m.running ==> s.m.runOwner.Some?
    ensures s.m.runOwner == None <==> forall u :: u in s.pc ==> !HoldsRunExclusive(s.pc[u])
  {
  }

  /** `running` tests the flag at an instant when the flag says exactly whether a thread is in
      the loop body; and a try that does not fail spuriously gets the shared lock exactly when no thread is
      between taking and giving back the run mutex in the loop. */
  lemma RunningIsAccurate(s: State, t: Tid, who: Asker)
    requires Reachable(s) && t in s.pc && Step(s, t, Go).Some?
    ensures s.pc[t] == Asking(AskPC.Test(who)) ==>
              (Step(s, t, Go).value.pc[t] == Asking(Result(who, false))
               <==> forall u :: u in s.pc ==> !InBody(s.pc[u]))
    ensures s.pc[t] == Asking(TryLock(who)) ==>
              (Step(s, t, Go).value.pc[t] == Asking(AskPC.Clear(who))
               <==> forall u :: u in s.pc ==> !HoldsRunExclusive(s.pc[u]))
  {
    hide InBody, HoldsRunExclusive, RunLockOwned, RunningExact, Reachable;
    ReachableInv(s);
    FlagIsAccurate(s);
  }

  /** The observers' clear of _running never changes the flag. */
  lemma ObserverClearChangesNothing(s: State, t: Tid, who: Asker)
    requires Reachable(s) && t in s.pc && s.pc[t] == Asking(AskPC.Clear(who))
    ensures Step(s, t, Go).Some? && Step(s, t, Go).value.m == s.m
  {
    ReachableInv(s);
  }

  // ----- tokens

  /** Items and the stop token equal the semaphore count plus what is owed or forfeited. */
  lemma TokenInvariant(s: State)
    requires Reachable(s)
    ensures |s.m.q| + StopToken(s.m) == s.m.sem + Count(s.pc, Owing) + s.m.forfeited
    ensures s.m.sem <= |s.m.q| + StopToken(s.m)
  {
    ReachableInv(s);
  }

  lemma CountSome(pc: map<Tid, PC>, f: PC -> bool, t: Tid)
    requires t in pc && f(pc[t])
    ensures Count(pc, f) >= 1
  {
    assert t in Where(pc, f);
  }

  /** The deque is never empty where the consumer reads its back: the debug assertion holds. */
  lemma BackIsNeverEmpty(s: State, t: Tid)
    requires Reachable(s) && t in s.pc && s.pc[t].Looping? && (s.pc[t].at.Back? || s.pc[t].at.PopBack?)
    ensures s.m.q != [] && Step(s, t, Go).Some?
  {
    ReachableInv(s);
    CountSome(s.pc, Backed, t);
  }

  const SEMAPHORE_MAX := 65535

  /** A release is within the semaphore's bound while at most 65534 items are waiting. */
  lemma ReleaseMeetsBound(s: State, t: Tid)
    requires Reachable(s) && t in s.pc
    requires s.pc[t] == Pushing(PushPC.Release) || IsRelease(s.pc[t])
    requires |s.m.q| <= SEMAPHORE_MAX - 1
    ensures s.m.sem + 1 <= SEMAPHORE_MAX
    ensures Step(s, t, Go).Some? && Step(s, t, Go).value.m.sem == s.m.sem + 1
  {
    ReachableInv(s);
    if s.pc[t] == Pushing(PushPC.Release) { CountSome(s.pc, Owing, t); }
  }

  // ----- shutdown

  /** 1 when the consumer is past its second stop test with a callback still to begin. */
  function OnItsWay(s: State): nat { if exists t :: t in s.pc && Committed(s.pc[t]) then 1 else 0 }

  lemma StoppingStep(s: State, t: Tid, c: Choice)
    requires Inv(s) && s.m.stopping && Step(s, t, c).Some?
    ensures var s' := Step(s, t, c).value;
            s'.m.stopping && |s'.m.started| + OnItsWay(s') <= |s.m.started| + OnItsWay(s)
  {
    var v := Local(s.m, t, s.pc[t], c).value;
    LocalContract(s.m, t, s.pc[t], c, v);
    StoppingMove(s, t, v, Step(s, t, c).value);
  }

  lemma StoppingMove(s: State, t: Tid, v: Move, s': State)
    requires OneConsumer(s) && s.m.stopping && t in s.pc && t in s'.pc
    requires s'.m == v.m && s'.pc[t] == v.pc && StartedMove(s.m, s.pc[t], v)
    requires forall u :: u in s'.pc && u != t ==> (u in s.pc && s'.pc[u] == s.pc[u]) || !Committed(s'.pc[u])
    ensures |s'.m.started| + OnItsWay(s') <= |s.m.started| + OnItsWay(s)
  {
    if u :| u in s'.pc && Committed(s'.pc[u]) {
      assert u in s.pc && Committed(s.pc[u]);
    }
  }

  lemma {:induction false} StartsAfterStop(s: State, evs: seq<Event>)
    requires Inv(s) && s.m.stopping && RunFrom(s, evs).Some?
    ensures var s' := RunFrom(s, evs).value;
            |s'.m.started| + OnItsWay(s') <= |s.m.started| + OnItsWay(s)
    decreases |evs|
  {
    if evs != [] {
      StepKeepsInv(s, evs[0].t, evs[0].c);
      StoppingStep(s, evs[0].t, evs[0].c);
      StartsAfterStop(Step(s, evs[0].t, evs[0].c).value, evs[1..]);
    }
  }

  /** After the stop flag is set at most one further callback starts, on any run. */
  lemma AtMostOneMoreStart(s: State, evs: seq<Event>)
    requires Reachable(s) && s.m.stopping && RunFrom(s, evs).Some?
    ensures |RunFrom(s, evs).value.m.started| <= |s.m.started| + 1
  {
    ReachableInv(s);
    StartsAfterStop(s, evs);
  }

  /** After stop's release the consumer is never blocked at acquire. */
  lemma AcquireNeverBlocks(s: State, t: Tid)
    requires Reachable(s) && s.m.stopReleased && t in s.pc && s.pc[t] == Looping(Acquire)
    ensures s.m.sem > 0 && Step(s, t, Go).Some?
  {
    ReachableInv(s);
    assert Where(s.pc, Owing) == Where(s.pc, Backed);
  }

  /** The release is due: while the flag is set and the token is not out, one thread can release it. */
  lemma StopReleasePending(s: State)
    requires Reachable(s) && s.m.stopping && !s.m.stopReleased
    ensures exists t :: t in s.pc && IsRelease(s.pc[t]) && Step(s, t, Go).Some?
  {
    ReachableInv(s);
    var t :| t in s.pc && IsRelease(s.pc[t]);
    assert Step(s, t, Go).Some?;
  }

  /** The consumer can step, or a holder of the lock it waits for can. */
  lemma ConsumerNotStuck(s: State, t: Tid)
    requires Reachable(s) && s.m.stopReleased && t in s.pc && s.pc[t].Looping? && !s.pc[t].at.Done?
    ensures Step(s, t, Go).Some? || WaitsForPusher(s, t) || WaitsForObservers(s, t)
  {
    ReachableInv(s);
    match s.pc[t].at
    case Acquire => AcquireNeverBlocks(s, t);
    case Back => BackIsNeverEmpty(s, t);
    case PopBack(_) => BackIsNeverEmpty(s, t);
    case QLock => if s.m.mtx.Some? { MutexHolderCanStep(s, t); }
    case Lock =>
    case _ =>
  }

  /** The consumer waits for the queue mutex, whose holder is a pusher that can step. */
  ghost predicate WaitsForPusher(s: State, t: Tid) {
    && t in s.pc && s.pc[t] == Looping(QLock)
    && s.m.mtx.Some? && s.m.mtx.value in s.pc && s.m.mtx.value != t
    && s.pc[s.m.mtx.value].Pushing? && Step(s, s.m.mtx.value, Go).Some?
  }

  /** The consumer waits for the run mutex, whose holders are observers that can step. */
  ghost predicate WaitsForObservers(s: State, t: Tid) {
    && t in s.pc && s.pc[t] == Looping(LoopPC.Lock) && s.m.runShared != {}
    && forall u :: u in s.m.runShared ==> u in s.pc && s.pc[u].Asking? && Step(s, u, Go).Some?
  }

  lemma MutexHolderCanStep(s: State, t: Tid)
    requires OneConsumer(s) && MutexOwned(s) && s.m.mtx.Some? && t in s.pc && s.pc[t] == Looping(QLock)
    ensures WaitsForPusher(s, t)
  {
  }

  /** How many steps the consumer has left once the stop flag is set. */
  function StepsLeft(p: LoopPC): nat {
    match p
    case Done => 0
    case Unlock => 1
    case Clear => 2
    case Test => 3
    case Retest => 3
    case Acquire => 4
    case SetRunning => 4
    case Callback(_) => 4
    case Lock => 5
    case Gvl(_) => 5
    case QUnlock(_) => 6
    case PopBack(_) => 7
    case Back => 8
    case QLock => 9
  }

  /** The number of steps thread `t` takes in a schedule. */
  function StepsOf(t: Tid, evs: seq<Event>): nat {
    if evs == [] then 0 else (if evs[0].t == t then 1 else 0) + StepsOf(t, evs[1..])
  }

  lemma {:induction false} ConsumerStepsBounded(s: State, t: Tid, evs: seq<Event>)
    requires s.m.stopping && t in s.pc && s.pc[t].Looping? && RunFrom(s, evs).Some?
    ensures var s' := RunFrom(s, evs).value;
            && t in s'.pc && s'.pc[t].Looping?
            && StepsOf(t, evs) + StepsLeft(s'.pc[t].at) <= StepsLeft(s.pc[t].at)
    decreases |evs|
  {
    if evs != [] {
      var s1 := Step(s, evs[0].t, evs[0].c).value;
      FlagStays(s.m, evs[0].t, s.pc[evs[0].t], evs[0].c);
      if evs[0].t == t { ConsumerStepCounts(s.m, t, s.pc[t].at); }
      ConsumerStepsBounded(s1, t, evs[1..]);
    }
  }

  lemma FlagStays(m: Memory, t: Tid, p: PC, c: Choice)
    requires Local(m, t, p, c).Some? && m.stopping
    ensures Local(m, t, p, c).value.m.stopping
  {
  }

  lemma ConsumerStepCounts(m: Memory, t: Tid, p: LoopPC)
    requires m.stopping && LoopStep(m, t, p).Some?
    ensures var v := LoopStep(m, t, p).value;
            v.pc.Looping? && StepsLeft(v.pc.at) < StepsLeft(p)
  {
  }

  /** Once the stop flag is set the consumer takes at most nine more steps, on any run. */
  lemma ConsumerExitsSoon(s: State, t: Tid, evs: seq<Event>)
    requires s.m.stopping && t in s.pc && s.pc[t].Looping? && RunFrom(s, evs).Some?
    ensures StepsOf(t, evs) <= 9
  {
    ConsumerStepsBounded(s, t, evs);
  }

  // ----- exactly once, and in which order

  /** What the consumer has popped and not begun: nothing or one item. */
  ghost function Hand(s: State): seq<Entry> {
    if exists t :: t in s.pc && InHand(s.pc[t])
    then var t :| t in s.pc && InHand(s.pc[t]); HandOf(s.pc[t])
    else []
  }

  lemma PoppedIsStartedAndHand(s: State)
    requires OneConsumer(s) && InHandAccount(s)
    ensures s.m.popped == s.m.started + Hand(s)
  {
    if t :| t in s.pc && Loopish(s.pc[t]) {
      if u :| u in s.pc && InHand(s.pc[u]) {
        assert t == u;
      }
    }
  }

  /** Pushed items are the disjoint union of begun, in hand and still queued. */
  lemma ItemsPartition(s: State)
    requires Reachable(s)
    ensures multiset(s.m.pushed) == multiset(s.m.started) + multiset(Hand(s)) + multiset(s.m.q)
    ensures |Hand(s)| <= 1
  {
    ReachableInv(s);
    PoppedIsStartedAndHand(s);
  }

  /** No push starts two callbacks. */
  lemma StartedAtMostOnce(s: State, i: nat, j: nat)
    requires Reachable(s) && i < j < |s.m.started|
    ensures s.m.started[i].ticket != s.m.started[j].ticket
    ensures s.m.started[i] in s.m.pushed
  {
    ReachableInv(s);
    ItemsPartition(s);
    var e, d := s.m.started[i], s.m.started[j];
    assert e in multiset(s.m.pushed) && d in multiset(s.m.pushed) by {
      assert e in multiset(s.m.started) && d in multiset(s.m.started);
    }
    if e.ticket == d.ticket {
      var k :| 0 <= k < |s.m.pushed| && s.m.pushed[k] == e;
      var l :| 0 <= l < |s.m.pushed| && s.m.pushed[l] == d;
      TwiceIn(s.m.started, i, j);
      OnceIn(s.m.pushed, k);
    }
  }

  lemma TwiceIn<T>(s: seq<T>, i: nat, j: nat)
    requires i < j < |s| && s[i] == s[j]
    ensures multiset(s)[s[i]] >= 2
  {
    assert s == s[..j] + [s[j]] + s[j + 1..];
    assert s[i] in s[..j];
    assert multiset(s) == multiset(s[..j]) + multiset{s[j]} + multiset(s[j + 1..]);
  }

  lemma OnceIn(s: seq<Entry>, k: nat)
    requires k < |s| && forall i :: 0 <= i < |s| ==> s[i].ticket == i
    ensures multiset(s)[s[k]] == 1
  {
    assert s == s[..k] + [s[k]] + s[k + 1..];
    assert s[k] !in s[..k] && s[k] !in s[k + 1..];
    assert multiset(s) == multiset(s[..k]) + multiset{s[k]} + multiset(s[k + 1..]);
  }

  /** Each pop takes the newest waiting item. */
  lemma PopTakesNewest(s: State, t: Tid)
    requires Reachable(s) && t in s.pc && s.pc[t].Looping? && s.pc[t].at.PopBack?
    ensures var e := s.pc[t].at.entry;
            && e in s.m.q
            && (forall x :: x in s.m.q ==> x.ticket <= e.ticket)
            && Step(s, t, Go).Some?
            && multiset(Step(s, t, Go).value.m.q) == multiset(s.m.q) - multiset{e}
  {
    ReachableInv(s);
    assert EntryFits(s.m, s.pc[t]);
    var n := |s.m.q| - 1;
    assert s.m.q == s.m.q[..n] + [s.m.q[n]];
  }

  /** Up to each pop the order was the push order exactly when every pop so far saw a single item. */
  ghost predicate FifoPrefixes(m: Memory) {
    && |m.depths| == |m.popped|
    && forall k :: 0 <= k <= |m.popped| ==> (m.popped[..k] <= m.pushed <==> AllOnes(m.depths[..k]))
  }

  lemma FifoPrefixesAppend(m: Memory, m': Memory)
    requires Ordered(m) && FifoPrefixes(m) && Appends(m, m')
    ensures FifoPrefixes(m')
  {
    NoLongerThanPushed(m);
    forall k | 0 <= k <= |m.popped| ensures m'.popped[..k] <= m'.pushed <==> m.popped[..k] <= m.pushed {
      assert m'.pushed[..k] == m.pushed[..k];
    }
  }

  lemma FifoPrefixesPop(m: Memory, m': Memory)
    requires Ordered(m') && FifoPrefixes(m) && Pops(m, m')
    ensures FifoPrefixes(m')
  {
    forall k | 0 <= k <= |m'.popped| ensures m'.popped[..k] <= m'.pushed <==> AllOnes(m'.depths[..k]) {
      if k < |m'.popped| {
        assert m'.popped[..k] == m.popped[..k] && m'.depths[..k] == m.depths[..k];
      } else {
        assert m'.popped[..k] == m'.popped && m'.depths[..k] == m'.depths;
        WholeIsFifo(m');
      }
    }
  }

  lemma WholeIsFifo(m: Memory)
    requires Ordered(m)
    ensures m.popped <= m.pushed <==> AllOnes(m.depths)
  {
  }

  lemma FifoPrefixesStep(s: State, t: Tid, c: Choice)
    requires Inv(s) && FifoPrefixes(s.m) && Step(s, t, c).Some?
    ensures FifoPrefixes(Step(s, t, c).value.m)
  {
    hide FifoPrefixes, LockContract;
    var v := Local(s.m, t, s.pc[t], c).value;
    LocalContract(s.m, t, s.pc[t], c, v);
    StepKeepsInv(s, t, c);
    if Appends(s.m, v.m) {
      FifoPrefixesAppend(s.m, v.m);
    } else if Pops(s.m, v.m) {
      FifoPrefixesPop(s.m, v.m);
    } else {
      FifoPrefixesSame(s.m, v.m);
    }
  }

  lemma FifoPrefixesSame(m: Memory, m': Memory)
    requires FifoPrefixes(m) && SameItems(m, m')
    ensures FifoPrefixes(m')
  {
  }

  lemma {:induction false} FifoPrefixesRun(s: State, evs: seq<Event>)
    requires Inv(s) && FifoPrefixes(s.m) && RunFrom(s, evs).Some?
    ensures FifoPrefixes(RunFrom(s, evs).value.m)
    decreases |evs|
  {
    hide Inv, FifoPrefixes, Step;
    if evs != [] {
      StepKeepsInv(s, evs[0].t, evs[0].c);
      FifoPrefixesStep(s, evs[0].t, evs[0].c);
      FifoPrefixesRun(Step(s, evs[0].t, evs[0].c).value, evs[1..]);
    }
  }

  /** Pops follow the push order exactly when every pop saw a single waiting item, and so do the callbacks
      that have begun, exactly when every pop of theirs did. */
  lemma FifoExactly(s: State)
    requires Reachable(s)
    ensures s.m.popped <= s.m.pushed <==> AllOnes(s.m.depths)
    ensures |s.m.started| <= |s.m.depths|
    ensures s.m.started <= s.m.pushed <==> AllOnes(s.m.depths[..|s.m.started|])
  {
    ReachableInv(s);
    WholeIsFifo(s.m);
    var init, evs :| Init(init) && RunFrom(init, evs) == Some(s);
    InitInv(init);
    FifoPrefixesRun(init, evs);
    PoppedIsStartedAndHand(s);
    assert s.m.popped[..|s.m.started|] == s.m.started;
  }
}
