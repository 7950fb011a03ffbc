/** Progress of the callback queue while stop has not been requested: no wakeup is lost, and every pushed
    item can begin. */
module RubyQueueProgress {
  import opened Common
  import opened RubyQueue
  import opened RubyQueueInvariant
  import opened RubyQueueTheorems
  import opened RubyQueueRuns
  import opened RubyQueueShutdown

  /** A consumer that waits for a token while an item waits in the deque is about to get it: a pusher
      has appended and not released, and can step. */
  lemma NoLostWakeup(s: State, t: Tid) returns (u: Tid)
    requires Reachable(s) && t in s.pc && s.pc[t] == Looping(Acquire) && s.m.sem == 0 && s.m.q != []
    ensures u in s.pc && s.pc[u].Pushing? && (s.pc[u].push.Unlock? || s.pc[u].push.Release?)
    ensures Step(s, u, Go).Some?
  {
    ReachableInv(s);
    u := SomeoneOwes(s, t);
  }

  lemma SomeoneOwes(s: State, t: Tid) returns (u: Tid)
    requires OneConsumer(s) && TokensBalance(s) && ForfeitOnce(s)
    requires t in s.pc && s.pc[t] == Looping(Acquire) && s.m.sem == 0 && s.m.q != []
    ensures u in s.pc && s.pc[u].Pushing? && (s.pc[u].push.Unlock? || s.pc[u].push.Release?)
  {
    assert Where(s.pc, Owing) != {};
    u :| u in Where(s.pc, Owing);
  }

  /** A pusher that has appended gives its token. */
  lemma PusherReleases(s: State, u: Tid) returns (evs: seq<Event>)
    requires u in s.pc && s.pc[u].Pushing? && (s.pc[u].push.Unlock? || s.pc[u].push.Release?)
    ensures RunFrom(s, evs) == Some(State(
      s.m.(sem := s.m.sem + 1, mtx := if s.pc[u].push.Unlock? then None else s.m.mtx), s.pc[u := Idle]))
  {
    if s.pc[u].push.Unlock? {
      var m1 := s.m.(mtx := None);
      assert LocalRun(m1, u, Pushing(PushPC.Release), 1) == Some(Move(Idle, m1.(sem := m1.sem + 1)));
      evs := AloneSteps(s, u, 2);
    } else {
      evs := AloneSteps(s, u, 1);
    }
  }

  /** The consumer is in its loop and has not been told to stop. */
  predicate InService(s: State, t: Tid) {
    !s.m.stopping && t in s.pc && s.pc[t].Looping? && !Leaving(s.pc[t])
  }

  /** Every pushed item has begun. */
  predicate CaughtUp(s: State, t: Tid) { t in s.pc && s.m.q == [] && !InHand(s.pc[t]) }

  // ----- what is left to do

  predicate AppendDue(s: State) {
    s.m.mtx.Some? && s.m.mtx.value in s.pc && s.pc[s.m.mtx.value].Pushing? && s.pc[s.m.mtx.value].push.Append?
  }

  /** The items waiting, and the one that is on its way into the deque. */
  function Waiting(s: State): nat { |s.m.q| + if AppendDue(s) then 1 else 0 }

  /** How many of its own steps the consumer is from its next pop. */
  function ToPop(p: LoopPC): nat {
    match p
    case PopBack(_) => 0
    case Back => 1
    case QLock => 2
    case Retest => 3
    case Acquire => 4
    case Test => 5
    case SetRunning => 6
    case Callback(_) => 6
    case Lock => 7
    case Gvl(_) => 7
    case QUnlock(_) => 8
    case _ => 9
  }

  /** What can stand in the consumer's way: observers, a pusher in the deque, a token not yet given. */
  function InTheWay(s: State): nat {
    |s.m.runShared| + (if s.m.mtx.Some? then 1 else 0) + (if s.m.sem == 0 then 1 else 0)
  }

  predicate Less(s: State, t: Tid, s': State)
    requires InService(s, t)
  {
    && InService(s', t) && s.m.pushed <= s'.m.pushed && Waiting(s') <= Waiting(s)
    && (Waiting(s') == Waiting(s) ==>
          ToPop(s'.pc[t].at) < ToPop(s.pc[t].at)
          || (s'.pc[t] == s.pc[t] && InTheWay(s') < InTheWay(s)))
  }

  /** A step of the consumer pops an item or is one step nearer to the next pop. */
  predicate LoopNearer(m: Memory, t: Tid, p: LoopPC, v: Move) {
    && v.pc.Looping? && !Leaving(v.pc) && !v.m.stopping && v.m.pushed == m.pushed
    && |v.m.q| <= |m.q| && (|v.m.q| == |m.q| ==> ToPop(v.pc.at) < ToPop(p))
    && (v.m.mtx == m.mtx || v.m.mtx == Some(t) || v.m.mtx == None)
  }

  lemma LoopStepNearer(m: Memory, t: Tid, p: LoopPC, v: Move)
    requires !m.stopping && !Leaving(Looping(p)) && LoopStep(m, t, p) == Some(v)
    ensures LoopNearer(m, t, p, v)
  {
  }

  lemma ConsumerSteps(s: State, t: Tid) returns (evs: seq<Event>)
    requires InService(s, t) && Step(s, t, Go).Some?
    ensures RunFrom(s, evs).Some? && Less(s, t, RunFrom(s, evs).value)
  {
    LoopStepNearer(s.m, t, s.pc[t].at, Local(s.m, t, s.pc[t], Go).value);
    hide LoopStep;
    evs := OneStep(s, t);
  }

  lemma HolderLeaves(s: State, t: Tid) returns (evs: seq<Event>)
    requires Reachable(s) && InService(s, t) && WaitsForPusher(s, t)
    ensures RunFrom(s, evs).Some? && Less(s, t, RunFrom(s, evs).value)
  {
    ReachableInv(s);
    evs := PusherLeaves(s, s.m.mtx.value);
  }

  lemma LookerLeaves(s: State, t: Tid) returns (evs: seq<Event>)
    requires Reachable(s) && InService(s, t) && s.pc[t] == Looping(LoopPC.Lock) && s.m.runShared != {}
    ensures RunFrom(s, evs).Some? && Less(s, t, RunFrom(s, evs).value)
  {
    ReachableInv(s);
    var u :| u in s.m.runShared;
    evs := ObserverLeaves(s, u);
  }

  lemma TokenComes(s: State, t: Tid) returns (evs: seq<Event>)
    requires Reachable(s) && InService(s, t) && s.pc[t] == Looping(Acquire) && s.m.sem == 0 && s.m.q != []
    ensures RunFrom(s, evs).Some? && Less(s, t, RunFrom(s, evs).value)
  {
    var u := NoLostWakeup(s, t);
    ReachableInv(s);
    evs := PusherReleases(s, u);
  }

  /** Short of having caught up, the consumer can step or something in its way can move out of it. */
  lemma GoesOn(s: State, t: Tid) returns (evs: seq<Event>)
    requires Reachable(s) && InService(s, t) && !CaughtUp(s, t)
    ensures RunFrom(s, evs).Some? && Less(s, t, RunFrom(s, evs).value)
  {
    if Step(s, t, Go).Some? {
      evs := ConsumerSteps(s, t);
    } else {
      ReachableInv(s);
      match s.pc[t].at
      case Lock => evs := LookerLeaves(s, t);
      case Acquire => evs := TokenComes(s, t);
      case QLock =>
        MutexHolderCanStep(s, t);
        evs := HolderLeaves(s, t);
      case Back => BackIsNeverEmpty(s, t);
      case PopBack(_) => BackIsNeverEmpty(s, t);
    }
  }

  lemma {:induction false} CatchesUp(s: State, t: Tid) returns (evs: seq<Event>)
    requires Reachable(s) && InService(s, t)
    ensures RunFrom(s, evs).Some?
    ensures var s' := RunFrom(s, evs).value;
            Reachable(s') && InService(s', t) && CaughtUp(s', t) && s.m.pushed <= s'.m.pushed
    decreases Waiting(s), ToPop(s.pc[t].at), InTheWay(s)
  {
    if CaughtUp(s, t) {
      evs := [];
    } else {
      var first := GoesOn(s, t);
      ReachableAfter(s, first);
      var rest := CatchesUp(RunFrom(s, first).value, t);
      RunFromConcat(s, first, rest);
      evs := first + rest;
    }
  }

  /** From every reachable state without a stop and with a consumer in its loop, some schedule begins every
      item that has been pushed, those pushed meanwhile included, each exactly once. */
  lemma EveryItemCanBegin(s: State, t: Tid) returns (evs: seq<Event>)
    requires Reachable(s) && InService(s, t)
    ensures RunFrom(s, evs).Some?
    ensures var m' := RunFrom(s, evs).value.m;
            s.m.pushed <= m'.pushed && multiset(m'.started) == multiset(m'.pushed)
  {
    evs := CatchesUp(s, t);
    var s' := RunFrom(s, evs).value;
    ReachableInv(s');
    assert s'.m.popped == s'.m.started + HandOf(s'.pc[t]);
  }
}
