/** Shutdown of the callback queue: once stop is requested the consumer can always reach its end, and
    is there after a bounded number of its own steps. */
module RubyQueueShutdown {
  import opened Common
  import opened RubyQueue
  import opened RubyQueueInvariant
  import opened RubyQueueTheorems
  import opened RubyQueueRuns

  /** After as many own steps as are left, the consumer has exited: nothing that the other threads do
      between them can add to its way. */
  lemma ExitedAfterStepsLeft(s: State, t: Tid, evs: seq<Event>)
    requires s.m.stopping && t in s.pc && s.pc[t].Looping? && RunFrom(s, evs).Some?
    requires StepsOf(t, evs) >= StepsLeft(s.pc[t].at)
    ensures t in RunFrom(s, evs).value.pc && RunFrom(s, evs).value.pc[t] == Looping(Done)
  {
    ConsumerStepsBounded(s, t, evs);
  }

  /** `n` steps of thread `u` as a schedule. */
  lemma AloneSteps(s: State, u: Tid, n: nat) returns (evs: seq<Event>)
    requires u in s.pc && LocalRun(s.m, u, s.pc[u], n).Some?
    ensures var v := LocalRun(s.m, u, s.pc[u], n).value;
            RunFrom(s, evs) == Some(State(v.m, s.pc[u := v.pc]))
  {
    evs := Steps(u, n);
    assert s == State(s.m, s.pc[u := s.pc[u]]);
    LocalRunIsRun(s.m, s.pc, u, s.pc[u], n);
  }

  lemma OneStep(s: State, t: Tid) returns (evs: seq<Event>)
    requires Step(s, t, Go).Some?
    ensures RunFrom(s, evs) == Step(s, t, Go)
  {
    evs := [Event(t, Go)];
    assert evs[1..] == [];
  }

  /** The memory after an observer's last look. */
  function ObserverLeft(m: Memory, u: Tid, p: AskPC): Memory {
    m.(running := m.running && !p.Clear?, runShared := m.runShared - {u})
  }

  /** An observer that holds the run mutex lets go of it. */
  lemma ObserverLeaves(s: State, u: Tid) returns (evs: seq<Event>)
    requires u in s.pc && HoldsRunShared(s.pc[u])
    ensures var p := s.pc[u].ask;
            RunFrom(s, evs) == Some(State(ObserverLeft(s.m, u, p), s.pc[u := Asking(Result(p.who, false))]))
  {
    var who := s.pc[u].ask.who;
    if s.pc[u].ask.Clear? {
      var m1 := s.m.(running := false);
      assert LocalRun(m1, u, Asking(AskPC.Unlock(who)), 1).Some?;
      evs := AloneSteps(s, u, 2);
    } else {
      evs := AloneSteps(s, u, 1);
    }
  }

  /** The memory after a pusher's critical section. */
  function PusherLeft(m: Memory, p: PushPC): Memory {
    if p.Append? then
      var e := Entry(|m.pushed|, p.fn);
      m.(q := m.q + [e], pushed := m.pushed + [e], mtx := None)
    else m.(mtx := None)
  }

  /** A pusher that holds the queue mutex lets go of it. */
  lemma PusherLeaves(s: State, u: Tid) returns (evs: seq<Event>)
    requires u in s.pc && s.pc[u].Pushing? && HoldsMtx(s.pc[u])
    ensures RunFrom(s, evs) == Some(State(PusherLeft(s.m, s.pc[u].push), s.pc[u := Pushing(PushPC.Release)]))
  {
    if s.pc[u].push.Append? {
      var v := Local(s.m, u, s.pc[u], Go).value;
      assert LocalRun(v.m, u, v.pc, 1) == Some(Move(Pushing(PushPC.Release), v.m.(mtx := None)));
      evs := AloneSteps(s, u, 2);
    } else {
      evs := AloneSteps(s, u, 1);
    }
  }

  /** What stands between the consumer and its exit: own steps, observers and a pusher to wait for,
      and the stop token's release. */
  function Remaining(s: State, t: Tid): nat
    requires t in s.pc && s.pc[t].Looping?
  {
    var locks := |s.m.runShared| + (if s.m.mtx.Some? then 1 else 0) + (if s.m.stopReleased then 0 else 1);
    if s.pc[t].at.Done? then 0 else locks
  }

  /** Threads that are in no operation stay where they are. */
  predicate RestingStay(s: State, s': State) {
    forall u :: u in s.pc && Resting(s.pc[u]) ==> u in s'.pc && s'.pc[u] == s.pc[u]
  }

  predicate Nearer(s: State, t: Tid, s': State)
    requires t in s.pc && s.pc[t].Looping?
  {
    && RestingStay(s, s')
    && s'.m.stopping && t in s'.pc && s'.pc[t].Looping?
    && StepsLeft(s'.pc[t].at) <= StepsLeft(s.pc[t].at)
    && (StepsLeft(s'.pc[t].at) == StepsLeft(s.pc[t].at) ==> Remaining(s', t) < Remaining(s, t))
  }

  /** While the consumer has not exited, something that brings the exit nearer is enabled: the stop
      token's release, a step of its own, or the departure of a thread it waits for. */
  lemma GetsNearer(s: State, t: Tid) returns (evs: seq<Event>)
    requires Reachable(s) && s.m.stopping && t in s.pc && s.pc[t].Looping? && !s.pc[t].at.Done?
    ensures RunFrom(s, evs).Some? && Nearer(s, t, RunFrom(s, evs).value)
  {
    if !s.m.stopReleased {
      StopReleasePending(s);
      var u :| u in s.pc && IsRelease(s.pc[u]) && Step(s, u, Go).Some?;
      evs := OneStep(s, u);
    } else if Step(s, t, Go).Some? {
      ConsumerStepCounts(s.m, t, s.pc[t].at);
      FlagStays(s.m, t, s.pc[t], Go);
      evs := OneStep(s, t);
    } else {
      ConsumerNotStuck(s, t);
      evs := HolderGivesWay(s, t);
    }
  }

  lemma PusherGivesWay(s: State, t: Tid) returns (evs: seq<Event>)
    requires s.m.stopping && t in s.pc && WaitsForPusher(s, t) && MutexOwned(s)
    ensures RunFrom(s, evs).Some? && Nearer(s, t, RunFrom(s, evs).value)
  {
    hide Step;
    evs := PusherLeaves(s, s.m.mtx.value);
  }

  lemma ObserverGivesWay(s: State, t: Tid) returns (evs: seq<Event>)
    requires s.m.stopping && t in s.pc && WaitsForObservers(s, t) && RunLockOwned(s)
    ensures RunFrom(s, evs).Some? && Nearer(s, t, RunFrom(s, evs).value)
  {
    hide Step;
    var u :| u in s.m.runShared;
    evs := ObserverLeaves(s, u);
  }

  lemma HolderGivesWay(s: State, t: Tid) returns (evs: seq<Event>)
    requires Reachable(s) && s.m.stopping && t in s.pc && s.pc[t].Looping? && !s.pc[t].at.Done?
    requires WaitsForPusher(s, t) || WaitsForObservers(s, t)
    ensures RunFrom(s, evs).Some? && Nearer(s, t, RunFrom(s, evs).value)
  {
    ReachableInv(s);
    if WaitsForPusher(s, t) {
      evs := PusherGivesWay(s, t);
    } else {
      evs := ObserverGivesWay(s, t);
    }
  }

  /** From every reachable state in which stop has been requested, some schedule takes the consumer to
      its end. No state is a dead end for the shutdown. */
  lemma {:induction false} ConsumerCanExit(s: State, t: Tid) returns (evs: seq<Event>)
    requires Reachable(s) && s.m.stopping && t in s.pc && s.pc[t].Looping?
    ensures RunFrom(s, evs).Some?
    ensures var s' := RunFrom(s, evs).value;
            t in s'.pc && s'.pc[t] == Looping(Done) && s'.m.stopping && RestingStay(s, s')
    decreases StepsLeft(s.pc[t].at), Remaining(s, t)
  {
    if s.pc[t].at.Done? {
      evs := [];
    } else {
      var first := GetsNearer(s, t);
      ReachableAfter(s, first);
      var rest := ConsumerCanExit(RunFrom(s, first).value, t);
      RunFromConcat(s, first, rest);
      evs := first + rest;
    }
  }
}
