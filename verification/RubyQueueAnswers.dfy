/** What the queries answer when nothing disturbs them, and that a stopped queue can always be seen. */
module RubyQueueAnswers {
  import opened Common
  import opened RubyQueue
  import opened RubyQueueInvariant
  import opened RubyQueueTheorems
  import opened RubyQueueRuns
  import opened RubyQueueShutdown

  predicate NobodyInLoop(s: State) { forall u :: u in s.pc ==> !InBody(s.pc[u]) }

  /** The state once thread `t` has the answer, with the memory as it was. */
  function Answered(s: State, t: Tid, who: Asker, value: bool): State
    requires t in s.pc
  {
    State(s.m, s.pc[t := Answer(who, value)])
  }

  /** The steps of `running`: its test, and the try if the flag is set. */
  lemma AskLocally(s: State, t: Tid, who: Asker) returns (n: nat)
    requires Inv(s)
    ensures LocalRun(s.m, t, Asking(AskPC.Test(who)), n)
         == Some(Move(AfterRunning(who, !NobodyInLoop(s), false), s.m))
  {
    hide Inv, InBody, LocalRun;
    InvFlag(s);
    n := FlagLocally(s.m, t, who);
  }

  lemma InvFlag(s: State)
    requires Inv(s)
    ensures (s.m.running <==> !NobodyInLoop(s)) && (s.m.running ==> s.m.runOwner.Some?)
  {
    FlagIsAccurate(s);
  }

  lemma FlagLocally(m: Memory, t: Tid, who: Asker) returns (n: nat)
    requires m.running ==> m.runOwner.Some?
    ensures LocalRun(m, t, Asking(AskPC.Test(who)), n) == Some(Move(AfterRunning(who, m.running, false), m))
  {
    var value := m.running;
    var v := Move(AfterRunning(who, value, false), m);
    assert LocalRun(m, t, Asking(Result(who, value)), 1) == Some(v);
    if value {
      assert LocalRun(m, t, Asking(TryLock(who)), 2) == Some(v);
      assert LocalRun(m, t, Asking(AskPC.Test(who)), 3) == Some(v);
      n := 3;
    } else {
      assert LocalRun(m, t, Asking(AskPC.Test(who)), 2) == Some(v);
      n := 2;
    }
  }

  /** Undisturbed, `running` answers whether a thread is in the loop body, and changes nothing. */
  lemma RunningAlone(s: State, t: Tid) returns (evs: seq<Event>)
    requires Reachable(s) && t in s.pc && Resting(s.pc[t])
    ensures RunFrom(s, evs) == Some(Answered(s, t, AskRunning, exists u :: u in s.pc && InBody(s.pc[u])))
  {
    ReachableInv(s);
    var n := AskLocally(s, t, AskRunning);
    evs := CallAlone(t, Asking(AskPC.Test(AskRunning)), n);
    CallAloneRun(s, t, Asking(AskPC.Test(AskRunning)), n);
  }

  /** Undisturbed, `stopped` answers true exactly when stop has been requested and no thread is in the
      loop body, and changes nothing. */
  lemma StoppedAlone(s: State, t: Tid) returns (evs: seq<Event>)
    requires Reachable(s) && t in s.pc && Resting(s.pc[t])
    ensures RunFrom(s, evs) == Some(Answered(s, t, AskStopped,
      s.m.stopping && forall u :: u in s.pc ==> !InBody(s.pc[u])))
  {
    hide Inv, InBody, Reachable, Step, RunFrom;
    ReachableInv(s);
    var n := 0;
    if s.m.stopping { n := AskLocally(s, t, AskStopped); }
    StopTestLocally(s.m, t, n);
    CallAloneRun(s, t, Asking(StopTest(AskStopped)), n + 1);
    evs := CallAlone(t, Asking(StopTest(AskStopped)), n + 1);
  }

  lemma StopTestLocally(m: Memory, t: Tid, n: nat)
    requires m.stopping || n == 0
    ensures LocalRun(m, t, Asking(StopTest(AskStopped)), n + 1)
         == if m.stopping then LocalRun(m, t, Asking(AskPC.Test(AskStopped)), n) else Some(Move(Answer(AskStopped, false), m))
  {
    if !m.stopping {
      assert LocalRun(m, t, Answer(AskStopped, false), 0) == Some(Move(Answer(AskStopped, false), m));
    }
  }

  /** The memory after the stop inside `stop_on_exit`. */
  function Stopped(m: Memory): Memory {
    if m.stopping then m else m.(stopping := true, sem := m.sem + 1, stopReleased := true)
  }

  lemma StopLocally(m: Memory, t: Tid, caller: Stopper) returns (n: nat)
    ensures LocalRun(m, t, Stopping(StopPC.Set(caller)), n) == Some(Move(AfterStop(caller), Stopped(m)))
  {
    if m.stopping {
      assert LocalRun(m, t, AfterStop(caller), 0) == Some(Move(AfterStop(caller), m));
      n := 1;
    } else {
      var m1 := m.(stopping := true);
      assert LocalRun(m1, t, Stopping(StopPC.Release(caller)), 1) == Some(Move(AfterStop(caller), Stopped(m)));
      n := 2;
    }
  }

  /** The check of `stop_on_exit`, once the stop flag is set. */
  lemma ExitCheckAlone(s: State, t: Tid) returns (evs: seq<Event>)
    requires Inv(s) && t in s.pc && s.pc[t] == Asking(StopTest(AskExit)) && s.m.stopping
    ensures RunFrom(s, evs) == Some(State(s.m, s.pc[t := AfterRunning(AskExit, !NobodyInLoop(s), false)]))
  {
    var n := AskLocally(s, t, AskExit);
    assert LocalRun(s.m, t, s.pc[t], n + 1) == LocalRun(s.m, t, Asking(AskPC.Test(AskExit)), n);
    evs := AloneSteps(s, t, n + 1);
  }

  lemma ExitStopAlone(s: State, t: Tid) returns (evs: seq<Event>)
    requires t in s.pc && Resting(s.pc[t])
    ensures RunFrom(s, evs) == Some(State(Stopped(s.m), s.pc[t := Asking(StopTest(AskExit))]))
  {
    var n := StopLocally(s.m, t, AtExit);
    CallAloneRun(s, t, Stopping(StopPC.Set(AtExit)), n);
    evs := CallAlone(t, Stopping(StopPC.Set(AtExit)), n);
  }

  /** Undisturbed, `stop_on_exit` requests the stop, and its first check returns exactly when no thread is
      in the loop body; otherwise it goes on to wait. */
  lemma ExitAlone(s: State, t: Tid) returns (evs: seq<Event>)
    requires Reachable(s) && t in s.pc && Resting(s.pc[t])
    ensures RunFrom(s, evs) == Some(State(Stopped(s.m), s.pc[t :=
      if forall u :: u in s.pc ==> !InBody(s.pc[u]) then ExitReturned else Asking(AskPC.Test(AskExitPoll))]))
  {
    hide Inv, Step, RunFrom, InBody, Reachable;
    var first := ExitStopAlone(s, t);
    var s1 := RunFrom(s, first).value;
    ReachableAfter(s, first);
    ReachableInv(s1);
    InBodyElsewhere(s, t, s1);
    var rest := ExitCheckAlone(s1, t);
    RunFromConcat(s, first, rest);
    var p := AfterRunning(AskExit, !NobodyInLoop(s1), false);
    assert s.pc[t := Asking(StopTest(AskExit))][t := p] == s.pc[t := p];
    evs := first + rest;
  }

  lemma InBodyElsewhere(s: State, t: Tid, s1: State)
    requires t in s.pc && Resting(s.pc[t]) && s1.pc == s.pc[t := Asking(StopTest(AskExit))]
    ensures NobodyInLoop(s1) <==> NobodyInLoop(s)
  {
    assert forall u :: u in s.pc && u != t ==> u in s1.pc && s1.pc[u] == s.pc[u];
  }

  /** From every reachable state in which stop has been requested, some schedule takes the consumer to its
      end and gives a resting thread the answer that the queue is stopped. */
  lemma StoppedCanBeSeen(s: State, t: Tid, u: Tid) returns (evs: seq<Event>)
    requires Reachable(s) && s.m.stopping && t in s.pc && s.pc[t].Looping?
    requires u in s.pc && Resting(s.pc[u])
    ensures RunFrom(s, evs).Some?
    ensures var s' := RunFrom(s, evs).value;
            t in s'.pc && s'.pc[t] == Looping(Done) && u in s'.pc && s'.pc[u] == Answer(AskStopped, true)
  {
    var first := ConsumerCanExit(s, t);
    var s1 := RunFrom(s, first).value;
    ReachableAfter(s, first);
    ReachableInv(s1);
    var rest := StoppedAlone(s1, u);
    RunFromConcat(s, first, rest);
    evs := first + rest;
  }
}
