/**
 The queue object itself: fields that the methods update in place, one method per atomic
 operation, and the source's own methods made of them. Between two operations of a thread the
 other threads run any schedule. Every method is a run of the transition system.
 */
module RubyQueueObject {
  import opened Common
  import Async
  import opened RubyQueue
  import opened RubyQueueInvariant
  import opened RubyQueueTheorems
  import opened RubyQueueRuns

  /** Some schedule leads from one state to the other. */
  ghost predicate Reaches(s: State, s': State) { exists evs :: RunFrom(s, evs) == Some(s') }

  lemma ReachesSelf(s: State)
    ensures Reaches(s, s)
  {
    assert RunFrom(s, []) == Some(s);
  }

  lemma ReachesStep(s: State, s1: State, t: Tid, c: Choice, s2: State)
    requires Reaches(s, s1) && Step(s1, t, c) == Some(s2)
    ensures Reaches(s, s2)
  {
    var evs :| RunFrom(s, evs) == Some(s1);
    RunFromConcat(s, evs, [Event(t, c)]);
    assert RunFrom(s1, [Event(t, c)]) == Step(s1, t, c);
  }

  lemma ReachesTransitive(s: State, s1: State, s2: State)
    requires Reaches(s, s1) && Reaches(s1, s2)
    ensures Reaches(s, s2)
  {
    var a :| RunFrom(s, a) == Some(s1);
    var b :| RunFrom(s1, b) == Some(s2);
    RunFromConcat(s, a, b);
  }

  lemma ReachesKeepsInv(s: State, s': State)
    requires Inv(s) && Reaches(s, s')
    ensures Inv(s')
  {
    var evs :| RunFrom(s, evs) == Some(s');
    RunKeepsInv(s, evs);
  }

  /** What no step takes back. */
  predicate Monotone(m: Memory, m': Memory) {
    && m'.debug == m.debug && m.pushed <= m'.pushed && m.started <= m'.started
    && (m.stopping ==> m'.stopping) && (m.starting ==> m'.starting)
  }

  lemma AskMonotone(m: Memory, t: Tid, p: AskPC, c: Choice, v: Move)
    requires AskStep(m, t, p, c) == Some(v)
    ensures Monotone(m, v.m)
  {
  }

  lemma LoopMonotone(m: Memory, t: Tid, p: LoopPC, v: Move)
    requires LoopStep(m, t, p) == Some(v)
    ensures Monotone(m, v.m)
  {
  }

  lemma PushMonotone(m: Memory, t: Tid, p: PushPC, v: Move)
    requires PushStep(m, t, p) == Some(v)
    ensures Monotone(m, v.m)
  {
  }

  lemma LocalMonotone(m: Memory, t: Tid, p: PC, c: Choice, v: Move)
    requires Local(m, t, p, c) == Some(v)
    ensures Monotone(m, v.m)
  {
    match p
    case Pushing(pp) => PushMonotone(m, t, pp, v);
    case Asking(pp) => AskMonotone(m, t, pp, c, v);
    case Looping(pp) => LoopMonotone(m, t, pp, v);
    case _ =>
  }

  lemma {:induction false} RunMonotone(s: State, evs: seq<Event>)
    requires RunFrom(s, evs).Some?
    ensures Monotone(s.m, RunFrom(s, evs).value.m)
    decreases |evs|
  {
    if evs != [] {
      LocalMonotone(s.m, evs[0].t, s.pc[evs[0].t], evs[0].c, Local(s.m, evs[0].t, s.pc[evs[0].t], evs[0].c).value);
      RunMonotone(Step(s, evs[0].t, evs[0].c).value, evs[1..]);
    }
  }

  lemma ReachesMonotone(s: State, s': State)
    requires Reaches(s, s')
    ensures Monotone(s.m, s'.m)
  {
    var evs :| RunFrom(s, evs) == Some(s');
    RunMonotone(s, evs);
  }

  /** What the other threads do to `s` under a schedule: their enabled events, in order. */
  function OthersRun(s: State, t: Tid, evs: seq<Event>): State
    decreases |evs|
  {
    if evs == [] then s
    else if evs[0].t == t || Step(s, evs[0].t, evs[0].c).None? then OthersRun(s, t, evs[1..])
    else OthersRun(Step(s, evs[0].t, evs[0].c).value, t, evs[1..])
  }

  lemma {:induction false} OthersReach(s: State, t: Tid, evs: seq<Event>)
    requires t in s.pc
    ensures var s' := OthersRun(s, t, evs);
            Reaches(s, s') && t in s'.pc && s'.pc[t] == s.pc[t] && s.pc.Keys <= s'.pc.Keys
    decreases |evs|
  {
    ReachesSelf(s);
    if evs != [] {
      if evs[0].t == t || Step(s, evs[0].t, evs[0].c).None? {
        OthersReach(s, t, evs[1..]);
      } else {
        var s1 := Step(s, evs[0].t, evs[0].c).value;
        ReachesStep(s, s, evs[0].t, evs[0].c, s1);
        OthersReach(s1, t, evs[1..]);
        ReachesTransitive(s, s1, OthersRun(s1, t, evs[1..]));
      }
    }
  }

  /** At every back() of a run the deque has an item. */
  lemma BackAvailable(s0: State, s: State, t: Tid)
    requires Inv(s0) && Reaches(s0, s) && t in s.pc && s.pc[t].Looping? && (s.pc[t].at.Back? || s.pc[t].at.PopBack?)
    ensures s.m.q != []
  {
    ReachesKeepsInv(s0, s);
    CountSome(s.pc, Backed, t);
  }

  /** The run's last step is `t`'s release: one token more, and nothing else but its program point. */
  ghost predicate EndsInRelease(s0: State, s: State, t: Tid) {
    exists s1 :: Reaches(s0, s1) && Step(s1, t, Go) == Some(s) && ReleasesAt(s1, s, t)
  }

  predicate ReleasesAt(s1: State, s: State, t: Tid) {
    && t in s1.pc && (s1.pc[t] == Pushing(PushPC.Release) || IsRelease(s1.pc[t]))
    && s.m.sem == s1.m.sem + 1
    && s.m.stopReleased == (s1.m.stopReleased || IsRelease(s1.pc[t]))
  }

  /** At some instant of the run the answer was right: true exactly when a thread was in the loop body. */
  ghost predicate RightAtSomeInstant(s0: State, s: State, value: bool) {
    exists s1 :: Reaches(s0, s1) && Reaches(s1, s) && (value <==> InLoop(s1))
  }

  /** At some instant of the run a consumer held the run mutex. */
  ghost predicate HeldAtSomeInstant(s0: State, s: State) {
    exists s1 :: Reaches(s0, s1) && Reaches(s1, s) && s1.m.runOwner.Some?
  }

  lemma HeldVia(s0: State, s1: State, s: State)
    requires Reaches(s0, s1) && Reaches(s1, s) && s1.m.runOwner.Some?
    ensures HeldAtSomeInstant(s0, s)
  {
  }

  lemma HeldFrom(s0: State, s1: State, s2: State, s: State)
    requires Reaches(s0, s1) && HeldAtSomeInstant(s1, s2) && Reaches(s2, s)
    ensures HeldAtSomeInstant(s0, s)
  {
    var x :| Reaches(s1, x) && Reaches(x, s2) && x.m.runOwner.Some?;
    ReachesTransitive(s0, s1, x);
    ReachesTransitive(x, s2, s);
  }

  /** At some instant of the run stop had not been requested, or a thread was in the loop body. */
  ghost predicate NotStoppedAtSomeInstant(s0: State, s: State) {
    exists s1 :: Reaches(s0, s1) && Reaches(s1, s) && (!s1.m.stopping || InLoop(s1))
  }

  /** The run makes the polls one after the other: each ends with its value, and that is right, as the
      negation of what `running` asks, at some instant of this poll. */
  ghost predicate Polled(s0: State, polls: seq<Async.Check>, s: State)
    decreases |polls|
  {
    if polls == [] then Reaches(s0, s)
    else exists s1 :: PollRight(s0, s1, polls[0]) && Polled(s1, polls[1..], s)
  }

  ghost predicate PollRight(s0: State, s: State, c: Async.Check) { RightAtSomeInstant(s0, s, !c.value) }

  lemma PolledNone(s: State)
    ensures Polled(s, [], s)
  {
    ReachesSelf(s);
  }

  lemma {:induction false} PolledOnce(s0: State, polls: seq<Async.Check>, s1: State, c: Async.Check, s: State)
    requires Polled(s0, polls, s1) && PollRight(s1, s, c)
    ensures Polled(s0, polls + [c], s)
    decreases |polls|
  {
    hide Reaches;
    if polls == [] {
      ReachesSelf(s);
      RightFrom(s0, s1, s, s, !c.value);
      assert PollRight(s0, s, ([] + [c])[0]) && Polled(s, ([] + [c])[1..], s);
    } else {
      var x :| PollRight(s0, x, polls[0]) && Polled(x, polls[1..], s1);
      PolledOnce(x, polls[1..], s1, c, s);
      assert (polls + [c])[1..] == polls[1..] + [c];
    }
  }

  ghost predicate InLoop(s: State) { exists u :: u in s.pc && InBody(s.pc[u]) }

  /** The instants at which `running` looks: the flag says whether a thread is in the loop body, and
      with the run mutex free none is. */
  lemma LooksRight(s0: State, s: State)
    requires Inv(s0) && Reaches(s0, s)
    ensures s.m.running <==> InLoop(s)
    ensures s.m.runOwner == None ==> !InLoop(s)
  {
    ReachesKeepsInv(s0, s);
  }

  lemma RightFrom(s0: State, s: State, s1: State, s2: State, value: bool)
    requires Reaches(s0, s) && RightAtSomeInstant(s, s1, value) && Reaches(s1, s2)
    ensures RightAtSomeInstant(s0, s2, value)
  {
    var x :| Reaches(s, x) && Reaches(x, s1) && (value <==> InLoop(x));
    ReachesTransitive(s0, s, x);
    ReachesTransitive(x, s1, s2);
  }

  /** An asker that got the answer "stopped" is in a quiet state. */
  lemma SeenQuiet(s0: State, s: State, t: Tid)
    requires Inv(s0) && Reaches(s0, s) && t in s.pc && ReportsStopped(s.pc[t])
    ensures Quiet(s)
  {
    ReachesKeepsInv(s0, s);
  }

  class QueueObject {
    const debug: bool
    var q: seq<Entry>
    var mtx: Option<Tid>
    var sem: nat
    var starting: bool
    var stopping: bool
    var running: bool
    var runOwner: Option<Tid>
    var runShared: set<Tid>
    var pc: map<Tid, PC>
    // history
    var pushed: seq<Entry>
    var popped: seq<Entry>
    var depths: seq<nat>
    var started: seq<Entry>
    var stopReleased: bool
    var forfeited: nat

    function View(): State
      reads this
    {
      State(Memory(debug, q, mtx, sem, starting, stopping, running, runOwner, runShared,
                   pushed, popped, depths, started, stopReleased, forfeited), pc)
    }

    constructor (debug: bool, threads: set<Tid>)
      ensures Init(View()) && pc.Keys == threads && this.debug == debug
    {
      this.debug := debug;
      q, mtx, sem := [], None, 0;
      starting, stopping, running := false, false, false;
      runOwner, runShared := None, {};
      pc := map t | t in threads :: Idle;
      pushed, popped, depths, started, stopReleased, forfeited := [], [], [], [], false, 0;
    }

    /** In every run the asker's answer "stopped" means quiet. */
    lemma QuietHere(s0: State, t: Tid)
      requires Inv(s0) && Reaches(s0, View()) && t in pc && ReportsStopped(pc[t])
      ensures Quiet(View())
    {
      SeenQuiet(s0, View(), t);
    }

    lemma BackHere(s0: State, t: Tid, p: LoopPC)
      requires Inv(s0) && Reaches(s0, View()) && t in pc && pc[t] == Looping(p) && (p.Back? || p.PopBack?)
      ensures q != []
    {
      BackAvailable(s0, View(), t);
    }

    method BecomeShared(s: State)
      modifies this`q, this`mtx, this`sem, this`starting, this`stopping, this`running, this`runOwner, this`runShared
      ensures q == s.m.q && mtx == s.m.mtx && sem == s.m.sem
      ensures starting == s.m.starting && stopping == s.m.stopping && running == s.m.running
      ensures runOwner == s.m.runOwner && runShared == s.m.runShared
    {
      q, mtx, sem := s.m.q, s.m.mtx, s.m.sem;
      starting, stopping, running := s.m.starting, s.m.stopping, s.m.running;
      runOwner, runShared := s.m.runOwner, s.m.runShared;
    }

    method BecomeHistory(s: State)
      modifies this`pc, this`pushed, this`popped, this`depths, this`started, this`stopReleased, this`forfeited
      ensures pc == s.pc && pushed == s.m.pushed && popped == s.m.popped && depths == s.m.depths
      ensures started == s.m.started && stopReleased == s.m.stopReleased && forfeited == s.m.forfeited
    {
      pc, pushed, popped, depths := s.pc, s.m.pushed, s.m.popped, s.m.depths;
      started, stopReleased, forfeited := s.m.started, s.m.stopReleased, s.m.forfeited;
    }

    method Become(s: State)
      requires s.m.debug == debug
      modifies this
      ensures View() == s
    {
      BecomeShared(s);
      BecomeHistory(s);
    }

    /** The other threads run the `k`-th part of their schedule, if there is one. */
    method Others(ghost s0: State, t: Tid, env: seq<seq<Event>>, k: nat)
      requires Reaches(s0, View()) && t in pc
      modifies this
      ensures Reaches(s0, View()) && t in pc && pc[t] == old(pc[t])
      ensures old(pushed) <= pushed && old(started) <= started && (old(stopping) ==> stopping)
      ensures (old(starting) ==> starting) && old(pc).Keys <= pc.Keys
    {
      ReachesSelf(View());
      if k < |env| {
        var s := OthersRun(View(), t, env[k]);
        OthersReach(View(), t, env[k]);
        ReachesTransitive(s0, View(), s);
        ReachesMonotone(View(), s);
        Become(s);
      }
    }

    // ----- one method per atomic operation

    method Enter(ghost s0: State, t: Tid, p: PC)
      requires Reaches(s0, View()) && t in pc && Resting(pc[t]) && EntryPoint(p)
      modifies this`pc
      ensures Reaches(s0, View()) && pc == old(pc)[t := p]
    {
      ghost var s := View();
      pc := pc[t := p];
      ReachesStep(s0, s, t, Call(p), View());
    }

    method PushTest(ghost s0: State, t: Tid, fn: Fn) returns (refused: bool)
      requires Reaches(s0, View()) && t in pc && pc[t] == Pushing(PushPC.Test(fn))
      modifies this`pc
      ensures Reaches(s0, View()) && t in pc
      ensures Step(old(View()), t, Go) == Some(View())
      ensures refused == old(stopping && debug) && pc[t] == (if refused then Idle else Pushing(PushPC.Lock(fn)))
    {
      ghost var s := View();
      refused := stopping && debug;
      pc := pc[t := if refused then Idle else Pushing(PushPC.Lock(fn))];
      ReachesStep(s0, s, t, Go, View());
    }

    method PushLock(ghost s0: State, t: Tid, fn: Fn) returns (ok: bool)
      requires Reaches(s0, View()) && t in pc && pc[t] == Pushing(PushPC.Lock(fn))
      modifies this`pc, this`mtx
      ensures Reaches(s0, View()) && t in pc
      ensures if ok then Step(old(View()), t, Go) == Some(View()) && pc[t] == Pushing(Append(fn))
              else unchanged(this) && Step(View(), t, Go) == None
    {
      ghost var s := View();
      if mtx.Some? { return false; }
      mtx := Some(t);
      pc := pc[t := Pushing(Append(fn))];
      ReachesStep(s0, s, t, Go, View());
      return true;
    }

    method PushAppend(ghost s0: State, t: Tid, fn: Fn)
      requires Reaches(s0, View()) && t in pc && pc[t] == Pushing(Append(fn))
      modifies this`pc, this`q, this`pushed
      ensures Reaches(s0, View()) && t in pc
      ensures Step(old(View()), t, Go) == Some(View()) && pc[t] == Pushing(PushPC.Unlock)
      ensures pushed == old(pushed) + [Entry(|old(pushed)|, fn)]
    {
      ghost var s := View();
      var e := Entry(|pushed|, fn);
      q := q + [e];
      pushed := pushed + [e];
      pc := pc[t := Pushing(PushPC.Unlock)];
      ReachesStep(s0, s, t, Go, View());
    }

    method PushUnlock(ghost s0: State, t: Tid)
      requires Reaches(s0, View()) && t in pc && pc[t] == Pushing(PushPC.Unlock)
      modifies this`pc, this`mtx
      ensures Reaches(s0, View()) && t in pc
      ensures Step(old(View()), t, Go) == Some(View()) && pc[t] == Pushing(PushPC.Release)
    {
      ghost var s := View();
      mtx := None;
      pc := pc[t := Pushing(PushPC.Release)];
      ReachesStep(s0, s, t, Go, View());
    }

    method PushRelease(ghost s0: State, t: Tid)
      requires Reaches(s0, View()) && t in pc && pc[t] == Pushing(PushPC.Release)
      modifies this`pc, this`sem
      ensures Reaches(s0, View()) && t in pc
      ensures Step(old(View()), t, Go) == Some(View()) && pc[t] == Idle
      ensures EndsInRelease(s0, View(), t)
    {
      ghost var s := View();
      sem := sem + 1;
      pc := pc[t := Idle];
      ReachesStep(s0, s, t, Go, View());
    }

    method StopSet(ghost s0: State, t: Tid, caller: Stopper) returns (wasSet: bool)
      requires Reaches(s0, View()) && t in pc && pc[t] == Stopping(StopPC.Set(caller))
      modifies this`pc, this`stopping
      ensures Reaches(s0, View()) && t in pc
      ensures Step(old(View()), t, Go) == Some(View())
      ensures stopping && wasSet == old(stopping)
      ensures pc[t] == (if wasSet then AfterStop(caller) else Stopping(StopPC.Release(caller)))
    {
      ghost var s := View();
      wasSet := stopping;
      stopping := true;
      pc := pc[t := if wasSet then AfterStop(caller) else Stopping(StopPC.Release(caller))];
      ReachesStep(s0, s, t, Go, View());
    }

    method StopRelease(ghost s0: State, t: Tid, caller: Stopper)
      requires Reaches(s0, View()) && t in pc && pc[t] == Stopping(StopPC.Release(caller))
      modifies this`pc, this`sem, this`stopReleased
      ensures Reaches(s0, View()) && t in pc
      ensures Step(old(View()), t, Go) == Some(View()) && pc[t] == AfterStop(caller)
      ensures EndsInRelease(s0, View(), t) && stopReleased
    {
      ghost var s := View();
      sem := sem + 1;
      stopReleased := true;
      pc := pc[t := AfterStop(caller)];
      ReachesStep(s0, s, t, Go, View());
    }

    method StoppedTest(ghost s0: State, t: Tid, who: Asker) returns (isSet: bool)
      requires Reaches(s0, View()) && t in pc && pc[t] == Asking(StopTest(who))
      modifies this`pc
      ensures Reaches(s0, View()) && t in pc
      ensures isSet == stopping && Step(old(View()), t, Go) == Some(View())
      ensures pc[t] == (if isSet then Asking(AskPC.Test(who))
                        else if who == AskExit then Asking(AskPC.Test(AskExitPoll))
                        else Answer(AskStopped, false))
    {
      ghost var s := View();
      isSet := stopping;
      pc := pc[t := if isSet then Asking(AskPC.Test(who))
                    else if who == AskExit then Asking(AskPC.Test(AskExitPoll))
                    else Answer(AskStopped, false)];
      ReachesStep(s0, s, t, Go, View());
    }

    method RunningTest(ghost s0: State, t: Tid, who: Asker) returns (flag: bool)
      requires Reaches(s0, View()) && t in pc && pc[t] == Asking(AskPC.Test(who))
      modifies this`pc
      ensures Reaches(s0, View()) && t in pc
      ensures Step(old(View()), t, Go) == Some(View())
      ensures flag == old(running) && pc[t] == (if flag then Asking(TryLock(who)) else Asking(Result(who, false)))
    {
      ghost var s := View();
      flag := running;
      pc := pc[t := if flag then Asking(TryLock(who)) else Asking(Result(who, false))];
      ReachesStep(s0, s, t, Go, View());
    }

    /** `spurious` lets the try fail although the lock is free. */
    method RunningTryLock(ghost s0: State, t: Tid, who: Asker, spurious: bool) returns (ok: bool)
      requires Reaches(s0, View()) && t in pc && pc[t] == Asking(TryLock(who))
      modifies this`pc, this`runShared
      ensures Reaches(s0, View()) && t in pc
      ensures Step(old(View()), t, if spurious then Spurious else Go) == Some(View())
      ensures pc[t] == Asking(if ok then AskPC.Clear(who) else Result(who, true))
      ensures ok <==> !spurious && old(runOwner) == None
    {
      ghost var s := View();
      ok := !spurious && runOwner.None?;
      if ok { runShared := runShared + {t}; }
      pc := pc[t := Asking(if ok then AskPC.Clear(who) else Result(who, true))];
      ReachesStep(s0, s, t, if spurious then Spurious else Go, View());
    }

    method RunningClear(ghost s0: State, t: Tid, who: Asker)
      requires Reaches(s0, View()) && t in pc && pc[t] == Asking(AskPC.Clear(who))
      modifies this`pc, this`running
      ensures Reaches(s0, View()) && t in pc
      ensures Step(old(View()), t, Go) == Some(View()) && pc[t] == Asking(AskPC.Unlock(who))
    {
      ghost var s := View();
      running := false;
      pc := pc[t := Asking(AskPC.Unlock(who))];
      ReachesStep(s0, s, t, Go, View());
    }

    method RunningUnlock(ghost s0: State, t: Tid, who: Asker)
      requires Reaches(s0, View()) && t in pc && pc[t] == Asking(AskPC.Unlock(who))
      modifies this`pc, this`runShared
      ensures Reaches(s0, View()) && t in pc
      ensures Step(old(View()), t, Go) == Some(View()) && pc[t] == Asking(Result(who, false))
    {
      ghost var s := View();
      runShared := runShared - {t};
      pc := pc[t := Asking(Result(who, false))];
      ReachesStep(s0, s, t, Go, View());
    }

    method RunningReturn(ghost s0: State, t: Tid, who: Asker, value: bool, timedOut: bool)
      requires Reaches(s0, View()) && t in pc && pc[t] == Asking(Result(who, value))
      modifies this`pc
      ensures Reaches(s0, View()) && t in pc && pc[t] == AfterRunning(who, value, timedOut)
      ensures Step(old(View()), t, if timedOut then TimedOut else Go) == Some(View())
    {
      ghost var s := View();
      pc := pc[t := AfterRunning(who, value, timedOut)];
      ReachesStep(s0, s, t, if timedOut then TimedOut else Go, View());
    }

    method StartSet(ghost s0: State, t: Tid) returns (wasSet: bool)
      requires Reaches(s0, View()) && t in pc && pc[t] == Starting(StartPC.Set)
      modifies this`pc, this`starting
      ensures Reaches(s0, View()) && t in pc
      ensures Step(old(View()), t, Go) == Some(View())
      ensures starting && wasSet == old(starting) && pc == old(pc)[t := if wasSet then Idle else Starting(Spawn)]
    {
      ghost var s := View();
      wasSet := starting;
      starting := true;
      pc := pc[t := if wasSet then Idle else Starting(Spawn)];
      ReachesStep(s0, s, t, Go, View());
    }

    method StartSpawn(ghost s0: State, t: Tid, child: Tid)
      requires Reaches(s0, View()) && t in pc && pc[t] == Starting(Spawn) && child !in pc
      modifies this`pc
      ensures Reaches(s0, View()) && pc == old(pc)[t := Idle][child := Looping(LoopPC.Lock)]
      ensures Step(old(View()), t, Child(child)) == Some(View())
    {
      ghost var s := View();
      pc := pc[t := Idle][child := Looping(LoopPC.Lock)];
      ReachesStep(s0, s, t, Child(child), View());
    }

    method LoopLock(ghost s0: State, t: Tid) returns (ok: bool)
      requires Reaches(s0, View()) && t in pc && pc[t] == Looping(LoopPC.Lock)
      modifies this`pc, this`runOwner
      ensures Reaches(s0, View()) && t in pc
      ensures if ok then Step(old(View()), t, Go) == Some(View()) && pc[t] == Looping(SetRunning)
              else unchanged(this) && Step(View(), t, Go) == None
    {
      ghost var s := View();
      if runOwner.Some? || runShared != {} { return false; }
      runOwner := Some(t);
      pc := pc[t := Looping(SetRunning)];
      ReachesStep(s0, s, t, Go, View());
      return true;
    }

    method LoopSetRunning(ghost s0: State, t: Tid)
      requires Reaches(s0, View()) && t in pc && pc[t] == Looping(SetRunning)
      modifies this`pc, this`running
      ensures Reaches(s0, View()) && t in pc
      ensures Step(old(View()), t, Go) == Some(View()) && pc[t] == Looping(LoopPC.Test)
    {
      ghost var s := View();
      running := true;
      pc := pc[t := Looping(LoopPC.Test)];
      ReachesStep(s0, s, t, Go, View());
    }

    method LoopTest(ghost s0: State, t: Tid) returns (stop: bool)
      requires Reaches(s0, View()) && t in pc && pc[t] == Looping(LoopPC.Test)
      modifies this`pc
      ensures Reaches(s0, View()) && t in pc
      ensures Step(old(View()), t, Go) == Some(View())
      ensures stop == old(stopping) && pc[t] == (if stop then Looping(LoopPC.Clear) else Looping(Acquire))
    {
      ghost var s := View();
      stop := stopping;
      pc := pc[t := if stop then Looping(LoopPC.Clear) else Looping(Acquire)];
      ReachesStep(s0, s, t, Go, View());
    }

    method LoopAcquire(ghost s0: State, t: Tid) returns (ok: bool)
      requires Reaches(s0, View()) && t in pc && pc[t] == Looping(Acquire)
      modifies this`pc, this`sem
      ensures Reaches(s0, View()) && t in pc
      ensures if ok then Step(old(View()), t, Go) == Some(View()) && pc[t] == Looping(Retest)
              else unchanged(this) && Step(View(), t, Go) == None
    {
      ghost var s := View();
      if sem == 0 { return false; }
      sem := sem - 1;
      pc := pc[t := Looping(Retest)];
      ReachesStep(s0, s, t, Go, View());
      return true;
    }

    method LoopRetest(ghost s0: State, t: Tid) returns (stop: bool)
      requires Reaches(s0, View()) && t in pc && pc[t] == Looping(Retest)
      modifies this`pc, this`forfeited
      ensures Reaches(s0, View()) && t in pc
      ensures Step(old(View()), t, Go) == Some(View())
      ensures stop == old(stopping) && pc[t] == (if stop then Looping(LoopPC.Clear) else Looping(QLock))
    {
      ghost var s := View();
      stop := stopping;
      if stop { forfeited := forfeited + 1; }
      pc := pc[t := if stop then Looping(LoopPC.Clear) else Looping(QLock)];
      ReachesStep(s0, s, t, Go, View());
    }

    method LoopQLock(ghost s0: State, t: Tid) returns (ok: bool)
      requires Reaches(s0, View()) && t in pc && pc[t] == Looping(QLock)
      modifies this`pc, this`mtx
      ensures Reaches(s0, View()) && t in pc
      ensures if ok then Step(old(View()), t, Go) == Some(View()) && pc[t] == Looping(Back)
              else unchanged(this) && Step(View(), t, Go) == None
    {
      ghost var s := View();
      if mtx.Some? { return false; }
      mtx := Some(t);
      pc := pc[t := Looping(Back)];
      ReachesStep(s0, s, t, Go, View());
      return true;
    }

    method LoopBack(ghost s0: State, t: Tid) returns (item: Entry)
      requires Reaches(s0, View()) && t in pc && pc[t] == Looping(Back) && q != []
      modifies this`pc
      ensures Reaches(s0, View()) && t in pc
      ensures Step(old(View()), t, Go) == Some(View()) && pc[t] == Looping(PopBack(item))
    {
      ghost var s := View();
      item := q[|q| - 1];
      pc := pc[t := Looping(PopBack(item))];
      ReachesStep(s0, s, t, Go, View());
    }

    method LoopPopBack(ghost s0: State, t: Tid, item: Entry)
      requires Reaches(s0, View()) && t in pc && pc[t] == Looping(PopBack(item)) && q != []
      modifies this`pc, this`q, this`popped, this`depths
      ensures Reaches(s0, View()) && t in pc
      ensures Step(old(View()), t, Go) == Some(View()) && pc[t] == Looping(QUnlock(item))
    {
      ghost var s := View();
      depths := depths + [|q|];
      q := q[..|q| - 1];
      popped := popped + [item];
      pc := pc[t := Looping(QUnlock(item))];
      ReachesStep(s0, s, t, Go, View());
    }

    method LoopQUnlock(ghost s0: State, t: Tid, item: Entry)
      requires Reaches(s0, View()) && t in pc && pc[t] == Looping(QUnlock(item))
      modifies this`pc, this`mtx
      ensures Reaches(s0, View()) && t in pc
      ensures Step(old(View()), t, Go) == Some(View()) && pc[t] == Looping(Gvl(item))
    {
      ghost var s := View();
      mtx := None;
      pc := pc[t := Looping(Gvl(item))];
      ReachesStep(s0, s, t, Go, View());
    }

    method LoopGvl(ghost s0: State, t: Tid, item: Entry)
      requires Reaches(s0, View()) && t in pc && pc[t] == Looping(Gvl(item))
      modifies this`pc, this`started
      ensures Reaches(s0, View()) && t in pc
      ensures Step(old(View()), t, Go) == Some(View()) && pc[t] == Looping(Callback(item))
      ensures started == old(started) + [item]
    {
      ghost var s := View();
      started := started + [item];
      pc := pc[t := Looping(Callback(item))];
      ReachesStep(s0, s, t, Go, View());
    }

    method LoopCallback(ghost s0: State, t: Tid, item: Entry)
      requires Reaches(s0, View()) && t in pc && pc[t] == Looping(Callback(item))
      modifies this`pc
      ensures Reaches(s0, View()) && t in pc
      ensures Step(old(View()), t, Go) == Some(View()) && pc[t] == Looping(LoopPC.Test)
    {
      ghost var s := View();
      pc := pc[t := Looping(LoopPC.Test)];
      ReachesStep(s0, s, t, Go, View());
    }

    method LoopClear(ghost s0: State, t: Tid)
      requires Reaches(s0, View()) && t in pc && pc[t] == Looping(LoopPC.Clear)
      modifies this`pc, this`running
      ensures Reaches(s0, View()) && t in pc
      ensures Step(old(View()), t, Go) == Some(View()) && pc[t] == Looping(LoopPC.Unlock)
    {
      ghost var s := View();
      running := false;
      pc := pc[t := Looping(LoopPC.Unlock)];
      ReachesStep(s0, s, t, Go, View());
    }

    method LoopUnlock(ghost s0: State, t: Tid)
      requires Reaches(s0, View()) && t in pc && pc[t] == Looping(LoopPC.Unlock)
      modifies this`pc, this`runOwner
      ensures Reaches(s0, View()) && t in pc
      ensures Step(old(View()), t, Go) == Some(View()) && pc[t] == Looping(Done)
    {
      ghost var s := View();
      runOwner := None;
      pc := pc[t := Looping(Done)];
      ReachesStep(s0, s, t, Go, View());
    }

    // ----- the source's methods: `env[k..]` is what the others do between the operations

    /** The push from its critical section on: the append, and one release. */
    method PushLocked(ghost s0: State, t: Tid, fn: Fn, env: seq<seq<Event>>)
      requires Reaches(s0, View()) && t in pc && pc[t] == Pushing(Append(fn))
      modifies this
      ensures Reaches(s0, View()) && t in pc && pc[t] == Idle
      ensures EndsInRelease(s0, View(), t) && old(pushed) + [Entry(|old(pushed)|, fn)] <= pushed
    {
      hide Reaches, Step, QueueObject.View, EndsInRelease;
      PushAppend(s0, t, fn);
      Others(s0, t, env, 3);
      PushUnlock(s0, t);
      Others(s0, t, env, 4);
      PushRelease(s0, t);
    }

    /** Not done only when the mutex is taken. */
    method Push(t: Tid, fn: Fn, env: seq<seq<Event>>) returns (done: bool, refused: bool)
      requires t in pc && Resting(pc[t])
      modifies this
      ensures Reaches(old(View()), View()) && t in pc
      ensures if done then pc[t] == Idle else pc[t] == Pushing(PushPC.Lock(fn)) && Step(View(), t, Go) == None
      ensures (old(stopping) && debug ==> refused) && (refused ==> done && debug && stopping)
      ensures done && !refused ==>
        && EndsInRelease(old(View()), View(), t)
        && exists i :: |old(pushed)| <= i < |pushed| && pushed[i].fn == fn
    {
      hide Reaches, Step, QueueObject.View, EndsInRelease;
      ghost var s0 := View();
      ReachesSelf(s0);
      Enter(s0, t, Pushing(PushPC.Test(fn)));
      Others(s0, t, env, 0);
      refused := PushTest(s0, t, fn);
      if refused { return true, true; }
      Others(s0, t, env, 1);
      done := PushLock(s0, t, fn);
      if !done { return; }
      Others(s0, t, env, 2);
      ghost var i := |pushed|;
      PushLocked(s0, t, fn, env);
      assert pushed[i] == Entry(i, fn);
    }

    /** `first` when this call set the flag; its release is then the last thing it does. */
    method StopBody(ghost s0: State, t: Tid, caller: Stopper, env: seq<seq<Event>>) returns (first: bool)
      requires Reaches(s0, View()) && t in pc && pc[t] == Stopping(StopPC.Set(caller))
      modifies this
      ensures Reaches(s0, View()) && t in pc && pc[t] == AfterStop(caller) && stopping
      ensures old(stopping) ==> !first
      ensures first ==> stopReleased && EndsInRelease(s0, View(), t)
    {
      hide Reaches, Step, QueueObject.View, EndsInRelease;
      Others(s0, t, env, 0);
      var wasSet := StopSet(s0, t, caller);
      first := !wasSet;
      if first {
        Others(s0, t, env, 1);
        StopRelease(s0, t, caller);
      }
    }

    method Stop(t: Tid, env: seq<seq<Event>>) returns (first: bool)
      requires t in pc && Resting(pc[t])
      modifies this
      ensures Reaches(old(View()), View()) && t in pc && pc[t] == Idle && stopping
      ensures old(stopping) ==> !first
      ensures first ==> stopReleased && EndsInRelease(old(View()), View(), t)
    {
      hide Reaches, Step, QueueObject.View, EndsInRelease;
      ghost var s0 := View();
      ReachesSelf(s0);
      Enter(s0, t, Stopping(StopPC.Set(Client)));
      first := StopBody(s0, t, Client, env);
    }

    lemma FlagHere()
      ensures View().m.stopping == stopping && View().m.runOwner == runOwner
    {
    }

    lemma LooksRightHere(s0: State)
      requires Inv(s0) && Reaches(s0, View())
      ensures running ==> RightAtSomeInstant(View(), View(), true)
      ensures !running || runOwner == None ==> RightAtSomeInstant(View(), View(), false)
    {
      LooksRight(s0, View());
      ReachesSelf(View());
    }

    lemma InvHere(s0: State)
      requires Inv(s0) && Reaches(s0, View())
      ensures Inv(View())
    {
      ReachesKeepsInv(s0, View());
    }

    /** The answer was right at the instant of its test, or of its successful try. */
    method RunningBody(ghost s0: State, t: Tid, who: Asker, env: seq<seq<Event>>, k: nat, spurious: bool)
      returns (value: bool)
      requires Inv(s0) && Reaches(s0, View()) && t in pc && pc[t] == Asking(AskPC.Test(who))
      modifies this
      ensures Reaches(s0, View()) && t in pc && pc[t] == Asking(Result(who, value))
      ensures RightAtSomeInstant(old(View()), View(), value)
      ensures value && !spurious ==> HeldAtSomeInstant(old(View()), View())
    {
      hide Inv, Reaches, Step, QueueObject.View, RightAtSomeInstant, HeldAtSomeInstant;
      ghost var b := View();
      InvHere(s0);
      ReachesSelf(b);
      Others(b, t, env, k);
      ghost var s1 := View();
      LooksRightHere(b);
      ReachesSelf(s1);
      var flag := RunningTest(s1, t, who);
      if !flag {
        value := false;
      } else {
        Others(s1, t, env, k + 1);
        value := RunningTry(b, s1, t, who, env, k + 2, spurious);
      }
      ReachesTransitive(b, s1, View());
      if !flag || value { RightFrom(b, s1, s1, View(), value); }
      ReachesTransitive(s0, b, View());
    }

    /** The try and what follows it; granted, no thread is in the loop body. */
    method RunningTry(ghost s0: State, ghost s1: State, t: Tid, who: Asker, env: seq<seq<Event>>, k: nat, spurious: bool)
      returns (value: bool)
      requires Inv(s0) && Reaches(s0, s1) && Reaches(s1, View()) && t in pc && pc[t] == Asking(TryLock(who))
      modifies this
      ensures Reaches(s1, View()) && t in pc && pc[t] == Asking(Result(who, value))
      ensures !value ==> RightAtSomeInstant(s0, View(), false)
      ensures value && !spurious ==> HeldAtSomeInstant(s0, View())
    {
      hide Inv, Reaches, Step, QueueObject.View, RightAtSomeInstant, HeldAtSomeInstant;
      ghost var s2 := View();
      FlagHere();
      ReachesTransitive(s0, s1, s2);
      LooksRightHere(s0);
      ReachesSelf(s2);
      var locked := RunningTryLock(s2, t, who, spurious);
      if locked {
        Others(s2, t, env, k);
        RunningClear(s2, t, who);
        Others(s2, t, env, k + 1);
        RunningUnlock(s2, t, who);
        RightFrom(s0, s2, s2, View(), false);
      }
      ReachesTransitive(s1, s2, View());
      if !locked && !spurious { HeldVia(s0, s2, View()); }
      return !locked;
    }

    method Running(t: Tid, env: seq<seq<Event>>, spurious: bool) returns (value: bool)
      requires Inv(View()) && t in pc && Resting(pc[t])
      modifies this
      ensures Reaches(old(View()), View()) && t in pc && pc[t] == Answer(AskRunning, value)
      ensures RightAtSomeInstant(old(View()), View(), value)
      ensures value && !spurious ==> HeldAtSomeInstant(old(View()), View())
    {
      hide Inv, Reaches, Step, QueueObject.View, RightAtSomeInstant, HeldAtSomeInstant;
      ghost var s0 := View();
      ReachesSelf(s0);
      Enter(s0, t, Asking(AskPC.Test(AskRunning)));
      ghost var b := View();
      value := RunningBody(s0, t, AskRunning, env, 0, spurious);
      ghost var s1 := View();
      ReachesSelf(s1);
      RunningReturn(s1, t, AskRunning, value, false);
      ReachesTransitive(s0, s1, View());
      RightFrom(s0, b, s1, View(), value);
      if value && !spurious { HeldFrom(s0, b, s1, View()); }
    }

    lemma NotSetIsNotStopped(s0: State, s1: State, s: State)
      requires Reaches(s0, s1) && Reaches(s1, s) && !s1.m.stopping
      ensures NotStoppedAtSomeInstant(s0, s)
    {
    }

    lemma ActiveIsNotStopped(s0: State, s1: State, s2: State, s: State)
      requires Reaches(s0, s1) && RightAtSomeInstant(s1, s2, true) && Reaches(s2, s)
      ensures NotStoppedAtSomeInstant(s0, s)
    {
      var x :| Reaches(s1, x) && Reaches(x, s2) && (true <==> InLoop(x));
      ReachesTransitive(s0, s1, x);
      ReachesTransitive(x, s2, s);
    }

    /** True only when the queue is quiet; false only when, at some instant of the call, stop had not been
        requested or a thread was in the loop body. */
    method Stopped(t: Tid, env: seq<seq<Event>>, spurious: bool) returns (value: bool)
      requires Inv(View()) && t in pc && Resting(pc[t])
      modifies this
      ensures Reaches(old(View()), View()) && t in pc && pc[t] == Answer(AskStopped, value)
      ensures value ==> Quiet(View())
      ensures !value ==> NotStoppedAtSomeInstant(old(View()), View())
    {
      hide Inv, Reaches, Step, QueueObject.View, RightAtSomeInstant, NotStoppedAtSomeInstant;
      ghost var s0 := View();
      ReachesSelf(s0);
      Enter(s0, t, Asking(StopTest(AskStopped)));
      Others(s0, t, env, 0);
      value := StoppedFrom(s0, t, env, spurious);
      if value { QuietHere(s0, t); }
    }

    /** `stopped` from its first test on. */
    method StoppedFrom(ghost s0: State, t: Tid, env: seq<seq<Event>>, spurious: bool) returns (value: bool)
      requires Inv(s0) && Reaches(s0, View()) && t in pc && pc[t] == Asking(StopTest(AskStopped))
      modifies this
      ensures Reaches(s0, View()) && t in pc && pc[t] == Answer(AskStopped, value)
      ensures !value ==> NotStoppedAtSomeInstant(s0, View())
    {
      hide Inv, Reaches, Step, QueueObject.View, RightAtSomeInstant, NotStoppedAtSomeInstant;
      ghost var s1 := View();
      ReachesSelf(s1);
      FlagHere();
      var isSet := StoppedTest(s1, t, AskStopped);
      ReachesTransitive(s0, s1, View());
      if !isSet {
        NotSetIsNotStopped(s0, s1, View());
        return false;
      }
      ghost var s2 := View();
      var active := RunningBody(s0, t, AskStopped, env, 1, spurious);
      ghost var s3 := View();
      ReachesSelf(s3);
      RunningReturn(s3, t, AskStopped, active, false);
      ReachesTransitive(s0, s3, View());
      if active { ActiveIsNotStopped(s0, s2, s3, View()); }
      value := !active;
    }

    /** The check of `stopped` inside `stop_on_exit`; the stop flag is already set. */
    method ExitCheck(ghost s0: State, t: Tid, env: seq<seq<Event>>, spurious: bool) returns (active: bool)
      requires Inv(s0) && Reaches(s0, View()) && t in pc && pc[t] == Asking(StopTest(AskExit)) && stopping
      modifies this
      ensures Reaches(s0, View()) && t in pc
      ensures pc[t] == (if active then Asking(AskPC.Test(AskExitPoll)) else ExitReturned)
      ensures RightAtSomeInstant(s0, View(), active)
    {
      hide Inv, Reaches, Step, QueueObject.View, RightAtSomeInstant;
      Others(s0, t, env, 2);
      var isSet := StoppedTest(s0, t, AskExit);
      ghost var s1 := View();
      active := RunningBody(s0, t, AskExit, env, 3, spurious);
      ghost var s2 := View();
      ReachesSelf(s2);
      RunningReturn(s2, t, AskExit, active, false);
      ReachesTransitive(s0, s2, View());
      RightFrom(s0, s1, s2, View(), active);
    }

    /** One poll of `stop_on_exit`: the predicate, and then whether time is up. */
    method ExitPoll(ghost s0: State, t: Tid, env: seq<seq<Event>>, k: nat, spurious: bool, timedOut: bool)
      returns (check: Async.Check)
      requires Inv(s0) && Reaches(s0, View()) && t in pc && pc[t] == Asking(AskPC.Test(AskExitPoll))
      modifies this
      ensures Reaches(s0, View()) && t in pc && check.timedOut == timedOut
      ensures pc[t] == (if check.value then ExitReturned
                        else if timedOut then Asking(Kill) else Asking(AskPC.Test(AskExitPoll)))
      ensures RightAtSomeInstant(old(View()), View(), !check.value)
    {
      hide Inv, Reaches, Step, QueueObject.View, RightAtSomeInstant;
      ghost var s1 := View();
      ReachesSelf(s1);
      var active := RunningBody(s0, t, AskExitPoll, env, k, spurious);
      ghost var s2 := View();
      ReachesSelf(s2);
      RunningReturn(s2, t, AskExitPoll, active, timedOut);
      ReachesTransitive(s0, s2, View());
      RightFrom(s1, s1, s2, View(), active);
      check := Async.Check(!active, timedOut);
    }

    /** `tries` gives, for each poll, whether its try_lock spuriously fails and whether time is up after
        it; `first` is the former for the check before the polls, whose answer is `active`. The call is
        finished when it has returned or is about to kill, and else has run out of `tries`. It kills
        exactly when the wait on the polls made ends without the predicate. */
    method StopOnExit(t: Tid, env: seq<seq<Event>>, first: bool, tries: seq<(bool, bool)>)
      returns (finished: bool, killed: bool, active: bool, ghost polls: seq<Async.Check>)
      requires Inv(View()) && t in pc && Resting(pc[t])
      modifies this
      ensures Reaches(old(View()), View()) && t in pc
      ensures exists s1 :: RightAtSomeInstant(old(View()), s1, active) && Polled(s1, polls, View())
      ensures |polls| <= |tries| && forall i :: 0 <= i < |polls| ==> polls[i].timedOut == tries[i].1
      ensures forall i :: 0 <= i < |polls| - 1 ==> !Async.Done(polls[i])
      ensures finished <==> !active || (polls != [] && Async.Done(polls[|polls| - 1]))
      ensures if finished then (!active ==> polls == []) else |polls| == |tries|
      ensures killed <==> finished && polls != [] && !Async.Waited(polls)
      ensures pc[t] == if !finished then Asking(AskPC.Test(AskExitPoll)) else if killed then Asking(Kill) else ExitReturned
      ensures finished && !killed ==> Quiet(View())
    {
      hide Inv, Reaches, Step, QueueObject.View, RightAtSomeInstant, Polled, Async.Waited;
      ghost var s0 := View();
      ReachesSelf(s0);
      Enter(s0, t, Stopping(StopPC.Set(AtExit)));
      var _ := StopBody(s0, t, AtExit, env);
      active := ExitCheck(s0, t, env, first);
      ghost var s1 := View();
      polls := [];
      PolledNone(s1);
      if active {
        finished, killed, polls := ExitWait(s0, t, env, tries);
      } else {
        finished, killed := true, false;
      }
      if finished && !killed { QuietHere(s0, t); }
    }

    /** The waiting loop of `stop_on_exit`. */
    method ExitWait(ghost s0: State, t: Tid, env: seq<seq<Event>>, tries: seq<(bool, bool)>)
      returns (finished: bool, killed: bool, ghost polls: seq<Async.Check>)
      requires Inv(s0) && Reaches(s0, View()) && t in pc && pc[t] == Asking(AskPC.Test(AskExitPoll))
      modifies this
      ensures Reaches(s0, View()) && t in pc && Polled(old(View()), polls, View())
      ensures |polls| <= |tries| && forall i :: 0 <= i < |polls| ==> polls[i].timedOut == tries[i].1
      ensures forall i :: 0 <= i < |polls| - 1 ==> !Async.Done(polls[i])
      ensures finished <==> polls != [] && Async.Done(polls[|polls| - 1])
      ensures !finished ==> |polls| == |tries|
      ensures killed <==> finished && !Async.Waited(polls)
      ensures pc[t] == if !finished then Asking(AskPC.Test(AskExitPoll)) else if killed then Asking(Kill) else ExitReturned
    {
      hide Inv, Reaches, Step, QueueObject.View, RightAtSomeInstant, Polled, Async.Waited;
      ghost var s1 := View();
      polls := [];
      finished, killed := false, false;
      PolledNone(s1);
      var n := 0;
      while !finished && n < |tries|
        invariant 0 <= n == |polls| <= |tries| && Reaches(s0, View()) && t in pc && Polled(s1, polls, View())
        invariant forall i :: 0 <= i < n ==> polls[i].timedOut == tries[i].1
        invariant forall i :: 0 <= i < n - 1 ==> !Async.Done(polls[i])
        invariant finished <==> n > 0 && Async.Done(polls[n - 1])
        invariant killed <==> finished && !Async.Waited(polls)
        invariant pc[t] == if !finished then Asking(AskPC.Test(AskExitPoll)) else if killed then Asking(Kill) else ExitReturned
      {
        ghost var s2 := View();
        var check := ExitPoll(s0, t, env, 7 + 4 * n, tries[n].0, tries[n].1);
        PolledOnce(s1, polls, s2, check, View());
        polls := polls + [check];
        finished := check.value || check.timedOut;
        killed := !check.value && check.timedOut;
        n := n + 1;
        if finished { Async.WaitedForLast(polls); }
      }
    }

    /** The identity of a thread that does not exist yet. */
    method NewThread() returns (child: Tid)
      ensures child !in pc
    {
      child := 0;
      ghost var rest := pc.Keys;
      while child in pc
        invariant forall x :: x in pc && child <= x ==> x in rest
        decreases |rest|
      {
        rest := rest - {child};
        child := child + 1;
      }
    }

    /** Creates a consumer exactly when it wins the flag. */
    method Start(t: Tid, env: seq<seq<Event>>) returns (created: bool, child: Tid)
      requires t in pc && Resting(pc[t])
      modifies this
      ensures Reaches(old(View()), View()) && t in pc && pc[t] == Idle && starting
      ensures old(starting) ==> !created
      ensures created ==> child !in old(pc) && child in pc && pc[child] == Looping(LoopPC.Lock)
    {
      hide Inv, Reaches, Step, QueueObject.View;
      ghost var s0 := View();
      ReachesSelf(s0);
      Enter(s0, t, Starting(StartPC.Set));
      Others(s0, t, env, 0);
      var wasSet := StartSet(s0, t);
      created, child := !wasSet, t;
      if created {
        Others(s0, t, env, 1);
        child := NewThread();
        StartSpawn(s0, t, child);
      }
    }

    /** Takes the newest item under the queue mutex; not ok only when the mutex is taken. */
    method TakeItem(ghost s0: State, t: Tid, env: seq<seq<Event>>, k: nat) returns (ok: bool, item: Entry)
      requires Inv(s0) && Reaches(s0, View()) && t in pc && pc[t] == Looping(QLock)
      modifies this
      ensures Reaches(s0, View()) && t in pc && old(started) <= started
      ensures if ok then pc[t] == Looping(Gvl(item)) else Step(View(), t, Go) == None
    {
      hide Inv, Reaches, Step, QueueObject.View;
      item := Entry(0, 0);
      ok := LoopQLock(s0, t);
      if !ok { return; }
      Others(s0, t, env, k);
      BackHere(s0, t, Back);
      item := LoopBack(s0, t);
      Others(s0, t, env, k + 1);
      BackHere(s0, t, PopBack(item));
      LoopPopBack(s0, t, item);
      Others(s0, t, env, k + 2);
      LoopQUnlock(s0, t, item);
    }

    /** Past the second stop test: takes the newest item and runs it. */
    method Execute(ghost s0: State, t: Tid, env: seq<seq<Event>>, k: nat) returns (ok: bool)
      requires Inv(s0) && Reaches(s0, View()) && t in pc && pc[t] == Looping(QLock)
      modifies this
      ensures Reaches(s0, View()) && t in pc && old(started) <= started
      ensures if ok then pc[t] == Looping(LoopPC.Test) && |old(started)| < |started| else Step(View(), t, Go) == None
    {
      hide Inv, Reaches, Step, QueueObject.View;
      var item;
      ok, item := TakeItem(s0, t, env, k);
      if !ok { return; }
      Others(s0, t, env, k + 3);
      LoopGvl(s0, t, item);
      Others(s0, t, env, k + 4);
      LoopCallback(s0, t, item);
    }

    /** One round of the loop after its test: a callback, or the second stop test breaks out of it. */
    method Round(ghost s0: State, t: Tid, env: seq<seq<Event>>, k: nat) returns (ok: bool, stop: bool)
      requires Inv(s0) && Reaches(s0, View()) && t in pc && pc[t] == Looping(Acquire)
      modifies this
      ensures Reaches(s0, View()) && t in pc && old(started) <= started
      ensures !ok ==> Step(View(), t, Go) == None
      ensures ok && stop ==> pc[t] == Looping(LoopPC.Clear) && stopping
      ensures ok && !stop ==> pc[t] == Looping(LoopPC.Test) && |old(started)| < |started|
    {
      hide Inv, Reaches, Step, QueueObject.View;
      stop := false;
      ok := LoopAcquire(s0, t);
      if !ok { return; }
      Others(s0, t, env, k);
      stop := LoopRetest(s0, t);
      if stop { return; }
      Others(s0, t, env, k + 1);
      ok := Execute(s0, t, env, k + 2);
    }

    /** The consumer's loop, for at most `rounds` rounds. It is finished only after a stop; otherwise
        it is blocked, or every round executed a callback. The deque is never empty where it reads
        the back. */
    method Loop(t: Tid, env: seq<seq<Event>>, rounds: nat) returns (finished: bool)
      requires Inv(View()) && t in pc && pc[t] == Looping(LoopPC.Lock)
      modifies this
      ensures Reaches(old(View()), View()) && t in pc
      ensures finished ==> pc[t] == Looping(Done) && stopping
      ensures finished || Step(View(), t, Go) == None || |old(started)| + rounds <= |started|
    {
      hide Inv, Reaches, Step, QueueObject.View;
      ghost var s0 := View();
      ReachesSelf(s0);
      var ok := LoopLock(s0, t);
      if !ok { return false; }
      Others(s0, t, env, 0);
      LoopSetRunning(s0, t);
      var n, stop := 0, false;
      while !stop
        invariant n <= rounds && Reaches(s0, View()) && t in pc && |old(started)| + n <= |started|
        invariant pc[t] == Looping(if stop then LoopPC.Clear else LoopPC.Test) && (stop ==> stopping)
        decreases !stop, rounds - n
      {
        if n == rounds { return false; }
        Others(s0, t, env, 9 * n + 1);
        stop := LoopTest(s0, t);
        if !stop {
          Others(s0, t, env, 9 * n + 2);
          ok, stop := Round(s0, t, env, 9 * n + 3);
          if !ok { return false; }
          if !stop { n := n + 1; }
        }
      }
      Others(s0, t, env, 9 * n + 3);
      LoopClear(s0, t);
      Others(s0, t, env, 9 * n + 4);
      LoopUnlock(s0, t);
      return true;
    }
  }
}
