/** Particular runs of the callback queue: what an undisturbed call does, a run out of the documented
    order, and which pushes still append after stop. */
module RubyQueueRuns {
  import opened Common
  import opened RubyQueue
  import opened RubyQueueInvariant
  import opened RubyQueueTheorems

  lemma {:induction false} RunFromConcat(s: State, a: seq<Event>, b: seq<Event>)
    requires RunFrom(s, a).Some?
    ensures RunFrom(s, a + b) == RunFrom(RunFrom(s, a).value, b)
    decreases |a|
  {
    if a == [] {
      assert a + b == b;
    } else {
      assert (a + b)[1..] == a[1..] + b;
      RunFromConcat(Step(s, a[0].t, a[0].c).value, a[1..], b);
    }
  }

  /** Thread `t` alone takes `n` steps that need no choice. */
  function Steps(t: Tid, n: nat): seq<Event> { seq(n, i => Event(t, Go)) }

  function LocalRun(m: Memory, t: Tid, p: PC, n: nat): Option<Move>
    decreases n
  {
    if n == 0 then Some(Move(p, m))
    else if p == Starting(Spawn) then None
    else match Local(m, t, p, Go)
      case None => None
      case Some(v) => LocalRun(v.m, t, v.pc, n - 1)
  }

  lemma {:induction false} LocalRunIsRun(m: Memory, pc: map<Tid, PC>, t: Tid, p: PC, n: nat)
    requires t in pc && LocalRun(m, t, p, n).Some?
    ensures var v := LocalRun(m, t, p, n).value;
            RunFrom(State(m, pc[t := p]), Steps(t, n)) == Some(State(v.m, pc[t := v.pc]))
    decreases n
  {
    if n > 0 {
      var v := Local(m, t, p, Go).value;
      var s := State(m, pc[t := p]);
      assert pc[t := p][t := v.pc] == pc[t := v.pc];
      assert Step(s, t, Go) == Some(State(v.m, pc[t := v.pc]));
      assert Steps(t, n)[1..] == Steps(t, n - 1);
      LocalRunIsRun(v.m, pc, t, v.pc, n - 1);
    }
  }

  lemma {:induction false} LocalRunConcat(m: Memory, t: Tid, p: PC, a: nat, b: nat)
    requires LocalRun(m, t, p, a).Some?
    ensures var v := LocalRun(m, t, p, a).value;
            LocalRun(m, t, p, a + b) == LocalRun(v.m, t, v.pc, b)
    decreases a
  {
    if a > 0 {
      var v := Local(m, t, p, Go).value;
      LocalRunConcat(v.m, t, v.pc, a - 1, b);
    }
  }

  predicate Resting(p: PC) { p.Idle? || p.Answer? || p.ExitReturned? }

  /** A resting thread calls an operation and takes `n` steps in it. */
  function CallAlone(t: Tid, p: PC, n: nat): seq<Event> { [Event(t, Call(p))] + Steps(t, n) }

  lemma CallAloneRun(s: State, t: Tid, p: PC, n: nat)
    requires t in s.pc && Resting(s.pc[t]) && EntryPoint(p) && LocalRun(s.m, t, p, n).Some?
    ensures var v := LocalRun(s.m, t, p, n).value;
            RunFrom(s, CallAlone(t, p, n)) == Some(State(v.m, s.pc[t := v.pc]))
  {
    assert CallAlone(t, p, n)[1..] == Steps(t, n);
    LocalRunIsRun(s.m, s.pc, t, p, n);
  }

  /** The memory after a whole push. */
  function Pushed(m: Memory, fn: Fn): Memory {
    var e := Entry(|m.pushed|, fn);
    m.(q := m.q + [e], pushed := m.pushed + [e], sem := m.sem + 1)
  }

  lemma PushLocally(m: Memory, t: Tid, fn: Fn)
    requires m.mtx == None && !(m.stopping && m.debug)
    ensures LocalRun(m, t, Pushing(PushPC.Test(fn)), 5) == Some(Move(Idle, Pushed(m, fn)))
  {
    var e := Entry(|m.pushed|, fn);
    var m1 := m.(mtx := Some(t));
    var m2 := m1.(q := m.q + [e], pushed := m.pushed + [e]);
    var m3 := m2.(mtx := None);
    var m4 := m3.(sem := m.sem + 1);
    assert LocalRun(m4, t, Idle, 0) == Some(Move(Idle, m4));
    assert LocalRun(m3, t, Pushing(PushPC.Release), 1) == Some(Move(Idle, m4));
    assert LocalRun(m2, t, Pushing(PushPC.Unlock), 2) == Some(Move(Idle, m4));
    assert LocalRun(m1, t, Pushing(Append(fn)), 3) == Some(Move(Idle, m4));
    assert LocalRun(m, t, Pushing(PushPC.Lock(fn)), 4) == Some(Move(Idle, m4));
  }

  /** The newest item leaves the deque. */
  function Popped(m: Memory): Memory
    requires m.q != []
  {
    m.(q := m.q[..|m.q| - 1], popped := m.popped + [m.q[|m.q| - 1]], depths := m.depths + [|m.q|])
  }

  /** The memory after a whole loop iteration: the newest item has been run. */
  function Consumed(m: Memory): Memory
    requires m.q != [] && m.sem > 0
  {
    Popped(m).(sem := m.sem - 1, started := m.started + [m.q[|m.q| - 1]])
  }

  lemma ClaimLocally(m: Memory, t: Tid)
    requires !m.stopping && m.sem > 0
    ensures LocalRun(m, t, Looping(LoopPC.Test), 3) == Some(Move(Looping(QLock), m.(sem := m.sem - 1)))
  {
    var m1 := m.(sem := m.sem - 1);
    assert LocalRun(m1, t, Looping(Retest), 1) == Some(Move(Looping(QLock), m1));
    assert LocalRun(m, t, Looping(Acquire), 2) == Some(Move(Looping(QLock), m1));
  }

  lemma PopLocally(m: Memory, t: Tid)
    requires m.mtx == None && m.q != []
    ensures LocalRun(m, t, Looping(QLock), 3)
         == Some(Move(Looping(QUnlock(m.q[|m.q| - 1])), Popped(m).(mtx := Some(t))))
  {
    var e := m.q[|m.q| - 1];
    var m1 := m.(mtx := Some(t));
    var v := Move(Looping(QUnlock(e)), Popped(m).(mtx := Some(t)));
    assert LocalRun(m1, t, Looping(PopBack(e)), 1) == Some(v);
    assert LocalRun(m1, t, Looping(Back), 2) == Some(v);
  }

  lemma CallLocally(m: Memory, t: Tid, e: Entry)
    ensures LocalRun(m, t, Looping(QUnlock(e)), 3)
         == Some(Move(Looping(LoopPC.Test), m.(mtx := None, started := m.started + [e])))
  {
    var m1 := m.(mtx := None);
    var v := Move(Looping(LoopPC.Test), m1.(started := m.started + [e]));
    assert LocalRun(v.m, t, Looping(Callback(e)), 1) == Some(v);
    assert LocalRun(m1, t, Looping(Gvl(e)), 2) == Some(v);
  }

  /** An undisturbed loop iteration, nine steps, runs the newest waiting item and returns to the
      stop test. */
  lemma ConsumeLocally(m: Memory, t: Tid, n: nat)
    requires m.mtx == None && !m.stopping && m.q != [] && m.sem > 0 && n == 9
    ensures LocalRun(m, t, Looping(LoopPC.Test), n) == Some(Move(Looping(LoopPC.Test), Consumed(m)))
  {
    hide Local, LocalRun;
    ClaimLocally(m, t);
    LocalRunConcat(m, t, Looping(LoopPC.Test), 3, n - 3);
    PopAndCallLocally(m.(sem := m.sem - 1), t);
  }

  lemma PopAndCallLocally(m: Memory, t: Tid)
    requires m.mtx == None && m.q != []
    ensures LocalRun(m, t, Looping(QLock), 6)
         == Some(Move(Looping(LoopPC.Test), Popped(m).(started := m.started + [m.q[|m.q| - 1]])))
  {
    hide Local, LocalRun;
    PopLocally(m, t);
    LocalRunConcat(m, t, Looping(QLock), 3, 3);
    CallLocally(Popped(m).(mtx := Some(t)), t, m.q[|m.q| - 1]);
  }

  lemma EnterLocally(m: Memory, t: Tid)
    requires m.runOwner == None && m.runShared == {}
    ensures LocalRun(m, t, Looping(LoopPC.Lock), 2)
         == Some(Move(Looping(LoopPC.Test), m.(runOwner := Some(t), running := true)))
  {
    var m1 := m.(runOwner := Some(t));
    assert LocalRun(m1, t, Looping(SetRunning), 1)
        == Some(Move(Looping(LoopPC.Test), m1.(running := true)));
  }

  // ----- the documented order is not kept

  lemma ReachableAfter(s: State, evs: seq<Event>)
    requires Reachable(s) && RunFrom(s, evs).Some?
    ensures Reachable(RunFrom(s, evs).value)
  {
    var init, before :| Init(init) && RunFrom(init, before) == Some(s);
    RunFromConcat(init, before, evs);
    assert RunFrom(init, before + evs) == RunFrom(s, evs);
  }

  /** A thread starts the queue: the consumer `u` exists. */
  lemma StartRun(s: State, t: Tid, u: Tid)
    requires t in s.pc && Resting(s.pc[t]) && u !in s.pc && !s.m.starting
    ensures RunFrom(s, [Event(t, Call(Starting(StartPC.Set))), Event(t, Go), Event(t, Child(u))])
         == Some(State(s.m.(starting := true), s.pc[t := Idle][u := Looping(LoopPC.Lock)]))
  {
    var s1 := State(s.m, s.pc[t := Starting(StartPC.Set)]);
    var s2 := State(s.m.(starting := true), s.pc[t := Starting(Spawn)]);
    var s3 := State(s2.m, s.pc[t := Idle][u := Looping(LoopPC.Lock)]);
    assert s1.pc[t := Starting(Spawn)] == s2.pc;
    assert s2.pc[t := Idle][u := Looping(LoopPC.Lock)] == s3.pc;
    assert Step(s, t, Call(Starting(StartPC.Set))) == Some(s1);
    assert Step(s1, t, Go) == Some(s2);
    assert Step(s2, t, Child(u)) == Some(s3);
    assert RunFrom(s2, [Event(t, Child(u))]) == Some(s3);
    assert RunFrom(s1, [Event(t, Go), Event(t, Child(u))]) == Some(s3);
  }

  lemma PushReaches(s: State, t: Tid, fn: Fn)
    requires Reachable(s) && t in s.pc && s.pc[t] == Idle && s.m.mtx == None && !s.m.stopping
    ensures Reachable(State(Pushed(s.m, fn), s.pc))
  {
    PushLocally(s.m, t, fn);
    CallAloneRun(s, t, Pushing(PushPC.Test(fn)), 5);
    assert s.pc[t := Idle] == s.pc;
    ReachableAfter(s, CallAlone(t, Pushing(PushPC.Test(fn)), 5));
  }

  lemma StartReaches(s: State, t: Tid, u: Tid)
    requires Reachable(s) && t in s.pc && s.pc[t] == Idle && u !in s.pc && !s.m.starting
    ensures Reachable(State(s.m.(starting := true), s.pc[u := Looping(LoopPC.Lock)]))
  {
    StartRun(s, t, u);
    assert s.pc[t := Idle] == s.pc;
    ReachableAfter(s, [Event(t, Call(Starting(StartPC.Set))), Event(t, Go), Event(t, Child(u))]);
  }

  lemma LocalRunReaches(s: State, t: Tid, n: nat)
    requires Reachable(s) && t in s.pc && LocalRun(s.m, t, s.pc[t], n).Some?
    ensures var v := LocalRun(s.m, t, s.pc[t], n).value;
            Reachable(State(v.m, s.pc[t := v.pc]))
  {
    assert s == State(s.m, s.pc[t := s.pc[t]]);
    LocalRunIsRun(s.m, s.pc, t, s.pc[t], n);
    ReachableAfter(s, Steps(t, n));
  }

  /** A new queue in a release build, with one idle thread. */
  const NEW_MEMORY := Memory(false, [], None, 0, false, false, false, None, {}, [], [], [], [], false, 0)

  /** Two pushes, then a consumer in its loop. */
  lemma TwoWaiting(older: Fn, newer: Fn) returns (s: State)
    ensures Reachable(s) && s.pc == map[0 := Idle, 1 := Looping(LoopPC.Test)]
    ensures s.m == Pushed(Pushed(NEW_MEMORY, older), newer).(starting := true, running := true, runOwner := Some(1))
  {
    var m0, pc := NEW_MEMORY, map[0 := Idle];
    assert RunFrom(State(m0, pc), []) == Some(State(m0, pc));
    PushReaches(State(m0, pc), 0, older);
    var m1 := Pushed(m0, older);
    PushReaches(State(m1, pc), 0, newer);
    var m2 := Pushed(m1, newer);
    StartReaches(State(m2, pc), 0, 1);
    var m3 := m2.(starting := true);
    EnterLocally(m3, 1);
    LocalRunReaches(State(m3, pc[1 := Looping(LoopPC.Lock)]), 1, 2);
    s := State(m3.(runOwner := Some(1), running := true),
               pc[1 := Looping(LoopPC.Lock)][1 := Looping(LoopPC.Test)]);
  }

  lemma ConsumeReaches(s: State, t: Tid) returns (s': State)
    requires Reachable(s) && t in s.pc && s.pc[t] == Looping(LoopPC.Test)
    requires s.m.mtx == None && !s.m.stopping && s.m.q != [] && s.m.sem > 0
    ensures Reachable(s') && t in s'.pc && s'.pc[t] == Looping(LoopPC.Test) && s'.m == Consumed(s.m)
  {
    ConsumeLocally(s.m, t, 9);
    LocalRunReaches(s, t, 9);
    s' := State(Consumed(s.m), s.pc[t := Looping(LoopPC.Test)]);
  }

  /** Two items pushed before the consumer's first pop run newest first. */
  lemma NewestFirstRun(older: Fn, newer: Fn) returns (s: State)
    ensures Reachable(s) && s.m.q == []
    ensures s.m.pushed == [Entry(0, older), Entry(1, newer)]
    ensures s.m.started == [Entry(1, newer), Entry(0, older)]
  {
    var s0 := TwoWaiting(older, newer);
    assert s0.m.q == [Entry(0, older), Entry(1, newer)];
    var s1 := ConsumeReaches(s0, 1);
    assert s1.m.q == [Entry(0, older)];
    s := ConsumeReaches(s1, 1);
  }

  /** The documented order fails. */
  lemma FifoFails()
    ensures exists s :: Reachable(s) && !(s.m.started <= s.m.pushed)
  {
    var s := NewestFirstRun(7, 8);
    assert s.m.started[0] != s.m.pushed[0];
  }

  // ----- push after stop

  predicate AppendsFewer(m: Memory, p: PC, v: Move) {
    && v.m.debug && v.m.stopping
    && |v.m.pushed| + Weight(WillAppend, v.pc) <= |m.pushed| + Weight(WillAppend, p)
  }

  lemma AppendsMove(m: Memory, t: Tid, p: PC, c: Choice, v: Move)
    requires m.debug && m.stopping && Local(m, t, p, c) == Some(v)
    ensures AppendsFewer(m, p, v)
  {
    match p
    case Pushing(pp) =>
    case Asking(pp) => AskAppendsNothing(m, t, pp, c, v);
    case Looping(pp) => LoopAppendsNothing(m, t, pp, v);
    case _ =>
  }

  lemma AskAppendsNothing(m: Memory, t: Tid, p: AskPC, c: Choice, v: Move)
    requires m.debug && m.stopping && AskStep(m, t, p, c) == Some(v)
    ensures AppendsFewer(m, Asking(p), v)
  {
  }

  lemma LoopAppendsNothing(m: Memory, t: Tid, p: LoopPC, v: Move)
    requires m.debug && m.stopping && LoopStep(m, t, p) == Some(v)
    ensures AppendsFewer(m, Looping(p), v)
  {
  }

  /** In a debug build, once stop is requested only pushes already past their test still append. */
  lemma {:induction false} DebugAppendsBounded(s: State, evs: seq<Event>)
    requires s.m.debug && s.m.stopping && RunFrom(s, evs).Some?
    ensures var s' := RunFrom(s, evs).value;
            |s'.m.pushed| + Count(s'.pc, WillAppend) <= |s.m.pushed| + Count(s.pc, WillAppend)
    decreases |evs|
  {
    if evs != [] {
      var t, c := evs[0].t, evs[0].c;
      var s1 := Step(s, t, c).value;
      var v := Local(s.m, t, s.pc[t], c).value;
      AppendsMove(s.m, t, s.pc[t], c, v);
      CountUpdate(s.pc, t, v.pc, WillAppend);
      if s.pc[t] == Starting(Spawn) {
        CountUpdate(s.pc[t := v.pc], c.child, Looping(LoopPC.Lock), WillAppend);
      }
      DebugAppendsBounded(s1, evs[1..]);
    }
  }
}
