/**
 The cross-thread callback queue as an interleaving transition system.

 Any number of threads run the public operations; every atomic-flag, mutex and
 semaphore operation is one step. A thread's program counter names the operation
 it performs next. The flags are sequentially consistent, so interleaving is exact.
 */
module RubyQueue {
  import opened Common

  type Tid = nat

  /** A callback closure, by identity. */
  type Fn = nat

  /** A queued closure together with the position of its push in the push order. */
  datatype Entry = Entry(ticket: nat, fn: Fn)

  /** Who called `stop`. */
  datatype Stopper = Client | AtExit | InKill

  /** Who called `running`: a client, `stopped`, or one of the two checks in `stop_on_exit`. */
  datatype Asker = AskRunning | AskStopped | AskExit | AskExitPoll

  /** Inside `push`. */
  datatype PushPC = Test(fn: Fn) | Lock(fn: Fn) | Append(fn: Fn) | Unlock | Release

  /** Inside `stop`. */
  datatype StopPC = Set(caller: Stopper) | Release(caller: Stopper)

  /** Inside `stopped`, `running`, and the waiting loop of `stop_on_exit`. */
  datatype AskPC =
    | StopTest(who: Asker) | Test(who: Asker) | TryLock(who: Asker)
    | Clear(who: Asker) | Unlock(who: Asker) | Result(who: Asker, value: bool)
    | Kill

  /** Inside `start`. */
  datatype StartPC = Set | Spawn

  /** Inside `loop`. */
  datatype LoopPC =
    | Lock | SetRunning | Test | Acquire | Retest
    | QLock | Back | PopBack(entry: Entry) | QUnlock(entry: Entry)
    | Gvl(entry: Entry) | Callback(entry: Entry)
    | Clear | Unlock | Done

  datatype PC =
    | Idle
    | Answer(who: Asker, value: bool)   // running or stopped has returned
    | ExitReturned                      // stop_on_exit has returned without killing
    | Killing                           // handed over to the Ruby VM
    | Pushing(push: PushPC)
    | Stopping(stop: StopPC)
    | Asking(ask: AskPC)
    | Starting(start: StartPC)
    | Looping(at: LoopPC)

  /** The fields of the queue object, and what happened to it so far. */
  datatype Memory = Memory(
    debug: bool,
    q: seq<Entry>,
    mtx: Option<Tid>,
    sem: nat,
    starting: bool,
    stopping: bool,
    running: bool,
    runOwner: Option<Tid>,   // exclusive holder of _run_mtx
    runShared: set<Tid>,     // shared holders of _run_mtx
    // history
    pushed: seq<Entry>,      // in the order of emplace_back
    popped: seq<Entry>,      // in the order of pop_back
    depths: seq<nat>,        // queue length seen by each pop
    started: seq<Entry>,     // callbacks whose execution began
    stopReleased: bool,      // stop's release has happened
    forfeited: nat           // tokens acquired by the consumer and given up by break
  )

  datatype State = State(m: Memory, pc: map<Tid, PC>)

  /** The effect of one step: the thread's next program point and the new memory. */
  datatype Move = Move(pc: PC, m: Memory)

  /** What the scheduler decides: an idle thread's next call, a failing try_lock, a timeout,
      the identity of a new thread; `Go` everywhere else. */
  datatype Choice = Go | Call(entry: PC) | Spurious | TimedOut | Child(child: Tid)

  datatype Event = Event(t: Tid, c: Choice)

  predicate EntryPoint(p: PC) {
    || (p.Pushing? && p.push.Test?)
    || p == Stopping(StopPC.Set(Client)) || p == Stopping(StopPC.Set(AtExit))
    || p == Asking(StopTest(AskStopped)) || p == Asking(AskPC.Test(AskRunning))
    || p == Starting(StartPC.Set)
  }

  function PushStep(m: Memory, t: Tid, p: PushPC): Option<Move> {
    match p
    case Test(fn) =>
      // the refusal returns in debug builds only
      Some(Move(if m.stopping && m.debug then Idle else Pushing(PushPC.Lock(fn)), m))
    case Lock(fn) =>
      if m.mtx.Some? then None else Some(Move(Pushing(Append(fn)), m.(mtx := Some(t))))
    case Append(fn) =>
      var e := Entry(|m.pushed|, fn);
      Some(Move(Pushing(PushPC.Unlock), m.(q := m.q + [e], pushed := m.pushed + [e])))
    case Unlock => Some(Move(Pushing(PushPC.Release), m.(mtx := None)))
    case Release => Some(Move(Idle, m.(sem := m.sem + 1)))
  }

  /** Where `stop` returns to. */
  function AfterStop(caller: Stopper): PC {
    match caller
    case Client => Idle
    case AtExit => Asking(StopTest(AskExit))
    case InKill => Killing
  }

  function StopStep(m: Memory, t: Tid, p: StopPC): Option<Move> {
    match p
    case Set(caller) =>
      Some(Move(if m.stopping then AfterStop(caller) else Stopping(StopPC.Release(caller)),
                m.(stopping := true)))
    case Release(caller) =>
      Some(Move(AfterStop(caller), m.(sem := m.sem + 1, stopReleased := true)))
  }

  /** What the caller of `running` does with its result. */
  function AfterRunning(who: Asker, value: bool, timedOut: bool): PC {
    match who
    case AskRunning => Answer(AskRunning, value)
    case AskStopped => Answer(AskStopped, !value)
    case AskExit => if value then Asking(AskPC.Test(AskExitPoll)) else ExitReturned
    case AskExitPoll =>
      // wait_until: done when the predicate holds or time is up; its result is the predicate's
      if !value then ExitReturned
      else if timedOut then Asking(Kill)
      else Asking(AskPC.Test(AskExitPoll))
  }

  function AskStep(m: Memory, t: Tid, p: AskPC, c: Choice): Option<Move> {
    match p
    case StopTest(who) =>
      Some(Move(if m.stopping then Asking(AskPC.Test(who))
                else if who == AskExit then Asking(AskPC.Test(AskExitPoll))
                else Answer(AskStopped, false), m))
    case Test(who) =>
      Some(Move(Asking(if m.running then TryLock(who) else Result(who, false)), m))
    case TryLock(who) =>
      if c == Spurious || m.runOwner.Some? then Some(Move(Asking(Result(who, true)), m))
      else Some(Move(Asking(AskPC.Clear(who)), m.(runShared := m.runShared + {t})))
    case Clear(who) => Some(Move(Asking(AskPC.Unlock(who)), m.(running := false)))
    case Unlock(who) => Some(Move(Asking(Result(who, false)), m.(runShared := m.runShared - {t})))
    case Result(who, value) => Some(Move(AfterRunning(who, value, c == TimedOut), m))
    case Kill => Some(Move(Stopping(StopPC.Set(InKill)), m))
  }

  /** The thread created by a successful `Spawn` is added by `Step`. */
  function StartStep(m: Memory, t: Tid, p: StartPC): Option<Move> {
    match p
    case Set => Some(Move(if m.starting then Idle else Starting(Spawn), m.(starting := true)))
    case Spawn => Some(Move(Idle, m))
  }

  function LoopStep(m: Memory, t: Tid, p: LoopPC): Option<Move> {
    match p
    case Lock =>
      if m.runOwner.Some? || m.runShared != {} then None
      else Some(Move(Looping(SetRunning), m.(runOwner := Some(t))))
    case SetRunning => Some(Move(Looping(LoopPC.Test), m.(running := true)))
    case Test => Some(Move(Looping(if m.stopping then LoopPC.Clear else Acquire), m))
    case Acquire =>
      if m.sem == 0 then None else Some(Move(Looping(Retest), m.(sem := m.sem - 1)))
    case Retest =>
      if m.stopping then Some(Move(Looping(LoopPC.Clear), m.(forfeited := m.forfeited + 1)))
      else Some(Move(Looping(QLock), m))
    case QLock =>
      if m.mtx.Some? then None else Some(Move(Looping(Back), m.(mtx := Some(t))))
    case Back =>
      // back() of an empty deque is undefined: no step
      if m.q == [] then None else Some(Move(Looping(PopBack(m.q[|m.q| - 1])), m))
    case PopBack(e) =>
      if m.q == [] then None
      else Some(Move(Looping(QUnlock(e)), m.(q := m.q[..|m.q| - 1], popped := m.popped + [e],
                                            depths := m.depths + [|m.q|])))
    case QUnlock(e) => Some(Move(Looping(Gvl(e)), m.(mtx := None)))
    case Gvl(e) => Some(Move(Looping(Callback(e)), m.(started := m.started + [e])))
    case Callback(e) => Some(Move(Looping(LoopPC.Test), m))
    case Clear => Some(Move(Looping(LoopPC.Unlock), m.(running := false)))
    case Unlock => Some(Move(Looping(Done), m.(runOwner := None)))
    case Done => None
  }

  /** The step of thread `t` at program point `p`; None when it is blocked or has nothing to do. */
  function Local(m: Memory, t: Tid, p: PC, c: Choice): Option<Move> {
    match p
    case Pushing(pp) => PushStep(m, t, pp)
    case Stopping(pp) => StopStep(m, t, pp)
    case Asking(pp) => AskStep(m, t, pp, c)
    case Starting(pp) => StartStep(m, t, pp)
    case Looping(pp) => LoopStep(m, t, pp)
    case Killing => None
    case _ => if c.Call? && EntryPoint(c.entry) then Some(Move(c.entry, m)) else None
  }

  /** A step creates a thread exactly when `start` won the flag. */
  predicate ChildFits(s: State, p: PC, c: Choice) {
    p == Starting(Spawn) ==> c.Child? && c.child !in s.pc
  }

  function Step(s: State, t: Tid, c: Choice): Option<State> {
    if t !in s.pc || !ChildFits(s, s.pc[t], c) then None else
    match Local(s.m, t, s.pc[t], c)
    case None => None
    case Some(v) =>
      var pc' := s.pc[t := v.pc];
      Some(State(v.m, if s.pc[t] == Starting(Spawn) then pc'[c.child := Looping(LoopPC.Lock)] else pc'))
  }

  /** A new queue object, in a release or a debug build, with any finite set of threads. */
  predicate Init(s: State) {
    && s.m.q == [] && s.m.mtx == None && s.m.sem == 0
    && !s.m.starting && !s.m.stopping && !s.m.running
    && s.m.runOwner == None && s.m.runShared == {}
    && (forall t :: t in s.pc ==> s.pc[t] == Idle)
    && s.m.pushed == [] && s.m.popped == [] && s.m.depths == [] && s.m.started == []
    && !s.m.stopReleased && s.m.forfeited == 0
  }

  /** Runs a schedule; None when some event is not enabled. */
  function RunFrom(s: State, evs: seq<Event>): Option<State>
    decreases |evs|
  {
    if evs == [] then Some(s)
    else match Step(s, evs[0].t, evs[0].c)
      case None => None
      case Some(s1) => RunFrom(s1, evs[1..])
  }

  // ----- classes of program points

  /** A consumer, or a thread that is about to create one. */
  predicate Loopish(p: PC) { p == Starting(Spawn) || p.Looping? }

  predicate HoldsMtx(p: PC) {
    || (p.Pushing? && (p.push.Append? || p.push.Unlock?))
    || (p.Looping? && (p.at.Back? || p.at.PopBack? || p.at.QUnlock?))
  }

  /** Between setting _running and clearing it. */
  predicate InBody(p: PC) {
    p.Looping? && !(p.at.Lock? || p.at.SetRunning? || p.at.Unlock? || p.at.Done?)
  }

  predicate HoldsRunExclusive(p: PC) { p.Looping? && !p.at.Lock? && !p.at.Done? }

  predicate HoldsRunShared(p: PC) { p.Asking? && (p.ask.Clear? || p.ask.Unlock?) }

  /** An owed token that stands for an item still in the deque: appended and not yet released,
      or acquired, past the stop test, and not yet popped. */
  predicate Backed(p: PC) {
    || (p.Pushing? && (p.push.Unlock? || p.push.Release?))
    || (p.Looping? && (p.at.QLock? || p.at.Back? || p.at.PopBack?))
  }

  /** The token is in the accounts but not in the semaphore. */
  predicate Owing(p: PC) { Backed(p) || p == Looping(Retest) }

  /** Popped, callback not begun. */
  predicate InHand(p: PC) { p.Looping? && (p.at.QUnlock? || p.at.Gvl?) }

  /** Past the second stop test, callback not begun. */
  predicate Committed(p: PC) {
    p.Looping? && (p.at.QLock? || p.at.Back? || p.at.PopBack? || p.at.QUnlock? || p.at.Gvl?)
  }

  /** Committed to a callback or executing one. */
  predicate Active(p: PC) { Committed(p) || (p.Looping? && p.at.Callback?) }

  predicate Leaving(p: PC) { p.Looping? && (p.at.Clear? || p.at.Unlock? || p.at.Done?) }

  /** A push that will still append. */
  predicate WillAppend(p: PC) { p.Pushing? && (p.push.Lock? || p.push.Append?) }

  /** `stopped` has returned true, or `stop_on_exit` has returned without killing. */
  predicate ReportsStopped(p: PC) { p == Answer(AskStopped, true) || p.ExitReturned? }

  /** Points at which the answer "stopped" is already determined. */
  predicate SawQuiet(p: PC) {
    || ReportsStopped(p)
    || (p.Asking? && !p.ask.Kill? && p.ask.who != AskRunning
        && (p.ask.Clear? || p.ask.Unlock? || (p.ask.Result? && !p.ask.value)))
  }

  /** Points at which the asker has seen, or has itself set, the stop flag. */
  predicate SawStopping(p: PC) {
    || ReportsStopped(p)
    || (p.Asking? && (p.ask.Kill? || (p.ask.who != AskRunning && p.ask != StopTest(AskStopped))))
    || p == Stopping(StopPC.Set(InKill))
  }

  // ----- counting threads

  function Where(pc: map<Tid, PC>, f: PC -> bool): set<Tid> { set t | t in pc && f(pc[t]) }

  function Count(pc: map<Tid, PC>, f: PC -> bool): nat { |Where(pc, f)| }

  lemma SizeWithout<T>(a: set<T>, t: T)
    ensures |a - {t}| == |a| - (if t in a then 1 else 0)
  {
    if t !in a { assert a - {t} == a; }
  }

  lemma WhereUpdate(pc: map<Tid, PC>, t: Tid, p: PC, f: PC -> bool)
    ensures Where(pc[t := p], f) == Where(pc, f) - {t} + (if f(p) then {t} else {})
  {
  }

  lemma SizeChange<T>(a: set<T>, b: set<T>, t: T)
    requires b == a - {t} + (if t in b then {t} else {})
    ensures |b| == |a| - (if t in a then 1 else 0) + (if t in b then 1 else 0)
  {
    SizeWithout(a, t);
    SizeWithout(b, t);
    assert b - {t} == a - {t};
  }

  lemma CountUpdate(pc: map<Tid, PC>, t: Tid, p: PC, f: PC -> bool)
    ensures Count(pc[t := p], f)
         == Count(pc, f) - (if t in pc && f(pc[t]) then 1 else 0) + (if f(p) then 1 else 0)
  {
    var a, b := Where(pc, f), Where(pc[t := p], f);
    assert t in a <==> t in pc && f(pc[t]);
    assert t in b <==> f(p);
    WhereUpdate(pc, t, p, f);
    SizeChange(a, b, t);
  }

  lemma CountNone(pc: map<Tid, PC>, f: PC -> bool)
    requires forall t :: t in pc ==> !f(pc[t])
    ensures Count(pc, f) == 0
  {
    assert Where(pc, f) == {};
  }
}
