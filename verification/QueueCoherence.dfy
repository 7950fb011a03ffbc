/**
 The shared callback queue feeding one characteristic: the changes of its device are pushed as
 notifications among the closures of every other object, and the notifications that the queue
 begins are recorded.
 */
module QueueCoherence {
  import opened Common
  import opened ByteStrings
  import opened RubyQueue
  import opened RubyQueueInvariant
  import opened RubyQueueTheorems
  import opened RubyQueueRuns
  import opened QueueShares
  import C = Characteristic

  /** What a closure is: a notification of the characteristic with its bytes, or None for a closure
      of another object and for an indication, which records nothing. */
  type Payload = Fn -> Option<Bytes>

  function OwnOf(payload: Payload): Share { (fn: Fn) => payload(fn).Some? }

  /** History: which recording gave the stored value. A callback's, by the position of its push; or a
      device read's, made when that many closures had been pushed. */
  datatype Origin = Nothing | FromCallback(ticket: nat) | FromDevice(pushes: nat)

  /** The queue, the characteristic's tracker, the device's present value, and the history. */
  datatype System = System(s: State, k: C.Tracker, device: Bytes, origin: Origin)

  /** A step of some thread in the queue, or of a client on the characteristic. */
  datatype Act = InQueue(e: Event) | Read(force: bool) | Switch(on: bool)

  /** The append of a notification is a change of the device; beginning its callback records it. */
  function SystemStep(y: System, a: Act, payload: Payload): Option<System> {
    match a
    case Read(force) =>
      var recorded := y.k.Tracking() && !C.FromCache(y.k, force);
      Some(y.(k := C.Apply(y.k, C.Op.Read(force, y.device)),
              origin := if recorded then FromDevice(|y.s.m.pushed|) else y.origin))
    case Switch(on) =>
      var k := C.Apply(y.k, C.Op.Switch(on));
      Some(y.(k := k, origin := if k.value.Some? then y.origin else Nothing))
    case InQueue(e) =>
      match Step(y.s, e.t, e.c)
      case None => None
      case Some(s') => Some(Fed(y, s', payload))
  }

  /** The characteristic and the device after the queue's step to `s'`. */
  function Fed(y: System, s': State, payload: Payload): System {
    var m, m' := y.s.m, s'.m;
    if |m'.started| > |m.started| && payload(m'.started[|m'.started| - 1].fn).Some? then
      var e := m'.started[|m'.started| - 1];
      System(s', C.Apply(y.k, C.Notify(payload(e.fn).value)), y.device,
             if y.k.Tracking() then FromCallback(e.ticket) else y.origin)
    else if |m'.pushed| > |m.pushed| && payload(m'.pushed[|m'.pushed| - 1].fn).Some? then
      System(s', y.k, payload(m'.pushed[|m'.pushed| - 1].fn).value, y.origin)
    else
      y.(s := s')
  }

  function SystemRun(y: System, acts: seq<Act>, payload: Payload): Option<System>
    decreases |acts|
  {
    if acts == [] then Some(y)
    else match SystemStep(y, acts[0], payload)
      case None => None
      case Some(y') => SystemRun(y', acts[1..], payload)
  }

  /** A new queue and a new characteristic that has subscribed. */
  predicate SystemInit(y: System) { Init(y.s) && y.k == C.NewTracker(true) && y.origin == Nothing }

  /** What a read answers. */
  function AnswerTo(y: System, force: bool): Bytes {
    if C.FromCache(y.k, force) then y.k.value.value else y.device
  }

  /** What an unforced read answers. */
  function ReadAnswer(y: System): Bytes { AnswerTo(y, false) }

  /** The value that the last notification of `es` carries, or `d0` without one. */
  function ValueAfter(d0: Bytes, es: seq<Entry>, payload: Payload): Bytes {
    var r := Latest(es, OwnOf(payload));
    if r < 0 then d0 else payload(es[r].fn).value
  }

  // ----- where the stored value comes from

  /** The stored value is what its origin carries, and every recording since has left it. */
  ghost predicate OriginFits(m: Memory, k: C.Tracker, origin: Origin, d0: Bytes, payload: Payload) {
    match origin
    case Nothing => k.value == None
    case FromCallback(i) =>
      var b := Latest(m.started, OwnOf(payload));
      b >= 0 && m.started[b].ticket == i < |m.pushed| && k.value == payload(m.pushed[i].fn) != None
    case FromDevice(n) =>
      && n <= |m.pushed| && k.value == Some(ValueAfter(d0, m.pushed[..n], payload))
      && forall i :: 0 <= i < |m.started| && payload(m.started[i].fn).Some? ==> m.started[i].ticket < n
  }

  ghost predicate Told(m: Memory, k: C.Tracker, device: Bytes, origin: Origin, d0: Bytes, payload: Payload) {
    && C.Sound(k) && device == ValueAfter(d0, m.pushed, payload)
    && OriginFits(m, k, origin, d0, payload)
  }

  ghost predicate Tied(y: System, d0: Bytes, payload: Payload) {
    Inv(y.s) && Told(y.s.m, y.k, y.device, y.origin, d0, payload)
  }

  lemma LatestAppend(es: seq<Entry>, e: Entry, own: Share)
    ensures Latest(es + [e], own) == if own(e.fn) then |es| else Latest(es, own)
  {
    assert (es + [e])[..|es|] == es;
  }

  lemma ToldRead(m: Memory, k: C.Tracker, device: Bytes, origin: Origin, force: bool, d0: Bytes, payload: Payload)
    requires Told(m, k, device, origin, d0, payload)
    requires forall i :: 0 <= i < |m.started| ==> m.started[i].ticket < |m.pushed|
    ensures var recorded := k.Tracking() && !C.FromCache(k, force);
            Told(m, C.Apply(k, C.Op.Read(force, device)), device,
                 if recorded then FromDevice(|m.pushed|) else origin, d0, payload)
  {
    assert m.pushed[..|m.pushed|] == m.pushed;
  }

  lemma ToldAppend(m: Memory, m': Memory, k: C.Tracker, device: Bytes, origin: Origin, d0: Bytes, payload: Payload)
    requires Told(m, k, device, origin, d0, payload) && Appends(m, m') && m'.started == m.started
    ensures Told(m', k, ValueAfter(d0, m'.pushed, payload), origin, d0, payload)
  {
    if origin.FromDevice? {
      assert m'.pushed[..origin.pushes] == m.pushed[..origin.pushes];
    }
  }

  lemma ValueAppend(d0: Bytes, es: seq<Entry>, e: Entry, payload: Payload)
    ensures ValueAfter(d0, es + [e], payload)
         == if payload(e.fn).Some? then payload(e.fn).value else ValueAfter(d0, es, payload)
  {
    LatestAppend(es, e, OwnOf(payload));
  }

  lemma ToldBegin(m: Memory, m': Memory, k: C.Tracker, device: Bytes, origin: Origin, d0: Bytes, payload: Payload)
    requires Told(m, k, device, origin, d0, payload) && Begins(m, m')
    requires var e := m'.started[|m.started|]; e.ticket < |m.pushed| && m.pushed[e.ticket] == e
    ensures var e := m'.started[|m.started|];
            if payload(e.fn).Some? then
              Told(m', C.Apply(k, C.Notify(payload(e.fn).value)), device,
                   if k.Tracking() then FromCallback(e.ticket) else origin, d0, payload)
            else Told(m', k, device, origin, d0, payload)
  {
    LatestAppend(m.started, m'.started[|m.started|], OwnOf(payload));
    assert forall i :: 0 <= i < |m.started| ==> m'.started[i] == m.started[i];
  }

  lemma ToldFed(y: System, s': State, d0: Bytes, payload: Payload)
    requires Told(y.s.m, y.k, y.device, y.origin, d0, payload) && ItemsMove(y.s.m, s'.m)
    requires forall i :: 0 <= i < |s'.m.started| ==>
      s'.m.started[i].ticket < |s'.m.pushed| && s'.m.pushed[s'.m.started[i].ticket] == s'.m.started[i]
    ensures var y' := Fed(y, s', payload); Told(s'.m, y'.k, y'.device, y'.origin, d0, payload)
  {
    var m, m' := y.s.m, s'.m;
    if Begins(m, m') {
      ToldBegin(m, m', y.k, y.device, y.origin, d0, payload);
    } else if Appends(m, m') {
      ValueAppend(d0, m.pushed, m'.pushed[|m.pushed|], payload);
      ToldAppend(m, m', y.k, y.device, y.origin, d0, payload);
    }
  }

  lemma BegunWerePushed(s: State)
    requires Inv(s)
    ensures forall i :: 0 <= i < |s.m.started| ==>
      s.m.started[i].ticket < |s.m.pushed| && s.m.pushed[s.m.started[i].ticket] == s.m.started[i]
  {
    forall i | 0 <= i < |s.m.started|
      ensures s.m.started[i].ticket < |s.m.pushed| && s.m.pushed[s.m.started[i].ticket] == s.m.started[i]
    {
      StartedWasPushed(s, i);
    }
  }

  lemma TiedInQueue(y: System, e: Event, d0: Bytes, payload: Payload)
    requires Tied(y, d0, payload) && Step(y.s, e.t, e.c).Some?
    ensures Tied(Fed(y, Step(y.s, e.t, e.c).value, payload), d0, payload)
  {
    hide Inv, Step, Told, ItemsMove;
    var s' := Step(y.s, e.t, e.c).value;
    StepKeepsInv(y.s, e.t, e.c);
    StepItems(y.s, e.t, e.c);
    BegunWerePushed(s');
    ToldFed(y, s', d0, payload);
  }

  lemma TiedStep(y: System, a: Act, d0: Bytes, payload: Payload)
    requires Tied(y, d0, payload) && SystemStep(y, a, payload).Some?
    ensures Tied(SystemStep(y, a, payload).value, d0, payload)
  {
    hide Inv, Step;
    match a
    case Read(force) =>
      BegunWerePushed(y.s);
      ToldRead(y.s.m, y.k, y.device, y.origin, force, d0, payload);
    case Switch(_) =>
    case InQueue(e) => TiedInQueue(y, e, d0, payload);
  }

  lemma {:induction false} KeepsTied(y: System, acts: seq<Act>, d0: Bytes, payload: Payload)
    requires Tied(y, d0, payload) && SystemRun(y, acts, payload).Some?
    ensures Tied(SystemRun(y, acts, payload).value, d0, payload)
    decreases |acts|
  {
    if acts != [] {
      TiedStep(y, acts[0], d0, payload);
      KeepsTied(SystemStep(y, acts[0], payload).value, acts[1..], d0, payload);
    }
  }

  lemma InitTied(y: System, payload: Payload)
    requires SystemInit(y)
    ensures Tied(y, y.device, payload)
  {
    InitInv(y.s);
  }

  // ----- exactly when the cached read is right

  /** What the recording that gave the stored value carried is what the device holds now. */
  predicate OriginCurrent(m: Memory, origin: Origin, d0: Bytes, payload: Payload) {
    match origin
    case Nothing => true
    case FromCallback(i) => i < |m.pushed| && payload(m.pushed[i].fn) == Some(ValueAfter(d0, m.pushed, payload))
    case FromDevice(n) => n <= |m.pushed| && ValueAfter(d0, m.pushed[..n], payload) == ValueAfter(d0, m.pushed, payload)
  }

  /** On every interleaving of all threads and clients, with closures of other objects among the
      notifications: an unforced read is right if and only if the last recording carried what the last
      pushed notification carries. */
  lemma CachedReadExactly(y: System, acts: seq<Act>, payload: Payload)
    requires SystemInit(y) && SystemRun(y, acts, payload).Some?
    ensures var y' := SystemRun(y, acts, payload).value;
            ReadAnswer(y') == y'.device <==> OriginCurrent(y'.s.m, y'.origin, y.device, payload)
  {
    InitTied(y, payload);
    KeepsTied(y, acts, y.device, payload);
  }

  /** Every notification carries a value that the device did not have before. */
  ghost predicate AllDifferent(d0: Bytes, es: seq<Entry>, payload: Payload) {
    && (forall i :: 0 <= i < |es| ==> payload(es[i].fn) != Some(d0))
    && (forall i, j :: 0 <= i < j < |es| && payload(es[i].fn).Some? ==> payload(es[i].fn) != payload(es[j].fn))
  }

  /** The last recording was a callback's, of the last pushed notification, or a device read's made
      after every notification was pushed; or nothing is stored. */
  predicate OriginNewest(m: Memory, origin: Origin, payload: Payload) {
    var p := Latest(m.pushed, OwnOf(payload));
    match origin
    case Nothing => true
    case FromCallback(i) => i == p
    case FromDevice(n) => p < n
  }

  lemma LatestOfPrefix(es: seq<Entry>, n: nat, own: Share)
    requires n <= |es|
    ensures Latest(es, own) < n ==> Latest(es[..n], own) == Latest(es, own)
  {
    assert forall i :: 0 <= i < n ==> es[..n][i] == es[i];
  }

  /** So whatever the values: the newest recording always suffices, and for values that differ
      nothing less does. */
  lemma CachedReadForAllValues(y: System, acts: seq<Act>, payload: Payload)
    requires SystemInit(y) && SystemRun(y, acts, payload).Some?
    ensures var y' := SystemRun(y, acts, payload).value;
            && (OriginNewest(y'.s.m, y'.origin, payload) ==> ReadAnswer(y') == y'.device)
            && (AllDifferent(y.device, y'.s.m.pushed, payload) && ReadAnswer(y') == y'.device ==>
                  OriginNewest(y'.s.m, y'.origin, payload))
  {
    hide Inv, Step, SystemStep;
    InitTied(y, payload);
    KeepsTied(y, acts, y.device, payload);
    var y' := SystemRun(y, acts, payload).value;
    if y'.origin.FromDevice? {
      LatestOfPrefix(y'.s.m.pushed, y'.origin.pushes, OwnOf(payload));
    }
  }

  /** On every run a forced read answers what the device holds. It changes nothing but the record, and
      while tracking is on a cached read just after it is right, and answered from the cache. */
  lemma ForcedReadIsRight(y: System, acts: seq<Act>, payload: Payload)
    requires SystemInit(y) && SystemRun(y, acts, payload).Some?
    ensures var y' := SystemRun(y, acts, payload).value;
            var y'' := SystemStep(y', Read(true), payload).value;
            && AnswerTo(y', true) == y'.device == ValueAfter(y.device, y'.s.m.pushed, payload)
            && y''.device == y'.device && y''.s == y'.s && ReadAnswer(y'') == y'.device
            && (y'.k.Tracking() ==> y''.k.value == Some(y'.device))
            && (!y'.k.Tracking() ==> y''.k == y'.k)
  {
    InitTied(y, payload);
    KeepsTied(y, acts, y.device, payload);
    TiedForced(SystemRun(y, acts, payload).value, y.device, payload);
  }

  lemma TiedForced(y: System, d0: Bytes, payload: Payload)
    requires Tied(y, d0, payload)
    ensures var y' := SystemStep(y, Read(true), payload).value;
            && AnswerTo(y, true) == y.device == ValueAfter(d0, y.s.m.pushed, payload)
            && y'.device == y.device && y'.s == y.s && ReadAnswer(y') == y.device
            && (y.k.Tracking() ==> y'.k.value == Some(y.device)) && (!y.k.Tracking() ==> y'.k == y.k)
  {
    hide Inv, Step;
  }

  // ----- without clients

  predicate QueueOnly(acts: seq<Act>) { forall i :: 0 <= i < |acts| ==> acts[i].InQueue? }

  /** Only callbacks record, and each does. */
  ghost predicate CallbacksOnly(y: System, payload: Payload) {
    var b := Latest(y.s.m.started, OwnOf(payload));
    && y.k.Tracking()
    && y.origin == if b < 0 then Nothing else FromCallback(y.s.m.started[b].ticket)
  }

  lemma {:induction false} KeepsCallbacksOnly(y: System, acts: seq<Act>, payload: Payload)
    requires Inv(y.s) && CallbacksOnly(y, payload) && QueueOnly(acts) && SystemRun(y, acts, payload).Some?
    ensures CallbacksOnly(SystemRun(y, acts, payload).value, payload)
    decreases |acts|
  {
    hide Inv, Step, CallbacksOnly;
    if acts != [] {
      CallbacksOnlyInQueue(y, acts[0].e, payload);
      assert forall i :: 0 <= i < |acts[1..]| ==> acts[1..][i] == acts[i + 1];
      KeepsCallbacksOnly(SystemStep(y, acts[0], payload).value, acts[1..], payload);
    }
  }

  lemma CallbacksOnlyInQueue(y: System, e: Event, payload: Payload)
    requires Inv(y.s) && CallbacksOnly(y, payload) && Step(y.s, e.t, e.c).Some?
    ensures var y' := Fed(y, Step(y.s, e.t, e.c).value, payload); Inv(y'.s) && CallbacksOnly(y', payload)
  {
    hide Inv, Step, CallbacksOnly, ItemsMove;
    StepKeepsInv(y.s, e.t, e.c);
    StepItems(y.s, e.t, e.c);
    CallbacksOnlyStep(y, Step(y.s, e.t, e.c).value, payload);
  }

  lemma CallbacksOnlyStep(y: System, s': State, payload: Payload)
    requires CallbacksOnly(y, payload) && ItemsMove(y.s.m, s'.m)
    ensures CallbacksOnly(Fed(y, s', payload), payload)
  {
    var m, m' := y.s.m, s'.m;
    if Begins(m, m') {
      assert forall i :: 0 <= i < |m.started| ==> m'.started[i] == m.started[i];
    }
  }

  /** Without reads and switches the cached read is right exactly when no notification has begun, or
      the last one that began carries what the last one pushed carries. */
  lemma CachedReadExactlyInQueue(y: System, acts: seq<Act>, payload: Payload)
    requires SystemInit(y) && QueueOnly(acts) && SystemRun(y, acts, payload).Some?
    ensures var y' := SystemRun(y, acts, payload).value;
            var m, own := y'.s.m, OwnOf(payload);
            var b, p := Latest(m.started, own), Latest(m.pushed, own);
            && (b >= 0 ==> p >= 0)
            && (ReadAnswer(y') == y'.device <==> b < 0 || payload(m.started[b].fn) == payload(m.pushed[p].fn))
  {
    InitTied(y, payload);
    KeepsTied(y, acts, y.device, payload);
    KeepsCallbacksOnly(y, acts, payload);
    var y' := SystemRun(y, acts, payload).value;
    var b := Latest(y'.s.m.started, OwnOf(payload));
    if b >= 0 { StartedWasPushed(y'.s, b); }
  }

  // ----- when the queue's order makes it right

  function QueueEvents(acts: seq<Act>): seq<Event> {
    if acts == [] then []
    else (if acts[0].InQueue? then [acts[0].e] else []) + QueueEvents(acts[1..])
  }

  lemma {:induction false} SystemRunsQueue(y: System, acts: seq<Act>, payload: Payload)
    requires SystemRun(y, acts, payload).Some?
    ensures RunFrom(y.s, QueueEvents(acts)) == Some(SystemRun(y, acts, payload).value.s)
    decreases |acts|
  {
    if acts != [] {
      SystemRunsQueue(SystemStep(y, acts[0], payload).value, acts[1..], payload);
      if acts[0].InQueue? {
        assert QueueEvents(acts)[1..] == QueueEvents(acts[1..]);
      } else {
        assert QueueEvents(acts) == QueueEvents(acts[1..]);
      }
    }
  }

  /** In the order of its pushes and with everything begun, the recording is the newest. */
  lemma OrderedIsNewest(y: System, d0: Bytes, payload: Payload)
    requires Tied(y, d0, payload) && InOrder(y.s.m, OwnOf(payload)) && AllBegun(y.s.m, OwnOf(payload))
    ensures OriginNewest(y.s.m, y.origin, payload)
  {
    var m, p := y.s.m, Latest(y.s.m.pushed, OwnOf(payload));
    match y.origin
    case Nothing =>
    case FromCallback(_) => LastBegunIsLastPushed(y.s, OwnOf(payload));
    case FromDevice(n) =>
      if p >= 0 {
        var i :| 0 <= i < |m.started| && m.started[i] == m.pushed[p];
      }
  }

  /** On every interleaving of pushers of any closures, consumer, stoppers and clients: if no pop took a
      notification of this characteristic while another one of its notifications waited, and all of
      them have begun, an unforced read answers what the device would. */
  lemma QueuedReadIsCoherent(y: System, acts: seq<Act>, payload: Payload)
    requires SystemInit(y) && SystemRun(y, acts, payload).Some?
    requires NeverCrosses(y.s, QueueEvents(acts), OwnOf(payload))
    requires AllBegun(SystemRun(y, acts, payload).value.s.m, OwnOf(payload))
    ensures var y' := SystemRun(y, acts, payload).value; ReadAnswer(y') == y'.device
  {
    var y' := SystemRun(y, acts, payload).value;
    InitTied(y, payload);
    KeepsTied(y, acts, y.device, payload);
    SystemRunsQueue(y, acts, payload);
    ShareOrderExactly(y.s, QueueEvents(acts), OwnOf(payload));
    OrderedIsNewest(y', y.device, payload);
    CachedReadForAllValues(y, acts, payload);
  }

  // ----- the stale read, on the queue

  function Lifted(evs: seq<Event>): seq<Act> { seq(|evs|, i requires 0 <= i < |evs| => InQueue(evs[i])) }

  lemma {:induction false} LiftedRun(y: System, evs: seq<Event>, payload: Payload)
    requires RunFrom(y.s, evs).Some?
    ensures SystemRun(y, Lifted(evs), payload).Some?
    ensures SystemRun(y, Lifted(evs), payload).value.s == RunFrom(y.s, evs).value
    decreases |evs|
  {
    if evs != [] {
      assert Lifted(evs)[1..] == Lifted(evs[1..]);
      LiftedRun(SystemStep(y, Lifted(evs)[0], payload).value, evs[1..], payload);
    }
  }

  /** A run without clients in which the queue runs two notifications newest first. */
  lemma TwoNotifications(payload: Payload, older: Fn, newer: Fn) returns (y: System, acts: seq<Act>)
    ensures SystemInit(y) && QueueOnly(acts) && SystemRun(y, acts, payload).Some?
    ensures var m := SystemRun(y, acts, payload).value.s.m;
            && m.q == [] && m.pushed == [Entry(0, older), Entry(1, newer)]
            && m.started == [Entry(1, newer), Entry(0, older)]
  {
    hide Step, Inv, Init, SystemStep;
    var s := NewestFirstRun(older, newer);
    var init, evs :| Init(init) && RunFrom(init, evs) == Some(s);
    y := System(init, C.NewTracker(true), [], Nothing);
    acts := Lifted(evs);
    LiftedRun(y, evs, payload);
  }

  /** For every two different values: a run of the queue in which both notifications have begun and
      nothing waits, after which the cache holds the older value. */
  lemma StaleOnTheQueue(payload: Payload, older: Fn, newer: Fn)
    requires payload(older).Some? && payload(newer).Some? && payload(older) != payload(newer)
    ensures exists y, acts ::
      && SystemInit(y) && SystemRun(y, acts, payload).Some?
      && var y' := SystemRun(y, acts, payload).value;
         && y'.s.m.q == [] && AllBegun(y'.s.m, OwnOf(payload))
         && Some(ReadAnswer(y')) == payload(older) && Some(y'.device) == payload(newer)
  {
    hide Step, Inv, Init, SystemStep;
    var y, acts := TwoNotifications(payload, older, newer);
    InitTied(y, payload);
    KeepsTied(y, acts, y.device, payload);
    InitRuns(y);
    KeepsCallbacksOnly(y, acts, payload);
    var m := SystemRun(y, acts, payload).value.s.m;
    assert Latest(m.pushed, OwnOf(payload)) == 1;
    assert Latest(m.started, OwnOf(payload)) == 1;
  }

  lemma InitRuns(y: System)
    requires SystemInit(y)
    ensures Inv(y.s) && y.s.m.started == []
  {
    InitInv(y.s);
  }
}
