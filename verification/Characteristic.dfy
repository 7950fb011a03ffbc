/**
 Value tracking of a characteristic: the filter that drops notifications which change
 nothing, and the cached value that an unforced read returns.
 */
module Characteristic {
  import opened Arity
  import opened Common
  import opened ByteStrings

  /** The fields of the tracker; `track` is unset until a client sets it. */
  datatype Tracker = Tracker(canNotify: bool, track: Option<bool>, value: Option<Bytes>) {
    predicate Tracking() { track.GetOr(canNotify) }

    /** The recorded value; a missing one counts as empty. */
    function Current(): Bytes { value.GetOr([]) }
  }

  datatype Recorded = Recorded(tracker: Tracker, changed: bool)

  /** What recording `data` means: it is kept when tracking is on, and it is news when tracking
      is off or when it differs from what was recorded before. */
  function Record(k: Tracker, data: Bytes): Recorded {
    if k.Tracking() then Recorded(k.(value := Some(data)), data != k.Current()) else Recorded(k, true)
  }

  function SetTracking(k: Tracker, on: bool): Result<Tracker> {
    if on && !k.canNotify then Err(RuntimeError)
    else Ok(k.(track := Some(on), value := if on then k.value else None))
  }

  /** What happens to a characteristic: a notification reaches it through the queue, a client
      reads it while the device holds `device`, a client switches tracking. */
  datatype Op = Notify(data: Bytes) | Read(force: bool, device: Bytes) | Switch(on: bool)

  predicate FromCache(k: Tracker, force: bool) { !force && k.Tracking() && k.value.Some? }

  function Apply(k: Tracker, op: Op): Tracker {
    match op
    case Notify(data) => Record(k, data).tracker
    case Read(force, device) => if FromCache(k, force) then k else Record(k, device).tracker
    case Switch(on) => (match SetTracking(k, on) case Ok(k') => k' case Err(_) => k)
  }

  /** A notification that is news. */
  predicate Delivers(k: Tracker, op: Op) { op.Notify? && Record(k, op.data).changed }

  /** The tracker and mixed-in reads of `Characteristic`, updated in place. */
  class CharacteristicObject {
    const canNotify: bool
    var trackValues: Option<bool>
    var value: Option<Bytes>
    var onNotify: Option<Callable>   // the callback holder, once there is one

    function View(): Tracker reads this { Tracker(canNotify, trackValues, value) }

    /** A callback is set that is not nil. */
    predicate HasCallback() reads this { onNotify.Some? && !onNotify.value.Nil? }

    constructor (canNotify: bool)
      ensures View() == Tracker(canNotify, None, None) && onNotify == None
    {
      this.canNotify := canNotify;
      trackValues, value, onNotify := None, None, None;
    }

    method ValueTracking() returns (on: bool)
      ensures on == View().Tracking()
    {
      match trackValues
      case Some(b) => on := b;
      case None => on := canNotify;
    }

    method RecordNewValue(data: Bytes) returns (changed: bool)
      modifies this
      ensures Recorded(View(), changed) == Record(old(View()), data)
      ensures onNotify == old(onNotify)
    {
      var tracking := ValueTracking();
      if !tracking { return true; }
      var oldValue := value;
      value := Some(data);
      if oldValue == None { return |data| > 0; }
      changed := !EqualTo(oldValue.value, data);
      EqualToIsEquality(oldValue.value, data);
    }

    method SetValueTracking(on: bool) returns (r: Result<()>)
      modifies this
      ensures match SetTracking(old(View()), on)
              case Ok(k) => View() == k && r == Ok(())
              case Err(e) => View() == old(View()) && r == Err(e)
      ensures r == if on && !canNotify then Err(RuntimeError) else Ok(())
      ensures r.Ok? ==> View().Tracking() == on && value == if on then old(value) else None
    {
      if on && !canNotify {
        return Err(RuntimeError);
      } else if !on {
        value := None;
      }
      trackValues := Some(on);
      return Ok(());
    }

    /** `device` is what the device would answer; `asked` says whether it was asked. */
    method Read(force: bool, device: Bytes) returns (data: Bytes, asked: bool)
      modifies this
      ensures View() == Apply(old(View()), Op.Read(force, device))
      ensures asked <==> force || !old(View()).Tracking() || old(value) == None
      ensures data == if asked then device else old(value).value
      ensures View().Tracking() ==> View().Current() == data
    {
      if !force {
        var tracking := ValueTracking();
        if tracking && value.Some? { return value.value, false; }
      }
      data, asked := device, true;
      var _ := RecordNewValue(data);
    }

    /** `fired` says whether the client's callback, if there is one, is called. */
    method FireOnNotify(data: Bytes) returns (fired: bool)
      modifies this
      ensures View() == Apply(old(View()), Notify(data))
      ensures onNotify == old(onNotify)
      ensures fired <==> HasCallback() && Delivers(old(View()), Notify(data))
    {
      var changed := RecordNewValue(data);
      if !changed { return false; }
      fired := onNotify.Some? && !onNotify.value.Nil?;
    }

    /** A notify callback takes the data and the characteristic. Nil is accepted and stops the calls;
        anything not callable with two arguments throws and leaves the callback as it was. */
    method SetOnNotify(cb: Callable) returns (r: Result<()>)
      modifies this`onNotify
      ensures r.Ok? <==> cb.Nil? || (cb.Proc? && (cb.isLambda ==> CodeAccepts(cb.params, 2)))
      ensures r.Ok? ==> onNotify == Some(cb) && (HasCallback() <==> !cb.Nil?)
      ensures r.Err? ==> r.error == InvalidArgument && onNotify == Some(old(onNotify).GetOr(Nil))
      ensures r.Err? ==> (HasCallback() <==> old(HasCallback()))
    {
      if onNotify.None? { onNotify := Some(Nil); }
      r := AssertAcceptsNArgs(cb, 2, true);
      if r.Ok? { onNotify := Some(cb); }
    }
  }

  /** A new tracker. */
  function NewTracker(canNotify: bool): Tracker { Tracker(canNotify, None, None) }

  function ApplyAll(k: Tracker, ops: seq<Op>): Tracker
    decreases |ops|
  {
    if ops == [] then k else ApplyAll(Apply(k, ops[0]), ops[1..])
  }

  // ----- invariant: a stored value implies tracking, and tracking implies notify

  predicate Sound(k: Tracker) {
    && (k.value.Some? ==> k.Tracking())
    && (k.Tracking() ==> k.canNotify)
  }

  lemma {:induction false} StoredValueIsTracked(canNotify: bool, ops: seq<Op>)
    ensures Sound(ApplyAll(NewTracker(canNotify), ops))
  {
    KeepsSound(NewTracker(canNotify), ops);
  }

  lemma {:induction false} KeepsSound(k: Tracker, ops: seq<Op>)
    requires Sound(k)
    ensures Sound(ApplyAll(k, ops))
    decreases |ops|
  {
    if ops != [] { KeepsSound(Apply(k, ops[0]), ops[1..]); }
  }

  // ----- suppression loses nothing

  /** What a client knows about the value, starting from `known`: it replays the notifications it
      gets and the device reads it makes, and starts over from the empty value when tracking is
      switched off. With `all`, the replay sees the suppressed notifications too. */
  function Replay(k: Tracker, known: Bytes, ops: seq<Op>, all: bool): Bytes
    decreases |ops|
  {
    if ops == [] then known
    else Replay(Apply(k, ops[0]), Learn(k, known, ops[0], all), ops[1..], all)
  }

  function Learn(k: Tracker, known: Bytes, op: Op, all: bool): Bytes {
    match op
    case Notify(data) => if k.Tracking() && (all || Delivers(k, op)) then data else known
    case Read(force, device) => if k.Tracking() && !FromCache(k, force) then device else known
    case Switch(on) => if on then known else []
  }

  lemma {:induction false} ReplayIsCurrent(k: Tracker, ops: seq<Op>, all: bool)
    requires Sound(k)
    ensures Replay(k, k.Current(), ops, all) == ApplyAll(k, ops).Current()
    decreases |ops|
  {
    if ops != [] {
      assert Learn(k, k.Current(), ops[0], all) == Apply(k, ops[0]).Current();
      ReplayIsCurrent(Apply(k, ops[0]), ops[1..], all);
    }
  }

  /** On every run, and so at every prefix of it, replaying only what was delivered or read gives
      the same value as replaying everything, and that value is the recorded one. */
  lemma SuppressionLosesNothing(canNotify: bool, ops: seq<Op>)
    ensures var k := NewTracker(canNotify);
            && Replay(k, [], ops, false) == Replay(k, [], ops, true)
            && Replay(k, [], ops, true) == ApplyAll(k, ops).Current()
  {
    ReplayIsCurrent(NewTracker(canNotify), ops, false);
    ReplayIsCurrent(NewTracker(canNotify), ops, true);
  }

  /** While tracking is on, a notification is delivered exactly when it differs from the value that
      replaying everything so far gives. */
  lemma DeliveredExactlyWhenNew(canNotify: bool, ops: seq<Op>, data: Bytes)
    requires ApplyAll(NewTracker(canNotify), ops).Tracking()
    ensures Delivers(ApplyAll(NewTracker(canNotify), ops), Notify(data))
       <==> data != Replay(NewTracker(canNotify), [], ops, true)
  {
    ReplayIsCurrent(NewTracker(canNotify), ops, true);
  }

  /** Without tracking every notification is delivered, and none is kept. */
  lemma UntrackedIsDelivered(canNotify: bool, ops: seq<Op>, data: Bytes)
    requires !ApplyAll(NewTracker(canNotify), ops).Tracking()
    ensures var k := ApplyAll(NewTracker(canNotify), ops);
            && Delivers(k, Notify(data)) && Apply(k, Notify(data)) == k && k.value == None
  {
    StoredValueIsTracked(canNotify, ops);
  }

  /** A client that does not start over when tracking is switched off: what it last saw stays right
      after a notification, unless that is an empty first notification and the client saw something
      else before. */
  lemma LastSeenStaysRight(k: Tracker, seen: Bytes, data: Bytes)
    requires Sound(k) && (k.value.Some? ==> k.value.value == seen)
    ensures (if Delivers(k, Notify(data)) then data else seen) == data
       <==> !(k.Tracking() && k.value.None? && data == [] && seen != [])
  {
  }
}
