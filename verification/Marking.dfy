/**
 The mark phase: from an adapter through its peripherals and their services to the
 characteristics, by way of the registries. Proxies, and so subtrees, may be shared.
 */
module Marking {
  import opened Common
  import opened Registry
  import opened Lookup

  /** A Ruby object reference. */
  type VALUE = nat

  const QFALSE: VALUE := 0
  const QNIL: VALUE := 8

  /** A callback holder: null, or holding a Ruby object that may be nil. */
  type Holder = Option<VALUE>

  datatype CharacteristicNode = CharacteristicNode(
    self: VALUE, value: Option<VALUE>, onIndicate: Holder, onNotify: Holder)

  /** A service keeps its characteristics in a registry of proxies; `below` gives the object of each
      proxy by its identity. So do peripherals and adapters. */
  datatype ServiceNode = ServiceNode(self: VALUE, service: ServiceObject, below: map<nat, CharacteristicNode>)

  datatype PeripheralNode = PeripheralNode(
    self: VALUE, onConnected: Holder, onDisconnected: Holder,
    registrySelf: VALUE, peripheral: PeripheralObject, below: map<nat, ServiceNode>)

  datatype AdapterNode = AdapterNode(
    registrySelf: VALUE, registry: RegistryObject, below: map<nat, PeripheralNode>, callbacks: seq<Holder>)

  class Collector {
    var marked: set<VALUE>

    constructor ()
      ensures marked == {}
    {
      marked := {};
    }

    /** rb_gc_mark */
    method Mark(v: VALUE)
      modifies this
      ensures marked == old(marked) + {v}
    {
      marked := marked + {v};
    }
  }

  // ----- what is to be marked

  function CallbackMarks(h: Holder): set<VALUE> {
    if h.Some? && h.value != QNIL && h.value != QFALSE then {h.value} else {}
  }

  function CharacteristicMarks(n: CharacteristicNode): set<VALUE> {
    {n.self} + (if n.value.Some? then {n.value.value} else {})
    + CallbackMarks(n.onIndicate) + CallbackMarks(n.onNotify)
  }

  /** Every proxy of the service's registry has its object below. */
  predicate ServiceOk(n: ServiceNode)
    reads n.service.registry
  {
    forall k :: k in n.service.registry.entries ==> n.service.registry.entries[k].id in n.below
  }

  /** `v` is to be marked for a service: it is the service itself, or belongs to a characteristic. */
  predicate ForService(n: ServiceNode, v: VALUE)
    requires ServiceOk(n)
    reads n.service.registry
  {
    var entries := n.service.registry.entries;
    v == n.self || exists k :: k in entries && v in CharacteristicMarks(n.below[entries[k].id])
  }

  function PeripheralRegistries(n: PeripheralNode): set<RegistryObject> {
    {n.peripheral.registry} + set i | i in n.below :: n.below[i].service.registry
  }

  predicate PeripheralOk(n: PeripheralNode)
    reads PeripheralRegistries(n)
  {
    var entries := n.peripheral.registry.entries;
    forall k :: k in entries ==> entries[k].id in n.below && ServiceOk(n.below[entries[k].id])
  }

  predicate ForPeripheral(n: PeripheralNode, v: VALUE)
    requires PeripheralOk(n)
    reads PeripheralRegistries(n)
  {
    var entries := n.peripheral.registry.entries;
    || v == n.self || v == n.registrySelf
    || v in CallbackMarks(n.onConnected) || v in CallbackMarks(n.onDisconnected)
    || exists k :: k in entries && ForService(n.below[entries[k].id], v)
  }

  function AdapterRegistries(n: AdapterNode): set<RegistryObject> {
    {n.registry} + set i, r | i in n.below && r in PeripheralRegistries(n.below[i]) :: r
  }

  predicate AdapterOk(n: AdapterNode)
    reads AdapterRegistries(n)
  {
    var entries := n.registry.entries;
    forall k :: k in entries ==> entries[k].id in n.below && PeripheralOk(n.below[entries[k].id])
  }

  predicate ForAdapter(n: AdapterNode, v: VALUE)
    requires AdapterOk(n)
    reads AdapterRegistries(n)
  {
    var entries := n.registry.entries;
    || v == n.registrySelf
    || (exists i :: 0 <= i < |n.callbacks| && v in CallbackMarks(n.callbacks[i]))
    || exists k :: k in entries && ForPeripheral(n.below[entries[k].id], v)
  }

  // ----- the traversal

  method MarkCallback(h: Holder, gc: Collector)
    modifies gc
    ensures gc.marked == old(gc.marked) + CallbackMarks(h)
    ensures forall v :: v in gc.marked <==> v in old(gc.marked) || (h == Some(v) && v != QNIL && v != QFALSE)
  {
    if h.Some? && h.value != QNIL && h.value != QFALSE {
      gc.Mark(h.value);
    }
  }

  method MarkCallbacks(hs: seq<Holder>, gc: Collector)
    modifies gc
    ensures forall v :: v in gc.marked <==>
      v in old(gc.marked) || exists i :: 0 <= i < |hs| && v in CallbackMarks(hs[i])
  {
    for i := 0 to |hs|
      invariant forall v :: v in gc.marked <==>
        (v in old(gc.marked) || exists j :: 0 <= j < i && v in CallbackMarks(hs[j]))
    {
      MarkCallback(hs[i], gc);
    }
  }

  method MarkCharacteristic(n: CharacteristicNode, gc: Collector)
    modifies gc
    ensures gc.marked == old(gc.marked) + CharacteristicMarks(n)
  {
    gc.Mark(n.self);
    if n.value.Some? { gc.Mark(n.value.value); }
    MarkCallback(n.onIndicate, gc);
    MarkCallback(n.onNotify, gc);
  }

  /** During collection the service does not ask its backend: no registry is in the frame. */
  method MarkService(n: ServiceNode, gc: Collector)
    requires ServiceOk(n)
    modifies gc
    ensures forall v :: v in gc.marked <==> v in old(gc.marked) || ForService(n, v)
  {
    gc.Mark(n.self);
    var entries := n.service.Characteristics(true);
    var keys := entries.Keys;
    while keys != {}
      invariant keys <= entries.Keys
      invariant forall v :: v in gc.marked <==>
        (v in old(gc.marked) || v == n.self
         || exists k :: k in entries && k !in keys && v in CharacteristicMarks(n.below[entries[k].id]))
      decreases keys
    {
      var key :| key in keys;
      MarkCharacteristic(n.below[entries[key].id], gc);
      keys := keys - {key};
    }
  }

  method MarkPeripheral(n: PeripheralNode, gc: Collector)
    requires PeripheralOk(n)
    modifies gc
    ensures forall v :: v in gc.marked <==> v in old(gc.marked) || ForPeripheral(n, v)
  {
    gc.Mark(n.self);
    MarkCallback(n.onConnected, gc);
    MarkCallback(n.onDisconnected, gc);
    gc.Mark(n.registrySelf);
    ghost var before := gc.marked;
    var entries := n.peripheral.registry.entries;
    var keys := entries.Keys;
    while keys != {}
      invariant keys <= entries.Keys
      invariant forall v :: v in gc.marked <==>
        (v in before || exists k :: k in entries && k !in keys && ForService(n.below[entries[k].id], v))
      decreases keys
    {
      var key :| key in keys;
      MarkService(n.below[entries[key].id], gc);
      keys := keys - {key};
    }
  }

  method MarkPeripherals(n: AdapterNode, gc: Collector)
    requires AdapterOk(n)
    modifies gc
    ensures var entries := n.registry.entries;
            forall v :: v in gc.marked <==>
              v in old(gc.marked) || exists k :: k in entries && ForPeripheral(n.below[entries[k].id], v)
  {
    var entries := n.registry.entries;
    var keys := entries.Keys;
    while keys != {}
      invariant keys <= entries.Keys
      invariant forall v :: v in gc.marked <==>
        (v in old(gc.marked) || exists k :: k in entries && k !in keys && ForPeripheral(n.below[entries[k].id], v))
      decreases keys
    {
      var key :| key in keys;
      MarkPeripheral(n.below[entries[key].id], gc);
      keys := keys - {key};
    }
  }

  /** Marks exactly what belongs to the adapter, and writes no registry. */
  method MarkAdapter(n: AdapterNode, gc: Collector)
    requires AdapterOk(n)
    modifies gc
    ensures forall v :: v in gc.marked <==> v in old(gc.marked) || ForAdapter(n, v)
    ensures n.registrySelf in gc.marked
    ensures forall i, v :: 0 <= i < |n.callbacks| && n.callbacks[i] == Some(v) && v != QNIL && v != QFALSE ==>
      v in gc.marked
  {
    gc.Mark(n.registrySelf);
    MarkPeripherals(n, gc);
    MarkCallbacks(n.callbacks, gc);
  }

  /** Of a holder only a Ruby object that is neither nil nor false is to be marked. */
  lemma CallbackIsDue(h: Holder, v: VALUE)
    ensures v in CallbackMarks(h) <==> h == Some(v) && v != QNIL && v != QFALSE
  {
  }

  predicate Live(h: Holder, v: VALUE) { h == Some(v) && v != QNIL && v != QFALSE }

  /** What belongs to an object itself is due, whatever is below it: an adapter's registry and callbacks... */
  lemma AdapterOwnIsDue(n: AdapterNode, v: VALUE)
    requires AdapterOk(n)
    ensures v == n.registrySelf ==> ForAdapter(n, v)
    ensures v != QNIL && v != QFALSE && Some(v) in n.callbacks ==> ForAdapter(n, v)
  {
  }

  /** ...a registered peripheral, its registry and callbacks... */
  lemma PeripheralIsDue(n: AdapterNode, k: Key, p: PeripheralNode, v: VALUE)
    requires AdapterOk(n) && k in n.registry.entries && p == n.below[n.registry.entries[k].id]
    ensures v in {p.self, p.registrySelf} ==> ForAdapter(n, v)
    ensures v != QNIL && v != QFALSE && Some(v) in {p.onConnected, p.onDisconnected} ==> ForAdapter(n, v)
  {
    assert ForPeripheral(p, v) ==> ForAdapter(n, v);
  }

  /** ...a registered service... */
  lemma ServiceIsDue(n: AdapterNode, k: Key, l: Key, p: PeripheralNode, s: ServiceNode)
    requires AdapterOk(n) && k in n.registry.entries && p == n.below[n.registry.entries[k].id]
    requires l in p.peripheral.registry.entries && s == p.below[p.peripheral.registry.entries[l].id]
    ensures ForAdapter(n, s.self)
  {
    assert ForService(s, s.self);
    assert ForPeripheral(p, s.self);
  }

  /** The adapter's registry and its own callbacks are due. Along every path from the adapter by three keys
      the peripheral, the service and the characteristic object are due, with the stored value and every
      callback that is neither nil nor false. */
  lemma EverythingBelowIsDue(n: AdapterNode, k: Key, l: Key, m: Key,
                             p: PeripheralNode, s: ServiceNode, c: CharacteristicNode, v: VALUE)
    requires AdapterOk(n)
    requires k in n.registry.entries && p == n.below[n.registry.entries[k].id]
    requires l in p.peripheral.registry.entries && s == p.below[p.peripheral.registry.entries[l].id]
    requires m in s.service.registry.entries && c == s.below[s.service.registry.entries[m].id]
    ensures v in {n.registrySelf, p.self, p.registrySelf, s.self, c.self} ==> ForAdapter(n, v)
    ensures v != QNIL && v != QFALSE && Some(v) in {p.onConnected, p.onDisconnected} ==> ForAdapter(n, v)
    ensures v != QNIL && v != QFALSE && Some(v) in {c.onIndicate, c.onNotify} ==> ForAdapter(n, v)
    ensures v != QNIL && v != QFALSE && Some(v) in n.callbacks ==> ForAdapter(n, v)
    ensures c.value == Some(v) ==> ForAdapter(n, v)
  {
    assert v in CharacteristicMarks(c) ==> ForService(s, v);
    assert ForService(s, v) ==> ForPeripheral(p, v);
    assert ForPeripheral(p, v) ==> ForAdapter(n, v);
  }

  /** Nothing else is due: what is due at a level is the object's own or due one level below. */
  lemma NothingElseIsDue(n: AdapterNode, p: PeripheralNode, s: ServiceNode, c: CharacteristicNode, v: VALUE)
    requires AdapterOk(n) && PeripheralOk(p) && ServiceOk(s)
    ensures ForAdapter(n, v) ==>
      || v == n.registrySelf || (exists i :: 0 <= i < |n.callbacks| && Live(n.callbacks[i], v))
      || (exists k :: k in n.registry.entries && ForPeripheral(n.below[n.registry.entries[k].id], v))
    ensures var ss := p.peripheral.registry.entries;
      ForPeripheral(p, v) ==>
        || v == p.self || v == p.registrySelf || Live(p.onConnected, v) || Live(p.onDisconnected, v)
        || (exists l :: l in ss && ForService(p.below[ss[l].id], v))
    ensures var cs := s.service.registry.entries;
      ForService(s, v) ==> v == s.self || (exists m :: m in cs && v in CharacteristicMarks(s.below[cs[m].id]))
    ensures v in CharacteristicMarks(c) ==>
      v == c.self || c.value == Some(v) || Live(c.onIndicate, v) || Live(c.onNotify, v)
  {
  }
}
