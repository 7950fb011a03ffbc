/**
 Cached lookups over a backend: the characteristics of a service, and the services of a
 peripheral. Both fill their registry from the backend's list, outside garbage collection only.
 */
module Lookup {
  import opened Common
  import opened Registry
  import opened RegistryFactory

  /** The registry after asking the backend for its list. */
  function Refreshed(c: Contents, offered: seq<Value>, duringGc: bool): Contents {
    if duringGc then c else InternedAll(c, offered)
  }

  function At(c: Contents, k: Key): Result<Proxy> {
    if k in c.entries then Ok(c.entries[k]) else Err(OutOfRange)
  }

  /** The slow lookup: always refresh, then look up. */
  function SlowLookup(c: Contents, offered: seq<Value>, k: Key, duringGc: bool): Result<Proxy> {
    At(Refreshed(c, offered, duringGc), k)
  }

  /** A service. `offered` is the list the backend answers. */
  class ServiceObject {
    const registry: RegistryObject
    var offered: seq<Value>

    /** `self` is the new object as an owner; it takes whatever registry its index has. */
    constructor (factory: FactoryObject, self: Owner, offered: seq<Value>)
      modifies factory`registries
      ensures this.offered == offered
      ensures factory.View() == WithOwner(old(factory.View()), self, factory.index)
      ensures factory.index(self) in factory.registries && registry == factory.registries[factory.index(self)]
    {
      var r := factory.RegistryFor(self);
      registry := r;
      this.offered := offered;
    }

    method Characteristics(duringGc: bool) returns (entries: map<Key, Proxy>)
      modifies if duringGc then {} else {registry}
      ensures registry.View() == Refreshed(old(registry.View()), offered, duringGc)
      ensures entries == registry.entries
    {
      if !duringGc {
        ghost var before := registry.View();
        for n := 0 to |offered|
          invariant registry.View() == InternedAll(before, offered[..n])
        {
          assert offered[..n + 1][..n] == offered[..n];
          var _ := registry.Fetch(offered[n], duringGc);
        }
        assert offered[..|offered|] == offered;
      }
      return registry.entries;
    }

    /** Asks the backend only on a miss. */
    method Index(k: Key, duringGc: bool) returns (r: Result<Proxy>)
      requires WellFormed(registry.View())
      modifies registry
      ensures r == SlowLookup(old(registry.View()), offered, k, duringGc)
      ensures registry.View() == if k in old(registry.View()).entries then old(registry.View())
                                 else Refreshed(old(registry.View()), offered, duringGc)
    {
      InternedAllFacts(registry.View(), offered);
      if k !in registry.entries {
        var _ := Characteristics(duringGc);
      }
      if k in registry.entries { return Ok(registry.entries[k]); }
      return Err(OutOfRange);
    }
  }

  /** A peripheral. Its registry pointer is never null. */
  class PeripheralObject {
    const registry: RegistryObject
    var offered: seq<Value>

    /** `self` is the new object as an owner; it takes whatever registry its index has. */
    constructor (factory: FactoryObject, self: Owner, offered: seq<Value>)
      modifies factory`registries
      ensures this.offered == offered
      ensures factory.View() == WithOwner(old(factory.View()), self, factory.index)
      ensures factory.index(self) in factory.registries && registry == factory.registries[factory.index(self)]
    {
      var r := factory.RegistryFor(self);
      registry := r;
      this.offered := offered;
    }

    method Services(duringGc: bool) returns (entries: map<Key, Proxy>)
      modifies if duringGc then {} else {registry}
      ensures registry.View() == Refreshed(old(registry.View()), offered, duringGc)
      ensures entries == registry.entries
    {
      if !duringGc {
        ghost var before := registry.View();
        for n := 0 to |offered|
          invariant registry.View() == InternedAll(before, offered[..n])
        {
          assert offered[..n + 1][..n] == offered[..n];
          var _ := registry.Fetch(offered[n], duringGc);
        }
        assert offered[..|offered|] == offered;
      }
      return registry.entries;
    }

    /** Asks the backend always: the left operand of the guard, the registry pointer, is not null.
        A missing key gives the empty pointer. */
    method Index(k: Key, duringGc: bool) returns (r: Option<Proxy>)
      modifies registry
      ensures r == match SlowLookup(old(registry.View()), offered, k, duringGc)
                   case Ok(p) => Some(p)
                   case Err(_) => None
      ensures registry.View() == Refreshed(old(registry.View()), offered, duringGc)
    {
      var entries := Services(duringGc);
      if k in registry.entries { return Some(registry.entries[k]); }
      return None;
    }
  }

  /** The slow lookup succeeds exactly when the key is cached or, outside garbage collection, offered;
      a cached key gives the cached object, and an offered one the object every later lookup gives. */
  lemma SlowLookupFacts(c: Contents, offered: seq<Value>, k: Key, duringGc: bool)
    requires WellFormed(c)
    ensures SlowLookup(c, offered, k, duringGc).Ok?
       <==> k in c.entries || (!duringGc && exists i :: 0 <= i < |offered| && offered[i].key == k)
    ensures SlowLookup(c, offered, k, duringGc).Err? ==> SlowLookup(c, offered, k, duringGc).error == OutOfRange
    ensures k in c.entries ==> SlowLookup(c, offered, k, duringGc) == Ok(c.entries[k])
    ensures SlowLookup(c, offered, k, duringGc).Ok? ==>
      var p := SlowLookup(c, offered, k, duringGc).value; p.key == k && p.owner == c.owner
  {
    InternedAllFacts(c, offered);
    assert k in KeysOf(offered) <==> exists i :: 0 <= i < |offered| && offered[i].key == k;
  }

  /** Once found, a key keeps its object, whatever the backend offers later. */
  lemma LookupIsStable(c: Contents, first: seq<Value>, later: seq<Value>, k: Key, gc1: bool, gc2: bool)
    requires WellFormed(c) && SlowLookup(c, first, k, gc1).Ok?
    ensures SlowLookup(Refreshed(c, first, gc1), later, k, gc2) == SlowLookup(c, first, k, gc1)
  {
    InternedAllFacts(c, first);
    InternedAllFacts(Refreshed(c, first, gc1), later);
  }
}
