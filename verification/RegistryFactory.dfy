/**
 The registry of registries: one registry per hash of an owner.
 */
module RegistryFactory {
  import opened Bits
  import opened Hashing
  import opened Registry

  /** A registry, by the owner it was created for. */
  datatype OwnedRegistry = OwnedRegistry(owner: Owner)

  type Index = Owner -> Hash

  type Registries = map<Hash, OwnedRegistry>

  class FactoryObject {
    var registries: map<Hash, RegistryObject>
    const index: Index

    /** The registries, by their owners. */
    function View(): Registries reads this {
      map h | h in registries :: OwnedRegistry(registries[h].owner)
    }

    constructor (index: Index)
      ensures registries == map[] && this.index == index
    {
      registries := map[];
      this.index := index;
    }

    /** A registry that is there is kept and not touched; a missing one is made empty, for this owner. */
    method RegistryFor(owner: Owner) returns (r: RegistryObject)
      modifies this`registries
      ensures View() == WithOwner(old(View()), owner, index)
      ensures index(owner) in registries && r == registries[index(owner)]
      ensures forall h :: h in old(registries) ==> h in registries && registries[h] == old(registries)[h]
      ensures index(owner) !in old(registries) ==> fresh(r) && r.View() == NewContents(owner)
    {
      var i := index(owner);
      if i in registries { return registries[i]; }
      var newRegistry := new RegistryObject(owner);
      registries := registries[i := newRegistry];
      return registries[i];
    }
  }

  /** The map after asking for an owner's registry. */
  function WithOwner(m: Registries, o: Owner, index: Index): Registries {
    if index(o) in m then m else m[index(o) := OwnedRegistry(o)]
  }

  /** The map after asking for the registries of a list of owners, in order. */
  function WithOwners(os: seq<Owner>, index: Index): Registries {
    if os == [] then map[] else WithOwner(WithOwners(os[..|os| - 1], index), os[|os| - 1], index)
  }

  /** The registry a request for `o` answers after the requests of `os`. */
  function RegistryOf(os: seq<Owner>, o: Owner, index: Index): OwnedRegistry {
    WithOwner(WithOwners(os, index), o, index)[index(o)]
  }

  predicate IsFirst(os: seq<Owner>, i: int, h: Hash, index: Index) {
    && 0 <= i < |os| && index(os[i]) == h
    && forall j :: 0 <= j < i ==> index(os[j]) != h
  }

  /** The requests made so far decide the map: an index is present when some owner had it, with the
      first such owner. */
  lemma {:induction false} FirstOwner(os: seq<Owner>, h: Hash, index: Index)
    ensures h in WithOwners(os, index) <==> exists i :: IsFirst(os, i, h, index)
    ensures forall i :: IsFirst(os, i, h, index) ==> WithOwners(os, index)[h].owner == os[i]
    decreases |os|
  {
    if os != [] {
      var n := |os| - 1;
      var front := os[..n];
      FirstOwner(front, h, index);
      if i :| IsFirst(front, i, h, index) {
        assert front[i] == os[i] && IsFirst(os, i, h, index);
        FirstIsUnique(os, i, h, index);
        KeepsIndex(WithOwners(front, index), os[n], h, index);
      } else {
        NoFirst(front, h, index);
        if index(os[n]) == h {
          assert IsFirst(os, n, h, index);
          FirstIsUnique(os, n, h, index);
          assert WithOwners(os, index)[h] == OwnedRegistry(os[n]);
        } else {
          assert forall i :: 0 <= i < n ==> os[i] == front[i];
        }
      }
    }
  }

  lemma KeepsIndex(m: Registries, o: Owner, h: Hash, index: Index)
    requires h in m
    ensures h in WithOwner(m, o, index) && WithOwner(m, o, index)[h] == m[h]
  {
  }

  lemma FirstIsUnique(os: seq<Owner>, i: int, h: Hash, index: Index)
    requires IsFirst(os, i, h, index)
    ensures forall j :: IsFirst(os, j, h, index) ==> j == i
  {
  }

  lemma {:induction false} NoFirst(os: seq<Owner>, h: Hash, index: Index)
    requires forall i :: !IsFirst(os, i, h, index)
    ensures forall i :: 0 <= i < |os| ==> index(os[i]) != h
  {
    if k :| 0 <= k < |os| && index(os[k]) == h {
      var i := SomeFirst(os, k, index);
    }
  }

  /** The first owner with the index of the owner at `k`. */
  lemma SomeFirst(os: seq<Owner>, k: nat, index: Index) returns (i: int)
    requires k < |os|
    ensures IsFirst(os, i, index(os[k]), index)
    decreases k
  {
    if j :| 0 <= j < k && index(os[j]) == index(os[k]) {
      i := SomeFirst(os, j, index);
    } else {
      i := k;
    }
  }

  /** A registry's owner is the first owner seen with its index. */
  lemma OwnerIsFirstSeen(os: seq<Owner>, i: nat, o: Owner, index: Index)
    requires IsFirst(os, i, index(o), index)
    ensures RegistryOf(os, o, index).owner == os[i]
  {
    FirstOwner(os, index(o), index);
  }

  /** Repeated requests, with any requests between, give the same registry. */
  lemma RegistryIsStable(os: seq<Owner>, later: seq<Owner>, o: Owner, index: Index)
    requires o in os
    ensures RegistryOf(os + later, o, index) == RegistryOf(os, o, index)
  {
    var k :| 0 <= k < |os| && os[k] == o;
    var i := SomeFirst(os, k, index);
    OwnerIsFirstSeen(os, i, o, index);
    assert IsFirst(os + later, i, index(o), index);
    OwnerIsFirstSeen(os + later, i, o, index);
  }

  /** Requested owners share a registry exactly when their indexes are equal. */
  lemma SharingIsCollision(os: seq<Owner>, o: Owner, p: Owner, index: Index)
    requires o in os && p in os
    ensures RegistryOf(os, o, index) == RegistryOf(os, p, index) <==> index(o) == index(p)
  {
    var k :| 0 <= k < |os| && os[k] == o;
    var l :| 0 <= l < |os| && os[l] == p;
    var i := SomeFirst(os, k, index);
    var j := SomeFirst(os, l, index);
    OwnerIsFirstSeen(os, i, o, index);
    OwnerIsFirstSeen(os, j, p, index);
  }

  /** Every requested owner has a registry of its own exactly when the indexes are pairwise distinct. */
  lemma IsolationIsInjectivity(os: seq<Owner>, index: Index)
    ensures (forall o :: o in os ==> RegistryOf(os, o, index).owner == o)
       <==> (forall o, p :: o in os && p in os && index(o) == index(p) ==> o == p)
  {
    forall o | o in os
      ensures RegistryOf(os, o, index).owner in os && index(RegistryOf(os, o, index).owner) == index(o)
    {
      var k :| 0 <= k < |os| && os[k] == o;
      var i := SomeFirst(os, k, index);
      OwnerIsFirstSeen(os, i, o, index);
    }
    forall o, p | o in os && p in os && index(o) == index(p)
      ensures RegistryOf(os, o, index) == RegistryOf(os, p, index)
    {
      SharingIsCollision(os, o, p, index);
    }
  }

  // ----- the index the code uses

  /** The index of owners of one class: `outer` and `inner` are the hash codes of the class and of the
      backend class inside it, `stringHash` hashes the address or UUID. */
  function NestedIndex(outer: Hash, inner: Hash, stringHash: string -> Hash): Index {
    (o: Owner) => Nested(outer, inner, stringHash(o.name))
  }

  lemma NestedIndexCollides(o: Owner, p: Owner, outer: Hash, inner: Hash, stringHash: string -> Hash)
    ensures NestedIndex(outer, inner, stringHash)(o) == NestedIndex(outer, inner, stringHash)(p)
       <==> Number(stringHash(o.name)) % Pow2(62) == Number(stringHash(p.name)) % Pow2(62)
  {
    NestedCollides(outer, inner, stringHash(o.name), stringHash(p.name));
    Low62IsModulo(stringHash(o.name), stringHash(p.name));
  }

  /** Two requested owners share a registry exactly when the hashes of their names agree modulo 2^62. */
  lemma SharingExactly(os: seq<Owner>, o: Owner, p: Owner, outer: Hash, inner: Hash, stringHash: string -> Hash)
    requires o in os && p in os
    ensures var index := NestedIndex(outer, inner, stringHash);
            RegistryOf(os, o, index) == RegistryOf(os, p, index)
            <==> Number(stringHash(o.name)) % Pow2(62) == Number(stringHash(p.name)) % Pow2(62)
  {
    SharingIsCollision(os, o, p, NestedIndex(outer, inner, stringHash));
    NestedIndexCollides(o, p, outer, inner, stringHash);
  }

  /** Owners with one name share one registry, the first one's: two services with one UUID on
      different peripherals, for example. */
  lemma SameNameShares(o: Owner, p: Owner, outer: Hash, inner: Hash, stringHash: string -> Hash)
    requires o.name == p.name && o.id != p.id
    ensures var index := NestedIndex(outer, inner, stringHash);
            RegistryOf([o, p], p, index) == RegistryOf([o, p], o, index) == OwnedRegistry(o)
  {
    var index := NestedIndex(outer, inner, stringHash);
    SharingIsCollision([o, p], o, p, index);
    assert IsFirst([o, p], 0, index(o), index);
    OwnerIsFirstSeen([o, p], 0, o, index);
  }

  /** The adapter registry has no owner: every request uses the hash of the null pointer. */
  lemma UnownedIsSingle(os: seq<Owner>, o: Owner, p: Owner, nullHash: Hash)
    requires o in os && p in os
    ensures RegistryOf(os, o, (x: Owner) => nullHash) == RegistryOf(os, p, (x: Owner) => nullHash)
  {
    SharingIsCollision(os, o, p, (x: Owner) => nullHash);
  }
}
