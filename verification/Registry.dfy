/**
 The interning registry: at most one proxy object per key, created on first use and never
 during garbage collection.
 */
module Registry {
  import opened Common

  /** A Bluetooth address or UUID. */
  type Key = string

  /** A backend value; `handle` is everything about it that is not its key. */
  datatype Value = Value(key: Key, handle: int)

  /** An owner of a registry: its identity, and its address or UUID. */
  datatype Owner = Owner(id: nat, name: string)

  /** A proxy object by identity: `id` numbers the objects of a registry in the order of their creation.
      It wraps the backend value it was created from and belongs to the registry's owner. */
  datatype Proxy = Proxy(id: nat, key: Key, handle: int, owner: Owner)

  /** A registry's owner, its map, and the number of objects created for it so far. */
  datatype Contents = Contents(owner: Owner, entries: map<Key, Proxy>, created: nat)

  function NewContents(owner: Owner): Contents { Contents(owner, map[], 0) }

  /** Keys index their own proxies, which belong to the owner, and distinct keys have distinct objects. */
  predicate WellFormed(c: Contents) {
    && (forall k :: k in c.entries ==>
          c.entries[k].key == k && c.entries[k].id < c.created && c.entries[k].owner == c.owner)
    && (forall k, l :: k in c.entries && l in c.entries && c.entries[k].id == c.entries[l].id ==> k == l)
  }

  /** `d` keeps every entry of `c`. */
  predicate Extends(c: Contents, d: Contents) {
    && c.created <= d.created && c.owner == d.owner
    && (forall k :: k in c.entries ==> k in d.entries && d.entries[k] == c.entries[k])
  }

  /** The contents after a fetch of a value outside garbage collection. */
  function Interned(c: Contents, v: Value): Contents {
    if v.key in c.entries then c
    else Contents(c.owner, c.entries[v.key := Proxy(c.created, v.key, v.handle, c.owner)], c.created + 1)
  }

  function InternedAll(c: Contents, vs: seq<Value>): Contents {
    if vs == [] then c else Interned(InternedAll(c, vs[..|vs| - 1]), vs[|vs| - 1])
  }

  function KeysOf(vs: seq<Value>): set<Key> { set v | v in vs :: v.key }

  class RegistryObject {
    const owner: Owner
    var entries: map<Key, Proxy>
    var created: nat

    function View(): Contents reads this { Contents(owner, entries, created) }

    constructor (owner: Owner)
      ensures View() == NewContents(owner)
    {
      this.owner := owner;
      entries, created := map[], 0;
    }

    method Fetch(v: Value, duringGc: bool) returns (r: Result<Proxy>)
      modifies this
      ensures duringGc ==> View() == old(View())
      ensures !duringGc ==> View() == Interned(old(View()), v)
      ensures r == if v.key in entries then Ok(entries[v.key]) else Err(RuntimeError)
    {
      var key := v.key;
      if key in entries { return Ok(entries[key]); }
      if duringGc { return Err(RuntimeError); }
      entries := entries[key := Proxy(created, key, v.handle, owner)];
      created := created + 1;
      return Ok(entries[key]);
    }

    method Clear()
      modifies this
      ensures View() == Contents(owner, map[], old(created))
    {
      entries := map[];
    }

    /** Fails at the first value that would need a new object during garbage collection. */
    method MapToObjects(vs: seq<Value>, duringGc: bool) returns (r: Result<seq<Proxy>>)
      modifies this
      ensures duringGc ==> View() == old(View())
      ensures !duringGc ==> View() == InternedAll(old(View()), vs)
      ensures r.Ok? <==> forall i :: 0 <= i < |vs| ==> vs[i].key in entries
      ensures r.Ok? ==> |r.value| == |vs| && forall i :: 0 <= i < |vs| ==> r.value[i] == entries[vs[i].key]
      ensures r.Err? ==> r.error == RuntimeError
    {
      var objects: seq<Proxy> := [];
      ghost var before := View();
      for n := 0 to |vs|
        invariant duringGc ==> View() == before
        invariant !duringGc ==> View() == InternedAll(before, vs[..n])
        invariant |objects| == n
        invariant forall i :: 0 <= i < n ==> vs[i].key in entries && objects[i] == entries[vs[i].key]
      {
        assert vs[..n + 1][..n] == vs[..n];
        var fetched := Fetch(vs[n], duringGc);
        if fetched.Err? { return Err(fetched.error); }
        objects := objects + [fetched.value];
      }
      assert vs[..|vs|] == vs;
      return Ok(objects);
    }
  }

  // ----- interning

  /** `d` has `c`'s entries, the keys of `ks` besides, and one object more per key that is new. */
  ghost predicate Grown(c: Contents, d: Contents, ks: set<Key>) {
    && WellFormed(d) && Extends(c, d)
    && d.entries.Keys == c.entries.Keys + ks
    && d.created - c.created == |ks - c.entries.Keys|
  }

  lemma InternedKeeps(c: Contents, v: Value)
    requires WellFormed(c)
    ensures WellFormed(Interned(c, v)) && Extends(c, Interned(c, v))
  {
  }

  lemma InternedFacts(c: Contents, v: Value)
    requires WellFormed(c)
    ensures Grown(c, Interned(c, v), {v.key})
  {
    hide WellFormed, Extends;
    InternedKeeps(c, v);
    assert Interned(c, v).entries.Keys == c.entries.Keys + {v.key};
    assert {v.key} - c.entries.Keys == if v.key in c.entries then {} else {v.key};
  }

  lemma NewKeysAdd(had: set<Key>, ks: set<Key>, ls: set<Key>)
    ensures |(ks + ls) - had| == |ks - had| + |ls - (had + ks)|
  {
    assert (ks + ls) - had == (ks - had) + (ls - (had + ks));
  }

  lemma ExtendsTransitive(c: Contents, d: Contents, e: Contents)
    requires Extends(c, d) && Extends(d, e)
    ensures Extends(c, e)
  {
  }

  lemma GrownTwice(c: Contents, d: Contents, e: Contents, ks: set<Key>, ls: set<Key>)
    requires Grown(c, d, ks) && Grown(d, e, ls)
    ensures Grown(c, e, ks + ls)
  {
    ExtendsTransitive(c, d, e);
    NewKeysAdd(c.entries.Keys, ks, ls);
    assert e.entries.Keys == c.entries.Keys + (ks + ls);
  }

  /** Mapping a list keeps every entry, adds exactly the list's keys, and creates exactly one object
      per distinct new key. */
  lemma {:induction false} InternedAllFacts(c: Contents, vs: seq<Value>)
    requires WellFormed(c)
    ensures Grown(c, InternedAll(c, vs), KeysOf(vs))
    decreases |vs|
  {
    if vs == [] {
      assert KeysOf(vs) - c.entries.Keys == {};
      assert KeysOf(vs) == {};
    } else {
      var front, v := vs[..|vs| - 1], vs[|vs| - 1];
      InternedAllFacts(c, front);
      InternedFacts(InternedAll(c, front), v);
      GrownTwice(c, InternedAll(c, front), InternedAll(c, vs), KeysOf(front), {v.key});
      KeysOfSplit(vs);
    }
  }

  lemma KeysOfSplit(vs: seq<Value>)
    requires vs != []
    ensures KeysOf(vs) == KeysOf(vs[..|vs| - 1]) + {vs[|vs| - 1].key}
  {
    assert vs == vs[..|vs| - 1] + [vs[|vs| - 1]];
  }

  /** The objects a list is mapped to. */
  function MappedObjects(c: Contents, vs: seq<Value>): seq<Proxy>
    requires WellFormed(c)
  {
    InternedAllFacts(c, vs);
    seq(|vs|, i requires 0 <= i < |vs| =>
      assert vs[i] in vs; assert vs[i].key in KeysOf(vs);
      InternedAll(c, vs).entries[vs[i].key])
  }

  /** Outside garbage collection the objects have the values' keys, in order, and two positions hold
      the same object exactly when their keys are equal. */
  lemma MappedObjectsFacts(c: Contents, vs: seq<Value>)
    requires WellFormed(c)
    ensures var r := MappedObjects(c, vs);
            && |r| == |vs|
            && (forall i :: 0 <= i < |vs| ==> r[i].key == vs[i].key)
            && (forall i, j :: 0 <= i < |vs| && 0 <= j < |vs| ==>
                  (r[i].id == r[j].id <==> vs[i].key == vs[j].key))
            && (forall i :: 0 <= i < |vs| && vs[i].key in c.entries ==> r[i] == c.entries[vs[i].key])
  {
    InternedAllFacts(c, vs);
    forall i | 0 <= i < |vs| ensures vs[i].key in InternedAll(c, vs).entries {
      assert vs[i] in vs;
      assert vs[i].key in KeysOf(vs);
    }
  }

  /** The first value of a list with a key. */
  predicate FirstWith(vs: seq<Value>, i: int, k: Key) {
    0 <= i < |vs| && vs[i].key == k && forall j :: 0 <= j < i ==> vs[j].key != k
  }

  /** A new object wraps the first value of the list with its key. */
  lemma {:induction false} NewWrapsFirst(c: Contents, vs: seq<Value>, i: int, k: Key)
    requires k !in c.entries && FirstWith(vs, i, k)
    ensures k in InternedAll(c, vs).entries && InternedAll(c, vs).entries[k].handle == vs[i].handle
    decreases |vs|
  {
    var front := vs[..|vs| - 1];
    if i < |vs| - 1 {
      assert FirstWith(front, i, k);
      NewWrapsFirst(c, front, i, k);
    } else {
      NoneWith(c, front, k);
    }
  }

  lemma {:induction false} NoneWith(c: Contents, vs: seq<Value>, k: Key)
    requires k !in c.entries && forall j :: 0 <= j < |vs| ==> vs[j].key != k
    ensures k !in InternedAll(c, vs).entries
    decreases |vs|
  {
    if vs != [] { NoneWith(c, vs[..|vs| - 1], k); }
  }

  // ----- runs

  datatype RegistryOp = FetchOp(v: Value, duringGc: bool) | MapOp(vs: seq<Value>, duringGc: bool) | ClearOp

  /** The contents after one operation, as the methods leave them. */
  function After(c: Contents, op: RegistryOp): Contents {
    match op
    case FetchOp(v, duringGc) => if duringGc then c else Interned(c, v)
    case MapOp(vs, duringGc) => if duringGc then c else InternedAll(c, vs)
    case ClearOp => Contents(c.owner, map[], c.created)
  }

  function AfterAll(c: Contents, ops: seq<RegistryOp>): Contents
    decreases |ops|
  {
    if ops == [] then c else AfterAll(After(c, ops[0]), ops[1..])
  }

  lemma AfterKeeps(c: Contents, op: RegistryOp)
    requires WellFormed(c)
    ensures WellFormed(After(c, op)) && (op != ClearOp ==> Extends(c, After(c, op)))
    ensures c.created <= After(c, op).created
  {
    match op
    case FetchOp(v, _) => InternedFacts(c, v);
    case MapOp(vs, _) => InternedAllFacts(c, vs);
    case ClearOp =>
  }

  /** Between clears the registry only grows and never replaces an entry. */
  lemma {:induction false} GrowsBetweenClears(c: Contents, ops: seq<RegistryOp>)
    requires WellFormed(c) && ClearOp !in ops
    ensures WellFormed(AfterAll(c, ops)) && Extends(c, AfterAll(c, ops))
    decreases |ops|
  {
    if ops != [] {
      assert ops[0] in ops;
      AfterKeeps(c, ops[0]);
      GrowsBetweenClears(After(c, ops[0]), ops[1..]);
    }
  }

  lemma {:induction false} StaysWellFormed(c: Contents, ops: seq<RegistryOp>)
    requires WellFormed(c)
    ensures WellFormed(AfterAll(c, ops)) && c.created <= AfterAll(c, ops).created
    decreases |ops|
  {
    if ops != [] {
      AfterKeeps(c, ops[0]);
      StaysWellFormed(After(c, ops[0]), ops[1..]);
    }
  }

  lemma {:induction false} AfterAllConcat(c: Contents, a: seq<RegistryOp>, b: seq<RegistryOp>)
    ensures AfterAll(c, a + b) == AfterAll(AfterAll(c, a), b)
    decreases |a|
  {
    if a == [] {
      assert a + b == b;
    } else {
      assert (a + b)[1..] == a[1..] + b;
      AfterAllConcat(After(c, a[0]), a[1..], b);
    }
  }

  /** An object handed out before a clear is not handed out again after it. */
  lemma ClearForgets(o: Owner, ops: seq<RegistryOp>, later: seq<RegistryOp>, k: Key, l: Key)
    requires k in AfterAll(NewContents(o), ops).entries
    requires l in AfterAll(NewContents(o), ops + [ClearOp] + later).entries
    ensures AfterAll(NewContents(o), ops + [ClearOp] + later).entries[l].id
         != AfterAll(NewContents(o), ops).entries[k].id
  {
    var c := AfterAll(NewContents(o), ops);
    StaysWellFormed(NewContents(o), ops);
    AfterAllConcat(NewContents(o), ops, [ClearOp]);
    AfterAllConcat(NewContents(o), ops + [ClearOp], later);
    assert AfterAll(c, [ClearOp]) == After(c, ClearOp) by { assert [ClearOp][1..] == []; }
    NewerThan(After(c, ClearOp), later, c.created);
  }

  /** Entries made from an empty map on are numbered from the objects created before. */
  lemma {:induction false} NewerThan(c: Contents, ops: seq<RegistryOp>, n: nat)
    requires WellFormed(c) && n <= c.created && forall k :: k in c.entries ==> c.entries[k].id >= n
    ensures forall k :: k in AfterAll(c, ops).entries ==> AfterAll(c, ops).entries[k].id >= n
    decreases |ops|
  {
    if ops != [] {
      AfterKeeps(c, ops[0]);
      if ops[0].MapOp? { NewerAll(c, ops[0].vs, n); }
      NewerThan(After(c, ops[0]), ops[1..], n);
    }
  }

  lemma {:induction false} NewerAll(c: Contents, vs: seq<Value>, n: nat)
    requires n <= c.created && forall k :: k in c.entries ==> c.entries[k].id >= n
    ensures n <= InternedAll(c, vs).created
    ensures forall k :: k in InternedAll(c, vs).entries ==> InternedAll(c, vs).entries[k].id >= n
    decreases |vs|
  {
    if vs != [] { NewerAll(c, vs[..|vs| - 1], n); }
  }
}
