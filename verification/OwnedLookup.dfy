/**
 Lookups through the registries that the factory hands out: whose object a lookup answers. An object
 reads from the device of its owner, so a lookup that answers another owner's object reads from the
 wrong device.
 */
module OwnedLookup {
  import opened Bits
  import opened Common
  import opened Hashing
  import opened Lookup
  import opened Registry
  import opened RegistryFactory

  /** All registries, by index. */
  type Store = map<Hash, Contents>

  /** What owners do: they are created, look a key up while their backend offers a list, and clear.
      `Fill` is a refresh with the backend's list, as a peripheral makes before every lookup, the mapping
      of a list, or, with one value, a fetch. */
  datatype Access =
    | Make(o: Owner)
    | Find(o: Owner, offered: seq<Value>, k: Key, gc: bool)
    | Fill(o: Owner, offered: seq<Value>, gc: bool)
    | Drop(o: Owner)

  /** The store once the owner has its registry. */
  function Opened(m: Store, o: Owner, index: Index): (r: Store)
    ensures index(o) in r
  {
    if index(o) in m then m else m[index(o) := NewContents(o)]
  }

  /** A registry after a lookup that asks the backend on a miss only. */
  function Found(c: Contents, offered: seq<Value>, k: Key, gc: bool): Contents {
    if k in c.entries then c else Refreshed(c, offered, gc)
  }

  function After(m: Store, a: Access, index: Index): Store {
    var m1, h := Opened(m, a.o, index), index(a.o);
    match a
    case Make(_) => m1
    case Find(_, offered, k, gc) => m1[h := Found(m1[h], offered, k, gc)]
    case Fill(_, offered, gc) => m1[h := Refreshed(m1[h], offered, gc)]
    case Drop(_) => m1[h := Registry.After(m1[h], ClearOp)]
  }

  function AfterAccesses(acts: seq<Access>, index: Index): Store {
    if acts == [] then map[] else After(AfterAccesses(acts[..|acts| - 1], index), acts[|acts| - 1], index)
  }

  /** The owners in the order in which they used the registries. */
  function Users(acts: seq<Access>): seq<Owner> { seq(|acts|, i requires 0 <= i < |acts| => acts[i].o) }

  /** What the owner's lookup answers after the accesses. */
  function Answer(acts: seq<Access>, o: Owner, offered: seq<Value>, k: Key, gc: bool, index: Index): Result<Proxy> {
    SlowLookup(Opened(AfterAccesses(acts, index), o, index)[index(o)], offered, k, gc)
  }

  /** The registries in the store are those of the factory, well formed. */
  ghost predicate Matches(m: Store, r: Registries) {
    m.Keys == r.Keys && forall h :: h in m ==> WellFormed(m[h]) && m[h].owner == r[h].owner
  }

  lemma OpenedMatches(m: Store, r: Registries, o: Owner, index: Index)
    requires Matches(m, r)
    ensures Matches(Opened(m, o, index), WithOwner(r, o, index))
  {
  }

  lemma UpdateMatches(m: Store, r: Registries, h: Hash, c: Contents)
    requires Matches(m, r) && h in m && WellFormed(c) && c.owner == m[h].owner
    ensures Matches(m[h := c], r)
  {
  }

  lemma AfterMatches(m: Store, r: Registries, a: Access, index: Index)
    requires Matches(m, r)
    ensures Matches(After(m, a, index), WithOwner(r, a.o, index))
  {
    hide Matches, WellFormed, Opened, WithOwner, Found;
    OpenedMatches(m, r, a.o, index);
    var m1 := Opened(m, a.o, index);
    KnownIsWellFormed(m1, WithOwner(r, a.o, index), index(a.o));
    match a
    case Make(_) =>
    case Find(_, offered, k, gc) =>
      FoundKeeps(m1[index(a.o)], offered, k, gc);
      UpdateMatches(m1, WithOwner(r, a.o, index), index(a.o), Found(m1[index(a.o)], offered, k, gc));
    case Fill(_, offered, gc) =>
      FillKeeps(m1[index(a.o)], offered, gc);
      UpdateMatches(m1, WithOwner(r, a.o, index), index(a.o), Refreshed(m1[index(a.o)], offered, gc));
    case Drop(_) =>
      AfterKeeps(m1[index(a.o)], ClearOp);
      UpdateMatches(m1, WithOwner(r, a.o, index), index(a.o), Registry.After(m1[index(a.o)], ClearOp));
  }

  lemma KnownIsWellFormed(m: Store, r: Registries, h: Hash)
    requires Matches(m, r) && h in m
    ensures WellFormed(m[h])
  {
  }

  lemma FillKeeps(c: Contents, offered: seq<Value>, gc: bool)
    requires WellFormed(c)
    ensures WellFormed(Refreshed(c, offered, gc)) && Refreshed(c, offered, gc).owner == c.owner
  {
    InternedAllFacts(c, offered);
  }

  lemma FoundKeeps(c: Contents, offered: seq<Value>, k: Key, gc: bool)
    requires WellFormed(c)
    ensures WellFormed(Found(c, offered, k, gc)) && Found(c, offered, k, gc).owner == c.owner
  {
    InternedAllFacts(c, offered);
  }

  lemma {:induction false} StoreMatches(acts: seq<Access>, index: Index)
    ensures Matches(AfterAccesses(acts, index), WithOwners(Users(acts), index))
    decreases |acts|
  {
    if acts != [] {
      var n := |acts| - 1;
      StoreMatches(acts[..n], index);
      AfterMatches(AfterAccesses(acts[..n], index), WithOwners(Users(acts[..n]), index), acts[n], index);
      assert Users(acts)[..n] == Users(acts[..n]);
    }
  }

  /** Every answered object belongs to the owner of the registry that the factory hands out. */
  lemma AnswerBelongs(acts: seq<Access>, o: Owner, offered: seq<Value>, k: Key, gc: bool, index: Index)
    requires Answer(acts, o, offered, k, gc, index).Ok?
    ensures Answer(acts, o, offered, k, gc, index).value.owner == RegistryOf(Users(acts), o, index).owner
    ensures Answer(acts, o, offered, k, gc, index).value.key == k
  {
    StoreMatches(acts, index);
    OpenedMatches(AfterAccesses(acts, index), WithOwners(Users(acts), index), o, index);
    SlowLookupFacts(Opened(AfterAccesses(acts, index), o, index)[index(o)], offered, k, gc);
  }

  /** No other owner with the asker's index used the registries before the asker did. */
  ghost predicate CameFirst(os: seq<Owner>, o: Owner, index: Index) {
    exists i :: IsFirst(os + [o], i, index(o), index) && (os + [o])[i] == o
  }

  /** After any accesses, a lookup that succeeds answers an object of the asking owner exactly when no
      other owner with the asker's index came before. */
  lemma AnswerIsOwnExactly(acts: seq<Access>, o: Owner, offered: seq<Value>, k: Key, gc: bool, index: Index)
    requires Answer(acts, o, offered, k, gc, index).Ok?
    ensures Answer(acts, o, offered, k, gc, index).value.owner == o <==> CameFirst(Users(acts), o, index)
  {
    AnswerBelongs(acts, o, offered, k, gc, index);
    var os := Users(acts);
    var i := SomeFirst(os + [o], |os|, index);
    FirstIsUnique(os + [o], i, index(o), index);
    FirstOwner(os + [o], index(o), index);
    assert (os + [o])[..|os|] == os;
  }

  /** The owners' name hashes agree modulo 2^62. */
  predicate SameHash(o: Owner, p: Owner, stringHash: string -> Hash) {
    Number(stringHash(o.name)) % Pow2(62) == Number(stringHash(p.name)) % Pow2(62)
  }

  /** The condition in terms of the names: owners of one class collide exactly when their name hashes
      agree modulo 2^62. */
  lemma CameFirstExactly(os: seq<Owner>, o: Owner, outer: Hash, inner: Hash, stringHash: string -> Hash)
    ensures CameFirst(os, o, NestedIndex(outer, inner, stringHash)) <==>
            exists i :: 0 <= i <= |os| && (os + [o])[i] == o && forall j :: 0 <= j < i ==>
              !SameHash((os + [o])[j], o, stringHash)
  {
    hide NestedIndex, SameHash;
    var index := NestedIndex(outer, inner, stringHash);
    forall p: Owner ensures index(p) == index(o) <==> SameHash(p, o, stringHash) {
      IndexIsHash(p, o, outer, inner, stringHash);
    }
    if i :| 0 <= i <= |os| && (os + [o])[i] == o && forall j :: 0 <= j < i ==> !SameHash((os + [o])[j], o, stringHash) {
      assert IsFirst(os + [o], i, index(o), index);
    }
  }

  lemma IndexIsHash(o: Owner, p: Owner, outer: Hash, inner: Hash, stringHash: string -> Hash)
    ensures NestedIndex(outer, inner, stringHash)(o) == NestedIndex(outer, inner, stringHash)(p)
       <==> SameHash(o, p, stringHash)
  {
    NestedIndexCollides(o, p, outer, inner, stringHash);
  }

  /** A service whose UUID another peripheral's service had before answers only that one's
      characteristics, whatever both have done since. */
  lemma SameNameAnswersOther(acts: seq<Access>, o: Owner, p: Owner, offered: seq<Value>, k: Key, gc: bool,
                             outer: Hash, inner: Hash, stringHash: string -> Hash)
    requires |acts| > 0 && acts[0].o == o && o.name == p.name && o.id != p.id
    requires Answer(acts, p, offered, k, gc, NestedIndex(outer, inner, stringHash)).Ok?
    ensures Answer(acts, p, offered, k, gc, NestedIndex(outer, inner, stringHash)).value.owner == o != p
  {
    var index := NestedIndex(outer, inner, stringHash);
    AnswerBelongs(acts, p, offered, k, gc, index);
    assert IsFirst(Users(acts), 0, index(p), index);
    OwnerIsFirstSeen(Users(acts), 0, p, index);
  }
}
