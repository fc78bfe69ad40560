// The entity manager: generational slots with a free list, and one component pool per type.
module Entities {
  import opened Words
  import opened Wrappers

  // A handle: which slot, and which generation of it.
  datatype Id = Id(idx: U32, ver: U32)

  // Handles travel as one 64-bit word, with the version in the low half.
  function Packed(id: Id): nat {
    id.idx * WORD + id.ver
  }

  lemma PackedRoundTrip(id: Id)
    ensures id == Id(Packed(id) / WORD, Packed(id) % WORD)
  {
  }

  // One slot per component type; a pool has a cell per entity slot, empty or with a component.
  type Pools<C> = seq<Option<seq<Option<C>>>>

  ghost function Cell<C>(pools: Pools<C>, i: int, c: int): Option<C> {
    if 0 <= c < |pools| && pools[c].Some? && 0 <= i < |pools[c].value| then pools[c].value[i] else None
  }

  ghost predicate SlotsFit(freeList: seq<U32>, versions: seq<U32>) {
    && (forall i | 0 <= i < |versions| :: versions[i] >= 1)
    && (forall i | 0 <= i < |freeList| :: freeList[i] < |versions|)
    && (forall i, j | 0 <= i < j < |freeList| :: freeList[i] != freeList[j])
  }

  // A handle is live when its version is current and its slot is not free; the issued ones are
  // the live ones and those of the slots' earlier generations.
  ghost predicate HandlesFit(freeList: seq<U32>, versions: seq<U32>, issued: set<Id>, live: set<Id>)
    requires SlotsFit(freeList, versions)
  {
    && (forall id :: id in live <==>
      id.idx < |versions| && versions[id.idx] == id.ver && id.idx !in freeList)
    && (forall id :: id in issued <==>
      id in live || (id.idx < |versions| && 1 <= id.ver < versions[id.idx]))
  }

  // Every pool that exists has a cell for every slot.
  ghost predicate PoolsFit<C>(pools: Pools<C>, slots: nat) {
    forall c | 0 <= c < |pools| && pools[c].Some? :: |pools[c].value| == slots
  }

  ghost predicate FreeAreBare<C>(freeList: seq<U32>, pools: Pools<C>) {
    forall i, c: nat | i in freeList :: Cell(pools, i, c) == None
  }

  ghost predicate StoreFits<C>(pools: Pools<C>, live: set<Id>, store: map<(Id, nat), C>) {
    && (forall id: Id, c: nat :: (id, c) in store <==> id in live && Cell(pools, id.idx, c).Some?)
    && (forall id: Id, c: nat | (id, c) in store :: Cell(pools, id.idx, c) == Some(store[(id, c)]))
  }

  ghost function Without<C>(store: map<(Id, nat), C>, id: Id): map<(Id, nat), C> {
    map k | k in store && k.0 != id :: store[k]
  }

  lemma CellSet<C>(pools: Pools<C>, index: nat, kind: nat, cell: Option<C>)
    requires kind < |pools| && pools[kind].Some? && index < |pools[kind].value|
    ensures var after := pools[kind := Some(pools[kind].value[index := cell])];
      forall i, c :: Cell(after, i, c) == if i == index && c == kind then cell else Cell(pools, i, c)
  {
  }

  lemma NotInStore<C>(pools: Pools<C>, live: set<Id>, store: map<(Id, nat), C>, id: Id)
    requires StoreFits(pools, live, store) && id !in live
    ensures Without(store, id) == store
  {
    forall k | k in store ensures k.0 != id {
      assert k == (k.0, k.1);
    }
  }

  lemma LiveMeans(freeList: seq<U32>, versions: seq<U32>, issued: set<Id>, live: set<Id>, id: Id)
    requires SlotsFit(freeList, versions) && HandlesFit(freeList, versions, issued, live)
    ensures id in live <==>
      id.idx < |versions| && versions[id.idx] == id.ver && id.idx !in freeList
    ensures id in live ==> forall other | other in live && other.idx == id.idx :: other == id
  {
  }

  // A component in a free slot fits neither there nor once the slot is taken.
  lemma NotBare<C>(freeList: seq<U32>, before: Pools<C>, after: Pools<C>, left: seq<U32>, live: set<Id>,
                   store: map<(Id, nat), C>, id: Id)
    requires forall i, c :: Cell(after, i, c) == Cell(before, i, c)
    requires id in live && (forall i :: i in left <==> i in freeList && i != id.idx)
    requires forall c: nat :: (id, c) !in store
    ensures FreeAreBare(left, after) && StoreFits(after, live, store) ==> FreeAreBare(freeList, before)
  {
    if FreeAreBare(left, after) && StoreFits(after, live, store) {
      forall i, c: nat | i in freeList
        ensures Cell(before, i, c) == None
      {
        assert Cell(after, i, c) == Cell(before, i, c);
        if i == id.idx {
          assert (id, c) !in store;
        }
      }
    }
  }

  lemma WrappedVersion(freeList: seq<U32>, versions: seq<U32>, index: U32)
    requires index < |versions| && versions[index] == 0
    ensures !SlotsFit(freeList, versions)
  {
  }

  lemma FreedTwice(freeList: seq<U32>, versions: seq<U32>, index: U32)
    requires index in freeList
    ensures !SlotsFit(freeList + [index], versions)
  {
    var longer := freeList + [index];
    var i :| 0 <= i < |freeList| && freeList[i] == index;
    assert longer[i] == longer[|freeList|];
  }

  lemma SlotFreed(freeList: seq<U32>, versions: seq<U32>, issued: set<Id>, live: set<Id>, id: Id)
    requires SlotsFit(freeList, versions) && HandlesFit(freeList, versions, issued, live)
    requires id in live && id.ver + 1 < WORD
    ensures SlotsFit(freeList + [id.idx], versions[id.idx := id.ver + 1])
    ensures HandlesFit(freeList + [id.idx], versions[id.idx := id.ver + 1], issued, live - {id})
  {
    var freed := freeList + [id.idx];
    assert forall i :: i in freed <==> i in freeList || i == id.idx;
  }

  // Emptying the cells of one slot takes one entity's components out of the store, no others.
  lemma StoreCleared<C>(freeList: seq<U32>, before: Pools<C>, after: Pools<C>, live: set<Id>,
                        store: map<(Id, nat), C>, id: Id)
    requires StoreFits(before, live, store) && FreeAreBare(freeList, before) && id in live
    requires forall other | other in live && other.idx == id.idx :: other == id
    requires forall i, c :: Cell(after, i, c) == if i == id.idx then None else Cell(before, i, c)
    ensures StoreFits(after, live - {id}, Without(store, id)) && FreeAreBare(freeList + [id.idx], after)
  {
    forall other: Id, c: nat
      ensures (other, c) in Without(store, id) <==> other in live - {id} && Cell(after, other.idx, c).Some?
    {
      assert (other, c) in store <==> other in live && Cell(before, other.idx, c).Some?;
      assert (other, c) in Without(store, id) <==> (other, c) in store && (other, c).0 != id;
    }
  }

  lemma StoreAdded<C>(before: Pools<C>, after: Pools<C>, live: set<Id>, store: map<(Id, nat), C>,
                      id: Id, kind: nat, component: C)
    requires StoreFits(before, live, store) && id in live
    requires forall other | other in live && other.idx == id.idx :: other == id
    requires forall i, c ::
      Cell(after, i, c) == if i == id.idx && c == kind then Some(component) else Cell(before, i, c)
    ensures StoreFits(after, live, store[(id, kind) := component])
  {
    forall other: Id, c: nat
      ensures (other, c) in store[(id, kind) := component] <==> other in live && Cell(after, other.idx, c).Some?
    {
      assert (other, c) in store <==> other in live && Cell(before, other.idx, c).Some?;
    }
  }

  class EntityManager<Component> {
    var counter: U32
    var freeList: seq<U32>
    var versions: seq<U32>
    var pools: Pools<Component>

    // The handles ever given out, those not destroyed yet, and what the pools stand for.
    ghost var issued: set<Id>
    ghost var live: set<Id>
    ghost var store: map<(Id, nat), Component>

    ghost predicate Valid()
      reads this
    {
      Usable() && FreeAreBare(freeList, pools)
    }

    // All but that free slots are bare.
    ghost predicate Usable()
      reads this
    {
      && counter == |versions|
      && SlotsFit(freeList, versions)
      && HandlesFit(freeList, versions, issued, live)
      && PoolsFit(pools, |versions|)
      && StoreFits(pools, live, store)
    }

    predicate Current(id: Id)
      reads this
    {
      id.idx < |versions| && versions[id.idx] == id.ver
    }

    constructor ()
      ensures Valid() && issued == {} && live == {} && store == map[] && pools == []
      ensures freeList == [] && versions == []
    {
      counter, freeList, versions, pools := 0, [], [], [];
      issued, live, store := {}, {}, map[];
    }

    method Check(id: Id) returns (ok: bool)
      requires Valid()
      ensures ok == Current(id) && (id in issued ==> (ok <==> id in live))
    {
      if |versions| <= id.idx {
        return false;
      }
      return versions[id.idx] == id.ver;
    }

    // Resizing every existing pool for one more slot.
    method ExtendPools(size: nat)
      requires forall c | 0 <= c < |pools| && pools[c].Some? :: |pools[c].value| + 1 == size
      modifies this`pools
      ensures |pools| == |old(pools)|
      ensures forall c | 0 <= c < |pools| :: pools[c] == match old(pools[c])
        case None => None
        case Some(pool) => Some(pool + [None])
    {
      var c := 0;
      while c < |pools|
        invariant 0 <= c <= |pools| == |old(pools)|
        invariant forall d | 0 <= d < c :: pools[d] == match old(pools[d])
          case None => None
          case Some(pool) => Some(pool + [None])
        invariant forall d | c <= d < |pools| :: pools[d] == old(pools[d])
      {
        if pools[c].Some? {
          pools := pools[c := Some(pools[c].value + [None])];
        }
        c := c + 1;
      }
    }

    // A slot that no live entity has: a new one with version 1, or the last one freed.
    method NewSlot() returns (index: U32)
      requires counter == |versions| && PoolsFit(pools, |versions|)
      modifies this`counter, this`versions, this`pools
      ensures index == |old(versions)| && versions == old(versions) + [1]
      ensures counter == Low32(|versions|) && PoolsFit(pools, |versions|)
      ensures forall i, c :: Cell(pools, i, c) == old(Cell(pools, i, c))
    {
      index := counter;
      counter := Low32(counter as int + 1);
      if |versions| <= index {
        versions := versions + [0];
        ExtendPools(index + 1);
      }
      versions := versions[index := 1];
    }

    method FreedSlot() returns (index: U32)
      requires SlotsFit(freeList, versions) && freeList != []
      modifies this`freeList
      ensures SlotsFit(freeList, versions)
      ensures index == old(freeList)[|old(freeList)| - 1]
      ensures index in old(freeList) && index !in freeList
      ensures forall i :: i in freeList <==> i in old(freeList) && i != index
    {
      index := freeList[|freeList| - 1];
      freeList := freeList[..|freeList| - 1];
      assert old(freeList) == freeList + [index];
    }

    // Every handle is new, and the entity has no components, unless its slot was not bare: then it
    // starts with what it finds there. Exactly the 2^32nd slot makes the counter wrap, and the next
    // one would be a slot in use.
    method Create() returns (id: Id)
      requires Usable()
      modifies this
      ensures Valid() <==> old(Valid()) && (old(freeList) == [] ==> old(counter) + 1 < WORD)
      ensures id !in old(issued) && issued == old(issued) + {id} && live == old(live) + {id}
      ensures store == old(store) && forall c: nat :: (id, c) !in store
      ensures if old(freeList) == [] then id == Id(|old(versions)|, 1) else id.idx == old(freeList)[|old(freeList)| - 1]
      ensures PoolsFit(pools, |versions|) && id.idx < |versions|
      ensures forall i, c :: Cell(pools, i, c) == old(Cell(pools, i, c))
    {
      var index;
      if freeList == [] {
        index := NewSlot();
      } else {
        index := FreedSlot();
      }
      id := Id(index, versions[index]);
      issued := issued + {id};
      live := live + {id};
      NotBare(old(freeList), old(pools), pools, freeList, live, store, id);
    }

    // Destroying an old handle changes nothing. A handle that is current but not live can only be
    // invented: it names the next entity of a free slot, which then is in the free list twice. And
    // a version that wraps leaves the slot with version 0, which no slot starts with. Exactly these
    // two go wrong.
    method Destroy(id: Id)
      requires Valid()
      modifies this
      ensures Valid() <==> (old(Current(id)) ==> id in old(live) && id.ver + 1 < WORD)
      ensures Valid() ==> issued == old(issued) && live == old(live) - {id} && store == Without(old(store), id)
      ensures freeList == if old(Current(id)) then old(freeList) + [id.idx] else old(freeList)
      ensures !Valid() ==> id.idx in old(freeList) || versions == old(versions)[id.idx := 0]
      ensures |versions| == |old(versions)|
    {
      hide SlotsFit, HandlesFit, StoreFits, FreeAreBare, PoolsFit, Without;
      LiveMeans(freeList, versions, issued, live, id);
      if id.idx >= |versions| {
        NotInStore(pools, live, store, id);
        return;
      }
      if versions[id.idx] != id.ver {
        NotInStore(pools, live, store, id);
        return;
      }
      ghost var sound := id in live && id.ver + 1 < WORD;
      if sound {
        SlotFreed(freeList, versions, issued, live, id);
      }
      versions := versions[id.idx := Low32(versions[id.idx] as int + 1)];
      freeList := freeList + [id.idx];
      ClearSlot(id.idx);
      if sound {
        StoreCleared(old(freeList), old(pools), pools, live, store, id);
        live := live - {id};
        store := Without(store, id);
      } else if id in live {
        WrappedVersion(freeList, versions, id.idx);
      } else {
        FreedTwice(old(freeList), versions, id.idx);
      }
    }

    // Emptying the slot's cell in every pool. The guard lets the last index through by one; it
    // is the pools' length that keeps the access inside.
    method ClearSlot(index: U32)
      requires index < |versions|
      requires PoolsFit(pools, |versions|)
      modifies this`pools
      ensures PoolsFit(pools, |versions|)
      ensures forall i, c :: Cell(pools, i, c) == if i == index then None else old(Cell(pools, i, c))
    {
      var c := 0;
      while c < |pools|
        invariant 0 <= c <= |pools| == |old(pools)|
        invariant PoolsFit(pools, |versions|)
        invariant forall i, d ::
          Cell(pools, i, d) == if i == index && d < c then None else old(Cell(pools, i, d))
      {
        if pools[c].Some? && |pools[c].value| >= index {
          CellSet(pools, index, c, None);
          pools := pools[c := Some(pools[c].value[index := None])];
        } else {
          assert pools[c].None?;
          assert forall i :: Cell(pools, i, c) == None;
        }
        c := c + 1;
      }
    }

    // The entity that has a slot that is not free.
    function Owner(index: U32): Id
      requires index < |versions|
      reads this
    {
      Id(index, versions[index])
    }

    // The pool of a type, with an empty cell for every slot if it is new.
    method MakePool(kind: nat)
      requires counter == |versions| && PoolsFit(pools, |versions|)
      modifies this`pools
      ensures PoolsFit(pools, |versions|) && kind < |pools| && pools[kind].Some?
      ensures forall i, c :: Cell(pools, i, c) == old(Cell(pools, i, c))
    {
      if |pools| <= kind {
        pools := pools + seq(kind + 1 - |pools|, _ => None);
      }
      if pools[kind].None? {
        pools := pools[kind := Some(seq(counter, _ => None))];
      }
    }

    // Giving an entity a component, replacing one of the same type. Nobody looks at the version: an
    // old handle gives the component to the slot's present owner. Exactly if the slot is free this
    // goes wrong, and the next entity in it will start with the component.
    method Add(id: Id, kind: nat, component: Component)
      requires Valid() && id.idx < |versions|
      modifies this`pools, this`store
      ensures Usable() && (Valid() <==> id.idx !in freeList)
      ensures Valid() ==> Owner(id.idx) in live && store == old(store)[(Owner(id.idx), kind) := component]
      ensures Cell(pools, id.idx, kind) == Some(component)
    {
      MakePool(kind);
      var pool := pools[kind].value;
      CellSet(pools, id.idx, kind, Some(component));
      pools := pools[kind := Some(pool[id.idx := Some(component)])];
      if id.idx !in freeList {
        StoreAdded(old(pools), pools, live, store, Owner(id.idx), kind, component);
        store := store[(Owner(id.idx), kind) := component];
      } else {
        assert Cell(pools, id.idx, kind) == Some(component);
      }
    }

    // What is in the slot's cell, whatever the version asked for. That is what the slot's present
    // owner has, and nothing for a free slot, as long as free slots are bare.
    method Get(id: Id, kind: nat) returns (component: Option<Component>)
      requires PoolsFit(pools, |versions|) && id.idx < |versions|
      ensures component == Cell(pools, id.idx, kind)
      ensures Valid() && id in live ==> Owner(id.idx) == id
      ensures Valid() ==>
        component == if (Owner(id.idx), kind) in store then Some(store[(Owner(id.idx), kind)]) else None
      ensures Valid() && id.idx in freeList ==> component == None
    {
      component := if |pools| <= kind || pools[kind].None? then None else pools[kind].value[id.idx];
      assert component == Cell(pools, id.idx, kind);
    }

    // The handles among `ids` that pass the check and have all the components, in order. Every
    // queried type must have a pool slot.
    method WithComponents(ids: seq<Id>, kinds: seq<nat>) returns (found: seq<Id>, ghost places: seq<nat>)
      requires Valid() && forall k | k in kinds :: k < |pools|
      ensures found == Having(ids, kinds, versions, store)
      ensures Picks(ids, found, places)
      ensures forall id | id in found :: id in ids && Current(id) && forall k | k in kinds :: (id, k) in store
      ensures forall id | id in ids && Current(id) && (forall k | k in kinds :: (id, k) in store) ::
        multiset(found)[id] == multiset(ids)[id]
    {
      found := [];
      var i := 0;
      while i < |ids|
        invariant 0 <= i <= |ids|
        invariant found == Having(ids[..i], kinds, versions, store)
      {
        var id := ids[i];
        var ok := Check(id);
        if ok {
          var j := 0;
          while j < |kinds| && ok
            invariant 0 <= j <= |kinds|
            invariant ok ==> forall i | 0 <= i < j :: (id, kinds[i]) in store
            invariant !ok ==> exists k :: k in kinds && (id, k) !in store
          {
            var k := kinds[j];
            assert k in kinds;
            ok := pools[k].Some? && pools[k].value[id.idx].Some?;
            assert ok == Cell(pools, id.idx, k).Some?;
            assert id.idx in freeList ==> !ok;
            assert ok == ((id, k) in store);
            j := j + 1;
          }
          if ok {
            found := found + [id];
          }
        }
        assert ids[..i + 1][..i] == ids[..i];
        i := i + 1;
      }
      assert ids[..|ids|] == ids;
      places := HavingExactly(ids, kinds, versions, store);
    }
  }

  ghost function Having<C>(ids: seq<Id>, kinds: seq<nat>, versions: seq<U32>, store: map<(Id, nat), C>): seq<Id> {
    if ids == [] then [] else
      var earlier, id := Having(ids[..|ids| - 1], kinds, versions, store), ids[|ids| - 1];
      if HasAll(id, kinds, versions, store) then earlier + [id] else earlier
  }

  ghost predicate HasAll<C>(id: Id, kinds: seq<nat>, versions: seq<U32>, store: map<(Id, nat), C>) {
    id.idx < |versions| && versions[id.idx] == id.ver && forall k | k in kinds :: (id, k) in store
  }

  // `found` stands in `ids` at these places, in this order.
  ghost predicate Picks(ids: seq<Id>, found: seq<Id>, places: seq<nat>) {
    && |places| == |found|
    && (forall p, q | 0 <= p < q < |places| :: places[p] < places[q])
    && (forall p | 0 <= p < |places| :: places[p] < |ids| && found[p] == ids[places[p]])
  }

  // The query drops what does not pass the check or lacks a component, and nothing else.
  lemma {:induction false} HavingPicks<C>(
    ids: seq<Id>, kinds: seq<nat>, versions: seq<U32>, store: map<(Id, nat), C>) returns (places: seq<nat>)
    ensures Picks(ids, Having(ids, kinds, versions, store), places)
  {
    hide HasAll;
    places := [];
    if ids != [] {
      var n := |ids| - 1;
      places := HavingPicks(ids[..n], kinds, versions, store);
      if HasAll(ids[n], kinds, versions, store) {
        places := places + [n];
      }
    }
  }

  lemma {:induction false} HavingCounts<C>(
    ids: seq<Id>, kinds: seq<nat>, versions: seq<U32>, store: map<(Id, nat), C>, id: Id)
    ensures multiset(Having(ids, kinds, versions, store))[id] ==
      if HasAll(id, kinds, versions, store) then multiset(ids)[id] else 0
  {
    hide HasAll;
    if ids != [] {
      HavingCounts(ids[..|ids| - 1], kinds, versions, store, id);
      assert ids == ids[..|ids| - 1] + [ids[|ids| - 1]];
    }
  }

  lemma HavingExactly<C>(
    ids: seq<Id>, kinds: seq<nat>, versions: seq<U32>, store: map<(Id, nat), C>) returns (places: seq<nat>)
    ensures Picks(ids, Having(ids, kinds, versions, store), places)
    ensures forall id | id in Having(ids, kinds, versions, store) :: id in ids && HasAll(id, kinds, versions, store)
    ensures forall id | id in ids && HasAll(id, kinds, versions, store) ::
      multiset(Having(ids, kinds, versions, store))[id] == multiset(ids)[id]
  {
    hide HasAll, Having;
    places := HavingPicks(ids, kinds, versions, store);
    forall id
      ensures id in Having(ids, kinds, versions, store) ==> id in ids && HasAll(id, kinds, versions, store)
      ensures HasAll(id, kinds, versions, store) ==>
        multiset(Having(ids, kinds, versions, store))[id] == multiset(ids)[id]
    {
      HavingCounts(ids, kinds, versions, store, id);
      assert id in Having(ids, kinds, versions, store) <==> id in multiset(Having(ids, kinds, versions, store));
      assert id in ids <==> id in multiset(ids);
    }
  }

  // A query with at least one type finds live entities only.
  lemma {:induction false} HavingIsLive<C>(m: EntityManager<C>, ids: seq<Id>, kinds: seq<nat>)
    requires m.Valid() && kinds != []
    ensures forall id | id in Having(ids, kinds, m.versions, m.store) :: id in m.live
  {
    if ids != [] {
      HavingIsLive(m, ids[..|ids| - 1], kinds);
      assert kinds[0] in kinds;
      assert (ids[|ids| - 1], kinds[0]) in m.store ==> ids[|ids| - 1] in m.live;
    }
  }

  // An entity is destroyed, its old handle is used once more to add a component, and the next
  // entity, to which nobody has added anything, has it.
  method InheritedComponent<C>(kind: nat, component: C) returns (first: Id, second: Id, found: Option<C>)
    ensures first != second && found == Some(component)
  {
    var m := new EntityManager<C>();
    first := m.Create();
    m.Destroy(first);
    m.Add(first, kind, component);
    second := m.Create();
    found := m.Get(second, kind);
  }

  // A handle passes the check exactly while it is live, or if it is the one a free slot will give
  // out next: so an issued handle passes exactly until it is destroyed.
  lemma CheckExactly<C>(m: EntityManager<C>, id: Id)
    requires m.Valid()
    ensures m.Current(id) <==> id in m.live || (id.idx in m.freeList && id.ver == m.versions[id.idx])
    ensures id in m.issued ==> (m.Current(id) <==> id in m.live)
    ensures !m.Current(Id(0, 0))
  {
  }
}
