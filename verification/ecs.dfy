/** The registry: identifiers, one storage for each component type, and a context. */
module Ecs {
  import opened Sequences
  import opened Entities
  import opened Storages

  // ---------- What a registry means ----------

  datatype Reg<V, C> = Reg(ids: Ids, pools: map<nat, seq<Item<V>>>, ctx: C)

  /** A component type without a storage has no components. */
  function Pool<V, C>(r: Reg<V, C>, c: nat): seq<Item<V>>
  {
    if c in r.pools then r.pools[c] else []
  }

  /** Storages hold live entities only, each at most once. */
  ghost predicate PoolsOk<V, C>(r: Reg<V, C>)
  {
    && (forall c :: c in r.pools ==> DistinctSlots(r.pools[c]))
    && (forall c, i :: c in r.pools && 0 <= i < |r.pools[c]| ==> Live(r.ids, r.pools[c][i].id))
  }

  function WithoutEntity<V>(pools: map<nat, seq<Item<V>>>, e: Id): map<nat, seq<Item<V>>>
  {
    map c | c in pools :: Removed(pools[c], e)
  }

  function Destroyed<V, C>(r: Reg<V, C>, e: Id): Reg<V, C>
    requires Live(r.ids, e)
  {
    r.(ids := AfterRelease(r.ids, e), pools := WithoutEntity(r.pools, e))
  }

  function Emplaced<V, C>(r: Reg<V, C>, c: nat, e: Id, v: V): Reg<V, C>
  {
    r.(pools := r.pools[c := Pool(r, c) + [Item(e, v)]])
  }

  function Dropped<V, C>(r: Reg<V, C>, c: nat, e: Id): Reg<V, C>
  {
    r.(pools := r.pools[c := Removed(Pool(r, c), e)])
  }

  lemma LiveHasOwnSlot<V, C>(r: Reg<V, C>, c: nat, e: Id, i: nat)
    requires PoolsOk(r) && Live(r.ids, e) && !Holds(Pool(r, c), e) && i < |Pool(r, c)|
    ensures Pool(r, c)[i].id.slot != e.slot
  {
    assert Live(r.ids, r.pools[c][i].id);
  }

  lemma PoolsStayOk<V, C>(r: Reg<V, C>, ids: Ids)
    requires PoolsOk(r) && forall e :: Live(r.ids, e) ==> Live(ids, e)
    ensures PoolsOk(r.(ids := ids))
  {
    hide Live, DistinctSlots;
    assert r.(ids := ids).pools == r.pools;
  }

  lemma EmptyPoolIsOk<V, C>(r: Reg<V, C>, c: nat)
    requires PoolsOk(r)
    ensures PoolsOk(r.(pools := r.pools[c := Pool(r, c)]))
  {
    hide Live;
  }

  lemma EmplacedIsOk<V, C>(r: Reg<V, C>, c: nat, e: Id, v: V)
    requires PoolsOk(r) && Live(r.ids, e) && !Holds(Pool(r, c), e)
    ensures PoolsOk(Emplaced(r, c, e, v))
    ensures forall i :: 0 <= i < |Pool(r, c)| ==> Pool(r, c)[i].id.slot != e.slot
  {
    hide Live;
    forall i | 0 <= i < |Pool(r, c)|
      ensures Pool(r, c)[i].id.slot != e.slot
    {
      LiveHasOwnSlot(r, c, e, i);
    }
  }

  lemma DroppedIsOk<V, C>(r: Reg<V, C>, c: nat, e: Id)
    requires PoolsOk(r) && c in r.pools
    ensures PoolsOk(Dropped(r, c, e))
  {
    hide Live, Removed;
    RemovedContents(r.pools[c], e);
    var d := Dropped(r, c, e);
    forall i | 0 <= i < |d.pools[c]|
      ensures Live(d.ids, d.pools[c][i].id)
    {
      var x := d.pools[c][i].id;
      assert Holds(d.pools[c], x);
      assert Holds(r.pools[c], x);
    }
  }

  /** Destroying an entity leaves every other entity and its components, in every storage. */
  lemma DestroyedIsOk<V, C>(r: Reg<V, C>, chain: seq<nat>, e: Id)
    requires PoolsOk(r) && Chained(r.ids, chain) && Live(r.ids, e)
    ensures PoolsOk(Destroyed(r, e)) && Chained(Destroyed(r, e).ids, [e.slot] + chain)
    ensures forall x :: Live(Destroyed(r, e).ids, x) <==> Live(r.ids, x) && x != e
    ensures forall c :: !Holds(Pool(Destroyed(r, e), c), e)
    ensures forall c, x :: x != e ==> (Holds(Pool(Destroyed(r, e), c), x) <==> Holds(Pool(r, c), x))
    ensures forall c, x :: x != e && Holds(Pool(r, c), x) ==>
              Holds(Pool(Destroyed(r, e), c), x) && ValueOf(Pool(Destroyed(r, e), c), x) == ValueOf(Pool(r, c), x)
  {
    hide Chained, AfterRelease, Removed, ValueOf, DistinctSlots, Live;
    ReleaseIsSafe(r.ids, chain, e);
    var d := Destroyed(r, e);
    forall c | c in r.pools
      ensures DistinctSlots(d.pools[c]) && !Holds(d.pools[c], e)
      ensures forall x :: x != e ==> (Holds(d.pools[c], x) <==> Holds(r.pools[c], x))
      ensures forall x :: x != e && Holds(r.pools[c], x) ==> Holds(d.pools[c], x) && ValueOf(d.pools[c], x) == ValueOf(r.pools[c], x)
    {
      RemovedContents(r.pools[c], e);
    }
    forall c, i | c in d.pools && 0 <= i < |d.pools[c]|
      ensures Live(d.ids, d.pools[c][i].id)
    {
      var x := d.pools[c][i].id;
      assert Holds(d.pools[c], x);
      assert Holds(r.pools[c], x);
    }
  }

  lemma NothingIsHeld<V>(e: Id)
    ensures !Holds<V>([], e)
  {
  }

  // ---------- How the program keeps it ----------

  class EntityRegistry<V, C> {
    var ids: Ids
    var order: seq<nat>
    var pools: map<nat, Storage<V>>
    var ctx: C
    ghost var chain: seq<nat>
    ghost var contents: map<nat, seq<Item<V>>>
    ghost var repr: set<Storage<V>>

    ghost function View(): Reg<V, C>
      reads this
    {
      Reg(ids, contents, ctx)
    }

    ghost predicate Owned()
      reads `order, `pools, `repr, repr
    {
      && NoRepeats(order)
      && (forall c :: c in order <==> c in pools)
      && (forall c :: c in pools ==> pools[c] in repr && pools[c].Valid())
      && (forall c, d :: c in pools && d in pools && c != d ==> pools[c] != pools[d])
    }

    ghost predicate Valid()
      reads this, repr
    {
      && Owned()
      && contents.Keys == pools.Keys
      && (forall c :: c in pools ==> contents[c] == pools[c].items)
      && Chained(ids, chain)
      && PoolsOk(View())
    }

    constructor (ctx: C)
      ensures Valid() && View() == Reg(Ids([], NULL_SLOT), map[], ctx) && repr == {}
    {
      ids, order, pools, chain, contents, repr := Ids([], NULL_SLOT), [], map[], [], map[], {};
      this.ctx := ctx;
    }

    /** Starts over with no storages and these identifiers. */
    method Reset(ids: Ids, ghost chain: seq<nat>, ctx: C)
      requires Chained(ids, chain)
      modifies this
      ensures Valid() && View() == Reg(ids, map[], ctx) && repr == {} && order == [] && this.chain == chain
    {
      order, pools, contents, repr := [], map[], map[], {};
      this.ids, this.chain, this.ctx := ids, chain, ctx;
    }

    lemma StorageFacts(c: nat)
      requires Valid() && c in pools
      ensures pools[c] in repr && pools[c].Valid() && pools[c].items == contents[c]
      ensures DistinctSlots(contents[c]) && forall i :: 0 <= i < |contents[c]| ==> Live(ids, contents[c][i].id)
    {
    }

    lemma OrderFacts()
      requires Valid()
      ensures NoRepeats(order) && Chained(ids, chain)
      ensures forall c :: c in order <==> c in pools
      ensures contents.Keys == pools.Keys
    {
    }

    predicate IsValid(e: Id)
      reads this
    {
      Live(ids, e)
    }

    method AnyOf(c: nat, e: Id) returns (found: bool)
      requires Valid()
      ensures found <==> Holds(Pool(View(), c), e)
    {
      hide Chained, PoolsOk, NoRepeats, Storage.Valid, Holds;
      assert !Holds<V>([], e) by { NothingIsHeld<V>(e); }
      found := c in pools && pools[c].Contains(e);
    }

    method Get(c: nat, e: Id) returns (v: V)
      requires Valid() && Holds(Pool(View(), c), e)
      ensures v == ValueOf(Pool(View(), c), e)
    {
      hide Chained, PoolsOk, NoRepeats, Storage.Valid, Holds, ValueOf;
      assert !Holds<V>([], e) by { NothingIsHeld<V>(e); }
      v := pools[c].Get(e);
    }

    method Create() returns (e: Id)
      requires Valid() && (chain == [] ==> |ids.pool| < NULL_SLOT)
      modifies this
      ensures Valid() && repr == old(repr)
      ensures View() == old(View()).(ids := AfterCreate(old(ids))) && e == Created(old(ids))
      ensures !Live(old(ids), e) && Live(ids, e)
    {
      CreatableIds();
      hide Owned, Chained, PoolsOk, AfterCreate, Created, Live;
      ghost var chain' := CreateIsSafe(ids, chain);
      PoolsStayOk(View(), AfterCreate(ids));
      e := Created(ids);
      ids := AfterCreate(ids);
      chain := chain';
    }

    lemma CreatableIds()
      requires Valid()
      ensures ids.free == NULL_SLOT || ids.free < |ids.pool|
    {
    }

    /** Finds the storage of a component type, making an empty one if there is none. */
    method Assure(c: nat, swapAndPop: bool) returns (storage: Storage<V>)
      requires Valid()
      modifies this
      ensures Valid() && c in pools && storage == pools[c] && storage.items == contents[c]
      ensures ids == old(ids) && ctx == old(ctx)
      ensures contents == old(contents)[c := if c in old(contents) then old(contents)[c] else []]
      ensures c in old(pools) ==> repr == old(repr) && order == old(order)
      ensures c !in old(pools) ==> repr == old(repr) + {storage} && fresh(storage) && order == old(order) + [c]
    {
      hide NoRepeats, Chained, PoolsOk, Storage.Valid;
      if c in pools {
        storage := pools[c];
        assert contents == contents[c := contents[c]];
      } else {
        storage := new Storage(swapAndPop);
        AddStorage(c, storage);
      }
    }

    method AddStorage(c: nat, storage: Storage<V>)
      requires Valid() && c !in pools && storage !in repr && storage.Valid() && storage.items == []
      modifies this
      ensures Valid() && pools == old(pools)[c := storage] && order == old(order) + [c]
      ensures ids == old(ids) && ctx == old(ctx) && contents == old(contents)[c := []] && repr == old(repr) + {storage}
    {
      hide NoRepeats, Chained, PoolsOk, Storage.Valid;
      EmptyPoolIsOk(View(), c);
      NoRepeatsSnoc(order, c);
      pools := pools[c := storage];
      order := order + [c];
      contents := contents[c := []];
      repr := repr + {storage};
    }

    /** Adds a component to a storage that exists. */
    method Append(c: nat, e: Id, v: V)
      requires Valid() && c in pools && Live(ids, e) && !Holds(contents[c], e)
      modifies this`contents, repr
      ensures Valid() && contents == old(contents)[c := old(contents)[c] + [Item(e, v)]]
    {
      hide NoRepeats, Chained, PoolsOk, Storage.Valid, Live, Holds;
      EmplacedIsOk(View(), c, e, v);
      pools[c].Emplace(e, v);
      contents := contents[c := contents[c] + [Item(e, v)]];
    }

    method Emplace(c: nat, e: Id, v: V)
      requires Valid() && Live(ids, e) && !Holds(Pool(View(), c), e)
      modifies this, repr
      ensures Valid() && View() == Emplaced(old(View()), c, e, v)
      ensures fresh(repr - old(repr))
    {
      hide Owned, Chained, PoolsOk, Storage.Valid, Live, Holds;
      var _ := Assure(c, true);
      Append(c, e, v);
    }

    /** Removes the entity's component of one type, if it has one. */
    method Remove(c: nat, e: Id)
      requires Valid()
      modifies repr, this`contents
      ensures Valid() && repr == old(repr)
      ensures View() == if c in old(contents) then Dropped(old(View()), c, e) else old(View())
    {
      hide NoRepeats, Chained, Storage.Valid, Live, Removed;
      if c in pools {
        DroppedIsOk(View(), c, e);
        var _ := pools[c].Remove(e);
        contents := contents[c := Removed(contents[c], e)];
      }
    }

    /** Removes the entity from every storage, from the last one back to the first. */
    method RemoveFromAll(e: Id)
      requires Owned()
      modifies repr
      ensures Owned()
      ensures forall c :: c in pools ==> pools[c].items == Removed(old(pools[c].items), e)
    {
      hide Removed, Storage.Valid, NoRepeats;
      var n := |order|;
      while n > 0
        invariant 0 <= n <= |order|
        invariant Owned()
        invariant forall c :: c in pools ==> pools[c].items == if c in order[n..] then Removed(old(pools[c].items), e) else old(pools[c].items)
      {
        n := n - 1;
        var c := order[n];
        Differ(order, n);
        assert order[n..] == [c] + order[n + 1..];
        assert c !in order[n + 1..];
        var _ := pools[c].Remove(e);
      }
      assert order[0..] == order;
    }

    /** Removes the entity's components, and releases its identifier. */
    method Destroy(e: Id)
      requires Valid() && Live(ids, e)
      modifies this, repr
      ensures Valid() && View() == Destroyed(old(View()), e)
      ensures repr == old(repr)
    {
      hide Chained, Removed, PoolsOk, Storage.Valid, NoRepeats, Live;
      RemoveFromAll(e);
      DestroyedIsOk(View(), chain, e);
      ids := AfterRelease(ids, e);
      chain := [e.slot] + chain;
      contents := WithoutEntity(contents, e);
    }
  }

  /** A handle to a destroyed entity does not become one to the entity that gets its slot. */
  method StaleHandle<V, C>(ctx: C) returns (first: Id, second: Id, registry: EntityRegistry<V, C>)
    ensures first == Id(0, 0) && second == Id(0, 1)
    ensures registry.Valid() && !Live(registry.ids, first) && Live(registry.ids, second)
  {
    hide PoolsOk, Storage.Valid;
    registry := new EntityRegistry(ctx);
    first := registry.Create();
    registry.Destroy(first);
    NothingElse(registry);
    second := registry.Create();
  }

  lemma NothingElse<V, C>(registry: EntityRegistry<V, C>)
    requires registry.Valid() && registry.ids.free == 0
    ensures registry.chain != []
  {
  }
}
