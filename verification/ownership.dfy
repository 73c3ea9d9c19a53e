/**
 Destroying what is marked, and everything whose chain of owners leads to something that is gone.
 The sweeps destroy entities of the very storage that they are iterating over.
 */
module Ownership {
  import opened Sequences
  import opened Entities
  import opened Storages
  import opened Ecs

  datatype Component<X> = Owner(entity: Id) | Mark | Other(data: X)

  /** The storages of the two component types that the cascade reads. */
  const OWNERS: nat := 0
  const MARKS: nat := 1

  type Realm<X, C> = Reg<Component<X>, C>

  /** The storage of owners holds owners only; the second case never arises. */
  function Target<X>(v: Component<X>): Id
  {
    if v.Owner? then v.entity else Id(NULL_SLOT, TOMBSTONE_VERSION)
  }

  predicate HasOwner<X, C>(r: Realm<X, C>, e: Id)
  {
    Holds(Pool(r, OWNERS), e)
  }

  function OwnerOf<X, C>(r: Realm<X, C>, e: Id): Id
    requires HasOwner(r, e)
  {
    Target(ValueOf(Pool(r, OWNERS), e))
  }

  predicate IsOwnedBy<X, C>(r: Realm<X, C>, e: Id, owner: Id)
  {
    HasOwner(r, e) && OwnerOf(r, e) == owner
  }

  /** No entity is its own owner, directly or through others. */
  ghost predicate Acyclic<X, C>(r: Realm<X, C>, rank: Id -> nat)
  {
    forall e :: HasOwner(r, e) ==> rank(OwnerOf(r, e)) < rank(e)
  }

  ghost predicate Intact<X, C>(r: Realm<X, C>)
  {
    PoolsOk(r) && exists chain :: Chained(r.ids, chain)
  }

  // ---------- What should survive ----------

  /** Each element of `p` owns the one before it. */
  ghost predicate Chain<X, C>(r: Realm<X, C>, p: seq<Id>)
  {
    p != [] && forall i, j :: 0 <= i && j == i + 1 && j < |p| ==> IsOwnedBy(r, p[i], p[j])
  }

  /** Somewhere up the chain of owners that starts with `e` itself is something that is not among `ids`. */
  ghost predicate Severed<X, C>(r: Realm<X, C>, ids: Ids, e: Id)
  {
    exists p :: Chain(r, p) && p[0] == e && !Live(ids, p[|p| - 1])
  }

  /** Somewhere up the chain of owners that starts with `e` itself is something dead or marked. */
  ghost predicate Lost<X, C>(r: Realm<X, C>, e: Id)
  {
    exists p :: Chain(r, p) && p[0] == e && (!Live(r.ids, p[|p| - 1]) || Holds(Pool(r, MARKS), p[|p| - 1]))
  }

  /** `r` is `before` with some entities gone; what is left has all its components, unchanged. */
  ghost predicate Thins<X, C>(before: Realm<X, C>, r: Realm<X, C>)
  {
    && r.ctx == before.ctx
    && (forall x :: Live(r.ids, x) ==> Live(before.ids, x))
    && (forall c, x {:trigger Holds(Pool(r, c), x)} {:trigger Holds(Pool(before, c), x)} ::
          Holds(Pool(r, c), x) <==> Live(r.ids, x) && Holds(Pool(before, c), x))
    && (forall c, x :: Holds(Pool(r, c), x) && Holds(Pool(before, c), x) ==>
          ValueOf(Pool(r, c), x) == ValueOf(Pool(before, c), x))
  }

  lemma ThinsItself<X, C>(r: Realm<X, C>)
    requires PoolsOk(r)
    ensures Thins(r, r)
  {
    forall c, x | Holds(Pool(r, c), x)
      ensures Live(r.ids, x)
    {
      var i :| 0 <= i < |Pool(r, c)| && Pool(r, c)[i].id == x;
      assert Live(r.ids, r.pools[c][i].id);
    }
  }

  lemma ThinsFurther<X, C>(before: Realm<X, C>, r: Realm<X, C>, e: Id)
    requires Thins(before, r) && Intact(r) && Live(r.ids, e)
    ensures Intact(Destroyed(r, e)) && Thins(before, Destroyed(r, e))
    ensures forall x :: Live(Destroyed(r, e).ids, x) <==> Live(r.ids, x) && x != e
  {
    hide PoolsOk, Chained, Live, Holds, ValueOf, AfterRelease, Pool;
    var chain :| Chained(r.ids, chain);
    DestroyedIsOk(r, chain, e);
  }

  // ---------- How the sweep decides ----------

  /** The recursion over owners that decides the fate of one entity. */
  ghost predicate Doomed<X, C>(r: Realm<X, C>, rank: Id -> nat, e: Id)
    decreases rank(e)
  {
    || !Live(r.ids, e)
    || (HasOwner(r, e) && rank(OwnerOf(r, e)) < rank(e) && Doomed(r, rank, OwnerOf(r, e)))
  }

  lemma ChainGrows<X, C>(r: Realm<X, C>, e: Id, q: seq<Id>)
    requires Chain(r, q) && IsOwnedBy(r, e, q[0])
    ensures Chain(r, [e] + q)
  {
    hide IsOwnedBy;
    var p := [e] + q;
    assert Chain(r, p) by {
      forall i, j | 0 <= i && j == i + 1 && j < |p|
        ensures IsOwnedBy(r, p[i], p[j])
      {
        if i > 0 {
          assert p[i] == q[i - 1] && p[j] == q[j - 1];
        }
      }
    }
  }

  lemma {:induction false} DoomedIsSevered<X, C>(before: Realm<X, C>, r: Realm<X, C>, rank: Id -> nat,
      e: Id) returns (p: seq<Id>)
    requires Thins(before, r) && Doomed(r, rank, e)
    ensures Chain(before, p) && p[0] == e && !Live(r.ids, p[|p| - 1])
    decreases rank(e)
  {
    hide Live, Holds, ValueOf, Pool;
    if !Live(r.ids, e) {
      p := [e];
    } else {
      var q := DoomedIsSevered(before, r, rank, OwnerOf(r, e));
      p := [e] + q;
      assert IsOwnedBy(before, e, q[0]);
      ChainGrows(before, e, q);
    }
  }

  lemma {:induction false} SeveredIsDoomed<X, C>(before: Realm<X, C>, r: Realm<X, C>, rank: Id -> nat, p: seq<Id>)
    requires Thins(before, r) && Acyclic(before, rank)
    requires Chain(before, p) && !Live(r.ids, p[|p| - 1])
    ensures Doomed(r, rank, p[0])
    decreases |p|
  {
    hide Live, Holds, ValueOf, Pool;
    if |p| > 1 && Live(r.ids, p[0]) {
      var q := p[1..];
      assert Chain(before, q) by {
        forall i, j | 0 <= i && j == i + 1 && j < |q|
          ensures IsOwnedBy(before, q[i], q[j])
        {
          assert q[i] == p[i + 1] && q[j] == p[j + 1];
        }
      }
      SeveredIsDoomed(before, r, rank, q);
      assert IsOwnedBy(before, p[0], p[1]);
    }
  }

  /** The recursion finds out exactly whether the chain of owners leads to something gone. */
  lemma DoomedExactlyIfSevered<X, C>(before: Realm<X, C>, r: Realm<X, C>, rank: Id -> nat, e: Id)
    requires Thins(before, r) && Acyclic(before, rank)
    ensures Doomed(r, rank, e) <==> Severed(before, r.ids, e)
  {
    if Doomed(r, rank, e) {
      var p := DoomedIsSevered(before, r, rank, e);
    }
    if Severed(before, r.ids, e) {
      var p :| Chain(before, p) && p[0] == e && !Live(r.ids, p[|p| - 1]);
      SeveredIsDoomed(before, r, rank, p);
    }
  }

  /** Destroying entities that were doomed anyway changes nobody's fate. */
  lemma {:induction false} FateIsSettled<X, C>(before: Realm<X, C>, r: Realm<X, C>, rank: Id -> nat, e: Id)
    requires Thins(before, r) && Acyclic(before, rank)
    requires forall x :: Live(before.ids, x) && !Live(r.ids, x) ==> Doomed(before, rank, x)
    ensures Doomed(r, rank, e) <==> Doomed(before, rank, e)
    decreases rank(e)
  {
    hide Live, Holds, ValueOf, Pool;
    if Live(r.ids, e) && HasOwner(r, e) {
      assert HasOwner(before, e) && OwnerOf(r, e) == OwnerOf(before, e);
      FateIsSettled(before, r, rank, OwnerOf(r, e));
    }
  }

  /** Visits these entities one after another, destroying each that is doomed by then. */
  ghost function Swept<X, C>(r: Realm<X, C>, rank: Id -> nat, vs: seq<Id>): Realm<X, C>
    decreases |vs|
  {
    if vs == [] then r
    else
      var s, e := Swept(r, rank, vs[..|vs| - 1]), vs[|vs| - 1];
      if Live(s.ids, e) && Doomed(s, rank, e) then Destroyed(s, e) else s
  }

  /** A sweep destroys exactly the visited entities that were doomed at its start, in whichever order. */
  lemma {:induction false} SweepIsExact<X, C>(r: Realm<X, C>, rank: Id -> nat, vs: seq<Id>)
    requires Intact(r) && Acyclic(r, rank)
    ensures Intact(Swept(r, rank, vs)) && Thins(r, Swept(r, rank, vs))
    ensures forall x :: Live(Swept(r, rank, vs).ids, x) <==> Live(r.ids, x) && !(x in vs && Doomed(r, rank, x))
    decreases |vs|
  {
    assert PoolsOk(r);
    hide PoolsOk, Chained, Live, Holds, ValueOf, AfterRelease, Pool, Thins, Doomed, Acyclic, Destroyed, Intact;
    if vs == [] {
      ThinsItself(r);
    } else {
      var vs', e := vs[..|vs| - 1], vs[|vs| - 1];
      assert vs == vs' + [e];
      SweepIsExact(r, rank, vs');
      var s := Swept(r, rank, vs');
      FateIsSettled(r, s, rank, e);
      if Live(s.ids, e) && Doomed(s, rank, e) {
        ThinsFurther(r, s, e);
      }
    }
  }

  /** Every entity with an owner is visited. */
  ghost predicate Covers<X, C>(vs: seq<Id>, r: Realm<X, C>)
  {
    forall x :: HasOwner(r, x) ==> x in vs
  }

  /** Whatever the order of visits, what is left are the entities whose chain of owners leads to nothing gone. */
  lemma SweepInAnyOrder<X, C>(r: Realm<X, C>, rank: Id -> nat, vs: seq<Id>)
    requires Intact(r) && Acyclic(r, rank) && Covers(vs, r)
    ensures Thins(r, Swept(r, rank, vs))
    ensures forall x :: Live(Swept(r, rank, vs).ids, x) <==> Live(r.ids, x) && !Severed(r, r.ids, x)
  {
    hide PoolsOk, Chained, Live, Holds, ValueOf, Pool, Thins, Acyclic, Severed, Swept;
    SweepIsExact(r, rank, vs);
    assert PoolsOk(r);
    ThinsItself(r);
    forall x
      ensures Doomed(r, rank, x) <==> Severed(r, r.ids, x)
    {
      DoomedExactlyIfSevered(r, r, rank, x);
    }
  }

  /** The identifiers of a storage in the order in which a view visits them, from the back. */
  function FromTheBack<V>(items: seq<Item<V>>): (es: seq<Id>)
    ensures |es| == |items| && forall k :: 0 <= k < |es| ==> es[k] == items[|items| - 1 - k].id
  {
    seq(|items|, k requires 0 <= k < |items| => Reversed(items)[k].id)
  }

  lemma FromTheBackCovers<X, C>(r: Realm<X, C>)
    ensures Covers(FromTheBack(Pool(r, OWNERS)), r)
  {
    var items := Pool(r, OWNERS);
    forall x | HasOwner(r, x)
      ensures x in FromTheBack(items)
    {
      var i :| 0 <= i < |items| && items[i].id == x;
      assert FromTheBack(items)[|items| - 1 - i] == x;
    }
  }

  /** Destroying the entity at one position of a storage leaves what is before that position. */
  lemma DestroyKeepsTheFront<V, C>(r: Reg<V, C>, c: nat, i: nat)
    requires PoolsOk(r) && i < |Pool(r, c)| && Live(r.ids, Pool(r, c)[i].id)
    ensures i <= |Pool(Destroyed(r, Pool(r, c)[i].id), c)|
    ensures Pool(Destroyed(r, Pool(r, c)[i].id), c)[..i] == Pool(r, c)[..i]
  {
    hide Live, Holds, AfterRelease, PositionOf;
    PositionIsUnique(Pool(r, c), i);
  }

  // ---------- The program ----------

  type RealmRegistry<X, C> = EntityRegistry<Component<X>, C>

  lemma ValidIsIntact<X, C>(registry: RealmRegistry<X, C>)
    requires registry.Valid()
    ensures Intact(registry.View()) && PoolsOk(registry.View())
  {
    hide PoolsOk, Chained, EntityRegistry.Owned;
  }

  /** Making sure that a storage exists. */
  function Assured<V, C>(r: Reg<V, C>, c: nat): Reg<V, C>
  {
    r.(pools := r.pools[c := Pool(r, c)])
  }

  lemma AssuredThins<X, C>(r: Realm<X, C>, c: nat)
    requires Intact(r)
    ensures Intact(Assured(r, c)) && Thins(r, Assured(r, c))
    ensures Assured(r, c).ids == r.ids && forall d :: Pool(Assured(r, c), d) == Pool(r, d)
  {
    hide PoolsOk, Chained, Live, Holds, ValueOf;
    assert PoolsOk(r);
    ThinsItself(r);
    EmptyPoolIsOk(r, c);
    assert forall d, x :: Holds(Pool(Assured(r, c), d), x) == Holds(Pool(r, d), x);
    assert forall d, x :: Holds(Pool(r, d), x) ==> ValueOf(Pool(Assured(r, c), d), x) == ValueOf(Pool(r, d), x);
  }

  method AssureStorage<X, C>(registry: RealmRegistry<X, C>, c: nat) returns (n: nat)
    requires registry.Valid()
    modifies registry
    ensures registry.Valid() && c in registry.pools
    ensures registry.View() == Assured(old(registry.View()), c) && n == |Pool(registry.View(), c)|
    ensures registry.repr == old(registry.repr) + {registry.pools[c]} && fresh(registry.repr - old(registry.repr))
  {
    hide EntityRegistry.Valid, Storage.Valid;
    registry.OrderFacts();
    if c in registry.pools {
      registry.StorageFacts(c);
    }
    var storage := registry.Assure(c, true);
    registry.StorageFacts(c);
    n := storage.Size();
    assert registry.View().pools == Assured(old(registry.View()), c).pools;
  }

  /** The entity at a position of a storage. */
  method EntityAt<X, C>(registry: RealmRegistry<X, C>, c: nat, i: nat) returns (e: Id)
    requires registry.Valid() && i < |Pool(registry.View(), c)|
    ensures e == Pool(registry.View(), c)[i].id && Live(registry.ids, e) && Holds(Pool(registry.View(), c), e)
  {
    hide EntityRegistry.Valid, Storage.Valid, Live;
    registry.OrderFacts();
    registry.StorageFacts(c);
    registry.pools[c].ItemAt(i);
    e := registry.pools[c].packed[i];
  }

  /** Destroys the entity if, from this owner on, some owner is gone. */
  method TryCleanEntity<X, C>(registry: RealmRegistry<X, C>, ghost rank: Id -> nat, e: Id, owner: Id)
    requires registry.Valid() && Acyclic(registry.View(), rank) && Live(registry.ids, e)
    modifies registry, registry.repr
    ensures registry.Valid() && registry.repr == old(registry.repr)
    ensures registry.View() == if Doomed(old(registry.View()), rank, owner) then Destroyed(old(registry.View()), e) else old(registry.View())
    decreases rank(owner)
  {
    hide EntityRegistry.Valid, Holds, ValueOf, Pool, Destroyed, Live;
    var valid := registry.IsValid(owner);
    assert valid <==> Live(registry.ids, owner);
    if !valid {
      registry.Destroy(e);
      return;
    }
    var owned := registry.AnyOf(OWNERS, owner);
    if owned {
      var component := registry.Get(OWNERS, owner);
      assert HasOwner(registry.View(), owner) && OwnerOf(registry.View(), owner) == Target(component);
      TryCleanEntity(registry, rank, e, Target(component));
    }
  }

  /** Visits one entity that has an owner. */
  method CleanPosition<X, C>(registry: RealmRegistry<X, C>, ghost rank: Id -> nat, i: nat)
    requires registry.Valid() && Acyclic(registry.View(), rank) && i < |Pool(registry.View(), OWNERS)|
    modifies registry, registry.repr
    ensures registry.Valid() && registry.repr == old(registry.repr)
    ensures var r, e := old(registry.View()), old(Pool(registry.View(), OWNERS)[i].id);
            && Live(r.ids, e)
            && registry.View() == (if Doomed(r, rank, e) then Destroyed(r, e) else r)
            && i <= |Pool(registry.View(), OWNERS)|
            && Pool(registry.View(), OWNERS)[..i] == Pool(r, OWNERS)[..i]
  {
    hide EntityRegistry.Valid, Holds, ValueOf, Pool, Destroyed, Live;
    var e := EntityAt(registry, OWNERS, i);
    ValidIsIntact(registry);
    DestroyKeepsTheFront(registry.View(), OWNERS, i);
    var component := registry.Get(OWNERS, e);
    assert HasOwner(registry.View(), e) && OwnerOf(registry.View(), e) == Target(component);
    TryCleanEntity(registry, rank, e, Target(component));
  }

  lemma SweptKeepsAcyclic<X, C>(r: Realm<X, C>, rank: Id -> nat, vs: seq<Id>)
    requires Intact(r) && Acyclic(r, rank)
    ensures Acyclic(Swept(r, rank, vs), rank)
  {
    SweepIsExact(r, rank, vs);
    hide Intact, Live, Holds, ValueOf, Pool, Doomed;
    var s := Swept(r, rank, vs);
    forall e | HasOwner(s, e)
      ensures rank(OwnerOf(s, e)) < rank(e)
    {
      assert HasOwner(r, e) && OwnerOf(s, e) == OwnerOf(r, e);
    }
  }

  /** Visits the storage of owners from the back, while it shrinks under the visits. */
  method CleanChildrenOfDestroyedOwners<X, C>(registry: RealmRegistry<X, C>, ghost rank: Id -> nat)
    requires registry.Valid() && Acyclic(registry.View(), rank)
    modifies registry, registry.repr
    ensures registry.Valid() && fresh(registry.repr - old(registry.repr))
    ensures registry.View() == Swept(Assured(old(registry.View()), OWNERS), rank, FromTheBack(Pool(old(registry.View()), OWNERS)))
  {
    hide EntityRegistry.Valid, EntityRegistry.View, Holds, ValueOf, Pool, Destroyed, Live, Intact, Doomed;
    ValidIsIntact(registry);
    AssuredThins(registry.View(), OWNERS);
    var i := AssureStorage(registry, OWNERS);
    ghost var start, footprint := registry.View(), registry.repr;
    ghost var items := Pool(start, OWNERS);
    assert Acyclic(start, rank) by {
      assert forall e :: HasOwner(start, e) ==> HasOwner(old(registry.View()), e) && OwnerOf(start, e) == OwnerOf(old(registry.View()), e);
    }
    hide Acyclic, Assured;
    ghost var visited: seq<Id> := [];
    while i > 0
      invariant registry.Valid() && registry.repr == footprint
      invariant 0 <= i <= |items| && i <= |Pool(registry.View(), OWNERS)|
      invariant Pool(registry.View(), OWNERS)[..i] == items[..i]
      invariant |visited| == |items| - i && forall k :: 0 <= k < |visited| ==> visited[k] == items[|items| - 1 - k].id
      invariant registry.View() == Swept(start, rank, visited)
    {
      i := i - 1;
      SweptKeepsAcyclic(start, rank, visited);
      assert Pool(registry.View(), OWNERS)[i] == items[i] by {
        assert Pool(registry.View(), OWNERS)[..i + 1][i] == items[..i + 1][i];
      }
      CleanPosition(registry, rank, i);
      visited := visited + [items[i].id];
      assert visited[..|visited| - 1] + [items[i].id] == visited;
    }
    assert visited == FromTheBack(items);
  }

  // ---------- Destroying what is marked ----------

  /** What destroying the entities at the positions from `i` on leaves, while those before it stay. */
  ghost predicate MarksGone<X, C>(before: Realm<X, C>, r: Realm<X, C>, i: nat)
    requires i <= |Pool(before, MARKS)|
  {
    && Thins(before, r)
    && Pool(r, MARKS) == Pool(before, MARKS)[..i]
    && forall x :: Live(before.ids, x) && !Live(r.ids, x) ==> Holds(Pool(before, MARKS), x)
  }

  lemma MarkGoes<X, C>(before: Realm<X, C>, r: Realm<X, C>, i: nat)
    requires Intact(r) && i < |Pool(before, MARKS)| && MarksGone(before, r, i + 1)
    requires Live(r.ids, Pool(before, MARKS)[i].id)
    ensures MarksGone(before, Destroyed(r, Pool(before, MARKS)[i].id), i)
  {
    hide Chained, Live, ValueOf, AfterRelease, Thins;
    var e := Pool(before, MARKS)[i].id;
    ThinsFurther(before, r, e);
    assert PoolsOk(r);
    PositionIsUnique(Pool(r, MARKS), i);
  }

  lemma MarkedAreGone<X, C>(before: Realm<X, C>, r: Realm<X, C>)
    requires MarksGone(before, r, 0)
    ensures forall x :: Live(r.ids, x) <==> Live(before.ids, x) && !Holds(Pool(before, MARKS), x)
    ensures forall x :: Severed(before, r.ids, x) <==> Lost(before, x)
  {
    hide Live, ValueOf;
    assert !exists x :: Holds(Pool(r, MARKS), x);
    forall x
      ensures Severed(before, r.ids, x) <==> Lost(before, x)
    {
      if Severed(before, r.ids, x) {
        var p :| Chain(before, p) && p[0] == x && !Live(r.ids, p[|p| - 1]);
        assert Lost(before, x);
      }
      if Lost(before, x) {
        var p :| Chain(before, p) && p[0] == x && (!Live(before.ids, p[|p| - 1]) || Holds(Pool(before, MARKS), p[|p| - 1]));
        assert Severed(before, r.ids, x);
      }
    }
  }

  lemma ThinsTransitively<X, C>(a: Realm<X, C>, b: Realm<X, C>, c: Realm<X, C>)
    requires Thins(a, b) && Thins(b, c)
    ensures Thins(a, c)
  {
    hide Live, Pool, Holds, ValueOf;
    forall d, x | Holds(Pool(c, d), x)
      ensures Holds(Pool(a, d), x) && ValueOf(Pool(c, d), x) == ValueOf(Pool(a, d), x)
    {
      assert Holds(Pool(b, d), x);
    }
  }

  /** What the cascade as a whole leaves, once the marked are gone and the rest has been swept. */
  lemma CascadeIsExact<X, C>(before: Realm<X, C>, r: Realm<X, C>, rank: Id -> nat, vs: seq<Id>)
    requires Acyclic(before, rank) && Acyclic(r, rank) && Intact(r) && MarksGone(before, r, 0) && Covers(vs, r)
    ensures Thins(before, Swept(r, rank, vs))
    ensures forall x :: Live(Swept(r, rank, vs).ids, x) <==> Live(before.ids, x) && !Lost(before, x)
  {
    hide Live, Holds, ValueOf, Acyclic, Lost, Swept, Intact, Pool;
    SweepIsExact(r, rank, vs);
    MarkedAreGone(before, r);
    var s := Swept(r, rank, vs);
    ThinsTransitively(before, r, s);
    forall x
      ensures Live(s.ids, x) <==> Live(before.ids, x) && !Lost(before, x)
    {
      DoomedExactlyIfSevered(before, r, rank, x);
      if Live(r.ids, x) && Doomed(r, rank, x) {
        assert HasOwner(r, x);
      }
    }
  }

  /** Destroys the marked entities, visiting their storage from the back while it shrinks. */
  method DestroyMarked<X, C>(registry: RealmRegistry<X, C>) returns (entityWasDestroyed: bool)
    requires registry.Valid()
    modifies registry, registry.repr
    ensures registry.Valid() && fresh(registry.repr - old(registry.repr))
    ensures MarksGone(old(registry.View()), registry.View(), 0)
    ensures entityWasDestroyed <==> Pool(old(registry.View()), MARKS) != []
    ensures !entityWasDestroyed ==> registry.View() == Assured(old(registry.View()), MARKS)
  {
    hide EntityRegistry.Valid, EntityRegistry.View, Holds, ValueOf, Destroyed, Live, Intact, Assured, Thins;
    ghost var before := registry.View();
    ValidIsIntact(registry);
    AssuredThins(before, MARKS);
    var i := AssureStorage(registry, MARKS);
    ghost var footprint := registry.repr;
    entityWasDestroyed := false;
    while i > 0
      invariant 0 <= i <= |Pool(before, MARKS)|
      invariant registry.Valid() && registry.repr == footprint
      invariant MarksGone(before, registry.View(), i)
      invariant entityWasDestroyed <==> i < |Pool(before, MARKS)|
      invariant !entityWasDestroyed ==> registry.View() == Assured(before, MARKS)
    {
      i := i - 1;
      var e := EntityAt(registry, MARKS, i);
      ValidIsIntact(registry);
      MarkGoes(before, registry.View(), i);
      registry.Destroy(e);
      entityWasDestroyed := true;
    }
  }

  lemma ThinsKeepsAcyclic<X, C>(before: Realm<X, C>, r: Realm<X, C>, rank: Id -> nat)
    requires Thins(before, r) && Acyclic(before, rank)
    ensures Acyclic(r, rank)
  {
    forall e | HasOwner(r, e)
      ensures rank(OwnerOf(r, e)) < rank(e)
    {
      assert HasOwner(before, e) && OwnerOf(r, e) == OwnerOf(before, e);
    }
  }

  lemma ReadyToSweep<X, C>(before: Realm<X, C>, r: Realm<X, C>, rank: Id -> nat)
    requires Acyclic(before, rank) && Intact(r) && MarksGone(before, r, 0)
    ensures Acyclic(r, rank) && Acyclic(Assured(r, OWNERS), rank) && Intact(Assured(r, OWNERS))
    ensures MarksGone(before, Assured(r, OWNERS), 0)
    ensures Covers(FromTheBack(Pool(r, OWNERS)), Assured(r, OWNERS))
  {
    hide Live, Holds, ValueOf, Thins, Intact, Acyclic, Covers, Assured, Pool;
    AssuredThins(r, OWNERS);
    ThinsTransitively(before, r, Assured(r, OWNERS));
    ThinsKeepsAcyclic(before, r, rank);
    ThinsKeepsAcyclic(before, Assured(r, OWNERS), rank);
    FromTheBackCovers(Assured(r, OWNERS));
  }

  /**
   What is left are exactly the entities with nothing marked or dead up their chain of owners, with
   all their components; if nothing was marked, everything is left, whatever its owners.
   */
  method DestroyMarkedEntities<X, C>(registry: RealmRegistry<X, C>, ghost rank: Id -> nat)
    requires registry.Valid() && Acyclic(registry.View(), rank)
    modifies registry, registry.repr
    ensures registry.Valid() && fresh(registry.repr - old(registry.repr))
    ensures var before, after := old(registry.View()), registry.View();
            && Thins(before, after)
            && forall x :: Live(after.ids, x) <==> Live(before.ids, x) && (Pool(before, MARKS) == [] || !Lost(before, x))
  {
    hide EntityRegistry.Valid, EntityRegistry.View, Holds, ValueOf, Live, Intact, Thins, Acyclic, Swept, Lost, Covers,
        Assured, Pool, MarksGone, FromTheBack;
    ghost var before := registry.View();
    ValidIsIntact(registry);
    var entityWasDestroyed := DestroyMarked(registry);
    ghost var r := registry.View();
    if entityWasDestroyed {
      ValidIsIntact(registry);
      ReadyToSweep(before, r, rank);
      CleanChildrenOfDestroyedOwners(registry, rank);
      CascadeIsExact(before, Assured(r, OWNERS), rank, FromTheBack(Pool(r, OWNERS)));
    } else {
      AssuredThins(before, MARKS);
    }
  }

  // ---------- What being lost means ----------

  /** The storage of owners holds nothing else. */
  predicate OwnersOnly<X, C>(r: Realm<X, C>)
  {
    forall i :: 0 <= i < |Pool(r, OWNERS)| ==> Pool(r, OWNERS)[i].value.Owner?
  }

  lemma OwnerIsRead<X, C>(r: Realm<X, C>, i: nat)
    requires PoolsOk(r) && OwnersOnly(r) && i < |Pool(r, OWNERS)|
    ensures IsOwnedBy(r, Pool(r, OWNERS)[i].id, Pool(r, OWNERS)[i].value.entity)
  {
    PositionIsUnique(Pool(r, OWNERS), i);
  }

  /** An entity is lost exactly if it is dead, or marked, or its owner component names an entity that is lost. */
  lemma LostExactlyIf<X, C>(r: Realm<X, C>, e: Id)
    requires PoolsOk(r) && OwnersOnly(r)
    ensures Lost(r, e) <==>
            || !Live(r.ids, e)
            || (exists j :: 0 <= j < |Pool(r, MARKS)| && Pool(r, MARKS)[j].id == e)
            || (exists i :: 0 <= i < |Pool(r, OWNERS)| && Pool(r, OWNERS)[i].id == e && Lost(r, Pool(r, OWNERS)[i].value.entity))
  {
    hide Live, IsOwnedBy, PoolsOk;
    if !Live(r.ids, e) || Holds(Pool(r, MARKS), e) {
      assert Chain(r, [e]);
      assert Lost(r, e);
    }
    forall i | 0 <= i < |Pool(r, OWNERS)| && Pool(r, OWNERS)[i].id == e && Lost(r, Pool(r, OWNERS)[i].value.entity)
      ensures Lost(r, e)
    {
      OwnerIsRead(r, i);
      LostThroughOwner(r, e, Pool(r, OWNERS)[i].value.entity);
    }
    if Lost(r, e) && Live(r.ids, e) && !Holds(Pool(r, MARKS), e) {
      var i := LostFromOwner(r, e);
    }
  }

  lemma LostThroughOwner<X, C>(r: Realm<X, C>, e: Id, owner: Id)
    requires IsOwnedBy(r, e, owner) && Lost(r, owner)
    ensures Lost(r, e)
  {
    hide Live, Holds, IsOwnedBy;
    var q :| Chain(r, q) && q[0] == owner && (!Live(r.ids, q[|q| - 1]) || Holds(Pool(r, MARKS), q[|q| - 1]));
    ChainGrows(r, e, q);
    var p := [e] + q;
    assert p[|p| - 1] == q[|q| - 1];
  }

  lemma LostFromOwner<X, C>(r: Realm<X, C>, e: Id) returns (i: nat)
    requires PoolsOk(r) && OwnersOnly(r) && Lost(r, e) && Live(r.ids, e) && !Holds(Pool(r, MARKS), e)
    ensures i < |Pool(r, OWNERS)| && Pool(r, OWNERS)[i].id == e && Lost(r, Pool(r, OWNERS)[i].value.entity)
  {
    hide Live;
    var p :| Chain(r, p) && p[0] == e && (!Live(r.ids, p[|p| - 1]) || Holds(Pool(r, MARKS), p[|p| - 1]));
    assert |p| > 1 && IsOwnedBy(r, p[0], p[1]);
    var q := p[1..];
    i := PositionOf(Pool(r, OWNERS), e);
    OwnerIsRead(r, i);
    assert q[0] == p[1] == Pool(r, OWNERS)[i].value.entity;
    hide IsOwnedBy, Holds, PoolsOk, OwnersOnly;
    assert Chain(r, q) by {
      forall a, b | 0 <= a && b == a + 1 && b < |q|
        ensures IsOwnedBy(r, q[a], q[b])
      {
        assert q[a] == p[a + 1] && q[b] == p[b + 1];
      }
    }
    assert q[|q| - 1] == p[|p| - 1];
  }

  /** A marked entity takes those it owns with it, and those they own; one owned by a destroyed handle goes too. */
  lemma ThreeGenerations<X, C>(r: Realm<X, C>)
    requires r.ids == Ids([Id(0, 0), Id(1, 0), Id(2, 0), Id(3, 1), Id(4, 0)], NULL_SLOT)
    requires r.pools == map[
               0 := [Item(Id(1, 0), Owner(Id(0, 0))), Item(Id(2, 0), Owner(Id(1, 0))), Item(Id(4, 0), Owner(Id(3, 0)))],
               1 := [Item(Id(0, 0), Mark)]]
    ensures Lost(r, Id(0, 0)) && Lost(r, Id(1, 0)) && Lost(r, Id(2, 0)) && Lost(r, Id(4, 0)) && !Lost(r, Id(3, 1))
  {
    hide Lost;
    assert Pool(r, OWNERS)[0].id == Id(1, 0) && Pool(r, OWNERS)[1].id == Id(2, 0) && Pool(r, OWNERS)[2].id == Id(4, 0);
    assert Pool(r, MARKS)[0].id == Id(0, 0);
    LostExactlyIf(r, Id(0, 0));
    LostExactlyIf(r, Id(1, 0));
    LostExactlyIf(r, Id(2, 0));
    LostExactlyIf(r, Id(3, 0));
    LostExactlyIf(r, Id(4, 0));
    LostExactlyIf(r, Id(3, 1));
  }
}
