/** Copying a registry, and why nothing that happens afterwards can tell the copy from the original. */
module CopyRegistry {
  import opened Options
  import opened Sequences
  import opened Entities
  import opened Storages
  import opened Ecs

  datatype CopyError = Unregistered(component: nat) | NotPacked(component: nat)

  /** Why a storage cannot be copied. */
  function Problem<V>(c: nat, storage: Storage<V>, known: set<nat>): Option<CopyError>
  {
    if c !in known then Some(Unregistered(c))
    else if !storage.swapAndPop then Some(NotPacked(c))
    else None
  }

  /** What is wrong with the first of these storages that cannot be copied. */
  ghost function FirstProblem<V>(order: seq<nat>, pools: map<nat, Storage<V>>, known: set<nat>): Option<CopyError>
    requires forall c :: c in order ==> c in pools
  {
    if order == [] then None
    else if Problem(order[0], pools[order[0]], known).Some? then Problem(order[0], pools[order[0]], known)
    else FirstProblem(order[1..], pools, known)
  }

  lemma NextItem<V>(items: seq<Item<V>>, i: nat)
    requires DistinctSlots(items) && i < |items|
    ensures Holds(items, items[i].id) && !Holds(items[..i], items[i].id)
    ensures items[..i + 1] == items[..i] + [Item(items[i].id, ValueOf(items, items[i].id))]
  {
    PositionIsUnique(items, i);
  }

  /** Copies the component at one packed position. */
  method CopyItem<V, C>(source: Storage<V>, destination: EntityRegistry<V, C>, c: nat, i: nat)
    requires source.Valid() && destination.Valid() && source !in destination.repr
    requires i < |source.items| && DistinctSlots(source.items) && Live(destination.ids, source.items[i].id)
    requires c in destination.pools && destination.contents[c] == source.items[..i]
    modifies destination`contents, destination.repr
    ensures destination.Valid() && destination.contents == old(destination.contents)[c := source.items[..i + 1]]
  {
    hide EntityRegistry.Valid, Live, Mirrors, DistinctSlots, Holds, PositionOf, ValueOf;
    source.ItemAt(i);
    NextItem(source.items, i);
    var e := source.packed[i];
    var v := source.Get(e);
    destination.Append(c, e, v);
  }

  /** Copies one storage, from its oldest item to its newest. */
  method CopyStorage<V, C>(source: Storage<V>, destination: EntityRegistry<V, C>, c: nat)
    requires source.Valid() && destination.Valid() && source !in destination.repr
    requires c in destination.pools && c in destination.contents && destination.contents[c] == []
    requires DistinctSlots(source.items) && forall i :: 0 <= i < |source.items| ==> Live(destination.ids, source.items[i].id)
    modifies destination`contents, destination.repr
    ensures destination.Valid() && destination.contents == old(destination.contents)[c := source.items]
  {
    hide EntityRegistry.Valid, Storage.Valid, Live, DistinctSlots;
    ghost var before := destination.contents;
    assert before == before[c := source.items[..0]];
    var n := source.Size();
    for i := 0 to n
      invariant source.items == old(source.items) && |source.items| == n && source.Valid()
      invariant destination.Valid()
      invariant destination.contents == before[c := source.items[..i]]
    {
      CopyItem(source, destination, c, i);
    }
    assert source.items[..n] == source.items;
  }

  /** Makes the destination's storage of one type and fills it, unless the source's is of the wrong kind. */
  method CopyPool<V, C>(source: Storage<V>, destination: EntityRegistry<V, C>, c: nat) returns (ok: bool)
    requires source.Valid() && destination.Valid() && source !in destination.repr
    requires DistinctSlots(source.items) && forall i :: 0 <= i < |source.items| ==> Live(destination.ids, source.items[i].id)
    requires c !in destination.contents
    modifies destination, destination.repr
    ensures ok == source.swapAndPop
    ensures destination.ids == old(destination.ids) && destination.ctx == old(destination.ctx)
    ensures fresh(destination.repr - old(destination.repr))
    ensures ok ==> destination.Valid() && destination.contents == old(destination.contents)[c := source.items]
  {
    hide Chained, PoolsOk, NoRepeats, Live, DistinctSlots, Mirrors, Storage.Valid, EntityRegistry.Owned,
        EntityRegistry.Valid, EntityRegistry.View;
    destination.OrderFacts();
    var _ := destination.Assure(c, true);
    ok := source.swapAndPop;
    if ok {
      CopyStorage(source, destination, c);
    }
  }

  /** The destination has the identifiers, the context and the first `j` storages of the source, and shares nothing. */
  ghost predicate CopiedUpTo<V, C>(source: EntityRegistry<V, C>, destination: EntityRegistry<V, C>, j: nat)
    requires j <= |source.order|
    reads source, destination
  {
    && source != destination && source.repr !! destination.repr
    && destination.ids == source.ids && destination.ctx == source.ctx
    && (forall c :: c in destination.contents <==> c in source.order[..j])
    && (forall c :: c in destination.contents ==> c in source.contents && destination.contents[c] == source.contents[c])
  }

  lemma NothingCopied<V, C>(source: EntityRegistry<V, C>, destination: EntityRegistry<V, C>)
    requires source != destination && destination.repr == {} && destination.View() == Reg(source.ids, map[], source.ctx)
    ensures CopiedUpTo(source, destination, 0)
  {
  }

  lemma AllCopied<V, C>(source: EntityRegistry<V, C>, destination: EntityRegistry<V, C>)
    requires source.Valid() && CopiedUpTo(source, destination, |source.order|)
    ensures destination.View() == source.View()
  {
    source.OrderFacts();
    assert source.order[..|source.order|] == source.order;
    assert destination.contents == source.contents;
  }

  /** Copies the next storage, or says what is wrong with it. */
  method CopyNext<V, C>(source: EntityRegistry<V, C>, destination: EntityRegistry<V, C>, known: set<nat>, j: nat)
      returns (error: Option<CopyError>)
    requires source.Valid() && destination.Valid() && j < |source.order| && CopiedUpTo(source, destination, j)
    requires source.order[j] in source.pools
    modifies destination, destination.repr
    ensures source.Valid() && fresh(destination.repr - old(destination.repr))
    ensures error == Problem(source.order[j], source.pools[source.order[j]], known)
    ensures error == None ==> destination.Valid() && CopiedUpTo(source, destination, j + 1)
  {
    hide Chained, PoolsOk, NoRepeats, Live, DistinctSlots, Mirrors, EntityRegistry.Owned, EntityRegistry.Valid;
    source.OrderFacts();
    var c := source.order[j];
    assert source.order[..j + 1] == source.order[..j] + [c];
    Differ(source.order, j);
    if c !in known {
      return Some(Unregistered(c));
    }
    source.StorageFacts(c);
    var ok := CopyPool(source.pools[c], destination, c);
    error := if ok then None else Some(NotPacked(c));
  }

  /** Copies a registry: identifiers, context, and every storage in its packed order. */
  method CopyRegistry<V, C>(source: EntityRegistry<V, C>, destination: EntityRegistry<V, C>, known: set<nat>)
      returns (error: Option<CopyError>)
    requires source.Valid()
    modifies destination
    ensures source == destination ==> error == None
    ensures source == destination ==> source.View() == old(source.View()) && source.repr == old(source.repr)
    ensures source != destination ==> (source.OrderFacts(); error == FirstProblem(source.order, source.pools, known))
    ensures source != destination && error == None ==>
              destination.Valid() && fresh(destination.repr) && destination.View() == source.View()
  {
    hide Chained, PoolsOk, NoRepeats, EntityRegistry.Owned, EntityRegistry.Valid, FirstProblem, CopiedUpTo;
    error := None;
    source.OrderFacts();
    if source == destination {
      return;
    }
    destination.Reset(source.ids, source.chain, source.ctx);
    NothingCopied(source, destination);
    assert source.order[0..] == source.order;
    for j := 0 to |source.order|
      invariant error == None
      invariant source.Valid() && destination.Valid() && fresh(destination.repr)
      invariant CopiedUpTo(source, destination, j)
      invariant FirstProblem(source.order, source.pools, known) == FirstProblem(source.order[j..], source.pools, known)
    {
      ProblemUnfolds(source.order[j..], source.pools, known);
      assert source.order[j..][1..] == source.order[j + 1..];
      error := CopyNext(source, destination, known, j);
      if error.Some? {
        return;
      }
    }
    ProblemUnfolds(source.order[|source.order|..], source.pools, known);
    AllCopied(source, destination);
  }

  lemma ProblemUnfolds<V>(order: seq<nat>, pools: map<nat, Storage<V>>, known: set<nat>)
    requires forall c :: c in order ==> c in pools
    ensures order == [] ==> FirstProblem(order, pools, known) == None
    ensures order != [] ==> FirstProblem(order, pools, known) ==
                            (var problem := Problem(order[0], pools[order[0]], known);
                             if problem.Some? then problem else FirstProblem(order[1..], pools, known))
  {
  }

  /** Copying fails exactly if some component type is not known, or its storage is not packed; it names the first such. */
  lemma {:induction false} FailsWithTheFirst<V>(order: seq<nat>, pools: map<nat, Storage<V>>, known: set<nat>)
    requires forall c :: c in order ==> c in pools
    ensures FirstProblem(order, pools, known) == None <==> forall c :: c in order ==> c in known && pools[c].swapAndPop
    ensures FirstProblem(order, pools, known).Some? ==>
              exists j: nat :: j < |order|
                && (forall i :: 0 <= i < j ==> order[i] in known && pools[order[i]].swapAndPop)
                && FirstProblem(order, pools, known).value == (if order[j] !in known then Unregistered(order[j]) else NotPacked(order[j]))
                && !(order[j] in known && pools[order[j]].swapAndPop)
  {
    if order == [] {
    } else {
      FailsWithTheFirst(order[1..], pools, known);
      assert forall c :: c in order <==> c == order[0] || c in order[1..];
      if Problem(order[0], pools[order[0]], known).None? && FirstProblem(order, pools, known).Some? {
        var j: nat :| j < |order[1..]|
          && (forall i :: 0 <= i < j ==> order[1..][i] in known && pools[order[1..][i]].swapAndPop)
          && FirstProblem(order, pools, known).value == (if order[1..][j] !in known then Unregistered(order[1..][j]) else NotPacked(order[1..][j]))
          && !(order[1..][j] in known && pools[order[1..][j]].swapAndPop);
        assert order[j + 1] == order[1..][j];
        forall i | 0 <= i < j + 1
          ensures order[i] in known && pools[order[i]].swapAndPop
        {
          assert i > 0 ==> order[i] == order[1..][i - 1];
        }
      }
    }
  }

  // ---------- Nobody can tell the copy from the original ----------

  datatype Command<V> =
    | Create
    | Destroy(e: Id)
    | Emplace(c: nat, e: Id, v: V)
    | Remove(c: nat, e: Id)
    | Assure(c: nat)
    | Visit(c: nat)

  /** What a caller sees of an operation: a new identifier, or a storage in iteration order. */
  datatype Seen<V> = Nothing | Made(e: Id) | Listed(items: seq<Item<V>>)

  /** What the program's callers owe each operation. */
  predicate Allowed<V, C>(r: Reg<V, C>, op: Command<V>)
  {
    match op
    case Create => if r.ids.free == NULL_SLOT then |r.ids.pool| < NULL_SLOT else r.ids.free < |r.ids.pool|
    case Destroy(e) => Live(r.ids, e)
    case Emplace(c, e, _) => Live(r.ids, e) && !Holds(Pool(r, c), e)
    case _ => true
  }

  function Done<V, C>(r: Reg<V, C>, op: Command<V>): (Reg<V, C>, Seen<V>)
    requires Allowed(r, op)
  {
    match op
    case Create => (r.(ids := AfterCreate(r.ids)), Made(Created(r.ids)))
    case Destroy(e) => (Destroyed(r, e), Nothing)
    case Emplace(c, e, v) => (Emplaced(r, c, e, v), Nothing)
    case Remove(c, e) => (if c in r.pools then Dropped(r, c, e) else r, Nothing)
    case Assure(c) => (r.(pools := r.pools[c := Pool(r, c)]), Nothing)
    case Visit(c) => (r, Listed(Reversed(Pool(r, c))))
  }

  /** The sightings of a run; it stops where an operation is not allowed. */
  function Trace<V, C>(r: Reg<V, C>, ops: seq<Command<V>>): seq<Seen<V>>
    decreases |ops|
  {
    if ops == [] || !Allowed(r, ops[0]) then []
    else
      var (r', seen) := Done(r, ops[0]);
      [seen] + Trace(r', ops[1..])
  }

  /** Registries that differ at most in which empty storages exist. */
  ghost predicate Alike<V, C>(a: Reg<V, C>, b: Reg<V, C>)
  {
    a.ids == b.ids && a.ctx == b.ctx && forall c :: Pool(a, c) == Pool(b, c)
  }

  lemma StepKeepsAlike<V, C>(a: Reg<V, C>, b: Reg<V, C>, op: Command<V>)
    requires Alike(a, b)
    ensures Allowed(a, op) <==> Allowed(b, op)
    ensures Allowed(a, op) ==> Done(a, op).1 == Done(b, op).1 && Alike(Done(a, op).0, Done(b, op).0)
  {
    hide AfterRelease, AfterCreate, Created, Removed, Holds, Live, Reversed;
    if Allowed(a, op) {
      match op {
        case Destroy(e) =>
          EmptyStaysEmpty<V>(e);
          assert forall x :: Pool(Destroyed(a, e), x) == Removed(Pool(a, x), e);
          assert forall x :: Pool(Destroyed(b, e), x) == Removed(Pool(b, x), e);
        case Remove(c, e) =>
          EmptyStaysEmpty<V>(e);
          assert forall x :: Pool(Done(a, op).0, x) == if x == c then Removed(Pool(a, x), e) else Pool(a, x);
          assert forall x :: Pool(Done(b, op).0, x) == if x == c then Removed(Pool(b, x), e) else Pool(b, x);
        case Emplace(c, e, v) =>
          assert forall x :: Pool(Emplaced(a, c, e, v), x) == if x == c then Pool(a, c) + [Item(e, v)] else Pool(a, x);
          assert forall x :: Pool(Emplaced(b, c, e, v), x) == if x == c then Pool(b, c) + [Item(e, v)] else Pool(b, x);
        case Assure(c) =>
          assert forall x :: Pool(Done(a, op).0, x) == Pool(a, x);
          assert forall x :: Pool(Done(b, op).0, x) == Pool(b, x);
        case Create =>
          assert forall x :: Pool(Done(a, op).0, x) == Pool(a, x);
          assert forall x :: Pool(Done(b, op).0, x) == Pool(b, x);
        case Visit(_) =>
      }
    }
  }

  lemma EmptyStaysEmpty<V>(e: Id)
    ensures Removed<V>([], e) == []
  {
  }

  /**
   Whatever is done to two alike registries, the same things are allowed and the same things are
   seen: identifiers and versions handed out, and every storage's values and iteration order.
   */
  lemma {:induction false} AlikeForever<V, C>(a: Reg<V, C>, b: Reg<V, C>, ops: seq<Command<V>>)
    requires Alike(a, b)
    ensures Trace(a, ops) == Trace(b, ops)
    decreases |ops|
  {
    hide Alike, Allowed, Done;
    if ops == [] {
    } else {
      StepKeepsAlike(a, b, ops[0]);
      if Allowed(a, ops[0]) {
        AlikeForever(Done(a, ops[0]).0, Done(b, ops[0]).0, ops[1..]);
      }
    }
  }

  // ---------- The same for the registries themselves ----------

  /** Lists a storage as a view visits it, from the back. */
  method List<V, C>(r: EntityRegistry<V, C>, c: nat) returns (items: seq<Item<V>>)
    requires r.Valid()
    ensures items == Reversed(Pool(r.View(), c))
  {
    hide Chained, PoolsOk, NoRepeats, EntityRegistry.Owned, EntityRegistry.Valid;
    items := [];
    r.OrderFacts();
    if c !in r.pools {
      return;
    }
    r.StorageFacts(c);
    var storage := r.pools[c];
    var n := storage.Size();
    ghost var all := storage.items;
    while n > 0
      invariant 0 <= n <= |all| == |items| + n
      invariant forall j :: 0 <= j < |items| ==> items[j] == all[|all| - 1 - j]
    {
      n := n - 1;
      storage.ItemIs(n);
      items := items + [Item(storage.packed[n], storage.values[n])];
    }
    assert items == Reversed(all);
  }

  /** Is this something that callers may do? */
  method MayPerform<V, C>(r: EntityRegistry<V, C>, op: Command<V>) returns (ok: bool)
    requires r.Valid()
    ensures ok <==> Allowed(r.View(), op)
  {
    hide Chained, PoolsOk, NoRepeats, EntityRegistry.Owned, EntityRegistry.Valid, Holds, Live;
    match op {
      case Create =>
        ok := if r.ids.free == NULL_SLOT then |r.ids.pool| < NULL_SLOT else r.ids.free < |r.ids.pool|;
      case Destroy(e) =>
        ok := r.IsValid(e);
      case Emplace(c, e, _) =>
        var present := r.AnyOf(c, e);
        ok := r.IsValid(e) && !present;
      case _ =>
        ok := true;
    }
  }

  lemma RoomToCreate<V, C>(r: EntityRegistry<V, C>)
    requires r.Valid() && Allowed(r.View(), Create)
    ensures r.chain == [] ==> |r.ids.pool| < NULL_SLOT
  {
  }

  /** One operation on a registry has the effect and shows what the specification says. */
  method Perform<V, C>(r: EntityRegistry<V, C>, op: Command<V>) returns (seen: Seen<V>)
    requires r.Valid() && Allowed(r.View(), op)
    modifies r, r.repr
    ensures r.Valid() && fresh(r.repr - old(r.repr))
    ensures Done(old(r.View()), op) == (r.View(), seen)
  {
    hide Chained, PoolsOk, NoRepeats, EntityRegistry.Owned, EntityRegistry.Valid, Holds, Live, AfterCreate, Created,
      AfterRelease, Removed;
    seen := Nothing;
    match op {
      case Create =>
        RoomToCreate(r);
        var e := r.Create();
        seen := Made(e);
      case Destroy(e) =>
        r.Destroy(e);
      case Emplace(c, e, v) =>
        r.Emplace(c, e, v);
      case Remove(c, e) =>
        r.Remove(c, e);
      case Assure(c) =>
        var _ := r.Assure(c, true);
        assert r.contents == old(r.contents)[c := Pool(old(r.View()), c)];
      case Visit(c) =>
        var items := List(r, c);
        seen := Listed(items);
    }
  }

  /** Performs operations until one is not allowed. */
  method PerformAll<V, C>(r: EntityRegistry<V, C>, ops: seq<Command<V>>) returns (trace: seq<Seen<V>>)
    requires r.Valid()
    modifies r, r.repr
    ensures r.Valid() && fresh(r.repr - old(r.repr))
    ensures trace == Trace(old(r.View()), ops)
  {
    hide EntityRegistry.Valid, EntityRegistry.View, Allowed, Done;
    trace := [];
    assert ops[0..] == ops;
    ghost var whole := Trace(r.View(), ops);
    for i := 0 to |ops|
      invariant r.Valid() && fresh(r.repr - old(r.repr))
      invariant whole == trace + Trace(r.View(), ops[i..])
    {
      assert ops[i..][0] == ops[i] && ops[i..][1..] == ops[i + 1..];
      var ok := MayPerform(r, ops[i]);
      if !ok {
        return;
      }
      var seen := Perform(r, ops[i]);
      trace := trace + [seen];
    }
  }

  /**
   Whatever is done to a copy, and afterwards to the registry it was copied from, the same is seen, although
   the two share no storage, and sparse slots that are empty again exist in only one of them.
   */
  method CopyAndCompare<V, C>(source: EntityRegistry<V, C>, destination: EntityRegistry<V, C>, known: set<nat>,
      ops: seq<Command<V>>) returns (error: Option<CopyError>, seen: seq<Seen<V>>, seenOfCopy: seq<Seen<V>>)
    requires source.Valid() && source != destination
    modifies source, source.repr, destination
    ensures error == None ==> seen == seenOfCopy == Trace(old(source.View()), ops)
  {
    hide EntityRegistry.Valid, EntityRegistry.View, Trace;
    seen, seenOfCopy := [], [];
    error := CopyRegistry(source, destination, known);
    if error == None {
      seenOfCopy := PerformAll(destination, ops);
      seen := PerformAll(source, ops);
    }
  }

  // ---------- A short history ----------

  lemma Traced<V, C>(r: Reg<V, C>, op: Command<V>, rest: seq<Command<V>>, r': Reg<V, C>, seen: Seen<V>, later: seq<Seen<V>>)
    requires Allowed(r, op) && Done(r, op) == (r', seen) && Trace(r', rest) == later
    ensures Trace(r, [op] + rest) == [seen] + later
  {
    assert ([op] + rest)[1..] == rest;
  }

  /** Three entities, each with a component; the last one's component moves into the place of the first one's. */
  function ThreeComponents<V, C>(ctx: C, x: V, y: V, z: V): Reg<V, C>
  {
    Reg(Ids([Id(0, 0), Id(1, 0), Id(2, 0)], NULL_SLOT), map[7 := [Item(Id(0, 0), x), Item(Id(1, 0), y), Item(Id(2, 0), z)]], ctx)
  }

  lemma FirstIsRemoved<V, C>(ctx: C, x: V, y: V, z: V)
    ensures Dropped(ThreeComponents(ctx, x, y, z), 7, Id(0, 0)) ==
            ThreeComponents(ctx, x, y, z).(pools := map[7 := [Item(Id(2, 0), z), Item(Id(1, 0), y)]])
  {
    var items := [Item(Id(0, 0), x), Item(Id(1, 0), y), Item(Id(2, 0), z)];
    assert items[0].id == Id(0, 0);
    PositionIsUnique(items, 0);
    assert SwapPop(items, 0) == [Item(Id(2, 0), z), Item(Id(1, 0), y)];
  }

  lemma SecondIsDestroyed<V, C>(ctx: C, x: V, y: V, z: V)
    ensures var r := ThreeComponents(ctx, x, y, z).(pools := map[7 := [Item(Id(2, 0), z), Item(Id(1, 0), y)]]);
            && Live(r.ids, Id(1, 0))
            && Destroyed(r, Id(1, 0)) == Reg(Ids([Id(0, 0), Id(NULL_SLOT, 1), Id(2, 0)], 1), map[7 := [Item(Id(2, 0), z)]], ctx)
  {
    var items := [Item(Id(2, 0), z), Item(Id(1, 0), y)];
    assert items[1].id == Id(1, 0);
    PositionIsUnique(items, 1);
    assert SwapPop(items, 1) == [Item(Id(2, 0), z)];
    var pools := map[7 := items];
    assert WithoutEntity(pools, Id(1, 0)) == map[7 := [Item(Id(2, 0), z)]];
  }

  function SwappedBack<V, C>(ctx: C, y: V, z: V): Reg<V, C>
  {
    Reg(Ids([Id(0, 0), Id(1, 0), Id(2, 0)], NULL_SLOT), map[7 := [Item(Id(2, 0), z), Item(Id(1, 0), y)]], ctx)
  }

  function OneLeft<V, C>(ids: Ids, ctx: C, z: V): Reg<V, C>
  {
    Reg(ids, map[7 := [Item(Id(2, 0), z)]], ctx)
  }

  lemma NothingTraced<V, C>(r: Reg<V, C>)
    ensures Trace(r, []) == []
  {
  }

  /** The slot of the destroyed entity comes back with the next version; its component does not. */
  lemma LastHistory<V, C>(ctx: C, y: V, z: V)
    ensures Trace(SwappedBack(ctx, y, z), [Destroy(Id(1, 0))] + ([Create] + ([Visit(7)] + []))) ==
            [Nothing] + ([Made(Id(1, 1))] + ([Listed([Item(Id(2, 0), z)])] + []))
  {
    SecondIsDestroyed(ctx, z, y, z);
    var c := OneLeft(Ids([Id(0, 0), Id(NULL_SLOT, 1), Id(2, 0)], 1), ctx, z);
    var d := OneLeft(Ids([Id(0, 0), Id(1, 1), Id(2, 0)], NULL_SLOT), ctx, z);
    assert AfterCreate(c.ids) == d.ids;
    assert Reversed([Item(Id(2, 0), z)]) == [Item(Id(2, 0), z)];
    hide Trace, Destroyed, Reversed, AfterCreate;
    NothingTraced(d);
    Traced(d, Visit(7), [], d, Listed([Item(Id(2, 0), z)]), []);
    Traced(c, Create, [Visit(7)] + [], d, Made(Id(1, 1)), [Listed([Item(Id(2, 0), z)])] + []);
    Traced(SwappedBack(ctx, y, z), Destroy(Id(1, 0)), [Create] + ([Visit(7)] + []), c, Nothing,
      [Made(Id(1, 1))] + ([Listed([Item(Id(2, 0), z)])] + []));
  }

  /** A removed component's place is taken by the last one, and listings run from the back. */
  lemma LaterHistory<V, C>(ctx: C, x: V, y: V, z: V)
    ensures Trace(ThreeComponents(ctx, x, y, z), [Remove(7, Id(0, 0)), Visit(7), Destroy(Id(1, 0)), Create, Visit(7)]) ==
            [Nothing, Listed([Item(Id(1, 0), y), Item(Id(2, 0), z)]), Nothing, Made(Id(1, 1)), Listed([Item(Id(2, 0), z)])]
  {
    FirstIsRemoved(ctx, x, y, z);
    LastHistory(ctx, y, z);
    assert Reversed([Item(Id(2, 0), z), Item(Id(1, 0), y)]) == [Item(Id(1, 0), y), Item(Id(2, 0), z)];
    hide Trace, Dropped, Reversed;
    var b := SwappedBack(ctx, y, z);
    var ops: seq<Command<V>> := [Destroy(Id(1, 0))] + ([Create] + ([Visit(7)] + []));
    var later: seq<Seen<V>> := [Nothing] + ([Made(Id(1, 1))] + ([Listed([Item(Id(2, 0), z)])] + []));
    Traced(b, Visit(7), ops, b, Listed([Item(Id(1, 0), y), Item(Id(2, 0), z)]), later);
    Traced(ThreeComponents(ctx, x, y, z), Remove(7, Id(0, 0)), [Visit(7)] + ops, b, Nothing,
      [Listed([Item(Id(1, 0), y), Item(Id(2, 0), z)])] + later);
    assert [Remove(7, Id(0, 0))] + ([Visit(7)] + ops) == [Remove(7, Id(0, 0)), Visit(7), Destroy(Id(1, 0)), Create, Visit(7)];
    assert [Nothing] + ([Listed([Item(Id(1, 0), y), Item(Id(2, 0), z)])] + later) ==
           [Nothing, Listed([Item(Id(1, 0), y), Item(Id(2, 0), z)]), Nothing, Made(Id(1, 1)), Listed([Item(Id(2, 0), z)])];
  }
}
