/** One component type's storage: a packed array in insertion order, found through a sparse array of positions. */
module Storages {
  import opened Entities

  datatype Item<+V> = Item(id: Id, value: V)

  // ---------- What a storage means ----------

  predicate Holds<V>(items: seq<Item<V>>, e: Id)
  {
    exists i :: 0 <= i < |items| && items[i].id == e
  }

  ghost predicate DistinctSlots<V>(items: seq<Item<V>>)
  {
    forall i, j :: 0 <= i < j < |items| ==> items[i].id.slot != items[j].id.slot
  }

  function PositionOf<V>(items: seq<Item<V>>, e: Id): (i: nat)
    requires Holds(items, e)
    ensures i < |items| && items[i].id == e
  {
    if items[|items| - 1].id == e then |items| - 1 else PositionOf(items[..|items| - 1], e)
  }

  /** Removing moves the last item into the hole. */
  function SwapPop<V>(items: seq<Item<V>>, i: nat): seq<Item<V>>
    requires i < |items|
  {
    items[i := items[|items| - 1]][..|items| - 1]
  }

  function Removed<V>(items: seq<Item<V>>, e: Id): seq<Item<V>>
  {
    if Holds(items, e) then SwapPop(items, PositionOf(items, e)) else items
  }

  lemma PositionIsUnique<V>(items: seq<Item<V>>, i: nat)
    requires DistinctSlots(items) && i < |items|
    ensures Holds(items, items[i].id) && PositionOf(items, items[i].id) == i
  {
    var p := PositionOf(items, items[i].id);
  }

  /** Removing takes out exactly one identifier and changes no other value; positions before it stay. */
  lemma RemovedContents<V>(items: seq<Item<V>>, e: Id)
    requires DistinctSlots(items)
    ensures DistinctSlots(Removed(items, e)) && !Holds(Removed(items, e), e)
    ensures forall x :: x != e ==> (Holds(Removed(items, e), x) <==> Holds(items, x))
    ensures forall x :: x != e && Holds(items, x) ==>
              Holds(Removed(items, e), x) && ValueOf(Removed(items, e), x) == ValueOf(items, x)
    ensures Holds(items, e) ==> |Removed(items, e)| == |items| - 1
  {
    if Holds(items, e) {
      var i, last, r := PositionOf(items, e), |items| - 1, Removed(items, e);
      assert forall j :: 0 <= j < last ==> r[j] == if j == i then items[last] else items[j];
      assert DistinctSlots(r);
      forall x | x != e && Holds(items, x)
        ensures Holds(r, x) && ValueOf(r, x) == ValueOf(items, x)
      {
        var j := PositionOf(items, x);
        var j' := if j == last then i else j;
        assert r[j'] == items[j];
        PositionIsUnique(r, j');
      }
    }
  }

  function ValueOf<V>(items: seq<Item<V>>, e: Id): V
    requires Holds(items, e)
  {
    items[PositionOf(items, e)].value
  }

  // ---------- How the program keeps it ----------

  /** A sparse slot that has never been used, or is empty again, or the position of an identifier. */
  datatype SparseSlot = Vacant | At(position: nat, version: nat)

  ghost predicate Mirrors<V>(packed: seq<Id>, values: seq<V>, sparse: map<nat, SparseSlot>, items: seq<Item<V>>)
  {
    && |packed| == |values| == |items|
    && (forall i :: 0 <= i < |items| ==> items[i] == Item(packed[i], values[i]))
    && (forall i :: 0 <= i < |items| ==> items[i].id.slot in sparse && sparse[items[i].id.slot] == At(i, items[i].id.version))
    && (forall s :: s in sparse && sparse[s].At? ==> sparse[s].position < |items| && items[sparse[s].position].id == Id(s, sparse[s].version))
  }

  /** Moving the last element into the hole, and pointing its sparse slot there, keeps the two inverse. */
  lemma PopMirrors<V>(packed: seq<Id>, values: seq<V>, sparse: map<nat, SparseSlot>, items: seq<Item<V>>, i: nat)
    requires Mirrors(packed, values, sparse, items) && i < |items|
    ensures var last := |packed| - 1;
            Mirrors(packed[i := packed[last]][..last], values[i := values[last]][..last],
              sparse[packed[last].slot := At(i, packed[last].version)][packed[i].slot := Vacant], SwapPop(items, i))
  {
    var last, items' := |packed| - 1, SwapPop(items, i);
    var sparse' := sparse[packed[last].slot := At(i, packed[last].version)][packed[i].slot := Vacant];
    assert forall j :: 0 <= j < last ==> items'[j] == if j == i then items[last] else items[j];
    forall s | s in sparse' && sparse'[s].At?
      ensures sparse'[s].position < last && items'[sparse'[s].position].id == Id(s, sparse'[s].version)
    {
      if s != packed[last].slot {
        assert sparse[s].position != last;
      }
    }
  }

  class Storage<V> {
    var packed: seq<Id>
    var values: seq<V>
    var sparse: map<nat, SparseSlot>
    const swapAndPop: bool
    ghost var items: seq<Item<V>>

    /** Sparse slots and packed positions are inverse to each other. */
    ghost predicate Valid()
      reads this
    {
      Mirrors(packed, values, sparse, items)
    }

    constructor (swapAndPop: bool)
      ensures Valid() && items == [] && this.swapAndPop == swapAndPop
    {
      packed, values, sparse, items := [], [], map[], [];
      this.swapAndPop := swapAndPop;
    }

    method Size() returns (n: nat)
      requires Valid()
      ensures n == |items|
    {
      n := |packed|;
    }

    lemma ItemAt(i: nat)
      requires Valid()
      ensures |packed| == |items|
      ensures i < |items| ==> packed[i] == items[i].id
    {
    }

    lemma ItemIs(i: nat)
      requires Valid() && i < |items|
      ensures |packed| == |values| == |items| && items[i] == Item(packed[i], values[i])
    {
    }

    lemma SlotsDiffer()
      requires Valid()
      ensures DistinctSlots(items)
    {
      forall i, j | 0 <= i < j < |items|
        ensures items[i].id.slot != items[j].id.slot
      {
        assert sparse[items[i].id.slot] == At(i, items[i].id.version);
        assert sparse[items[j].id.slot] == At(j, items[j].id.version);
      }
    }

    function Contains(e: Id): (found: bool)
      requires Valid()
      reads this
      ensures found <==> Holds(items, e)
    {
      assert Holds(items, e) ==> (var i :| 0 <= i < |items| && items[i].id == e; sparse[e.slot] == At(i, e.version));
      e.slot in sparse && sparse[e.slot].At? && sparse[e.slot].version == e.version
    }

    method Get(e: Id) returns (v: V)
      requires Valid() && Holds(items, e)
      ensures v == ValueOf(items, e)
    {
      SlotsDiffer();
      PositionIsUnique(items, sparse[e.slot].position);
      v := values[sparse[e.slot].position];
    }

    /** Appends an identifier whose slot has no component yet. */
    method Emplace(e: Id, v: V)
      requires Valid() && forall i :: 0 <= i < |items| ==> items[i].id.slot != e.slot
      modifies this
      ensures Valid() && items == old(items) + [Item(e, v)]
    {
      packed := packed + [e];
      values := values + [v];
      sparse := sparse[e.slot := At(|packed| - 1, e.version)];
      items := items + [Item(e, v)];
    }

    /** Removes an identifier if it is there, by moving the last one into its place. */
    method Remove(e: Id) returns (removed: bool)
      requires Valid()
      modifies this
      ensures Valid() && items == Removed(old(items), e)
      ensures removed <==> Holds(old(items), e)
    {
      removed := Contains(e);
      if !removed {
        return;
      }
      SlotsDiffer();
      var i, last := sparse[e.slot].position, |packed| - 1;
      PositionIsUnique(items, i);
      PopMirrors(packed, values, sparse, items, i);
      hide Mirrors, SwapPop, Holds, PositionOf;
      var back := packed[last];
      values := values[i := values[last]][..last];
      sparse := sparse[back.slot := At(i, back.version)];
      packed := packed[i := back];
      sparse := sparse[e.slot := Vacant];
      packed := packed[..last];
      items := SwapPop(items, i);
    }
  }
}
