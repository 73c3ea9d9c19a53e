/** The snapshot cache as the program keeps it: a doubly linked recency list, and an index into it. */
module MruCache {
  import opened Options
  import opened Sequences
  import opened Lru

  class Node<K> {
    const key: K
    var prev: Node?<K>
    var next: Node?<K>

    constructor (key: K)
      ensures this.key == key
    {
      this.key := key;
      prev, next := null, null;
    }
  }

  /** A doubly linked list whose positions stay valid while other elements come and go. */
  class RecencyList<K> {
    var head: Node?<K>
    var tail: Node?<K>
    ghost var nodes: seq<Node<K>>
    ghost var repr: set<Node<K>>

    /** The links spell out `ns`. */
    ghost predicate Spells(ns: seq<Node<K>>)
      reads `head, `tail, `repr, repr
    {
      && NoRepeats(ns)
      && (forall n :: n in ns ==> n in repr)
      && (ns == [] ==> head == null && tail == null)
      && (ns != [] ==> head == ns[0] && tail == ns[|ns| - 1] && ns[0].prev == null && ns[|ns| - 1].next == null)
      && (forall i, j :: 0 <= i && j == i + 1 && j < |ns| ==> ns[i].next == ns[j] && ns[j].prev == ns[i])
    }

    ghost predicate Linked()
      reads this, repr
    {
      Spells(nodes)
    }

    /** The links spell out `nodes`, except that they lead around node `i`. */
    ghost predicate LeadsAround(i: nat)
      requires i < |nodes|
      reads this, repr
    {
      && NoRepeats(nodes)
      && (forall n :: n in nodes ==> n in repr)
      && (if i > 0 then head == nodes[0] && nodes[0].prev == null
          else if |nodes| > 1 then head == nodes[1] && nodes[1].prev == null
          else head == null)
      && (if i + 1 < |nodes| then tail == nodes[|nodes| - 1] && nodes[|nodes| - 1].next == null
          else if i > 0 then tail == nodes[i - 1] && nodes[i - 1].next == null
          else tail == null)
      && (forall j, l :: 0 <= j && l == j + 1 && l < |nodes| && j != i && l != i ==> nodes[j].next == nodes[l] && nodes[l].prev == nodes[j])
      && (0 < i && i + 1 < |nodes| ==> nodes[i - 1].next == nodes[i + 1] && nodes[i + 1].prev == nodes[i - 1])
    }

    lemma AroundIsErased(i: nat)
      requires i < |nodes| && LeadsAround(i)
      ensures Spells(RemoveAt(nodes, i))
    {
      hide NoRepeats, RemoveAt;
      RemoveAtShifts(nodes, i);
      var rest := RemoveAt(nodes, i);
      forall j, l | 0 <= j && l == j + 1 && l < |rest|
        ensures rest[j].next == rest[l] && rest[l].prev == rest[j]
      {
        if l < i {
          assert rest[j] == nodes[j] && rest[l] == nodes[l];
        } else if j >= i {
          assert rest[j] == nodes[j + 1] && rest[l] == nodes[l + 1];
        }
      }
    }

    lemma Members()
      requires Linked()
      ensures NoRepeats(nodes) && forall n :: n in nodes ==> n in repr
    {
    }

    constructor ()
      ensures Linked() && nodes == [] && repr == {}
    {
      head, tail, nodes, repr := null, null, [], {};
    }

    /** Makes the neighbours of a node point at each other. */
    method Bypass(n: Node<K>, ghost i: nat)
      requires Linked() && i < |nodes| && nodes[i] == n
      modifies this`head, this`tail, repr
      ensures LeadsAround(i)
    {
      hide NoRepeats;
      var p, q := n.prev, n.next;
      Differ(nodes, i);
      if i > 0 { Differ(nodes, i - 1); }
      if i + 1 < |nodes| { Differ(nodes, i + 1); }
      assert i > 0 ==> p == nodes[i - 1];
      assert i + 1 < |nodes| ==> q == nodes[i + 1];
      if p == null {
        head := q;
      } else {
        p.next := q;
      }
      if q == null {
        tail := p;
      } else {
        q.prev := p;
      }
    }

    /** Takes a node out of the list, wherever it is. */
    method Erase(n: Node<K>, ghost i: nat)
      requires Linked() && i < |nodes| && nodes[i] == n
      modifies this, repr
      ensures Linked() && nodes == RemoveAt(old(nodes), i) && repr == old(repr)
    {
      hide Spells, LeadsAround, RemoveAt;
      Bypass(n, i);
      AroundIsErased(i);
      nodes := RemoveAt(nodes, i);
    }

    method PushFront(n: Node<K>)
      requires Linked() && n !in nodes
      modifies this, repr, n
      ensures Linked() && nodes == [n] + old(nodes) && repr == old(repr) + {n} && head == n
    {
      n.prev, n.next := null, head;
      if head == null {
        tail := n;
      } else {
        assert head == nodes[0];
        head.prev := n;
      }
      head := n;
      nodes := [n] + nodes;
      repr := repr + {n};
    }
  }

  /** An index entry: the snapshot, and where its key sits in the recency list. */
  datatype Slot<K, +V> = Slot(value: V, node: Node<K>)

  /** Entry `i` of the cache is the key of node `i` with the snapshot the index has for it. */
  ghost predicate Represents<K, V>(nodes: seq<Node<K>>, index: map<K, Slot<K, V>>, es: seq<Entry<K, V>>)
  {
    && |nodes| == |es|
    && (forall i :: 0 <= i < |es| ==> nodes[i].key == es[i].key)
    && (forall i :: 0 <= i < |es| ==> es[i].key in index && index[es[i].key] == Slot(es[i].value, nodes[i]))
    && (forall k :: k in index ==> index[k].node in nodes && index[k].node.key == k)
  }

  /** The index has a key exactly if the recency list does, and the same snapshot for it. */
  lemma IndexFinds<K, V>(nodes: seq<Node<K>>, index: map<K, Slot<K, V>>, es: seq<Entry<K, V>>, k: K) returns (i: nat)
    requires Represents(nodes, index, es) && NoRepeats(Keys(es))
    ensures Lookup(es, k) == if k in index then Some(index[k].value) else None
    ensures |nodes| == |es|
    ensures k in index ==> i < |es| && es[i].key == k && nodes[i] == index[k].node && nodes[i].key == k
  {
    i := 0;
    LookupIsInKeys(es, k);
    if k in index {
      i :| 0 <= i < |nodes| && nodes[i] == index[k].node;
      AtPosition(es, i);
    } else {
      assert forall j :: 0 <= j < |es| ==> Keys(es)[j] == es[j].key && es[j].key in index;
    }
  }

  lemma {:induction false} KeysAreCounted<K>(keys: seq<K>)
    requires NoRepeats(keys)
    ensures |set k | k in keys| == |keys|
  {
    if keys == [] {
    } else {
      KeysAreCounted(keys[1..]);
      assert (set k | k in keys) == {keys[0]} + set k | k in keys[1..];
      assert keys[0] !in keys[1..];
    }
  }

  /** List and index have the same size. */
  lemma SizesAgree<K, V>(nodes: seq<Node<K>>, index: map<K, Slot<K, V>>, es: seq<Entry<K, V>>)
    requires Represents(nodes, index, es) && NoRepeats(Keys(es))
    ensures |index| == |es|
  {
    KeysAreCounted(Keys(es));
    forall k
      ensures k in index <==> k in Keys(es)
    {
      if k in index {
        var i := IndexFinds(nodes, index, es, k);
        assert Keys(es)[i] == k;
      }
    }
    assert index.Keys == set k | k in Keys(es);
  }

  lemma EntriesDiffer<K, V>(es: seq<Entry<K, V>>)
    requires NoRepeats(Keys(es))
    ensures NoRepeats(es)
  {
    assert forall i :: 0 <= i < |es| ==> Keys(es)[i] == es[i].key;
  }

  /** Taking a key out of list and index takes its entry out. */
  lemma UnindexRemoves<K(!new), V>(nodes: seq<Node<K>>, index: map<K, Slot<K, V>>, es: seq<Entry<K, V>>, i: nat)
    requires Represents(nodes, index, es) && NoRepeats(Keys(es)) && NoRepeats(nodes) && i < |es|
    ensures Represents(RemoveAt(nodes, i), index - {es[i].key}, Without(es, es[i].key))
    ensures NoRepeats(Keys(Without(es, es[i].key)))
  {
    hide NoRepeats, Keys, Lookup, Without, RemoveAt;
    var rest, index', es' := RemoveAt(nodes, i), index - {es[i].key}, RemoveAt(es, i);
    WithoutNoRepeats(es, es[i].key);
    AtPosition(es, i);
    RemoveAtShifts(nodes, i);
    EntriesDiffer(es);
    RemoveAtShifts(es, i);
    Differ(Keys(es), i);
    forall j | 0 <= j < |es'|
      ensures rest[j].key == es'[j].key && es'[j].key in index' && index'[es'[j].key] == Slot(es'[j].value, rest[j])
    {
      var o := if j < i then j else j + 1;
      assert es'[j] == es[o] && rest[j] == nodes[o];
      assert Keys(es)[o] == es[o].key;
    }
    forall k | k in index'
      ensures index'[k].node in rest && index'[k].node.key == k
    {
      var j := IndexFinds(nodes, index, es, k);
      assert nodes[j] in rest;
    }
  }

  /** A key new to list and index becomes the most recent entry. */
  lemma IndexAdds<K, V>(nodes: seq<Node<K>>, index: map<K, Slot<K, V>>, es: seq<Entry<K, V>>, n: Node<K>, v: V)
    requires Represents(nodes, index, es) && NoRepeats(Keys(es)) && n.key !in index
    ensures n !in nodes
    ensures Represents([n] + nodes, index[n.key := Slot(v, n)], [Entry(n.key, v)] + es)
    ensures NoRepeats(Keys([Entry(n.key, v)] + es))
  {
    hide Keys, Lookup;
    var nodes', index', es' := [n] + nodes, index[n.key := Slot(v, n)], [Entry(n.key, v)] + es;
    forall j | 0 <= j < |es'|
      ensures nodes'[j].key == es'[j].key && es'[j].key in index' && index'[es'[j].key] == Slot(es'[j].value, nodes'[j])
    {
      if j > 0 {
        assert es'[j] == es[j - 1] && nodes'[j] == nodes[j - 1];
      }
    }
    forall k | k in index'
      ensures index'[k].node in nodes' && index'[k].node.key == k
    {
      if k == n.key {
        assert nodes'[0] == n;
      }
    }
    ConsBinds(n.key, v, es);
    var _ := IndexFinds(nodes, index, es, n.key);
    LookupIsInKeys(es, n.key);
    NoRepeatsCons(n.key, Keys(es));
  }

  lemma QuotientIsFloor(a: int, b: int)
    requires a > 0 && b > 0
    ensures a / b * b <= a < (a / b + 1) * b
  {
    assert a == a / b * b + a % b;
  }

  lemma WhatIsKept<K(!new), V>(es: seq<Entry<K, V>>, capacity: nat)
    requires EntriesOk(es, capacity)
    ensures capacity == 0 ==> es == []
    ensures forall k: K, v: V :: capacity != 0 <==> Lookup(Stored(es, capacity, k, v), k) == Some(v)
  {
    forall k: K, v: V
      ensures capacity != 0 <==> Lookup(Stored(es, capacity, k, v), k) == Some(v)
    {
      if capacity != 0 {
        StoreIsSound(es, capacity, k, v);
      }
    }
  }

  class Cache<K(==,!new), V> {
    var capacity: nat
    const list: RecencyList<K>
    var index: map<K, Slot<K, V>>
    ghost var entries: seq<Entry<K, V>>

    /** List and index represent `entries`, most recent first, which fit into the capacity. */
    ghost predicate Valid()
      reads this, list, list.repr
    {
      Consistent() && |entries| <= capacity
    }

    ghost predicate Consistent()
      reads this, list, list.repr
    {
      list.Linked() && Represents(list.nodes, index, entries) && NoRepeats(Keys(entries))
    }

    constructor ()
      ensures Valid() && entries == [] && capacity == 0
      ensures fresh(list) && list.repr == {}
    {
      capacity, index, entries := 0, map[], [];
      list := new RecencyList();
    }

    lemma ValidEntries()
      requires Valid()
      ensures EntriesOk(entries, capacity)
    {
    }

    /** A cache is enabled exactly if it would keep what is put into it; a disabled one holds nothing. */
    method Enabled() returns (on: bool)
      requires Valid()
      ensures on <==> capacity != 0
      ensures forall k: K, v: V :: on <==> Lookup(Stored(entries, capacity, k, v), k) == Some(v)
      ensures !on ==> entries == []
    {
      on := capacity != 0;
      WhatIsKept(entries, capacity);
    }

    method Contains(k: K) returns (found: bool)
      requires Valid()
      ensures found <==> Lookup(entries, k).Some?
    {
      ghost var _ := IndexFinds(list.nodes, index, entries, k);
      found := k in index;
    }

    /** Drops the entry of a key, wherever it is in the list. */
    method EraseEntry(k: K) returns (node: Node<K>)
      requires Consistent() && k in index
      modifies this`index, this`entries, list, list.repr
      ensures Consistent() && k !in index && node == old(index)[k].node
      ensures entries == Without(old(entries), k)
      ensures list.repr == old(list.repr) && node in list.repr && node.key == k
    {
      hide NoRepeats, Lookup, Without, Keys, RemoveAt, RecencyList.Spells, Represents;
      ghost var i := IndexFinds(list.nodes, index, entries, k);
      list.Members();
      UnindexRemoves(list.nodes, index, entries, i);
      RemoveAtShifts(list.nodes, i);
      node := index[k].node;
      list.Erase(node, i);
      index := index - {k};
      entries := Without(entries, k);
    }

    /** Makes a key that has no entry the most recent one. */
    method PushEntry(node: Node<K>, v: V)
      requires Consistent() && node.key !in index
      modifies this`index, this`entries, list, list.repr, node
      ensures Consistent()
      ensures entries == [Entry(node.key, v)] + old(entries)
      ensures list.repr == old(list.repr) + {node}
    {
      hide NoRepeats, Lookup, Keys;
      IndexAdds(list.nodes, index, entries, node, v);
      list.PushFront(node);
      index := index[node.key := Slot(v, list.head)];
      entries := [Entry(node.key, v)] + entries;
    }

    /** A hit becomes the most recent entry; the snapshot handed out is the stored value. */
    method Get(k: K) returns (v: Option<V>)
      requires Valid()
      modifies this, list, list.repr
      ensures Valid() && capacity == old(capacity)
      ensures v == Lookup(old(entries), k)
      ensures entries == Touched(old(entries), k)
      ensures list.repr == old(list.repr)
    {
      hide NoRepeats, Keys, Represents, RecencyList.Linked;
      ghost var _ := IndexFinds(list.nodes, index, entries, k);
      if k !in index {
        return None;
      }
      v := Some(index[k].value);
      TouchKeepsContents(entries, capacity, k);
      assert Touched(entries, k) == [Entry(k, v.value)] + Without(entries, k);
      var node := EraseEntry(k);
      PushEntry(node, v.value);
    }

    method LastKey() returns (k: K)
      requires Consistent() && entries != []
      ensures k == entries[|entries| - 1].key && k in index
    {
      assert list.tail == list.nodes[|entries| - 1];
      k := list.tail.key;
      assert entries[|entries| - 1].key in index;
    }

    /** Drops entries from the back until at most `limit` are left. */
    method EvictTo(limit: nat)
      requires Consistent()
      modifies this`index, this`entries, list, list.repr
      ensures Consistent()
      ensures entries == Take(old(entries), limit)
      ensures list.repr == old(list.repr)
    {
      hide NoRepeats, Keys, Represents;
      ghost var es := entries;
      SizesAgree(list.nodes, index, entries);
      while |index| > limit
        invariant Consistent() && |index| == |entries| <= |es|
        invariant |entries| == |es| || limit <= |entries|
        invariant entries == es[..|entries|]
        invariant list.repr == old(list.repr)
      {
        var last := LastKey();
        AtPosition(entries, |entries| - 1);
        var _ := EraseEntry(last);
        SizesAgree(list.nodes, index, entries);
      }
      TakeIsPrefix(es, limit);
    }

    /** Replaces the entry of a key, or makes room for a new one. A disabled cache stores nothing. */
    method Put(k: K, v: V)
      requires Valid()
      modifies this, list, list.repr
      ensures Valid() && capacity == old(capacity)
      ensures entries == Stored(old(entries), capacity, k, v)
      ensures fresh(list.repr - old(list.repr))
    {
      hide NoRepeats, Keys, Represents, RecencyList.Linked;
      if capacity == 0 {
        return;
      }
      ghost var es := entries;
      StoreIsSound(es, capacity, k, v);
      ghost var _ := IndexFinds(list.nodes, index, entries, k);
      if k in index {
        var _ := EraseEntry(k);
      } else {
        EvictTo(capacity - 1);
        LookupInTake(es, capacity - 1, k);
        ghost var _ := IndexFinds(list.nodes, index, entries, k);
      }
      var node := new Node(k);
      PushEntry(node, v);
    }

    /** Sets the capacity to the number of average snapshots that fit, and drops what no longer fits. */
    method Resize(desiredMiB: int, averageMiB: int) returns (rejected: bool)
      requires Valid()
      modifies this, list, list.repr
      ensures Valid()
      ensures rejected <==> averageMiB <= 0
      ensures rejected ==> capacity == old(capacity) && entries == old(entries)
      ensures !rejected && desiredMiB <= 0 ==> capacity == 0
      ensures !rejected && desiredMiB > 0 ==> capacity * averageMiB <= desiredMiB < (capacity + 1) * averageMiB
      ensures !rejected ==> entries == Take(old(entries), capacity)
      ensures list.repr == old(list.repr)
    {
      hide NoRepeats, Keys, Represents, RecencyList.Linked;
      if averageMiB <= 0 {
        return true;
      }
      rejected := false;
      capacity := if desiredMiB > 0 then desiredMiB / averageMiB else 0;
      if desiredMiB > 0 {
        QuotientIsFloor(desiredMiB, averageMiB);
      }
      TakeIsPrefix(entries, capacity);
      EvictTo(capacity);
    }
  }
}
