/** The snapshot cache as a value: its entries, most recently used first. */
module Lru {
  import opened Options
  import opened Sequences

  datatype Entry<+K, +V> = Entry(key: K, value: V)

  function Keys<K, V>(es: seq<Entry<K, V>>): (ks: seq<K>)
    ensures |ks| == |es| && forall i :: 0 <= i < |es| ==> ks[i] == es[i].key
  {
    if es == [] then [] else [es[0].key] + Keys(es[1..])
  }

  function Lookup<K(==), V>(es: seq<Entry<K, V>>, k: K): Option<V>
  {
    if es == [] then None
    else if es[0].key == k then Some(es[0].value)
    else Lookup(es[1..], k)
  }

  function Without<K(==), V>(es: seq<Entry<K, V>>, k: K): seq<Entry<K, V>>
  {
    if es == [] then []
    else if es[0].key == k then Without(es[1..], k)
    else [es[0]] + Without(es[1..], k)
  }

  /** A successful `get` makes its entry the most recent one. */
  function Touched<K(==), V>(es: seq<Entry<K, V>>, k: K): seq<Entry<K, V>>
  {
    match Lookup(es, k)
    case None => es
    case Some(v) => [Entry(k, v)] + Without(es, k)
  }

  /** `put` replaces an entry, or evicts from the back until the new one fits. */
  function Stored<K(==), V>(es: seq<Entry<K, V>>, capacity: nat, k: K, v: V): seq<Entry<K, V>>
  {
    if capacity == 0 then es
    else if Lookup(es, k).Some? then [Entry(k, v)] + Without(es, k)
    else [Entry(k, v)] + Take(es, capacity - 1)
  }

  datatype Op<K, V> = Get(key: K) | Put(key: K, value: V)

  function Apply<K(==), V>(es: seq<Entry<K, V>>, capacity: nat, op: Op<K, V>): seq<Entry<K, V>>
  {
    match op
    case Get(k) => Touched(es, k)
    case Put(k, v) => Stored(es, capacity, k, v)
  }

  /** The entries after a history, latest operation first, at constant capacity and from an empty cache. */
  function Replay<K(==), V>(history: seq<Op<K, V>>, capacity: nat): seq<Entry<K, V>>
  {
    if history == [] then [] else Apply(Replay(history[1..], capacity), capacity, history[0])
  }

  lemma {:induction false} TakeOfKeys<K, V>(es: seq<Entry<K, V>>, n: nat)
    ensures Keys(Take(es, n)) == Take(Keys(es), n)
  {
    if es != [] && n > 0 {
      TakeOfKeys(es[1..], n - 1);
    }
  }

  lemma {:induction false} LookupIsInKeys<K, V>(es: seq<Entry<K, V>>, k: K)
    ensures Lookup(es, k).Some? <==> k in Keys(es)
  {
    if es == [] {
    } else {
      LookupIsInKeys(es[1..], k);
    }
  }

  /** Where the entry of a key sits, if keys do not repeat. */
  lemma {:induction false} AtPosition<K, V>(es: seq<Entry<K, V>>, i: nat)
    requires i < |es| && NoRepeats(Keys(es))
    ensures Lookup(es, es[i].key) == Some(es[i].value)
    ensures Without(es, es[i].key) == RemoveAt(es, i)
  {
    hide NoRepeats, RemoveAt, Keys;
    NoRepeatsTail(Keys(es));
    KeysOfTail(es);
    RemoveAtCons(es, i);
    var rest := es[1..];
    if i == 0 {
      WithoutAbsent(rest, es[0].key);
    } else {
      assert rest[i - 1] == es[i];
      assert es[0].key != es[i].key by { assert Keys(rest)[i - 1] == es[i].key; }
      AtPosition(rest, i - 1);
    }
  }

  lemma KeysOfTail<K, V>(es: seq<Entry<K, V>>)
    requires es != []
    ensures Keys(es)[1..] == Keys(es[1..]) && Keys(es)[0] == es[0].key
  {
  }

  lemma {:induction false} WithoutAbsent<K, V>(es: seq<Entry<K, V>>, k: K)
    requires k !in Keys(es)
    ensures Without(es, k) == es
  {
    if es == [] {
    } else {
      assert Keys(es)[0] == es[0].key;
      WithoutAbsent(es[1..], k);
    }
  }

  lemma {:induction false} LookupWithout<K, V>(es: seq<Entry<K, V>>, k: K, x: K)
    ensures Lookup(Without(es, k), x) == if x == k then None else Lookup(es, x)
    ensures x in Keys(Without(es, k)) <==> x in Keys(es) && x != k
  {
    if es == [] {
    } else {
      LookupWithout(es[1..], k, x);
    }
  }

  lemma {:induction false} WithoutNoRepeats<K(!new), V>(es: seq<Entry<K, V>>, k: K)
    requires NoRepeats(Keys(es))
    ensures NoRepeats(Keys(Without(es, k))) && k !in Keys(Without(es, k))
    ensures |Without(es, k)| == |es| - if Lookup(es, k).Some? then 1 else 0
  {
    LookupIsInKeys(es, k);
    LookupWithout(es, k, k);
    if es == [] {
    } else {
      assert Keys(es[1..]) == Keys(es)[1..];
      WithoutNoRepeats(es[1..], k);
      LookupIsInKeys(es[1..], k);
      LookupWithout(es[1..], k, es[0].key);
      if es[0].key != k {
        NoRepeatsCons(es[0].key, Keys(Without(es[1..], k)));
        assert Keys(Without(es, k)) == [es[0].key] + Keys(Without(es[1..], k));
      }
    }
  }

  // ---------- What the operations keep ----------

  ghost predicate EntriesOk<K, V>(es: seq<Entry<K, V>>, capacity: nat)
  {
    NoRepeats(Keys(es)) && |es| <= capacity
  }

  /** `get` reorders, and changes no answer. */
  lemma TouchKeepsContents<K(!new), V>(es: seq<Entry<K, V>>, capacity: nat, k: K)
    requires EntriesOk(es, capacity)
    ensures EntriesOk(Touched(es, k), capacity) && |Touched(es, k)| == |es|
    ensures forall x :: Lookup(Touched(es, k), x) == Lookup(es, x)
    ensures Lookup(es, k).Some? ==> Touched(es, k)[0].key == k
  {
    if Lookup(es, k).Some? {
      WithoutNoRepeats(es, k);
      NoRepeatsCons(k, Keys(Without(es, k)));
      var t := Touched(es, k);
      assert t[1..] == Without(es, k);
      assert Keys(t) == [k] + Keys(Without(es, k));
      forall x
        ensures Lookup(t, x) == Lookup(es, x)
      {
        LookupWithout(es, k, x);
      }
    }
  }

  lemma {:induction false} LookupInTake<K, V>(es: seq<Entry<K, V>>, n: nat, x: K)
    ensures Lookup(Take(es, n), x).Some? ==> Lookup(Take(es, n), x) == Lookup(es, x)
    ensures x in Keys(Take(es, n)) ==> x in Keys(es)
  {
    if es != [] && n > 0 {
      LookupInTake(es[1..], n - 1, x);
    }
  }

  lemma TakeKeepsOk<K, V>(es: seq<Entry<K, V>>, n: nat)
    requires NoRepeats(Keys(es))
    ensures EntriesOk(Take(es, n), n)
  {
    TakeIsPrefix(es, n);
    assert Keys(Take(es, n)) == Keys(es)[..|Take(es, n)|];
  }

  lemma ConsBinds<K, V>(k: K, v: V, rest: seq<Entry<K, V>>)
    ensures Keys([Entry(k, v)] + rest) == [k] + Keys(rest)
    ensures forall x :: Lookup([Entry(k, v)] + rest, x) == if x == k then Some(v) else Lookup(rest, x)
  {
    assert ([Entry(k, v)] + rest)[1..] == rest;
  }

  /** `put` binds its key, and no other key gains or changes a value. */
  lemma StoreIsSound<K(!new), V>(es: seq<Entry<K, V>>, capacity: nat, k: K, v: V)
    requires EntriesOk(es, capacity) && capacity > 0
    ensures EntriesOk(Stored(es, capacity, k, v), capacity)
    ensures Lookup(Stored(es, capacity, k, v), k) == Some(v)
    ensures forall x :: x != k && Lookup(Stored(es, capacity, k, v), x).Some? ==>
              Lookup(Stored(es, capacity, k, v), x) == Lookup(es, x)
  {
    var rest := if Lookup(es, k).Some? then Without(es, k) else Take(es, capacity - 1);
    assert NoRepeats(Keys(rest)) && k !in Keys(rest) && |rest| < capacity by {
      LookupIsInKeys(es, k);
      WithoutNoRepeats(es, k);
      TakeKeepsOk(es, capacity - 1);
      LookupInTake(es, capacity - 1, k);
    }
    NoRepeatsCons(k, Keys(rest));
    ConsBinds(k, v, rest);
    forall x | x != k && Lookup(rest, x).Some?
      ensures Lookup(rest, x) == Lookup(es, x)
    {
      LookupWithout(es, k, x);
      LookupInTake(es, capacity - 1, x);
    }
  }

  lemma {:induction false} ReplayIsOk<K(!new), V>(history: seq<Op<K, V>>, capacity: nat)
    ensures EntriesOk(Replay(history, capacity), capacity)
  {
    if history == [] {
    } else {
      ReplayIsOk(history[1..], capacity);
      var es := Replay(history[1..], capacity);
      match history[0] {
        case Get(k) => TouchKeepsContents(es, capacity, k);
        case Put(k, v) => if capacity > 0 { StoreIsSound(es, capacity, k, v); }
      }
    }
  }

  /** A cache with room for one entry. */
  lemma SingleEntry<K(!new), V>(k: K, v: V, other: K, w: V)
    requires k != other
    ensures Lookup([Entry(k, v)], k) == Some(v) && Lookup([Entry(k, v)], other) == None
    ensures Touched([Entry(k, v)], k) == [Entry(k, v)]
    ensures Stored([Entry(k, v)], 1, other, w) == [Entry(other, w)] && Stored([], 1, k, v) == [Entry(k, v)]
  {
    var es := [Entry(k, v)];
    assert es[1..] == [];
    assert Lookup(es[1..], other) == None;
    assert Without(es[1..], k) == [];
  }

  // ---------- Eviction is of the least recently touched key ----------

  function RemoveKey<K(==)>(ks: seq<K>, k: K): seq<K>
  {
    if ks == [] then [] else if ks[0] == k then RemoveKey(ks[1..], k) else [ks[0]] + RemoveKey(ks[1..], k)
  }

  /** The keys of a log, each once, by their latest appearance; the log is latest first. */
  function LatestFirst<K(==)>(log: seq<K>): seq<K>
  {
    if log == [] then [] else [log[0]] + RemoveKey(LatestFirst(log[1..]), log[0])
  }

  lemma {:induction false} RemoveKeyMembers<K>(ks: seq<K>, k: K, x: K)
    ensures x in RemoveKey(ks, k) <==> x in ks && x != k
  {
    if ks == [] {
    } else {
      RemoveKeyMembers(ks[1..], k, x);
    }
  }

  lemma {:induction false} RemoveKeyNoRepeats<K>(ks: seq<K>, k: K)
    requires NoRepeats(ks)
    ensures NoRepeats(RemoveKey(ks, k))
    ensures k !in ks ==> RemoveKey(ks, k) == ks
  {
    if ks == [] {
    } else {
      RemoveKeyNoRepeats(ks[1..], k);
      RemoveKeyMembers(ks[1..], k, ks[0]);
      assert ks[0] !in ks[1..];
      if ks[0] != k {
        NoRepeatsCons(ks[0], RemoveKey(ks[1..], k));
      }
    }
  }

  /** The latest-first listing has every key of the log, once. */
  lemma {:induction false} LatestFirstLists<K(!new)>(log: seq<K>)
    ensures NoRepeats(LatestFirst(log))
    ensures forall x :: x in LatestFirst(log) <==> x in log
  {
    if log == [] {
    } else {
      var rest := LatestFirst(log[1..]);
      LatestFirstLists(log[1..]);
      RemoveKeyNoRepeats(rest, log[0]);
      RemoveKeyMembers(rest, log[0], log[0]);
      NoRepeatsCons(log[0], RemoveKey(rest, log[0]));
      forall x
        ensures x in LatestFirst(log) <==> x in log
      {
        RemoveKeyMembers(rest, log[0], x);
      }
    }
  }

  /** The keys of the puts and of the successful gets of a history, latest first. */
  function TouchLog<K(==), V>(history: seq<Op<K, V>>, capacity: nat): seq<K>
  {
    if history == [] then []
    else
      var log := TouchLog(history[1..], capacity);
      if history[0].Put? || Lookup(Replay(history[1..], capacity), history[0].key).Some?
      then [history[0].key] + log
      else log
  }

  lemma {:induction false} KeysOfWithout<K, V>(es: seq<Entry<K, V>>, k: K)
    ensures Keys(Without(es, k)) == RemoveKey(Keys(es), k)
  {
    if es == [] {
    } else {
      KeysOfWithout(es[1..], k);
    }
  }

  lemma RemoveKeyCons<K>(x: K, ks: seq<K>, k: K)
    ensures RemoveKey([x] + ks, k) == if x == k then RemoveKey(ks, k) else [x] + RemoveKey(ks, k)
  {
    assert ([x] + ks)[1..] == ks;
  }

  lemma TakeCons<T>(x: T, s: seq<T>, n: nat)
    ensures Take([x] + s, n) == if n == 0 then [] else [x] + Take(s, n - 1)
  {
    assert ([x] + s)[1..] == s;
  }

  /** Dropping `k` from the first `n` of `ks` leaves the first of `ks` without `k`. */
  lemma {:induction false} TakeWithout<K>(ks: seq<K>, k: K, n: nat)
    requires n > 0 && NoRepeats(ks)
    ensures k in Take(ks, n) ==> RemoveKey(Take(ks, n), k) == Take(RemoveKey(ks, k), n - 1)
    ensures k !in Take(ks, n) ==> Take(ks, n - 1) == Take(RemoveKey(ks, k), n - 1)
    decreases |ks|
  {
    if ks == [] {
    } else {
      hide RemoveKey, Take, NoRepeats;
      var x, rest := ks[0], ks[1..];
      NoRepeatsTail(ks);
      if x == k {
        TakeWithoutFirst(k, rest, n);
      } else {
        if n > 1 {
          TakeWithout(rest, k, n - 1);
        }
        TakeWithoutLater(x, rest, k, n);
      }
      assert ks == [x] + rest;
    }
  }

  lemma TakeWithoutFirst<K>(k: K, rest: seq<K>, n: nat)
    requires n > 0 && NoRepeats(rest) && k !in rest
    ensures k in Take([k] + rest, n)
    ensures RemoveKey(Take([k] + rest, n), k) == Take(RemoveKey([k] + rest, k), n - 1)
  {
    hide RemoveKey, Take, NoRepeats;
    var taken := Take(rest, n - 1);
    TakeCons(k, rest, n);
    RemoveKeyCons(k, rest, k);
    RemoveKeyCons(k, taken, k);
    RemoveKeyNoRepeats(rest, k);
    FrontHasNoRepeats(rest, n - 1);
    RemoveKeyNoRepeats(taken, k);
  }

  lemma TakeWithoutLater<K>(x: K, rest: seq<K>, k: K, n: nat)
    requires n > 0 && x != k
    requires n > 1 && k in Take(rest, n - 1) ==> RemoveKey(Take(rest, n - 1), k) == Take(RemoveKey(rest, k), n - 2)
    requires n > 1 && k !in Take(rest, n - 1) ==> Take(rest, n - 2) == Take(RemoveKey(rest, k), n - 2)
    ensures k in Take([x] + rest, n) ==> RemoveKey(Take([x] + rest, n), k) == Take(RemoveKey([x] + rest, k), n - 1)
    ensures k !in Take([x] + rest, n) ==> Take([x] + rest, n - 1) == Take(RemoveKey([x] + rest, k), n - 1)
  {
    hide RemoveKey, Take;
    var taken := Take(rest, n - 1);
    TakeCons(x, rest, n);
    TakeCons(x, rest, n - 1);
    RemoveKeyCons(x, rest, k);
    RemoveKeyCons(x, taken, k);
    TakeCons(x, RemoveKey(rest, k), n - 1);
    if n == 1 {
      TakeIsPrefix(rest, 0);
      assert taken == [];
    }
  }

  lemma FrontHasNoRepeats<T>(s: seq<T>, n: nat)
    requires NoRepeats(s)
    ensures NoRepeats(Take(s, n)) && forall x | x in Take(s, n) :: x in s
  {
    TakeIsPrefix(s, n);
  }

  /**
   At constant capacity `c > 0` the cache always holds exactly the `c` most recently touched keys,
   in that order; so what `put` evicts is the least recently touched one.
   */
  lemma {:induction false} HoldsMostRecent<K(!new), V>(history: seq<Op<K, V>>, capacity: nat)
    requires capacity > 0
    ensures Keys(Replay(history, capacity)) == Take(LatestFirst(TouchLog(history, capacity)), capacity)
  {
    if history == [] {
    } else {
      var es := Replay(history[1..], capacity);
      var k := history[0].key;
      HoldsMostRecent(history[1..], capacity);
      LookupIsInKeys(es, k);
      if history[0].Put? || Lookup(es, k).Some? {
        TouchMovesToFront(es, TouchLog(history[1..], capacity), history[0], capacity);
      }
    }
  }

  lemma TouchMovesToFront<K(!new), V>(es: seq<Entry<K, V>>, log: seq<K>, op: Op<K, V>, capacity: nat)
    requires capacity > 0 && Keys(es) == Take(LatestFirst(log), capacity)
    requires op.Put? || Lookup(es, op.key).Some?
    ensures Keys(Apply(es, capacity, op)) == Take(LatestFirst([op.key] + log), capacity)
  {
    hide NoRepeats, Keys, Without, Lookup;
    var k := op.key;
    var recent := LatestFirst(log);
    var rest := if Lookup(es, k).Some? then Without(es, k) else Take(es, capacity - 1);
    var removed := RemoveKey(recent, k);
    assert Keys(rest) == Take(removed, capacity - 1) by {
      LatestFirstLists(log);
      LookupIsInKeys(es, k);
      TakeWithout(recent, k, capacity);
      KeysOfWithout(es, k);
      TakeOfKeys(es, capacity - 1);
      TakeOfTake(recent, capacity, capacity - 1);
    }
    var v := if op.Put? then op.value else Lookup(es, k).value;
    ConsBinds(k, v, rest);
    assert Apply(es, capacity, op) == [Entry(k, v)] + rest;
    assert LatestFirst([k] + log) == [k] + removed by { assert ([k] + log)[1..] == log; }
    assert ([k] + removed)[1..] == removed;
  }

  // ---------- Larger caches never lose hits ----------

  /** `small` can be had from `large` by leaving entries out. */
  ghost predicate Subsequence<T>(small: seq<T>, large: seq<T>)
    decreases |large|
  {
    if small == [] then true
    else if large == [] then false
    else if small[0] == large[0] then Subsequence(small[1..], large[1..])
    else Subsequence(small, large[1..])
  }

  lemma {:induction false} SubsequenceSize<T>(small: seq<T>, large: seq<T>)
    requires Subsequence(small, large)
    ensures |small| <= |large|
    ensures |small| == |large| ==> small == large
    decreases |large|
  {
    if small == [] {
    } else {
      if small[0] == large[0] {
        SubsequenceSize(small[1..], large[1..]);
      } else {
        SubsequenceSize(small, large[1..]);
      }
    }
  }

  lemma {:induction false} SubsequenceLookup<K, V>(small: seq<Entry<K, V>>, large: seq<Entry<K, V>>, k: K)
    requires Subsequence(small, large) && NoRepeats(Keys(large)) && Lookup(small, k).Some?
    ensures Lookup(large, k) == Lookup(small, k)
    decreases |large|
  {
    assert Keys(large[1..]) == Keys(large)[1..];
    if small[0] == large[0] {
      if small[0].key != k {
        SubsequenceLookup(small[1..], large[1..], k);
      }
    } else {
      SubsequenceLookup(small, large[1..], k);
      LookupIsInKeys(large[1..], k);
      assert large[0].key == Keys(large)[0];
    }
  }

  lemma {:induction false} SubsequenceWithout<K, V>(small: seq<Entry<K, V>>, large: seq<Entry<K, V>>, k: K)
    requires Subsequence(small, large)
    ensures Subsequence(Without(small, k), Without(large, k))
    decreases |large|
  {
    if small == [] {
    } else {
      if small[0] == large[0] {
        SubsequenceWithout(small[1..], large[1..], k);
      } else {
        SubsequenceWithout(small, large[1..], k);
        if large[0].key != k {
          SubsequenceSkip(Without(small, k), large[0], Without(large[1..], k));
        }
      }
    }
  }

  lemma {:induction false} SubsequenceSkip<T>(small: seq<T>, x: T, large: seq<T>)
    requires Subsequence(small, large)
    ensures Subsequence(small, [x] + large)
    decreases |large|, 1
  {
    assert ([x] + large)[1..] == large;
    if small != [] && small[0] == x {
      if small[0] == large[0] {
        SubsequenceSkip(small[1..], large[0], large[1..]);
        assert [large[0]] + large[1..] == large;
      } else {
        SubsequenceTail(small, large);
      }
    }
  }

  lemma {:induction false} SubsequenceTail<T>(small: seq<T>, large: seq<T>)
    requires Subsequence(small, large) && small != []
    ensures Subsequence(small[1..], large)
    decreases |large|, 0
  {
    if small[0] == large[0] {
      SubsequenceSkip(small[1..], large[0], large[1..]);
      assert [large[0]] + large[1..] == large;
    } else {
      SubsequenceTail(small, large[1..]);
      SubsequenceSkip(small[1..], large[0], large[1..]);
      assert [large[0]] + large[1..] == large;
    }
  }

  /** Cutting the smaller one to `n` and the larger one to `N >= n` keeps it a subsequence, if the smaller one is cut. */
  lemma {:induction false} SubsequenceTake<T>(small: seq<T>, large: seq<T>, n: nat, N: nat)
    requires Subsequence(small, large)
    requires |large| - N <= |small| - n || |large| <= N
    ensures Subsequence(Take(small, n), Take(large, N))
    decreases |large|
  {
    if small != [] && n > 0 {
      SubsequenceSize(small, large);
      if N == 0 {
      } else if small[0] == large[0] {
        SubsequenceTake(small[1..], large[1..], n - 1, N - 1);
        assert Take(small, n)[1..] == Take(small[1..], n - 1);
        assert Take(large, N)[1..] == Take(large[1..], N - 1);
      } else {
        SubsequenceTake(small, large[1..], n, N - 1);
        SubsequenceSkip(Take(small, n), large[0], Take(large[1..], N - 1));
      }
    }
  }

  lemma SubsequenceCons<T>(small: seq<T>, large: seq<T>, x: T)
    requires Subsequence(small, large)
    ensures Subsequence([x] + small, [x] + large)
  {
    assert ([x] + small)[1..] == small && ([x] + large)[1..] == large;
  }

  lemma {:induction false} SubsequenceDrops<K, V>(small: seq<Entry<K, V>>, large: seq<Entry<K, V>>, k: K)
    requires Subsequence(small, large) && Lookup(small, k).None?
    ensures Subsequence(small, Without(large, k))
    decreases |large|
  {
    WithoutAbsentLookup(small, k);
    SubsequenceWithout(small, large, k);
  }

  lemma WithoutAbsentLookup<K, V>(es: seq<Entry<K, V>>, k: K)
    requires Lookup(es, k).None?
    ensures Without(es, k) == es
  {
    LookupIsInKeys(es, k);
    WithoutAbsent(es, k);
  }

  /** The two caches fed the same history: the smaller is a subsequence, and equal while it has room. */
  ghost predicate Nested<K, V>(small: seq<Entry<K, V>>, c1: nat, large: seq<Entry<K, V>>, c2: nat)
  {
    && EntriesOk(small, c1) && EntriesOk(large, c2)
    && Subsequence(small, large)
    && (|small| < c1 ==> small == large)
  }

  lemma NestedAfterGet<K(!new), V>(small: seq<Entry<K, V>>, c1: nat, large: seq<Entry<K, V>>, c2: nat, k: K)
    requires Nested(small, c1, large, c2)
    ensures Nested(Touched(small, k), c1, Touched(large, k), c2)
  {
    TouchKeepsContents(small, c1, k);
    TouchKeepsContents(large, c2, k);
    if Lookup(small, k).Some? {
      SubsequenceLookup(small, large, k);
      SubsequenceWithout(small, large, k);
      SubsequenceCons(Without(small, k), Without(large, k), Entry(k, Lookup(small, k).value));
    } else if Lookup(large, k).Some? {
      SubsequenceDrops(small, large, k);
      SubsequenceSkip(small, Entry(k, Lookup(large, k).value), Without(large, k));
    }
  }

  lemma NestedAfterPut<K(!new), V>(small: seq<Entry<K, V>>, c1: nat, large: seq<Entry<K, V>>, c2: nat, k: K, v: V)
    requires 0 < c1 <= c2 && Nested(small, c1, large, c2)
    ensures Nested(Stored(small, c1, k, v), c1, Stored(large, c2, k, v), c2)
  {
    StoreIsSound(small, c1, k, v);
    StoreIsSound(large, c2, k, v);
    SubsequenceSize(small, large);
    TakeIsPrefix(small, c1 - 1);
    TakeIsPrefix(large, c2 - 1);
    if Lookup(small, k).Some? {
      SubsequenceLookup(small, large, k);
      SubsequenceWithout(small, large, k);
      SubsequenceCons(Without(small, k), Without(large, k), Entry(k, v));
      WithoutNoRepeats(small, k);
    } else if Lookup(large, k).Some? {
      SubsequenceDrops(small, large, k);
      SubsequenceTake(small, Without(large, k), c1 - 1, |Without(large, k)|);
      TakeIsPrefix(Without(large, k), |Without(large, k)|);
      SubsequenceCons(Take(small, c1 - 1), Without(large, k), Entry(k, v));
    } else {
      SubsequenceTake(small, large, c1 - 1, c2 - 1);
      SubsequenceCons(Take(small, c1 - 1), Take(large, c2 - 1), Entry(k, v));
    }
  }

  /** A larger cache fed the same history always contains the smaller one, in the same order. */
  lemma {:induction false} LargerCacheContainsSmaller<K(!new), V>(history: seq<Op<K, V>>, c1: nat, c2: nat)
    requires 0 < c1 <= c2
    ensures Nested(Replay(history, c1), c1, Replay(history, c2), c2)
  {
    if history == [] {
    } else {
      var small, large := Replay(history[1..], c1), Replay(history[1..], c2);
      LargerCacheContainsSmaller(history[1..], c1, c2);
      match history[0] {
        case Get(k) => NestedAfterGet(small, c1, large, c2, k);
        case Put(k, v) => NestedAfterPut(small, c1, large, c2, k, v);
      }
    }
  }

  /** So a hit in the smaller cache is a hit in the larger one, with the same snapshot. */
  lemma LargerCacheNeverLosesHits<K(!new), V>(history: seq<Op<K, V>>, c1: nat, c2: nat, k: K)
    requires c1 <= c2
    ensures Lookup(Replay(history, c1), k).Some? ==> Lookup(Replay(history, c2), k) == Lookup(Replay(history, c1), k)
  {
    ReplayIsOk(history, c1);
    if c1 > 0 && Lookup(Replay(history, c1), k).Some? {
      LargerCacheContainsSmaller(history, c1, c2);
      SubsequenceLookup(Replay(history, c1), Replay(history, c2), k);
    }
  }
}
