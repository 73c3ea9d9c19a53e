/**
 Entity identifiers: a slot and a version. Released slots form a list threaded through the
 identifier array itself, and are handed out again, last released first, with a new version.
 */
module Entities {
  import opened Sequences

  /** The slot part has 20 bits and the version part 12; the all-ones values are reserved. */
  const NULL_SLOT: nat := 0xFFFFF
  const TOMBSTONE_VERSION: nat := 0xFFF
  const VERSION_WRAP: nat := 0x1000

  datatype Id = Id(slot: nat, version: nat)

  /** The identifier array, and the slot of the last released identifier. */
  datatype Ids = Ids(pool: seq<Id>, free: nat)

  predicate Live(ids: Ids, e: Id)
  {
    e.slot < |ids.pool| && ids.pool[e.slot] == e
  }

  /** Versions skip the reserved one and wrap around. */
  function NextVersion(version: nat): nat
  {
    var next := version + 1;
    (if next == TOMBSTONE_VERSION then next + 1 else next) % VERSION_WRAP
  }

  function Created(ids: Ids): Id
    requires ids.free == NULL_SLOT || ids.free < |ids.pool|
  {
    if ids.free == NULL_SLOT then Id(|ids.pool|, 0) else Id(ids.free, ids.pool[ids.free].version)
  }

  function AfterCreate(ids: Ids): Ids
    requires ids.free == NULL_SLOT || ids.free < |ids.pool|
  {
    if ids.free == NULL_SLOT then ids.(pool := ids.pool + [Created(ids)])
    else Ids(ids.pool[ids.free := Created(ids)], ids.pool[ids.free].slot)
  }

  function AfterRelease(ids: Ids, e: Id): Ids
    requires Live(ids, e)
  {
    Ids(ids.pool[e.slot := Id(ids.free, NextVersion(e.version))], e.slot)
  }

  /** `chain` lists the released slots, in the order in which they will be handed out. */
  ghost predicate Chained(ids: Ids, chain: seq<nat>)
  {
    && |ids.pool| <= NULL_SLOT
    && (ids.free == NULL_SLOT || ids.free < |ids.pool|)
    && NoRepeats(chain)
    && (forall i :: 0 <= i < |chain| ==> chain[i] < |ids.pool|)
    && ids.free == (if chain == [] then NULL_SLOT else chain[0])
    && (forall i, j :: 0 <= i && j == i + 1 && j < |chain| ==> ids.pool[chain[i]].slot == chain[j])
    && (chain != [] ==> ids.pool[chain[|chain| - 1]].slot == NULL_SLOT)
    && (forall s: nat :: s < |ids.pool| && s !in chain ==> ids.pool[s].slot == s)
  }

  /** A slot is on the list exactly if its identifier is not in use. */
  lemma ChainIsTheDead(ids: Ids, chain: seq<nat>, s: nat)
    requires Chained(ids, chain) && s < |ids.pool|
    ensures s in chain <==> ids.pool[s].slot != s
    ensures s in chain <==> forall e: Id :: e.slot == s ==> !Live(ids, e)
  {
    if s in chain {
      var i :| 0 <= i < |chain| && chain[i] == s;
      if i + 1 < |chain| {
        assert ids.pool[chain[i]].slot == chain[i + 1];
        assert chain[i + 1] != chain[i];
      }
    } else {
      assert Live(ids, ids.pool[s]);
    }
  }

  /** Creating hands out an identifier that was not in use, and changes no other. */
  lemma CreateIsSafe(ids: Ids, chain: seq<nat>) returns (chain': seq<nat>)
    requires Chained(ids, chain) && (chain == [] ==> |ids.pool| < NULL_SLOT)
    ensures !Live(ids, Created(ids)) && Live(AfterCreate(ids), Created(ids))
    ensures forall e :: e != Created(ids) ==> (Live(AfterCreate(ids), e) <==> Live(ids, e))
    ensures Chained(AfterCreate(ids), chain')
  {
    if chain == [] {
      chain' := [];
    } else {
      chain' := chain[1..];
      ChainIsTheDead(ids, chain, ids.free);
      assert chain[0] !in chain';
      var ids' := AfterCreate(ids);
      if |chain| > 1 {
        assert ids.pool[chain[0]].slot == chain[1];
      }
      forall i, j | 0 <= i && j == i + 1 && j < |chain'|
        ensures ids'.pool[chain'[i]].slot == chain'[j]
      {
        assert ids.pool[chain[i + 1]].slot == chain[j + 1];
      }
      forall s: nat | s < |ids'.pool| && s !in chain'
        ensures ids'.pool[s].slot == s
      {
        if s != ids.free {
          assert s !in chain;
        }
      }
    }
  }

  /** Releasing takes exactly the released identifier out of use. */
  lemma ReleaseIsSafe(ids: Ids, chain: seq<nat>, e: Id)
    requires Chained(ids, chain) && Live(ids, e)
    ensures forall x :: Live(AfterRelease(ids, e), x) <==> Live(ids, x) && x != e
    ensures Chained(AfterRelease(ids, e), [e.slot] + chain)
  {
    ChainIsTheDead(ids, chain, e.slot);
    var ids', chain' := AfterRelease(ids, e), [e.slot] + chain;
    forall i, j | 0 <= i && j == i + 1 && j < |chain'|
      ensures ids'.pool[chain'[i]].slot == chain'[j]
    {
      if i > 0 {
        assert ids.pool[chain[i - 1]].slot == chain[j - 1];
      }
    }
    forall x
      ensures Live(ids', x) <==> Live(ids, x) && x != e
    {
      if x.slot == e.slot {
        assert ids'.pool[e.slot].slot == ids.free != e.slot;
      }
    }
  }

  /** Versions stay below the reserved one. */
  ghost predicate Versioned(ids: Ids)
  {
    forall s: nat :: s < |ids.pool| ==> ids.pool[s].version < TOMBSTONE_VERSION
  }

  lemma VersionsStayProper(ids: Ids)
    requires Versioned(ids)
    ensures ids.free == NULL_SLOT || ids.free < |ids.pool| ==> Versioned(AfterCreate(ids))
    ensures forall e :: Live(ids, e) ==> Versioned(AfterRelease(ids, e))
  {
  }

  /**
   An identifier that is released and handed out again has the same slot and another version: one more than
   before, unless that is the reserved one, and then 0.
   */
  lemma RecycledGetsNextVersion(ids: Ids, chain: seq<nat>, e: Id)
    requires Chained(ids, chain) && Live(ids, e) && e.version < 0xFFF
    ensures var freed := AfterRelease(ids, e);
            && freed.free < |freed.pool|
            && Created(freed).slot == e.slot
            && Created(freed).version == (if e.version == 0xFFE then 0 else e.version + 1)
            && Created(freed).version != e.version && Created(freed).version < 0xFFF
            && Live(AfterCreate(freed), Created(freed)) && !Live(AfterCreate(freed), e)
  {
  }

  // ---------- How long a released identifier stays dead ----------

  datatype Change = Creates | Releases(e: Id)

  predicate Possible(ids: Ids, c: Change)
  {
    match c
    case Creates => ids.free == NULL_SLOT || ids.free < |ids.pool|
    case Releases(e) => Live(ids, e)
  }

  function Changed(ids: Ids, c: Change): Ids
    requires Possible(ids, c)
  {
    match c
    case Creates => AfterCreate(ids)
    case Releases(e) => AfterRelease(ids, e)
  }

  predicate AllPossible(ids: Ids, cs: seq<Change>)
    decreases |cs|
  {
    cs == [] || (Possible(ids, cs[0]) && AllPossible(Changed(ids, cs[0]), cs[1..]))
  }

  function AllChanged(ids: Ids, cs: seq<Change>): Ids
    requires AllPossible(ids, cs)
    decreases |cs|
  {
    if cs == [] then ids else AllChanged(Changed(ids, cs[0]), cs[1..])
  }

  /** How often this slot is released. */
  function ReleasesOf(cs: seq<Change>, slot: nat): nat
  {
    if cs == [] then 0
    else (if cs[0].Releases? && cs[0].e.slot == slot then 1 else 0) + ReleasesOf(cs[1..], slot)
  }

  lemma StepCounts(ids: Ids, c: Change, slot: nat)
    requires Versioned(ids) && Possible(ids, c) && slot < |ids.pool|
    ensures Versioned(Changed(ids, c)) && slot < |Changed(ids, c).pool|
    ensures Changed(ids, c).pool[slot].version == (ids.pool[slot].version + ReleasesOf([c], slot)) % 0xFFF
  {
    VersionsStayProper(ids);
    assert ReleasesOf([c][1..], slot) == 0;
  }

  lemma SumOfRests(a: nat, b: nat)
    ensures (a % 0xFFF + b) % 0xFFF == (a + b) % 0xFFF
  {
    assert a == a / 0xFFF * 0xFFF + a % 0xFFF;
  }

  /** A slot's version counts how often the slot has been released, over 4095 values. */
  lemma {:induction false} VersionCountsReleases(ids: Ids, cs: seq<Change>, slot: nat)
    requires Versioned(ids) && AllPossible(ids, cs) && slot < |ids.pool|
    ensures slot < |AllChanged(ids, cs).pool|
    ensures AllChanged(ids, cs).pool[slot].version == (ids.pool[slot].version + ReleasesOf(cs, slot)) % 0xFFF
    decreases |cs|
  {
    if cs == [] {
    } else {
      hide Versioned, Changed, Possible;
      StepCounts(ids, cs[0], slot);
      VersionCountsReleases(Changed(ids, cs[0]), cs[1..], slot);
      var v, n, m := ids.pool[slot].version, ReleasesOf([cs[0]], slot), ReleasesOf(cs[1..], slot);
      assert [cs[0]][1..] == [];
      SumOfRests(v + n, m);
    }
  }

  /** A released identifier stays dead until its slot has been released 4094 more times. */
  lemma StaleStaysDead(ids: Ids, e: Id, cs: seq<Change>)
    requires Versioned(ids) && Live(ids, e) && AllPossible(AfterRelease(ids, e), cs)
    requires ReleasesOf(cs, e.slot) < 4094
    ensures !Live(AllChanged(AfterRelease(ids, e), cs), e)
  {
    hide AllChanged, AllPossible, ReleasesOf;
    VersionsStayProper(ids);
    VersionCountsReleases(AfterRelease(ids, e), cs, e.slot);
    var v, n := e.version, ReleasesOf(cs, e.slot);
    assert AfterRelease(ids, e).pool[e.slot].version == (v + 1) % 0xFFF;
    SumOfRests(v + 1, n);
    assert v + 1 + n < 2 * 0xFFF;
  }

  /** A slot that is first on the list, created and released `n` times, and created once more. */
  lemma {:induction false} Rounds(ids: Ids, slot: nat, n: nat) returns (cs: seq<Change>)
    requires Versioned(ids) && ids.free == slot < |ids.pool| <= NULL_SLOT
    ensures AllPossible(ids, cs) && ReleasesOf(cs, slot) == n
    ensures Live(AllChanged(ids, cs), Id(slot, (ids.pool[slot].version + n) % 0xFFF))
    decreases n
  {
    var made := Created(ids);
    var used := AfterCreate(ids);
    VersionsStayProper(ids);
    VersionsStayProper(used);
    if n == 0 {
      cs := [Creates];
      assert cs[1..] == [];
      assert AllChanged(ids, cs) == AllChanged(used, []) == used;
    } else {
      var freed := AfterRelease(used, made);
      var more := Rounds(freed, slot, n - 1);
      cs := [Creates] + ([Releases(made)] + more);
      assert cs[1..] == [Releases(made)] + more && ([Releases(made)] + more)[1..] == more;
      assert AllPossible(used, [Releases(made)] + more);
      assert AllChanged(ids, cs) == AllChanged(used, [Releases(made)] + more) == AllChanged(freed, more);
      SumOfRests(ids.pool[slot].version + 1, n - 1);
    }
  }

  /** After 4094 more releases it can be handed out again. */
  lemma StaleComesBack(ids: Ids, e: Id) returns (cs: seq<Change>)
    requires Versioned(ids) && Live(ids, e) && |ids.pool| <= NULL_SLOT
    ensures AllPossible(AfterRelease(ids, e), cs) && ReleasesOf(cs, e.slot) == 4094
    ensures Live(AllChanged(AfterRelease(ids, e), cs), e)
  {
    hide AllPossible, AllChanged, ReleasesOf;
    VersionsStayProper(ids);
    cs := Rounds(AfterRelease(ids, e), e.slot, 4094);
    var v := e.version;
    SumOfRests(v + 1, 4094);
    assert (v + 0xFFF) % 0xFFF == v;
  }
}
