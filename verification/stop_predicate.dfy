/** The test that ends a simulation, taken before every tick. */
module StopPredicate {
  import opened Options
  import opened Encounters

  datatype Stats = Stats(maxHealth: int, health: int)

  /** What the loop's exit test sees of one actor entity. */
  datatype Sighting = Sighting(
    name: string,
    downstate: bool,
    hasRotation: bool,
    noMoreRotation: bool,
    inAnimation: bool,
    activeSkills: bool,
    stats: Option<Stats>)

  /** An empty actor name in a ROTATION or ACTIVE_SKILLS condition stands for everyone. */
  predicate Concerns(c: Condition, a: Sighting)
  {
    c.actor == "" || a.name == c.actor
  }

  predicate RotationOver(a: Sighting)
  {
    a.noMoreRotation && !a.inAnimation
  }

  predicate SkillsOver(a: Sighting)
  {
    a.noMoreRotation && !a.activeSkills
  }

  predicate TookDamage(c: Condition, a: Sighting)
  {
    a.stats.Some? && a.name == c.actor && a.stats.value.maxHealth - a.stats.value.health >= c.damage
  }

  ghost predicate Met(c: Condition, roster: seq<Sighting>, tick: nat)
  {
    match c.kind
    case InvalidCondition => false
    case TimeCondition => tick >= c.time
    case RotationCondition => forall a | a in roster :: Concerns(c, a) && a.hasRotation ==> RotationOver(a)
    case ActiveSkillsCondition => forall a | a in roster :: Concerns(c, a) && a.hasRotation ==> SkillsOver(a)
    case DamageCondition => exists a | a in roster :: TookDamage(c, a)
  }

  ghost predicate Stops(conditions: seq<Condition>, roster: seq<Sighting>, tick: nat)
  {
    || (exists a | a in roster :: a.downstate)
    || (exists c | c in conditions :: Met(c, roster, tick))
  }

  /** Does every sighting the condition concerns satisfy the test? Stops looking at the first that does not. */
  method RotationsOver(c: Condition, roster: seq<Sighting>) returns (outOfRotation: bool)
    ensures outOfRotation <==> forall a | a in roster :: Concerns(c, a) && a.hasRotation ==> RotationOver(a)
  {
    outOfRotation := true;
    for i := 0 to |roster|
      invariant outOfRotation
      invariant forall j :: 0 <= j < i ==> Concerns(c, roster[j]) && roster[j].hasRotation ==> RotationOver(roster[j])
    {
      if c.actor != "" && roster[i].name != c.actor {
        continue;
      }
      if !roster[i].hasRotation {
        continue;
      }
      if !roster[i].noMoreRotation || roster[i].inAnimation {
        assert roster[i] in roster && !RotationOver(roster[i]);
        outOfRotation := false;
        break;
      }
    }
  }

  method ActiveSkillsOver(c: Condition, roster: seq<Sighting>) returns (over: bool)
    ensures over <==> forall a | a in roster :: Concerns(c, a) && a.hasRotation ==> SkillsOver(a)
  {
    var outOfRotation, noActiveSkills := true, true;
    for i := 0 to |roster|
      invariant outOfRotation && noActiveSkills
      invariant forall j :: 0 <= j < i ==> Concerns(c, roster[j]) && roster[j].hasRotation ==> SkillsOver(roster[j])
    {
      if c.actor != "" && roster[i].name != c.actor {
        continue;
      }
      if !roster[i].hasRotation {
        continue;
      }
      if !roster[i].noMoreRotation {
        assert roster[i] in roster && !SkillsOver(roster[i]);
        outOfRotation := false;
        break;
      }
      if roster[i].activeSkills {
        assert roster[i] in roster && !SkillsOver(roster[i]);
        noActiveSkills := false;
        break;
      }
    }
    over := outOfRotation && noActiveSkills;
  }

  method SomeoneTookDamage(c: Condition, roster: seq<Sighting>) returns (took: bool)
    ensures took <==> exists a | a in roster :: TookDamage(c, a)
  {
    took := false;
    for i := 0 to |roster|
      invariant !took
      invariant forall j :: 0 <= j < i ==> !TookDamage(c, roster[j])
    {
      match roster[i].stats {
        case None =>
          continue;
        case Some(stats) =>
          if roster[i].name != c.actor {
            continue;
          }
          if stats.maxHealth - stats.health >= c.damage {
            assert roster[i] in roster && TookDamage(c, roster[i]);
            took := true;
            break;
          }
      }
    }
  }

  /** The loop's exit test, with its flags and early exits, decides `Stops`. */
  method ContinueCombatLoop(conditions: seq<Condition>, roster: seq<Sighting>, tick: nat) returns (go: bool)
    ensures go <==> !Stops(conditions, roster, tick)
  {
    for i := 0 to |roster|
      invariant forall j :: 0 <= j < i ==> !roster[j].downstate
    {
      if roster[i].downstate {
        assert roster[i] in roster;
        return false;
      }
    }
    for i := 0 to |conditions|
      invariant forall j :: 0 <= j < i ==> !Met(conditions[j], roster, tick)
    {
      var c := conditions[i];
      assert c in conditions;
      match c.kind {
        case InvalidCondition =>
        case TimeCondition =>
          if tick >= c.time {
            return false;
          }
        case RotationCondition =>
          var over := RotationsOver(c, roster);
          if over {
            return false;
          }
        case ActiveSkillsCondition =>
          var over := ActiveSkillsOver(c, roster);
          if over {
            return false;
          }
        case DamageCondition =>
          var took := SomeoneTookDamage(c, roster);
          if took {
            return false;
          }
      }
    }
    return true;
  }

  lemma SameMembers(r1: seq<Sighting>, r2: seq<Sighting>)
    requires multiset(r1) == multiset(r2)
    ensures forall a :: a in r1 <==> a in r2
  {
    assert forall a :: a in r1 <==> a in multiset(r1);
    assert forall a :: a in r2 <==> a in multiset(r2);
  }

  /** Reordering the actor storage, as a swap-and-pop removal does, never changes the verdict. */
  lemma StopsIgnoresStorageOrder(conditions: seq<Condition>, r1: seq<Sighting>, r2: seq<Sighting>, tick: nat)
    requires multiset(r1) == multiset(r2)
    ensures Stops(conditions, r1, tick) <==> Stops(conditions, r2, tick)
  {
    SameMembers(r1, r2);
    forall c | c in conditions
      ensures Met(c, r1, tick) <==> Met(c, r2, tick)
    {
    }
  }

  /** An empty name is a wildcard for rotations and skills; for damage it only names an unnamed actor. */
  lemma EmptyNameIsNoWildcardForDamage(c: Condition, roster: seq<Sighting>, tick: nat)
    requires c.actor == ""
    requires forall a | a in roster :: a.name != ""
    ensures c.kind == DamageCondition ==> !Met(c, roster, tick)
    ensures c.kind == RotationCondition ==>
              (Met(c, roster, tick) <==> forall a | a in roster :: a.hasRotation ==> RotationOver(a))
    ensures c.kind == ActiveSkillsCondition ==>
              (Met(c, roster, tick) <==> forall a | a in roster :: a.hasRotation ==> SkillsOver(a))
  {
    if c.kind == DamageCondition {
      assert forall a | a in roster :: !TookDamage(c, a);
    }
  }
}
