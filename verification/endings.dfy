/** How a simulation ends: what the exit test makes of the rotations and marks of the simulation itself. */
module Endings {
  import opened Options
  import opened Encounters
  import opened StopPredicate
  import opened Runs
  import opened Simulation
  import opened Battle
  import opened TickLaws
  import opened Timing

  /** The exit test sees everyone as the rest of the registry shows them, but with the simulation's own rotations and marks. */
  lemma RosterShows<R>(k: Rules<R>, s: State<R>, j: nat)
    requires j < |k.roster(s.rest)|
    ensures |RosterOf(k, s)| == |k.roster(s.rest)|
    ensures var o, a := k.roster(s.rest)[j], RosterOf(k, s)[j];
            && a.name == o.sighting.name && a.downstate == o.sighting.downstate && a.inAnimation == o.sighting.inAnimation
            && a.activeSkills == o.sighting.activeSkills && a.stats == o.sighting.stats
            && (o.configured.Some? && o.configured.value < |s.actors| ==>
                  && a.hasRotation == s.actors[o.configured.value].rotation.Some?
                  && a.noMoreRotation == s.actors[o.configured.value].noMore)
            && (o.configured.None? || o.configured.value >= |s.actors| ==>
                  a.hasRotation == o.sighting.hasRotation && a.noMoreRotation == o.sighting.noMoreRotation)
  {
  }

  /** Someone in the roster has a rotation that is not over yet. */
  predicate Performing(actors: seq<Actor>, o: Observed)
  {
    if o.configured.Some? && o.configured.value < |actors| then
      actors[o.configured.value].rotation.Some? && !actors[o.configured.value].noMore
    else
      o.sighting.hasRotation && !o.sighting.noMoreRotation
  }

  /** Someone in the roster has a rotation, over or not. */
  predicate Rotating(actors: seq<Actor>, o: Observed)
  {
    if o.configured.Some? && o.configured.value < |actors| then actors[o.configured.value].rotation.Some?
    else o.sighting.hasRotation
  }

  lemma OnlyCondition<R>(k: Rules<R>, e: Encounter, s: State<R>, c: Condition)
    requires e.conditions == [c]
    requires forall o :: o in k.roster(s.rest) ==> !o.sighting.downstate
    ensures Continues(k, e, s) <==> !Met(c, RosterOf(k, s), s.tick)
  {
    assert c in e.conditions;
    forall a | a in RosterOf(k, s)
      ensures !a.downstate
    {
      var j :| 0 <= j < |RosterOf(k, s)| && RosterOf(k, s)[j] == a;
      RosterShows(k, s, j);
      assert k.roster(s.rest)[j] in k.roster(s.rest);
    }
  }

  /**
   With ROTATION as the only condition, and nobody downstate, a simulation stops exactly when nobody whom the condition
   names, or nobody at all if it names no one, is performing a rotation, or has one and is in an animation.
   */
  lemma RotationStopsExactlyIf<R>(k: Rules<R>, e: Encounter, s: State<R>, c: Condition)
    requires e.conditions == [c] && c.kind == RotationCondition
    requires forall o :: o in k.roster(s.rest) ==> !o.sighting.downstate
    ensures !Continues(k, e, s) <==>
            forall o :: o in k.roster(s.rest) && (c.actor == "" || o.sighting.name == c.actor) ==>
              !Performing(s.actors, o) && (Rotating(s.actors, o) ==> !o.sighting.inAnimation)
  {
    OnlyCondition(k, e, s, c);
    var seen, roster := k.roster(s.rest), RosterOf(k, s);
    assert forall j :: 0 <= j < |roster| ==> roster[j] in roster && seen[j] in seen;
    forall j | 0 <= j < |roster|
      ensures Concerns(c, roster[j]) <==> c.actor == "" || seen[j].sighting.name == c.actor
      ensures roster[j].hasRotation <==> Rotating(s.actors, seen[j])
      ensures roster[j].hasRotation && !roster[j].noMoreRotation <==> Performing(s.actors, seen[j])
      ensures roster[j].inAnimation == seen[j].sighting.inAnimation
    {
      RosterShows(k, s, j);
    }
    hide RosterOf, Performing, Rotating, Concerns, Continues;
  }

  /** With ACTIVE_SKILLS as the only condition: when none of them is performing a rotation, or has one and active skills. */
  lemma ActiveSkillsStopExactlyIf<R>(k: Rules<R>, e: Encounter, s: State<R>, c: Condition)
    requires e.conditions == [c] && c.kind == ActiveSkillsCondition
    requires forall o :: o in k.roster(s.rest) ==> !o.sighting.downstate
    ensures !Continues(k, e, s) <==>
            forall o :: o in k.roster(s.rest) && (c.actor == "" || o.sighting.name == c.actor) ==>
              !Performing(s.actors, o) && (Rotating(s.actors, o) ==> !o.sighting.activeSkills)
  {
    OnlyCondition(k, e, s, c);
    var seen, roster := k.roster(s.rest), RosterOf(k, s);
    assert forall j :: 0 <= j < |roster| ==> roster[j] in roster && seen[j] in seen;
    forall j | 0 <= j < |roster|
      ensures Concerns(c, roster[j]) <==> c.actor == "" || seen[j].sighting.name == c.actor
      ensures roster[j].hasRotation <==> Rotating(s.actors, seen[j])
      ensures roster[j].hasRotation && !roster[j].noMoreRotation <==> Performing(s.actors, seen[j])
      ensures roster[j].activeSkills == seen[j].sighting.activeSkills
    {
      RosterShows(k, s, j);
    }
    hide RosterOf, Performing, Rotating, Concerns, Continues;
  }

  /** With DAMAGE as the only condition: when someone of exactly that name has lost at least that much health. */
  lemma DamageStopsExactlyIf<R>(k: Rules<R>, e: Encounter, s: State<R>, c: Condition)
    requires e.conditions == [c] && c.kind == DamageCondition
    requires forall o :: o in k.roster(s.rest) ==> !o.sighting.downstate
    ensures !Continues(k, e, s) <==>
            exists o :: o in k.roster(s.rest) && o.sighting.name == c.actor && o.sighting.stats.Some?
                        && o.sighting.stats.value.maxHealth - o.sighting.stats.value.health >= c.damage
  {
    OnlyCondition(k, e, s, c);
    var seen, roster := k.roster(s.rest), RosterOf(k, s);
    assert forall j :: 0 <= j < |roster| ==> roster[j] in roster && seen[j] in seen;
    forall j | 0 <= j < |roster|
      ensures roster[j].name == seen[j].sighting.name && roster[j].stats == seen[j].sighting.stats
    {
      RosterShows(k, s, j);
    }
    hide RosterOf, Continues;
  }

  /** With TIME as the only condition: from that tick on. */
  lemma TimeStopsExactlyIf<R>(k: Rules<R>, e: Encounter, s: State<R>, c: Condition)
    requires e.conditions == [c] && c.kind == TimeCondition
    requires forall o :: o in k.roster(s.rest) ==> !o.sighting.downstate
    ensures !Continues(k, e, s) <==> s.tick >= c.time
  {
    OnlyCondition(k, e, s, c);
  }

  /** A simulation stops if someone is downstate; otherwise several conditions stop it exactly if one of them would alone. */
  lemma StopsByOneOfThem<R>(k: Rules<R>, e: Encounter, s: State<R>)
    ensures (exists o :: o in k.roster(s.rest) && o.sighting.downstate) ==> !Continues(k, e, s)
    ensures (forall o :: o in k.roster(s.rest) ==> !o.sighting.downstate) ==>
              (!Continues(k, e, s) <==> exists c :: c in e.conditions && !Continues(k, e.(conditions := [c]), s))
  {
    var seen, roster := k.roster(s.rest), RosterOf(k, s);
    forall j | 0 <= j < |seen|
      ensures |roster| == |seen| && roster[j].downstate == seen[j].sighting.downstate && roster[j] in roster && seen[j] in seen
    {
      RosterShows(k, s, j);
    }
    if forall o :: o in seen ==> !o.sighting.downstate {
      forall c | c in e.conditions
        ensures Continues(k, e.(conditions := [c]), s) <==> !Met(c, roster, s.tick)
      {
        OnlyCondition(k, e.(conditions := [c]), s, c);
      }
      hide RosterOf, Met;
    }
  }

  /**
   A fight from the start, below the wrap of the clock, that ends through ROTATION alone does not end before whoever the
   exit test sees, and the condition concerns, has started every cast of a rotation that does not repeat, each of
   them no earlier than its time, and has been marked.
   */
  lemma RotationFightIsPlayedOut<R(!new)>(k: Rules<R>, e: Encounter, n: nat, s: State<R>, c: Condition, o: Observed, i: nat)
    requires Fresh(k, e).Some? && EndsAfter(Simulate(k, e), Fresh(k, e).value, true, n, Finished(s)) && n <= TICK_WRAP
    requires e.conditions == [c] && c.kind == RotationCondition
    requires forall o :: o in k.roster(s.rest) ==> !o.sighting.downstate
    requires o in k.roster(s.rest) && o.configured == Some(i) && (c.actor == "" || o.sighting.name == c.actor)
    requires i < |e.actors| && e.actors[i].casts != []
    ensures !e.actors[i].repeat && i < |s.actors| && s.actors[i].noMore && !o.sighting.inAnimation
    ensures s.actors[i].rotation == Some(Rotation(e.actors[i].casts, |e.actors[i].casts|, 0, false))
    ensures n > 0 && s.tick == n - 1
    ensures forall j :: 0 <= j < |e.actors[i].casts| ==> s.tick >= e.actors[i].casts[j].castTime % TICK_WRAP
  {
    hide Simulate, Fresh, StateOk, Continues, EndsAfter, OnTime, Performing, Rotating;
    EndPassesThrough(Simulate(k, e), Fresh(k, e).value, true, n, Finished(s), n);
    EndIsRefused(Simulate(k, e), Fresh(k, e).value, true, n, Finished(s));
    GoIsContinues(k, e, s);
    RotationStopsExactlyIf(k, e, s, c);
    NoCastStartsEarly(k, e, n, s, i);
    PlayedOut(e.actors[i], s.actors, i, s.tick, o);
    if n == 0 {
      StartOfRun(Simulate(k, e), Fresh(k, e).value, s);
      NobodyIsMarkedYet(k, e, i);
    }
  }

  lemma PlayedOut(c: ActorConfig, actors: seq<Actor>, i: nat, tick: nat, o: Observed)
    requires i < |actors| && OnTime(c, actors[i], tick) && o.configured == Some(i) && !Performing(actors, o)
    ensures Rotating(actors, o) && actors[i].noMore && !c.repeat
    ensures actors[i].rotation == Some(Rotation(c.casts, |c.casts|, 0, false))
    ensures forall j :: 0 <= j < |c.casts| ==> tick >= c.casts[j].castTime % TICK_WRAP
  {
  }

  lemma NobodyIsMarkedYet<R>(k: Rules<R>, e: Encounter, i: nat)
    requires Fresh(k, e).Some? && i < |e.actors|
    ensures i < |Fresh(k, e).value.actors| && !Fresh(k, e).value.actors[i].noMore
  {
  }
}
