/** When casts start in runs from the start. */
module Timing {
  import opened Options
  import opened Encounters
  import opened Runs
  import opened Simulation
  import opened Battle
  import opened TickLaws

  // ---------- No cast starts early ----------

  lemma LastTurn<S>(m: Machine<S>, s: S, first: bool, n: nat, u: S)
    requires n > 0 && After(m, s, first, n) == Some(u)
    ensures After(m, s, first, n - 1).Some?
    ensures var t := After(m, s, first, n - 1).value; m.go(t) && m.turn(t, first && n == 1) == Running(u)
  {
    AfterSplits(m, s, first, n - 1, 1);
    NextTurn(m, s, first, n - 1, After(m, s, first, n - 1).value);
  }

  /** At tick `s.tick`, the rotation is the configured one, and no cast of its present round has started early. */
  predicate OnTime(c: ActorConfig, a: Actor, tick: nat)
  {
    && a.rotation.Some?
    && var r := a.rotation.value;
       && r.casts == c.casts && r.repeat == c.repeat && r.idx <= |r.casts| && r.tickOffset <= tick
       && (forall j :: 0 <= j < r.idx ==> tick >= (r.casts[j].castTime + r.tickOffset) % TICK_WRAP)
       && (!r.repeat ==> r.tickOffset == 0)
       && (a.noMore ==> !r.repeat && r.idx == |r.casts|)
  }

  lemma StaysOnTime(c: ActorConfig, a: Actor, a': Actor, tick: nat, now: nat, j: nat, since: nat, starts: bool)
    requires OnTime(c, a, tick) && tick <= now
    requires var r := a.rotation.value;
             || a' == a
             || (|r.casts| <= r.idx && !r.repeat && a' == a.(noMore := true))
             || (&& (r.idx < |r.casts| || (r.repeat && r.casts != []))
                 && j == (if r.idx < |r.casts| then r.idx else 0)
                 && since == (if r.idx < |r.casts| then r.tickOffset else now)
                 && (starts ==> now >= (r.casts[j].castTime + since) % TICK_WRAP)
                 && a' == Actor(Some(Rotation(r.casts, if starts then j + 1 else j, since, r.repeat)), false))
    ensures OnTime(c, a', now)
  {
  }

  lemma TickIsOnTime<R>(k: Rules<R>, s: State<R>, i: nat, c: ActorConfig, tick: nat)
    requires StateOk(s) && i < |s.actors| && c.casts != [] && Tick(k, s).Running?
    requires OnTime(c, s.actors[i], tick) && tick <= s.tick
    ensures i < |Tick(k, s).state.actors| && OnTime(c, Tick(k, s).state.actors[i], s.tick)
  {
    hide Tick, StateOk, OnTime, TurnOf, FrameOf;
    OnTimeHas(c, s.actors[i], tick);
    var q, t, found := TickMovesRotation(k, s, i);
    var a, a' := s.actors[i], Tick(k, s).state.actors[i];
    var r := a.rotation.value;
    var j, since := if r.idx < |r.casts| then r.idx else 0, if r.idx < |r.casts| then r.tickOffset else s.tick;
    var starts := j < |r.casts| && s.tick >= (r.casts[j].castTime + since) % TICK_WRAP
      && k.cast(FrameOf(s.encounter), s.tick, found, i, r.casts[j].skill).Starts?;
    StaysOnTime(c, a, a', tick, s.tick, j, since, starts);
  }

  lemma TurnIsTick<R(!new)>(k: Rules<R>, e: Encounter, s: State<R>, first: bool)
    requires StateOk(s)
    ensures var now := if first then s else s.(tick := (s.tick + 1) % TICK_WRAP);
            StateOk(now) && Simulate(k, e).turn(s, first) == Tick(k, now) == Advance(k, s, first)
  {
    hide Tick;
  }

  lemma TurnIsOnTime<R(!new)>(k: Rules<R>, e: Encounter, s: State<R>, first: bool, i: nat)
    requires StateOk(s) && s.encounter == e && i < |e.actors| && e.actors[i].casts != []
    requires OnTime(e.actors[i], s.actors[i], s.tick) && (s.tick + 1 < TICK_WRAP || first)
    requires Simulate(k, e).turn(s, first).Running?
    ensures var u := Simulate(k, e).turn(s, first).state;
            StateOk(u) && u.encounter == e && OnTime(e.actors[i], u.actors[i], u.tick)
  {
    var now := if first then s else s.(tick := (s.tick + 1) % TICK_WRAP);
    TurnIsTick(k, e, s, first);
    hide Tick, OnTime, Simulate;
    AdvanceKeepsShape(k, s, first);
    TickIsOnTime(k, now, i, e.actors[i], s.tick);
  }

  lemma OnTimeHas(c: ActorConfig, a: Actor, tick: nat)
    requires OnTime(c, a, tick)
    ensures a.rotation.Some? && a.rotation.value.casts == c.casts
  {
  }

  lemma FreshIsOnTime<R>(k: Rules<R>, e: Encounter, i: nat)
    requires Fresh(k, e).Some? && i < |e.actors| && e.actors[i].casts != []
    ensures i < |Fresh(k, e).value.actors| && OnTime(e.actors[i], Fresh(k, e).value.actors[i], 0)
  {
  }

  lemma StartOfRun<S>(m: Machine<S>, s: S, t: S)
    requires After(m, s, true, 0) == Some(t)
    ensures t == s
  {
  }

  lemma SameActors<R>(s: State<R>)
    requires StateOk(s)
    ensures |s.actors| == |s.encounter.actors|
  {
  }

  lemma TickBelowWrap(n: nat)
    requires 0 < n <= TICK_WRAP
    ensures (n - 1) % TICK_WRAP == n - 1
  {
  }

  lemma FreshRunAt<R(!new)>(k: Rules<R>, e: Encounter, n: nat, s: State<R>)
    requires Fresh(k, e).Some? && After(Simulate(k, e), Fresh(k, e).value, true, n) == Some(s) && n <= TICK_WRAP
    ensures StateOk(s) && s.encounter == e && s.tick == if n == 0 then 0 else n - 1
  {
    hide Simulate, StateOk;
    FreshIsOk(k, e);
    RunKeepsShape(k, e, Fresh(k, e).value, true, n);
    if n > 0 {
      FreshRunCountsTicks(k, e, n - 1);
      TickBelowWrap(n);
    }
  }

  /**
   In a run from the start, below the wrap of the clock, no cast has started before the time that its rotation
   gives it, counted from the tick of the last restart, which is 0 if there was none; and whoever is marked
   has started every cast of a rotation that does not repeat.
   */
  lemma {:induction false} NoCastStartsEarly<R(!new)>(k: Rules<R>, e: Encounter, n: nat, s: State<R>, i: nat)
    requires Fresh(k, e).Some? && After(Simulate(k, e), Fresh(k, e).value, true, n) == Some(s) && n <= TICK_WRAP
    requires i < |e.actors| && e.actors[i].casts != []
    ensures i < |s.actors| && s.tick == if n == 0 then 0 else n - 1
    ensures OnTime(e.actors[i], s.actors[i], s.tick)
    decreases n
  {
    hide Simulate, OnTime, StateOk, Fresh, After;
    FreshRunAt(k, e, n, s);
    SameActors(s);
    if n == 0 {
      StartOfRun(Simulate(k, e), Fresh(k, e).value, s);
      FreshIsOnTime(k, e, i);
    } else {
      var m, z := Simulate(k, e), Fresh(k, e).value;
      LastTurn(m, z, true, n, s);
      var t := After(m, z, true, n - 1).value;
      FreshRunAt(k, e, n - 1, t);
      NoCastStartsEarly(k, e, n - 1, t, i);
      TurnIsOnTime(k, e, t, n == 1, i);
    }
  }

  // ---------- When exactly casts start, if the rules let them ----------

  /** Nothing hinders actor `i`: it has nothing queued, and the rules let every cast start. */
  ghost predicate Unhindered<R(!new)>(k: Rules<R>, i: nat)
  {
    forall f: Frame, tick: nat, r: R, skill: string :: LetsStart(k, i, f, tick, r, skill)
  }

  predicate LetsStart<R>(k: Rules<R>, i: nat, f: Frame, tick: nat, r: R, skill: string)
  {
    !k.hasQueued(r, i) && k.cast(f, tick, r, i, skill).Starts?
  }

  /** One cast starts in a tick, and none before its time. */
  function StartTime(casts: seq<Cast>, j: nat): nat
    requires j < |casts|
  {
    if j == 0 then casts[0].castTime
    else if casts[j].castTime > StartTime(casts, j - 1) then casts[j].castTime
    else StartTime(casts, j - 1) + 1
  }

  lemma {:induction false} StartTimesGrow(casts: seq<Cast>, i: nat, j: nat)
    requires i < j < |casts|
    ensures StartTime(casts, i) < StartTime(casts, j)
  {
    if i < j - 1 {
      StartTimesGrow(casts, i, j - 1);
    }
  }

  /** After `n` turns, the casts whose start time is below `n` have started, and the mark comes a turn after the last. */
  ghost predicate OnSchedule(c: ActorConfig, a: Actor, n: nat)
    requires c.casts != []
  {
    && a.rotation.Some?
    && var r := a.rotation.value;
       && r.casts == c.casts && !r.repeat && r.tickOffset == 0 && r.idx <= |r.casts|
       && (forall j: nat :: j < |r.casts| ==> (j < r.idx <==> StartTime(r.casts, j) < n))
       && (a.noMore <==> StartTime(r.casts, |r.casts| - 1) + 1 < n)
  }

  lemma StaysOnSchedule(c: ActorConfig, a: Actor, a': Actor, n: nat)
    requires c.casts != [] && OnSchedule(c, a, n) && forall j :: 0 <= j < |c.casts| ==> c.casts[j].castTime < TICK_WRAP
    requires var r := a.rotation.value;
             if a.noMore then a' == a
             else if r.idx == |r.casts| then a' == a.(noMore := true)
             else a' == Actor(Some(r.(idx := if n >= r.casts[r.idx].castTime then r.idx + 1 else r.idx)), false)
    ensures OnSchedule(c, a', n + 1)
  {
    var r, last := a.rotation.value, |c.casts| - 1;
    forall j: nat | j < |c.casts|
      ensures j < a'.rotation.value.idx <==> StartTime(c.casts, j) < n + 1
    {
      if r.idx < j {
        StartTimesGrow(c.casts, r.idx, j);
      }
      assert j < r.idx <==> StartTime(c.casts, j) < n;
    }
    assert last < a'.rotation.value.idx <==> StartTime(c.casts, last) < n + 1;
    assert last < r.idx <==> StartTime(c.casts, last) < n;
  }

  lemma OnScheduleHas(c: ActorConfig, a: Actor, n: nat)
    requires c.casts != [] && OnSchedule(c, a, n) && forall j :: 0 <= j < |c.casts| ==> c.casts[j].castTime < TICK_WRAP
    ensures a.rotation.Some?
    ensures var r := a.rotation.value;
            && r.casts == c.casts && r.idx <= |r.casts| && !r.repeat
            && (r.idx < |r.casts| ==> (r.casts[r.idx].castTime + r.tickOffset) % TICK_WRAP == r.casts[r.idx].castTime)
  {
  }

  lemma NothingHinders<R(!new)>(k: Rules<R>, i: nat, f: Frame, tick: nat, r: R, skill: string)
    requires Unhindered(k, i)
    ensures !k.hasQueued(r, i) && k.cast(f, tick, r, i, skill).Starts?
  {
    assert LetsStart(k, i, f, tick, r, skill);
  }

  lemma TickIsOnSchedule<R(!new)>(k: Rules<R>, s: State<R>, i: nat, c: ActorConfig)
    requires StateOk(s) && i < |s.actors| && c.casts != [] && Tick(k, s).Running? && Unhindered(k, i)
    requires OnSchedule(c, s.actors[i], s.tick) && forall j :: 0 <= j < |c.casts| ==> c.casts[j].castTime < TICK_WRAP
    ensures i < |Tick(k, s).state.actors| && OnSchedule(c, Tick(k, s).state.actors[i], s.tick + 1)
  {
    hide Tick, StateOk, OnSchedule, TurnOf, FrameOf, Unhindered;
    OnScheduleHas(c, s.actors[i], s.tick);
    var a, r := s.actors[i], s.actors[i].rotation.value;
    var q, t, found := TickMovesRotation(k, s, i);
    NothingHinders(k, i, FrameOf(s.encounter), s.tick, found, if r.idx < |r.casts| then r.casts[r.idx].skill else "");
    StaysOnSchedule(c, a, Tick(k, s).state.actors[i], s.tick);
  }

  lemma FreshIsOnSchedule<R>(k: Rules<R>, e: Encounter, i: nat)
    requires Fresh(k, e).Some? && i < |e.actors| && e.actors[i].casts != [] && !e.actors[i].repeat
    ensures i < |Fresh(k, e).value.actors| && OnSchedule(e.actors[i], Fresh(k, e).value.actors[i], 0)
  {
  }

  /**
   In a run from the start, below the wrap of the clock, an unhindered actor whose rotation does not repeat starts each
   cast at exactly its start time, and is marked in the turn after the last of them.
   */
  lemma {:induction false} CastsStartOnTime<R(!new)>(k: Rules<R>, e: Encounter, n: nat, s: State<R>, i: nat)
    requires Fresh(k, e).Some? && After(Simulate(k, e), Fresh(k, e).value, true, n) == Some(s) && n <= TICK_WRAP
    requires i < |e.actors| && e.actors[i].casts != [] && !e.actors[i].repeat && Unhindered(k, i)
    requires forall j :: 0 <= j < |e.actors[i].casts| ==> e.actors[i].casts[j].castTime < TICK_WRAP
    ensures i < |s.actors| && OnSchedule(e.actors[i], s.actors[i], n)
    decreases n
  {
    hide Simulate, OnSchedule, StateOk, Fresh, After, Unhindered, Tick, Advance;
    FreshRunAt(k, e, n, s);
    SameActors(s);
    if n == 0 {
      StartOfRun(Simulate(k, e), Fresh(k, e).value, s);
      FreshIsOnSchedule(k, e, i);
    } else {
      var m, z := Simulate(k, e), Fresh(k, e).value;
      LastTurn(m, z, true, n, s);
      var t := After(m, z, true, n - 1).value;
      FreshRunAt(k, e, n - 1, t);
      SameActors(t);
      CastsStartOnTime(k, e, n - 1, t, i);
      TurnIsTick(k, e, t, n == 1);
      TickIsOnSchedule(k, if n == 1 then t else t.(tick := (t.tick + 1) % TICK_WRAP), i, e.actors[i]);
    }
  }
}
