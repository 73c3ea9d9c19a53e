/** Four fights of one actor, played out to their answers: a cast that waits, a repeating rotation, an end by ROTATION, and a failure. */
module PlayedFights {
  import opened Options
  import opened Sequences
  import opened Encounters
  import opened StopPredicate
  import opened Runs
  import opened Simulation
  import opened Battle
  import opened Transparency
  import opened TickLaws
  import opened Timing
  import opened Endings
  import opened Answers

  const REFUSAL := "cannot cast x"

  /** The game is a log of the skills cast, with a dot for every tick. Skill "x" cannot be cast, and reports write errors. */
  const SHOW: Rules<string> := Rules(
    (f: Frame) => Ready(""),
    (r: string) => r,
    (f: Frame, t: nat, r: string, i: nat) => Done(r),
    (r: string, i: nat) => false,
    (f: Frame, t: nat, r: string, i: nat) => Done(r),
    (f: Frame, t: nat, r: string, i: nat, c: string) => if c == "x" then Refuses(r + c, REFUSAL) else Starts(r + c),
    (f: Frame, t: nat, p: bool, a: seq<Flags>, r: string) => Ended(r + ".", [], []),
    (r: string) => [Observed(Sighting("A", false, false, false, false, false, None), Some(0))],
    (t: nat, r: string, o: int, error: Option<string>) => Reported(if error.Some? then r + ": " + error.value else r, r))

  function Solo(casts: seq<Cast>, repeat: bool, condition: Condition): Encounter
  {
    Encounter([ActorConfig("A", "", casts, repeat)], [condition], "", 0, 0, true, 0)
  }

  function Until(tick: nat): Condition
  {
    Condition(TimeCondition, tick, "", 0)
  }

  /** The state of a fight with its actor at cast `idx` of a rotation that began at tick `since`. */
  function At(e: Encounter, tick: nat, idx: nat, since: nat, over: bool, log: string): State<string>
    requires |e.actors| == 1
  {
    State(tick, e, [Actor(Some(Rotation(e.actors[0].casts, idx, since, e.actors[0].repeat)), over)], [0], log)
  }

  lemma AtIsOk(e: Encounter, tick: nat, idx: nat, since: nat, over: bool, log: string)
    requires |e.actors| == 1 && e.actors[0].casts != []
    ensures StateOk(At(e, tick, idx, since, over, log))
  {
  }

  lemma SomeoneMentioned(granted: seq<nat>, joined: seq<nat>, at: seq<nat>)
    requires Mentions(granted, joined, at) && joined != []
    ensures granted != []
  {
    assert at[0] < |granted|;
  }

  lemma SoloTick(s: State<string>)
    requires StateOk(s) && |s.actors| == 1 && s.order == [0] && s.actors[0].rotation.Some?
    ensures match Visit(SHOW, s, 0)
            case Failed(u, error) => Tick(SHOW, s) == Failed(u, error)
            case Running(u) => Tick(SHOW, s) == Running(u.(rest := u.rest + "."))
  {
    hide StateOk, Visit, Tick, VisitAll, Behind, Mentions, Lack;
    NobodyBehind(SHOW, s);
    TurnsInOrder(SHOW, s, 0);
    TickFailsWithATurn(SHOW, s);
    var o := Behind(SHOW, s, 0);
    if o.Running? {
      var pulse := ((s.tick + s.encounter.conditionTickOffset) % TICK_WRAP) % 1000 == 0;
      var step := SHOW.after(FrameOf(s.encounter), s.tick, pulse, FlagsOf(o.state.actors), o.state.rest);
      var joined, at := TickAfterTurns(SHOW, s, o.state, pulse, FlagsOf(o.state.actors), step);
      if joined != [] {
        SomeoneMentioned([], joined, at);
      }
      assert s.order + joined == s.order;
      assert Tick(SHOW, s).state.actors == o.state.actors;
    }
  }

  function Clock(tick: nat, first: bool): nat
  {
    if first then tick else (tick + 1) % TICK_WRAP
  }

  lemma Now(e: Encounter, tick: nat, idx: nat, since: nat, over: bool, log: string, first: bool)
    requires |e.actors| == 1 && e.actors[0].casts != []
    ensures StateOk(At(e, tick, idx, since, over, log)) && StateOk(At(e, Clock(tick, first), idx, since, over, log))
    ensures Simulate(SHOW, e).turn(At(e, tick, idx, since, over, log), first) == Tick(SHOW, At(e, Clock(tick, first), idx, since, over, log))
  {
    hide Tick, StateOk;
    AtIsOk(e, tick, idx, since, over, log);
    AtIsOk(e, Clock(tick, first), idx, since, over, log);
    TurnIsTick(SHOW, e, At(e, tick, idx, since, over, log), first);
  }

  lemma WithIsAt(e: Encounter, tick: nat, idx: nat, since: nat, log: string, j: nat, from: nat, over: bool, left: string)
    requires |e.actors| == 1
    ensures With(At(e, tick, idx, since, false, log), 0, Rotation(e.actors[0].casts, j, from, e.actors[0].repeat), over, left) ==
            At(e, tick, j, from, over, left)
  {
  }

  /** A turn without a cast, of an actor whose rotation is over, or is now. */
  lemma Rests(e: Encounter, tick: nat, idx: nat, since: nat, over: bool, log: string, first: bool)
    requires |e.actors| == 1 && e.actors[0].casts != []
    requires over || (idx == |e.actors[0].casts| && !e.actors[0].repeat)
    ensures Simulate(SHOW, e).turn(At(e, tick, idx, since, over, log), first) ==
            Running(At(e, Clock(tick, first), idx, since, true, log + "."))
  {
    hide Tick, StateOk, Visit, Simulate;
    Now(e, tick, idx, since, over, log, first);
    var s := At(e, Clock(tick, first), idx, since, over, log);
    if over {
      TurnWithoutRotation(SHOW, s, 0);
    } else {
      TurnAtTheEnd(SHOW, s, 0, log);
      WithIsAt(e, s.tick, idx, since, log, idx, since, true, log);
    }
    SoloTick(s);
  }

  /** A turn with cast `j` next, in a rotation that began at `from`. */
  lemma Performs(e: Encounter, tick: nat, idx: nat, since: nat, log: string, first: bool, j: nat, from: nat)
    requires |e.actors| == 1 && e.actors[0].casts != [] && idx <= |e.actors[0].casts|
    requires if idx < |e.actors[0].casts| then j == idx && from == since else e.actors[0].repeat && j == 0 && from == Clock(tick, first)
    ensures var c := e.actors[0].casts[j];
            Simulate(SHOW, e).turn(At(e, tick, idx, since, false, log), first) ==
            if Clock(tick, first) < (c.castTime + from) % TICK_WRAP then
              Running(At(e, Clock(tick, first), j, from, false, log + "."))
            else if c.skill == "x" then
              Failed(At(e, Clock(tick, first), j, from, false, log + c.skill), REFUSAL)
            else
              Running(At(e, Clock(tick, first), j + 1, from, false, log + c.skill + "."))
  {
    hide Tick, StateOk, Visit, Simulate;
    Now(e, tick, idx, since, false, log, first);
    var s := At(e, Clock(tick, first), idx, since, false, log);
    var skill := e.actors[0].casts[j].skill;
    TurnWithACast(SHOW, s, 0, log, j, from);
    WithIsAt(e, s.tick, idx, since, log, j, from, false, log);
    WithIsAt(e, s.tick, idx, since, log, j, from, false, log + skill);
    WithIsAt(e, s.tick, idx, since, log, j + 1, from, false, log + skill);
    SoloTick(s);
  }

  /** A fight with a time limit goes on until then; one that ends by ROTATION until its actor is marked. */
  lemma GoesOn(e: Encounter, tick: nat, idx: nat, since: nat, over: bool, log: string, c: Condition)
    requires |e.actors| == 1 && e.conditions == [c]
    ensures c.kind == TimeCondition ==> (Simulate(SHOW, e).go(At(e, tick, idx, since, over, log)) <==> tick < c.time)
    ensures c.kind == RotationCondition && c.actor == "A" ==> (Simulate(SHOW, e).go(At(e, tick, idx, since, over, log)) <==> !over)
  {
    var s := At(e, tick, idx, since, over, log);
    GoIsContinues(SHOW, e, s);
    if c.kind == TimeCondition {
      TimeStopsExactlyIf(SHOW, e, s, c);
    }
    if c.kind == RotationCondition {
      RotationStopsExactlyIf(SHOW, e, s, c);
      var o := SHOW.roster(s.rest)[0];
      assert o in SHOW.roster(s.rest);
    }
  }

  lemma FightStarts(e: Encounter)
    requires |e.actors| == 1 && e.actors[0].casts != []
    ensures Fresh(SHOW, e) == Some(At(e, 0, 0, 0, false, ""))
    ensures After(Simulate(SHOW, e), At(e, 0, 0, 0, false, ""), true, 0) == Some(At(e, 0, 0, 0, false, ""))
  {
    var s := Fresh(SHOW, e).value;
    assert s.actors == At(e, 0, 0, 0, false, "").actors;
    assert s.order == [0] by { assert RotatingActors(e, 0) == []; }
  }

  // ---------- The fights ----------

  lemma Answered(e: Encounter, n: nat, t: State<string>, log: string)
    requires |e.actors| == 1 && e.actors[0].casts != []
    requires After(Simulate(SHOW, e), At(e, 0, 0, 0, false, ""), true, n) == Some(t) && !Simulate(SHOW, e).go(t)
    requires t.rest == log
    ensures UncachedAnswer(SHOW, e, Report(log))
  {
    hide Simulate, Fresh, At, After, EndsAfter, RunsTo;
    FightStarts(e);
    UncachedAnswerIsRun(SHOW, e, Report(log));
    SuccessIsReported(SHOW, e, At(e, 0, 0, 0, false, ""), true, 0, false, n, t, log, log, Report(log), None);
    assert RunsTo(SHOW, e, At(e, 0, 0, 0, false, ""), true, 0, false, Report(log), None);
  }

  /** After `n` turns, the fight is at cast `idx` and has this log. */
  ghost predicate Reaches(e: Encounter, n: nat, tick: nat, idx: nat, since: nat, over: bool, log: string)
    requires |e.actors| == 1
  {
    After(Simulate(SHOW, e), At(e, 0, 0, 0, false, ""), true, n) == Some(At(e, tick, idx, since, over, log))
  }

  lemma Goes(e: Encounter, n: nat, tick: nat, idx: nat, since: nat, over: bool, log: string,
      tick': nat, idx': nat, since': nat, over': bool, log': string)
    requires |e.actors| == 1 && Reaches(e, n, tick, idx, since, over, log)
    requires Simulate(SHOW, e).go(At(e, tick, idx, since, over, log))
    requires Simulate(SHOW, e).turn(At(e, tick, idx, since, over, log), n == 0) == Running(At(e, tick', idx', since', over', log'))
    ensures Reaches(e, n + 1, tick', idx', since', over', log')
  {
    hide Simulate, After, At;
    NextTurn(Simulate(SHOW, e), At(e, 0, 0, 0, false, ""), true, n, At(e, tick, idx, since, over, log));
  }

  lemma FightReaches(e: Encounter)
    requires |e.actors| == 1 && e.actors[0].casts != []
    ensures Reaches(e, 0, 0, 0, 0, false, "")
  {
    FightStarts(e);
  }

  lemma Over(e: Encounter, n: nat, tick: nat, idx: nat, since: nat, over: bool, log: string, c: Condition)
    requires |e.actors| == 1 && e.actors[0].casts != [] && e.conditions == [c] && Reaches(e, n, tick, idx, since, over, log)
    requires (c.kind == TimeCondition && tick >= c.time) || (c.kind == RotationCondition && c.actor == "A" && over)
    ensures UncachedAnswer(SHOW, e, Report(log))
  {
    GoesOn(e, tick, idx, since, over, log, c);
    var t := At(e, tick, idx, since, over, log);
    assert t.rest == log;
    hide Simulate, After, At, UncachedAnswer;
    Answered(e, n, t, log);
  }

  predicate Limited(c: Condition, tick: nat)
  {
    (c.kind == TimeCondition && tick < c.time) || (c.kind == RotationCondition && c.actor == "A")
  }

  /** One turn with cast `j` next. */
  lemma Acts(e: Encounter, c: Condition, n: nat, tick: nat, idx: nat, since: nat, log: string, j: nat, from: nat,
      log': string)
    requires |e.actors| == 1 && e.conditions == [c] && Limited(c, tick) && Reaches(e, n, tick, idx, since, false, log)
    requires idx <= |e.actors[0].casts| && e.actors[0].casts != []
    requires if idx < |e.actors[0].casts| then j == idx && from == since else e.actors[0].repeat && j == 0 && from == Clock(tick, n == 0)
    requires e.actors[0].casts[j].skill != "x"
    requires log' == log + (if Clock(tick, n == 0) < (e.actors[0].casts[j].castTime + from) % TICK_WRAP then "" else e.actors[0].casts[j].skill) + "."
    ensures Reaches(e, n + 1, Clock(tick, n == 0),
              if Clock(tick, n == 0) < (e.actors[0].casts[j].castTime + from) % TICK_WRAP then j else j + 1, from, false, log')
  {
    hide Simulate, At, Reaches, Clock;
    GoesOn(e, tick, idx, since, false, log, c);
    Performs(e, tick, idx, since, log, n == 0, j, from);
    var now := Clock(tick, n == 0);
    assert log + "" == log;
    Goes(e, n, tick, idx, since, false, log, now, if now < (e.actors[0].casts[j].castTime + from) % TICK_WRAP then j else j + 1, from, false, log');
  }

  /** The turn at the end of a rotation. */
  lemma Finishes(e: Encounter, c: Condition, n: nat, tick: nat, since: nat, log: string, log': string)
    requires |e.actors| == 1 && e.conditions == [c] && Limited(c, tick) && e.actors[0].casts != [] && !e.actors[0].repeat
    requires Reaches(e, n, tick, |e.actors[0].casts|, since, false, log) && log' == log + "."
    ensures Reaches(e, n + 1, Clock(tick, n == 0), |e.actors[0].casts|, since, true, log')
  {
    hide Simulate, At, Reaches, Clock;
    var idx := |e.actors[0].casts|;
    GoesOn(e, tick, idx, since, false, log, c);
    Rests(e, tick, idx, since, false, log, n == 0);
    Goes(e, n, tick, idx, since, false, log, Clock(tick, n == 0), idx, since, true, log');
  }

  /** A cast that waits for tick 2 starts then, and not before. */
  lemma LaterCastWaits()
    ensures UncachedAnswer(SHOW, Solo([Cast("a", 0), Cast("b", 2)], false, Until(3)), Report("a..b.."))
  {
    hide UncachedAnswer, Reaches;
    var e, c := Solo([Cast("a", 0), Cast("b", 2)], false, Until(3)), Until(3);
    FightReaches(e);
    Acts(e, c, 0, 0, 0, 0, "", 0, 0, "a.");
    Acts(e, c, 1, 0, 1, 0, "a.", 1, 0, "a..");
    Acts(e, c, 2, 1, 1, 0, "a..", 1, 0, "a..b.");
    Finishes(e, c, 3, 2, 0, "a..b.", "a..b..");
    Over(e, 4, 3, 2, 0, true, "a..b..", c);
  }

  /** A rotation that repeats begins again in the tick after its last cast, and counts from there. */
  lemma RotationRepeats()
    ensures UncachedAnswer(SHOW, Solo([Cast("a", 1)], true, Until(5)), Report(".a..a..a."))
  {
    hide UncachedAnswer, Reaches;
    var e, c := Solo([Cast("a", 1)], true, Until(5)), Until(5);
    FightReaches(e);
    Acts(e, c, 0, 0, 0, 0, "", 0, 0, ".");
    Acts(e, c, 1, 0, 0, 0, ".", 0, 0, ".a.");
    Acts(e, c, 2, 1, 1, 0, ".a.", 0, 2, ".a..");
    Acts(e, c, 3, 2, 0, 2, ".a..", 0, 2, ".a..a.");
    Acts(e, c, 4, 3, 1, 2, ".a..a.", 0, 4, ".a..a..");
    Acts(e, c, 5, 4, 0, 4, ".a..a..", 0, 4, ".a..a..a.");
    Over(e, 6, 5, 1, 4, false, ".a..a..a.", c);
  }

  /** A fight that ends by ROTATION ends with the tick that finds the rotation over, and not before. */
  lemma EndsByRotation()
    ensures UncachedAnswer(SHOW, Solo([Cast("a", 1)], false, Condition(RotationCondition, 0, "A", 0)), Report(".a.."))
  {
    hide UncachedAnswer, Reaches;
    var c := Condition(RotationCondition, 0, "A", 0);
    var e := Solo([Cast("a", 1)], false, c);
    FightReaches(e);
    Acts(e, c, 0, 0, 0, 0, "", 0, 0, ".");
    Acts(e, c, 1, 0, 0, 0, ".", 0, 0, ".a.");
    Finishes(e, c, 2, 1, 0, ".a.", ".a..");
    Over(e, 3, 2, 1, 0, true, ".a..", c);
  }

  lemma Refused(e: Encounter, c: Condition, n: nat, tick: nat, idx: nat, since: nat, log: string, answer: Answer)
    requires |e.actors| == 1 && e.conditions == [c] && Limited(c, tick) && Reaches(e, n, tick, idx, since, false, log)
    requires idx < |e.actors[0].casts| && e.actors[0].casts[idx].skill == "x"
    requires Clock(tick, n == 0) >= (e.actors[0].casts[idx].castTime + since) % TICK_WRAP
    requires answer == Report(log + "x" + ": " + REFUSAL)
    ensures UncachedAnswer(SHOW, e, answer)
  {
    hide UncachedAnswer, Simulate, After, RunsTo, Fresh, EndsAfter, Clock;
    FightStarts(e);
    GoesOn(e, tick, idx, since, false, log, c);
    Performs(e, tick, idx, since, log, n == 0, idx, since);
    var t, u := At(e, tick, idx, since, false, log), At(e, Clock(tick, n == 0), idx, since, false, log + "x");
    FailingTurnIsReported(SHOW, e, At(e, 0, 0, 0, false, ""), true, 0, false, n, t, u, REFUSAL, answer, None);
    UncachedAnswerIsRun(SHOW, e, answer);
    assert RunsTo(SHOW, e, At(e, 0, 0, 0, false, ""), true, 0, false, answer, None);
  }

  /** A cast that is refused ends the fight there, and the answer says why. */
  lemma RefusalIsReported()
    ensures UncachedAnswer(SHOW, Solo([Cast("a", 0), Cast("x", 1)], false, Until(5)), Report("a.x: cannot cast x"))
  {
    hide UncachedAnswer, Reaches;
    var e, c := Solo([Cast("a", 0), Cast("x", 1)], false, Until(5)), Until(5);
    FightReaches(e);
    Acts(e, c, 0, 0, 0, 0, "", 0, 0, "a.");
    assert "a." + "x" + ": " + REFUSAL == "a.x: cannot cast x";
    Refused(e, c, 1, 0, 1, 0, "a.", Report("a.x: cannot cast x"));
  }
}
