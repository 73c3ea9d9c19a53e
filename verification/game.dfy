/** One small game, simple enough to be played by hand, for showing which premises cannot be dropped. */
module Game {
  import opened Options
  import opened Sequences
  import opened Encounters
  import opened StopPredicate
  import opened Runs
  import opened Simulation
  import opened Battle

  /** The whole game is a log: the skills cast, marked if not by the first actor, and a dot for every tick. */
  const GAME: Rules<string> := Rules(
    (f: Frame) => Ready(""),
    (r: string) => r,
    (f: Frame, t: nat, r: string, i: nat) => Done(r),
    (r: string, i: nat) => false,
    (f: Frame, t: nat, r: string, i: nat) => Done(r),
    (f: Frame, t: nat, r: string, i: nat, c: string) => Starts(r + if i == 0 then c else "*" + c),
    (f: Frame, t: nat, p: bool, a: seq<Flags>, r: string) => Ended(r + ".", [], []),
    (r: string) => [],
    (t: nat, r: string, o: int, err: Option<string>) => Reported(r, r))

  lemma GameSettles()
    ensures Settles(GAME) && ReportsOnlyDraw(GAME)
  {
  }

  const LIMIT := Condition(TimeCondition, 2, "", 0)

  function Player(name: string, skills: seq<string>): ActorConfig
  {
    ActorConfig(name, "", seq(|skills|, i requires 0 <= i < |skills| => Cast(skills[i], 0)), false)
  }

  function Fight(actors: seq<ActorConfig>): Encounter
  {
    Encounter(actors, [LIMIT], "", 0, 0, true, 0)
  }

  function Here(tick: nat, e: Encounter, actors: seq<Actor>, order: seq<nat>, log: string): State<string>
  {
    State(tick, e, actors, order, log)
  }

  /** What a turn does in this game: the next cast starts, or the rotation is over. */
  function Played(a: Actor): Actor
    requires a.rotation.Some?
  {
    if a.noMore then a
    else if a.rotation.value.idx < |a.rotation.value.casts| then a.(rotation := Some(a.rotation.value.(idx := a.rotation.value.idx + 1)))
    else a.(noMore := true)
  }

  function Said(a: Actor, i: nat): string
    requires a.rotation.Some?
  {
    if !a.noMore && a.rotation.value.idx < |a.rotation.value.casts| then
      var c := a.rotation.value.casts[a.rotation.value.idx].skill;
      if i == 0 then c else "*" + c
    else ""
  }

  /** A rotation of this game: every cast is due at once, and nothing repeats. */
  predicate Simple(a: Actor)
  {
    && a.rotation.Some?
    && var r := a.rotation.value;
       r.idx <= |r.casts| && !r.repeat && r.tickOffset == 0 && forall j :: 0 <= j < |r.casts| ==> r.casts[j].castTime == 0
  }

  lemma TurnPlays(f: Frame, tick: nat, log: string, i: nat, a: Actor)
    requires Simple(a)
    ensures ActorOk(a) && TakeTurn(GAME, f, tick, log, i, a) == Turn(Played(a), log + Said(a, i), None)
  {
    assert log + "" == log;
  }

  lemma OneActorTick(s: State<string>)
    requires StateOk(s) && |s.actors| == 1 && s.order == [0] && Simple(s.actors[0])
    ensures Tick(GAME, s) == Running(s.(actors := [Played(s.actors[0])], rest := s.rest + Said(s.actors[0], 0) + "."))
  {
    hide TakeTurn, Simple, Played, Said;
    ReversedKeeps(s.order);
    assert Reversed([0]) == [0];
    TurnPlays(FrameOf(s.encounter), s.tick, s.rest, 0, s.actors[0]);
    var v := Visit(GAME, s, 0);
    assert v.state.actors == [Played(s.actors[0])];
    VisitKeepsShape(GAME, s, 0);
    VisitAllUnfolds(GAME, s, [0], 0);
    NobodyLeft(GAME, v.state);
    assert [0 as nat][0..] == [0] && [0 as nat][1..] == [];
  }

  lemma TwoActorTick(s: State<string>)
    requires StateOk(s) && |s.actors| == 2 && s.order == [0, 1] && Simple(s.actors[0]) && Simple(s.actors[1])
    ensures Tick(GAME, s) == Running(s.(
              actors := [Played(s.actors[0]), Played(s.actors[1])],
              rest := s.rest + Said(s.actors[1], 1) + Said(s.actors[0], 0) + "."))
  {
    hide TakeTurn, Simple, Played, Said;
    ReversedKeeps(s.order);
    assert Reversed([0, 1]) == [1, 0];
    var turns: seq<nat> := [1, 0];
    TurnPlays(FrameOf(s.encounter), s.tick, s.rest, 1, s.actors[1]);
    VisitKeepsShape(GAME, s, 1);
    var v := Visit(GAME, s, 1).state;
    TurnPlays(FrameOf(s.encounter), s.tick, v.rest, 0, s.actors[0]);
    VisitKeepsShape(GAME, v, 0);
    var w := Visit(GAME, v, 0).state;
    assert w.actors == [Played(s.actors[0]), Played(s.actors[1])];
    VisitAllUnfolds(GAME, s, turns, 0);
    VisitAllUnfolds(GAME, v, turns, 1);
    NobodyLeft(GAME, w);
    assert turns[0..] == turns && turns[1..] == [0] && turns[2..] == [];
  }

  lemma GoesUntilLimit(e: Encounter, s: State<string>)
    requires e.conditions == [LIMIT]
    ensures Simulate(GAME, e).go(s) <==> s.tick < 2
  {
    assert RosterOf(GAME, s) == [];
    assert LIMIT in e.conditions;
    assert Met(LIMIT, [], s.tick) <==> s.tick >= 2;
  }

  function Ticked(s: State<string>, first: bool): State<string>
  {
    if first then s else s.(tick := (s.tick + 1) % TICK_WRAP)
  }

  lemma ThreeTurns<S>(m: Machine<S>, s0: S, s1: S, s2: S, s3: S)
    requires m.go(s0) && m.go(s1) && m.go(s2) && !m.go(s3)
    requires m.turn(s0, true) == Running(s1) && m.turn(s1, false) == Running(s2) && m.turn(s2, false) == Running(s3)
    ensures After(m, s0, true, 1) == Some(s1) && After(m, s0, true, 2) == Some(s2)
    ensures EndsAfter(m, s0, true, 3, Finished(s3))
  {
    assert After(m, s1, false, 0) == Some(s1) && After(m, s2, false, 0) == Some(s2);
    assert After(m, s1, false, 1) == Some(s2);
    assert EndsAfter(m, s3, false, 0, Finished(s3));
    assert EndsAfter(m, s2, false, 1, Finished(s3));
    assert EndsAfter(m, s1, false, 2, Finished(s3));
  }

  lemma FreshAnswers(e: Encounter, s: State<string>, n: nat, t: State<string>)
    requires Fresh(GAME, e) == Some(s) && EndsAfter(Simulate(GAME, e), s, true, n, Finished(t))
    ensures UncachedAnswer(GAME, e, Report(t.rest))
  {
    hide Simulate, EndsAfter;
  }
}
