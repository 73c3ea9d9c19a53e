/** A run of concurrent requests in which an exact hit is evicted too early, and what goes wrong. */
module EarlyEviction {
  import opened Options
  import opened Encounters
  import opened StopPredicate
  import opened Runs
  import opened Simulation
  import opened Battle
  import opened Checkpoints
  import opened Lru
  import opened Transparency
  import opened Concurrent
  import opened Game

  /** A state in which only actor `A` plays, `skills[..idx]` being started. */
  function Alone(e: Encounter, tick: nat, skills: seq<string>, idx: nat, noMore: bool, log: string): State<string>
  {
    Here(tick, e, [Actor(Some(Rotation(Player("A", skills).casts, idx, 0, false)), noMore)], [0], log)
  }

  const SHORT := Fight([Player("A", ["a"])])
  const LONG := Fight([Player("A", ["a", "b"])])

  /** One turn of the loop for a lone actor: its next cast, or the end of its rotation. */
  lemma AloneTurn(e: Encounter, tick: nat, skills: seq<string>, idx: nat, noMore: bool, log: string, first: bool)
    requires |e.actors| == 1 && e.conditions == [LIMIT] && tick < 2 && skills != [] && idx <= |skills|
    ensures Simulate(GAME, e).go(Alone(e, tick, skills, idx, noMore, log))
    ensures Simulate(GAME, e).turn(Alone(e, tick, skills, idx, noMore, log), first) ==
            Running(
              if noMore || idx == |skills| then Alone(e, if first then tick else tick + 1, skills, idx, true, log + ".")
              else Alone(e, if first then tick else tick + 1, skills, idx + 1, false, log + skills[idx] + "."))
  {
    hide Tick, Stops;
    var s := Alone(e, tick, skills, idx, noMore, log);
    GoesUntilLimit(e, s);
    assert StateOk(s);
    var t := Ticked(s, first);
    OneActorTick(t);
    assert log + "" + "." == log + ".";
  }

  lemma AloneStops(e: Encounter, skills: seq<string>, idx: nat, noMore: bool, log: string, first: bool)
    requires e.conditions == [LIMIT]
    ensures !Simulate(GAME, e).go(Alone(e, 2, skills, idx, noMore, log))
  {
    hide Stops;
    GoesUntilLimit(e, Alone(e, 2, skills, idx, noMore, log));
  }

  lemma AloneFresh(skills: seq<string>)
    requires skills != []
    ensures Fresh(GAME, Fight([Player("A", skills)])) == Some(Alone(Fight([Player("A", skills)]), 0, skills, 0, false, ""))
  {
    var e := Fight([Player("A", skills)]);
    assert RotatingActors(e, 0) == [];
    assert RotatingActors(e, 1) == [0];
    assert Fresh(GAME, e).value.actors == Alone(e, 0, skills, 0, false, "").actors;
  }

  /** The genuine snapshot of the short request: the end of the tick in which its only cast starts. */
  function Early(): State<string>
  {
    Alone(SHORT, 0, ["a"], 1, false, "a.")
  }

  /** What a run resumed from it would save, did it save anything: one tick late. */
  function Late(): State<string>
  {
    Alone(SHORT, 1, ["a"], 1, true, "a..")
  }

  /** The genuine snapshot of the long request. */
  function LongEarly(): State<string>
  {
    Alone(LONG, 1, ["a", "b"], 2, false, "a.b.")
  }

  /** The uncached run of the long request casts its second skill one tick after the first. */
  lemma LongUncached()
    ensures UncachedAnswer(GAME, LONG, Report("a.b.."))
  {
    hide Simulate, Fresh, Continues, UncachedAnswer;
    var m := Simulate(GAME, LONG);
    AloneFresh(["a", "b"]);
    var s0 := Alone(LONG, 0, ["a", "b"], 0, false, "");
    var s1 := Alone(LONG, 0, ["a", "b"], 1, false, "a.");
    var s2 := Alone(LONG, 1, ["a", "b"], 2, false, "a.b.");
    var s3 := Alone(LONG, 2, ["a", "b"], 2, true, "a.b..");
    AloneTurn(LONG, 0, ["a", "b"], 0, false, "", true);
    AloneTurn(LONG, 0, ["a", "b"], 1, false, "a.", false);
    AloneTurn(LONG, 1, ["a", "b"], 2, false, "a.b.", false);
    AloneStops(LONG, ["a", "b"], 2, true, "a.b..", false);
    assert "" + "a" + "." == "a." && "a." + "b" + "." == "a.b." && "a.b." + "." == "a.b..";
    assert m.turn(s0, true) == Running(s1) && m.turn(s1, false) == Running(s2) && m.turn(s2, false) == Running(s3);
    ThreeTurns(m, s0, s1, s2, s3);
    FreshAnswers(LONG, s0, 3, s3);
  }

  /** An exact hit that thinks it has to save a snapshot saves the late one. */
  lemma ShortResumedSavesLate()
    ensures Restored(GAME, Early(), SHORT, 0) == Early()
    ensures RunsTo(GAME, SHORT, Early(), false, 0, true, Report("a..."), Some(Late()))
  {
    hide Simulate, Continues, Fresh;
    var m := Simulate(GAME, SHORT);
    var end := Alone(SHORT, 2, ["a"], 1, true, "a...");
    AloneTurn(SHORT, 0, ["a"], 1, false, "a.", false);
    AloneTurn(SHORT, 1, ["a"], 1, true, "a..", false);
    AloneStops(SHORT, ["a"], 1, true, "a...", false);
    assert "a." + "." == "a.." && "a.." + "." == "a...";
    assert m.turn(Early(), false) == Running(Late()) && m.turn(Late(), false) == Running(end);
    assert EndsAfter(m, end, false, 0, Finished(end));
    assert EndsAfter(m, Late(), false, 1, Finished(end));
    assert EndsAfter(m, Early(), false, 2, Finished(end));
    assert After(m, Late(), false, 0) == Some(Late());
    assert After(m, Early(), false, 1) == Some(Late());
    assert FirstIdle(m, Early(), false, 0, 0) == None;
    assert FirstIdle(m, Early(), false, 0, 1) == Some(Late());
    assert FirstIdle(m, Early(), false, 0, 2) == Some(Late());
    assert RunEnds(GAME, SHORT, Early(), false, 0, true, Report("a..."), Some(Late()), 2, Finished(end));
  }

  function TooLate(): State<string>
  {
    Alone(LONG, 2, ["a", "b"], 2, false, "a..b.")
  }

  /** The long request resumed from the late snapshot casts its second skill a tick too late. */
  lemma LongResumedFromLate()
    ensures RunsTo(GAME, LONG, Restored(GAME, Late(), LONG, 0), false, 0, true, Report("a..b."), Some(TooLate()))
  {
    hide Simulate, Continues, Fresh;
    var m := Simulate(GAME, LONG);
    var s, end := Alone(LONG, 1, ["a", "b"], 1, false, "a.."), TooLate();
    assert Restored(GAME, Late(), LONG, 0) == s;
    AloneTurn(LONG, 1, ["a", "b"], 1, false, "a..", false);
    AloneStops(LONG, ["a", "b"], 2, false, "a..b.", false);
    assert "a.." + "b" + "." == "a..b.";
    assert EndsAfter(m, end, false, 0, Finished(end));
    assert EndsAfter(m, s, false, 1, Finished(end));
    assert After(m, end, false, 0) == Some(end);
    assert After(m, s, false, 1) == Some(end);
    assert FirstIdle(m, s, false, 0, 0) == None;
    assert FirstIdle(m, s, false, 0, 1) == Some(end);
    assert RunEnds(GAME, LONG, s, false, 0, true, Report("a..b."), Some(end), 1, Finished(end));
  }

  /** The short request, run alone, saves the genuine snapshot. */
  lemma ShortSavesEarly()
    ensures RunsTo(GAME, SHORT, Alone(SHORT, 0, ["a"], 0, false, ""), true, 0, true, Report("a..."), Some(Early()))
  {
    hide Simulate, Continues, Fresh;
    var m, s0 := Simulate(GAME, SHORT), Alone(SHORT, 0, ["a"], 0, false, "");
    var end := Alone(SHORT, 2, ["a"], 1, true, "a...");
    AloneTurn(SHORT, 0, ["a"], 0, false, "", true);
    AloneTurn(SHORT, 0, ["a"], 1, false, "a.", false);
    AloneTurn(SHORT, 1, ["a"], 1, true, "a..", false);
    AloneStops(SHORT, ["a"], 1, true, "a...", false);
    assert "" + "a" + "." == "a." && "a." + "." == "a.." && "a.." + "." == "a...";
    ThreeTurns(m, s0, Early(), Late(), end);
    assert FirstIdle(m, s0, true, 0, 0) == None;
    assert FirstIdle(m, s0, true, 0, 1) == Some(Early());
    assert FirstIdle(m, s0, true, 0, 2) == Some(Early());
    assert FirstIdle(m, s0, true, 0, 3) == Some(Early());
    assert RunEnds(GAME, SHORT, s0, true, 0, true, Report("a..."), Some(Early()), 3, Finished(end));
  }

  /** The long request, resumed from it, saves a genuine snapshot of its own. */
  lemma LongResumedFromEarly()
    ensures RunsTo(GAME, LONG, Restored(GAME, Early(), LONG, 0), false, 0, true, Report("a.b.."), Some(LongEarly()))
  {
    hide Simulate, Continues, Fresh;
    var m := Simulate(GAME, LONG);
    var s, end := Alone(LONG, 0, ["a", "b"], 1, false, "a."), Alone(LONG, 2, ["a", "b"], 2, true, "a.b..");
    assert Restored(GAME, Early(), LONG, 0) == s;
    AloneTurn(LONG, 0, ["a", "b"], 1, false, "a.", false);
    AloneTurn(LONG, 1, ["a", "b"], 2, false, "a.b.", false);
    AloneStops(LONG, ["a", "b"], 2, true, "a.b..", false);
    assert "a." + "b" + "." == "a.b." && "a.b." + "." == "a.b..";
    assert m.turn(s, false) == Running(LongEarly()) && m.turn(LongEarly(), false) == Running(end);
    assert EndsAfter(m, end, false, 0, Finished(end));
    assert EndsAfter(m, LongEarly(), false, 1, Finished(end));
    assert EndsAfter(m, s, false, 2, Finished(end));
    assert After(m, LongEarly(), false, 0) == Some(LongEarly());
    assert After(m, s, false, 1) == Some(LongEarly());
    assert FirstIdle(m, s, false, 0, 0) == None;
    assert FirstIdle(m, s, false, 0, 1) == Some(LongEarly());
    assert FirstIdle(m, s, false, 0, 2) == Some(LongEarly());
    assert RunEnds(GAME, LONG, s, false, 0, true, Report("a.b.."), Some(LongEarly()), 2, Finished(end));
  }

  // ---------- The premise of concurrent transparency is needed ----------

  lemma WrongIsWrong()
    ensures !UncachedAnswer(GAME, LONG, Report("a..b."))
  {
    hide UncachedAnswer;
    LongUncached();
    assert "a..b."[2] != "a.b.."[2];
    if UncachedAnswer(GAME, LONG, Report("a..b.")) {
      UncachedAnswerIsUnique(GAME, LONG, Report("a..b."), Report("a.b.."));
    }
  }

  function Served(): Phase<string>
  {
    Returned(SHORT, Report("a..."))
  }

  function One(key: Encounter, t: State<string>): Store<string>
  {
    [Entry(CacheKey(key), t)]
  }

  /**
   The worlds of the careless run, one after each step. With room for one snapshot, the short request
   is served, and the long one resumes from its snapshot. The short one comes again and hits its own
   snapshot, but before it asks for its key the long one has stored its own snapshot and evicted it.
   */
  function Careless(): seq<World<string>>
  {
    var start := Alone(SHORT, 0, ["a"], 0, false, "");
    var right, wrong := Report("a.b.."), Report("a..b.");
    var long, done := Ending(LONG, right, Some(LongEarly())), Returned(LONG, right);
    [
      Empty(1),
      World(1, [], [Probing(SHORT, 1)]),
      World(1, [], [Missed(SHORT)]),
      World(1, [], [Going(SHORT, start, true, 0, true)]),
      World(1, [], [Ending(SHORT, Report("a..."), Some(Early()))]),
      World(1, One(SHORT, Early()), [Served()]),
      World(1, One(SHORT, Early()), [Served(), Probing(LONG, 2)]),
      World(1, One(SHORT, Early()), [Served(), Probing(LONG, 1)]),
      World(1, One(SHORT, Early()), [Served(), Hit(LONG, Early(), 1)]),
      World(1, One(SHORT, Early()), [Served(), Going(LONG, Restored(GAME, Early(), LONG, 0), false, 0, true)]),
      World(1, One(SHORT, Early()), [Served(), long]),
      World(1, One(SHORT, Early()), [Served(), long, Probing(SHORT, 1)]),
      World(1, One(SHORT, Early()), [Served(), long, Hit(SHORT, Early(), 1)]),
      World(1, One(LONG, LongEarly()), [Served(), done, Hit(SHORT, Early(), 1)]),
      World(1, One(LONG, LongEarly()), [Served(), done, Going(SHORT, Early(), false, 0, true)]),
      World(1, One(LONG, LongEarly()), [Served(), done, Ending(SHORT, Report("a..."), Some(Late()))]),
      World(1, One(SHORT, Late()), [Served(), done, Served()]),
      World(1, One(SHORT, Late()), [Served(), done, Served(), Probing(LONG, 2)]),
      World(1, One(SHORT, Late()), [Served(), done, Served(), Probing(LONG, 1)]),
      World(1, One(SHORT, Late()), [Served(), done, Served(), Hit(LONG, Late(), 1)]),
      World(1, One(SHORT, Late()), [Served(), done, Served(), Going(LONG, Restored(GAME, Late(), LONG, 0), false, 0, true)]),
      World(1, One(SHORT, Late()), [Served(), done, Served(), Ending(LONG, wrong, Some(TooLate()))]),
      World(1, One(LONG, TooLate()), [Served(), done, Served(), Returned(LONG, wrong)])
    ]
  }

  function CarelessActions(): seq<Action<string>>
  {
    [
      Arrive(SHORT, true), Action.Probe(0), Check(0), Run(0, Report("a..."), Some(Early())), Action.Store(0),
      Arrive(LONG, true), Action.Probe(1), Action.Probe(1), Check(1), Run(1, Report("a.b.."), Some(LongEarly())),
      Arrive(SHORT, true), Action.Probe(2), Action.Store(1),
      Check(2), Run(2, Report("a..."), Some(Late())), Action.Store(2),
      Arrive(LONG, true), Action.Probe(3), Action.Probe(3), Check(3), Run(3, Report("a..b."), Some(TooLate())), Action.Store(3)
    ]
  }

  /** The step at which a request does not find its own key any more. */
  const CARELESS_STEP: nat := 13

  lemma KeysDiffer()
    ensures CacheKey(SHORT) != CacheKey(LONG)
    ensures CacheKey(Prefix(LONG, 1)) == CacheKey(SHORT) && Prefix(LONG, 2) == LONG && Prefix(SHORT, 1) == SHORT
    ensures |LeadCasts(SHORT)| == 1 && |LeadCasts(LONG)| == 2
    ensures RotationActor(SHORT) == 0 && RotationActor(LONG) == 0
  {
    assert |LeadCasts(SHORT)| == 1 && |LeadCasts(LONG)| == 2;
    WholePrefix(LONG);
    WholePrefix(SHORT);
    assert LeadCasts(LONG)[..1] == LeadCasts(SHORT);
    assert Prefix(LONG, 1).actors == SHORT.actors;
  }

  lemma NothingIsFound(key: Encounter, t: State<string>)
    ensures Lookup<Encounter, State<string>>([], key) == None
    ensures Stored([], 1, CacheKey(key), t) == One(key, t)
  {
  }

  lemma ShortStarts()
    ensures Start(GAME, SHORT, 0, true) == Going(SHORT, Alone(SHORT, 0, ["a"], 0, false, ""), true, 0, true)
  {
    hide Fresh;
    AloneFresh(["a"]);
  }

  lemma StepsOfFirstRequest(i: nat)
    requires i < 5
    ensures Next(GAME, Careless()[i], Careless()[i + 1], CarelessActions()[i])
    ensures Careful(GAME, Careless()[i], CarelessActions()[i])
  {
    hide RunsTo, Restored, Stored, Touched, Lookup, Prefix, RotationActor, Start;
    KeysDiffer();
    ShortStarts();
    ShortSavesEarly();
    NothingIsFound(SHORT, Early());
  }

  lemma StepsBeforeEviction(i: nat)
    requires 5 <= i < 12
    ensures Next(GAME, Careless()[i], Careless()[i + 1], CarelessActions()[i])
    ensures Careful(GAME, Careless()[i], CarelessActions()[i])
  {
    hide RunsTo, Restored, Stored, Touched, Lookup, Prefix, RotationActor, Start;
    KeysDiffer();
    LongResumedFromEarly();
    SingleEntry(CacheKey(SHORT), Early(), CacheKey(LONG), LongEarly());
  }

  lemma StepsFromEvictionOn(i: nat)
    requires 12 <= i < 22
    ensures Next(GAME, Careless()[i], Careless()[i + 1], CarelessActions()[i])
    ensures i != CARELESS_STEP ==> Careful(GAME, Careless()[i], CarelessActions()[i])
  {
    hide RunsTo, Restored, Stored, Touched, Lookup, Prefix, RotationActor, Start;
    KeysDiffer();
    ShortResumedSavesLate();
    LongResumedFromLate();
    SingleEntry(CacheKey(SHORT), Early(), CacheKey(LONG), LongEarly());
    SingleEntry(CacheKey(LONG), LongEarly(), CacheKey(SHORT), Late());
    SingleEntry(CacheKey(SHORT), Late(), CacheKey(LONG), TooLate());
  }

  /**
   If an exact hit is evicted before it asks for its key, a later request gets a wrong answer: the
   run starts from an empty cache, and nothing else in it is out of order.
   */
  lemma PremiseIsNeeded()
    ensures var ws, actions := Careless(), CarelessActions();
            && ws[0] == Empty(1) && Execution(GAME, ws, actions)
            && (forall i :: 0 <= i < |actions| && i != CARELESS_STEP ==> Careful(GAME, ws[i], actions[i]))
            && ws[22].threads[3] == Returned(LONG, Report("a..b."))
            && !UncachedAnswer(GAME, LONG, Report("a..b."))
  {
    hide Next, Careful, UncachedAnswer;
    WrongIsWrong();
    forall i | 0 <= i < 22
      ensures Next(GAME, Careless()[i], Careless()[i + 1], CarelessActions()[i])
      ensures i != CARELESS_STEP ==> Careful(GAME, Careless()[i], CarelessActions()[i])
    {
      if i < 5 {
        StepsOfFirstRequest(i);
      } else if i < 12 {
        StepsBeforeEviction(i);
      } else {
        StepsFromEvictionOn(i);
      }
    }
  }
}
