/** A game whose reports draw random numbers, and two equal requests that are answered differently. */
module DrawingReport {
  import opened Options
  import opened Encounters
  import opened StopPredicate
  import opened Runs
  import opened Simulation
  import opened Battle
  import opened Checkpoints
  import opened Reports
  import opened Transparency
  import opened Steadiness
  import opened Game

  /** As before, but each report leaves a mark, as drawing a number leaves the generator in another state. */
  const DRAWING: Rules<string> := GAME.(
    report := (t: nat, r: string, o: int, err: Option<string>) => Reported(r, r + "?"))

  lemma DrawingSettles()
    ensures Settles(DRAWING) && ReportsOnlyDraw(DRAWING)
  {
  }

  const AT_ONCE := Condition(TimeCondition, 0, "", 0)

  /** A request that is over before its first tick. */
  const BRIEF := Encounter([Player("A", ["a"])], [AT_ONCE], "", 0, 0, true, 0)

  ghost function BriefEnd(): State<string>
  {
    InitialState(BRIEF, "")
  }

  lemma BriefStopsAtOnce()
    ensures Fresh(DRAWING, BRIEF) == Some(BriefEnd()) && !Continues(DRAWING, BRIEF, BriefEnd())
    ensures BriefEnd().tick == 0 && BriefEnd().rest == "" && BriefEnd().actors != []
  {
    assert AT_ONCE in BRIEF.conditions;
    assert Met(AT_ONCE, RosterOf(DRAWING, BriefEnd()), 0);
  }

  lemma BriefIsUnsteady()
    ensures Base(DRAWING, BRIEF, 0, BriefEnd(), [0])
  {
    hide Simulate, Continues, Settles, ReportsOnlyDraw;
    DrawingSettles();
    BriefStopsAtOnce();
    var s := BriefEnd();
    assert TakenAt(DRAWING, BRIEF, 0, s);
    SpentOnceMore(DRAWING, s, [], 0);
    assert [] + [0] == [0 as int];
    assert Spent(DRAWING, s, []) == s;
    assert AnswerOf(DRAWING, BRIEF, Finished(s)) == Report("");
    assert AnswerOf(DRAWING, BRIEF, Finished(Spent(DRAWING, s, [0]))) == Report("?");
  }

  lemma BriefAsItIs()
    ensures Longer(BRIEF, 0, 0) == BRIEF
  {
    assert LeadCasts(BRIEF) + seq(0, _ => Cast("", 0)) == LeadCasts(BRIEF);
    assert Longer(BRIEF, 0, 0).actors == BRIEF.actors;
  }

  /**
   If reports draw random numbers, caching is not transparent: a request that was stopped at once, served a
   second time, hits its own final registry and is answered by a generator that has already been used.
   */
  lemma ReportsMustNotDraw()
    ensures var requests := [Request.Simulation(BRIEF, true), Request.Simulation(BRIEF, true)];
            && Distinguishable(requests)
            && Serves(DRAWING, 1, [], requests, [Report(""), Report("?")])
            && !UncachedAnswer(DRAWING, BRIEF, Report("?"))
  {
    hide Base, Serves, UncachedAnswer;
    BriefIsUnsteady();
    BriefAsItIs();
    BriefStopsAtOnce();
    var s := BriefEnd();
    SessionIsServed(DRAWING, BRIEF, 0, s, [0], 0);
    LastIsWrong(DRAWING, BRIEF, 0, s, [0]);
    SessionIsDistinguishable(BRIEF, [0], 0);
    assert Session(BRIEF, [0], 1) == [Request.Simulation(BRIEF, true)];
    assert Session(BRIEF, [0], 0) == [Request.Simulation(BRIEF, true), Request.Simulation(BRIEF, true)];
    TheirAnswers();
  }

  lemma TheirAnswers()
    ensures Answers(DRAWING, BRIEF, BriefEnd(), [0], 0) == [Report(""), Report("?")]
    ensures Reply(DRAWING, BRIEF, BriefEnd(), 0, 0, [0]) == Report("?")
    ensures Held(DRAWING, BRIEF, BriefEnd(), [0], 0) == []
  {
    var s := BriefEnd();
    var x := Resume(s, BRIEF, 0);
    BriefAsItIs();
    SpentOnceMore(DRAWING, x, [], 0);
    assert [] + [0] == [0 as int] && [0 as int][..0] == [];
    assert Spent(DRAWING, x, []) == x;
    assert Reply(DRAWING, BRIEF, s, 0, 0, []) == Report("");
    assert Reply(DRAWING, BRIEF, s, 0, 0, [0]) == Report("?");
    assert Answers(DRAWING, BRIEF, s, [0], 1) == [Report("?")];
  }
}
