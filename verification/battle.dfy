/** The simulation as a machine: what keeps its state well formed, its clock, and what callers receive. */
module Battle {
  import opened Options
  import opened Sequences
  import opened Encounters
  import opened StopPredicate
  import opened Runs
  import opened Simulation

  // ---------- Ticks keep the state well formed ----------

  lemma {:induction false} VisitAllKeepsShape<R>(k: Rules<R>, s: State<R>, pending: seq<nat>)
    requires StateOk(s) && Within(pending, |s.actors|)
    ensures var s' := VisitAll(k, s, pending).state;
            StateOk(s') && s'.tick == s.tick && s'.encounter == s.encounter && s'.order == s.order
    decreases |pending|
  {
    if pending == [] {
    } else {
      VisitKeepsShape(k, s, pending[0]);
      var o := Visit(k, s, pending[0]);
      if o.Running? {
        VisitAllKeepsShape(k, o.state, pending[1..]);
      }
    }
  }

  lemma {:induction false} GrantKeepsShape<R>(s: State<R>, granted: seq<nat>)
    requires StateOk(s)
    ensures var s' := Grant(s, granted);
            StateOk(s') && s'.tick == s.tick && s'.encounter == s.encounter && s'.rest == s.rest
    decreases |granted|
  {
    if granted == [] {
    } else {
      var i := granted[0];
      if i < |s.actors| && s.actors[i].rotation.None? {
        assert StateOk(GrantOne(s, i));
        GrantKeepsShape(GrantOne(s, i), granted[1..]);
      } else {
        GrantKeepsShape(s, granted[1..]);
      }
    }
  }

  lemma RegroupKeepsShape<R>(s: State<R>, moved: seq<nat>)
    requires StateOk(s)
    ensures var s' := Regroup(s, moved);
            StateOk(s') && s'.tick == s.tick && s'.encounter == s.encounter && s'.rest == s.rest
  {
    hide NoRepeats, MoveAll, ActorOk;
    MoveAllKeeps(s.order, moved);
    var order := Regroup(s, moved).order;
    forall j | 0 <= j < |order|
      ensures order[j] < |s.actors|
    {
      assert order[j] in order;
      assert order[j] in s.order;
    }
  }

  lemma TickKeepsShape<R>(k: Rules<R>, s: State<R>)
    requires StateOk(s)
    ensures StateOk(Tick(k, s).state)
    ensures Tick(k, s).state.tick == s.tick && Tick(k, s).state.encounter == s.encounter
  {
    var settled := s.(rest := k.settle(s.rest));
    ReversedKeeps(s.order);
    VisitAllKeepsShape(k, settled, Reversed(s.order));
    var o := VisitAll(k, settled, Reversed(s.order));
    if o.Running? {
      match k.after(FrameOf(s.encounter), s.tick, PulseDue(s.tick, s.encounter.conditionTickOffset), FlagsOf(o.state.actors), o.state.rest)
      case Aborted(_, _) =>
      case Ended(rest, granted, moved) =>
        GrantKeepsShape(o.state.(rest := rest), granted);
        RegroupKeepsShape(Grant(o.state.(rest := rest), granted), moved);
    }
  }

  lemma AdvanceKeepsShape<R>(k: Rules<R>, s: State<R>, first: bool)
    requires StateOk(s)
    ensures var s' := Advance(k, s, first).state;
            && StateOk(s') && s'.encounter == s.encounter
            && s'.tick == if first then s.tick else (s.tick + 1) % TICK_WRAP
  {
    TickKeepsShape(k, if first then s else s.(tick := (s.tick + 1) % TICK_WRAP));
  }

  // ---------- The machine ----------

  ghost function LoopStep<R>(k: Rules<R>, s: State<R>, first: bool): Outcome<State<R>>
  {
    if StateOk(s) then Advance(k, s, first) else Failed(s, "")
  }

  /** The simulation of encounter `e` under rules `k`. */
  ghost function Simulate<R>(k: Rules<R>, e: Encounter): Machine<State<R>>
  {
    Machine((s: State<R>) => Continues(k, e, s), (s: State<R>, first: bool) => LoopStep(k, s, first))
  }

  lemma GoIsContinues<R>(k: Rules<R>, e: Encounter, s: State<R>)
    ensures Simulate(k, e).go(s) == Continues(k, e, s)
  {
  }

  lemma TurnKeepsShape<R(!new)>(k: Rules<R>, e: Encounter)
    ensures forall s: State<R>, first: bool :: StateOk(s) ==> StateOk(Simulate(k, e).turn(s, first).state)
    ensures forall s: State<R>, first: bool :: Simulate(k, e).turn(s, first).state.encounter == s.encounter
  {
    hide Advance, StateOk;
    forall s: State<R>, first: bool
      ensures StateOk(s) ==> StateOk(Simulate(k, e).turn(s, first).state)
      ensures Simulate(k, e).turn(s, first).state.encounter == s.encounter
    {
      if StateOk(s) {
        AdvanceKeepsShape(k, s, first);
      }
    }
  }

  lemma RunKeepsShape<R(!new)>(k: Rules<R>, e: Encounter, s: State<R>, first: bool, n: nat)
    requires StateOk(s) && After(Simulate(k, e), s, first, n).Some?
    ensures var s' := After(Simulate(k, e), s, first, n).value;
            StateOk(s') && s'.encounter == s.encounter
  {
    TurnKeepsShape(k, e);
    InvariantHolds(Simulate(k, e), (t: State<R>) => StateOk(t) && t.encounter == s.encounter, s, first, n);
  }

  // ---------- Starting ----------

  /** The state a fresh simulation of `e` enters its loop with. */
  function Fresh<R>(k: Rules<R>, e: Encounter): Option<State<R>>
  {
    match k.setup(FrameOf(e))
    case Rejected(_) => None
    case Ready(rest) => Some(InitialState(e, k.settle(rest)))
  }

  lemma FreshIsOk<R>(k: Rules<R>, e: Encounter)
    requires Fresh(k, e).Some?
    ensures StateOk(Fresh(k, e).value)
    ensures Fresh(k, e).value.tick == 0 && Fresh(k, e).value.encounter == e
  {
    var s := Fresh(k, e).value;
    assert Within(s.order, |s.actors|) by {
      forall j | 0 <= j < |s.order|
        ensures s.order[j] < |s.actors|
      {
        assert s.order[j] in s.order;
      }
    }
  }

  // ---------- What a caller receives ----------

  /** A report, or an exception from setting the encounter up or from writing the report of a failure. */
  datatype Answer = Report(text: string) | Thrown(error: string)

  /** A run that stopped reports, and so does one that failed; a failing report is reported once more. */
  function AnswerOf<R>(k: Rules<R>, e: Encounter, end: End<State<R>>): Answer
  {
    match end
    case Crashed(s, error) => Apology(k, s.tick, s.rest, e.auditOffset, error)
    case Finished(s) =>
      match k.report(s.tick, s.rest, e.auditOffset, None)
      case Reported(text, _) => Report(text)
      case Unreportable(rest, error) => Apology(k, s.tick, rest, e.auditOffset, error)
  }

  /** The report of a failure; if it fails too, the exception reaches the caller. */
  function Apology<R>(k: Rules<R>, tick: nat, rest: R, offset: int, error: string): Answer
  {
    match k.report(tick, rest, offset, Some(error))
    case Reported(text, _) => Report(text)
    case Unreportable(_, error') => Thrown(error')
  }

  /** The run stopped and its report was written. */
  predicate Succeeds<R>(k: Rules<R>, e: Encounter, end: End<State<R>>)
  {
    end.Finished? && k.report(end.state.tick, end.state.rest, e.auditOffset, None).Reported?
  }

  /** A state once its report has been written. */
  function AfterReport<R>(k: Rules<R>, s: State<R>, offset: int): State<R>
  {
    s.(rest := k.report(s.tick, s.rest, offset, None).rest)
  }

  /** An uninterrupted simulation that uses no cache answers `answer`. */
  ghost predicate UncachedAnswer<R(!new)>(k: Rules<R>, e: Encounter, answer: Answer)
  {
    match k.setup(FrameOf(e))
    case Rejected(error) => answer == Thrown(error)
    case Ready(_) =>
      exists n, end :: EndsAfter(Simulate(k, e), Fresh(k, e).value, true, n, end) && answer == AnswerOf(k, e, end)
  }

  /** The uncached simulation of `e` does not run forever. */
  ghost predicate Completes<R(!new)>(k: Rules<R>, e: Encounter)
  {
    Fresh(k, e).Some? ==> Halts(Simulate(k, e), Fresh(k, e).value, true)
  }

  lemma UncachedAnswerIsUnique<R(!new)>(k: Rules<R>, e: Encounter, a1: Answer, a2: Answer)
    requires UncachedAnswer(k, e, a1) && UncachedAnswer(k, e, a2)
    ensures a1 == a2
  {
    if Fresh(k, e).Some? {
      var m, s := Simulate(k, e), Fresh(k, e).value;
      var n1, end1 :| EndsAfter(m, s, true, n1, end1) && a1 == AnswerOf(k, e, end1);
      var n2, end2 :| EndsAfter(m, s, true, n2, end2) && a2 == AnswerOf(k, e, end2);
      EndIsUnique(m, s, true, n1, end1, n2, end2);
    }
  }

  // ---------- The clock ----------

  lemma SimulationIsClocked<R(!new)>(k: Rules<R>, e: Encounter)
    ensures Clocked(Simulate(k, e), (s: State<R>) => s.tick, (s: State<R>) => StateOk(s))
  {
    hide Advance, StateOk;
    forall s: State<R>, first: bool | StateOk(s)
      ensures StateOk(Simulate(k, e).turn(s, first).state)
      ensures Simulate(k, e).turn(s, first).state.tick == if first then s.tick else (s.tick + 1) % TICK_WRAP
    {
      AdvanceKeepsShape(k, s, first);
    }
  }

  lemma TimeConditionRefuses<R(!new)>(k: Rules<R>, e: Encounter, c: Condition)
    requires c in e.conditions && c.kind == TimeCondition
    ensures forall s: State<R> :: s.tick >= c.time ==> !Simulate(k, e).go(s)
  {
    forall s: State<R> | s.tick >= c.time
      ensures !Simulate(k, e).go(s)
    {
      assert Met(c, RosterOf(k, s), s.tick);
    }
  }

  /** Turn `j` of a fresh simulation works at tick `j`. */
  lemma FreshRunCountsTicks<R(!new)>(k: Rules<R>, e: Encounter, j: nat)
    requires Fresh(k, e).Some? && After(Simulate(k, e), Fresh(k, e).value, true, j + 1).Some?
    ensures After(Simulate(k, e), Fresh(k, e).value, true, j + 1).value.tick == j % TICK_WRAP
  {
    FreshIsOk(k, e);
    SimulationIsClocked(k, e);
    ClockOfRun(Simulate(k, e), (s: State<R>) => s.tick, (s: State<R>) => StateOk(s), Fresh(k, e).value, true, j);
  }

  /** Every encounter with a TIME condition completes, within at most one tick more than the time. */
  lemma TimedEncounterCompletes<R(!new)>(k: Rules<R>, e: Encounter, c: Condition)
    requires c in e.conditions && c.kind == TimeCondition && c.time < TICK_WRAP
    ensures Completes(k, e)
    ensures Fresh(k, e).Some? ==>
              exists n: nat, end :: EndsAfter(Simulate(k, e), Fresh(k, e).value, true, n, end) && n <= c.time + 1
    ensures Fresh(k, e).Some? && c.time == 0 ==>
              EndsAfter(Simulate(k, e), Fresh(k, e).value, true, 0, Finished(Fresh(k, e).value))
  {
    if Fresh(k, e).Some? {
      FreshIsOk(k, e);
      SimulationIsClocked(k, e);
      TimeConditionRefuses(k, e, c);
      var n, end := LimitStops(Simulate(k, e), (s: State<R>) => s.tick, (s: State<R>) => StateOk(s), c.time, Fresh(k, e).value, true);
    }
  }
}
