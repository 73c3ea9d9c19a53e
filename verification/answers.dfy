/** What callers are told and what the cache is left with, said of the run itself and of the reports written at its end. */
module Answers {
  import opened Options
  import opened Encounters
  import opened Runs
  import opened Simulation
  import opened Battle
  import opened Checkpoints
  import opened Transparency

  lemma OnlyEnd<R(!new)>(k: Rules<R>, e: Encounter, s: State<R>, first: bool, lead: nat, need: bool, n: nat,
      end: End<State<R>>, answer: Answer, publish: Option<State<R>>)
    requires EndsAfter(Simulate(k, e), s, first, n, end)
    ensures RunsTo(k, e, s, first, lead, need, answer, publish) <==>
            answer == AnswerOf(k, e, end) && publish == Leftover(k, e, s, first, lead, need, n, end)
  {
    hide Simulate, EndsAfter, AnswerOf, Leftover;
    var m := Simulate(k, e);
    if RunsTo(k, e, s, first, lead, need, answer, publish) {
      var n', end' :| RunEnds(k, e, s, first, lead, need, answer, publish, n', end');
      EndIsUnique(m, s, first, n, end, n', end');
    }
    if answer == AnswerOf(k, e, end) && publish == Leftover(k, e, s, first, lead, need, n, end) {
      assert RunEnds(k, e, s, first, lead, need, answer, publish, n, end);
    }
  }

  /**
   A run whose next turn fails is answered by a report with that very error, of the registry as the failure
   left it; if this report fails too, by its exception. Nothing is handed over to the cache.
   */
  lemma FailingTurnIsReported<R(!new)>(k: Rules<R>, e: Encounter, s: State<R>, first: bool, lead: nat, need: bool,
      n: nat, t: State<R>, u: State<R>, error: string, answer: Answer, publish: Option<State<R>>)
    requires After(Simulate(k, e), s, first, n) == Some(t)
    requires Simulate(k, e).go(t) && Simulate(k, e).turn(t, first && n == 0) == Failed(u, error)
    ensures RunsTo(k, e, s, first, lead, need, answer, publish) <==>
            && publish == None
            && match k.report(u.tick, u.rest, e.auditOffset, Some(error))
               case Reported(text, _) => answer == Report(text)
               case Unreportable(_, again) => answer == Thrown(again)
  {
    hide Simulate, After, EndsAfter, RunsTo, FirstIdle;
    NextTurn(Simulate(k, e), s, first, n, t);
    OnlyEnd(k, e, s, first, lead, need, n + 1, Crashed(u, error), answer, publish);
  }

  /**
   A run that stops and whose report fails is answered by a second report, with the first one's error and of
   the registry as the first one left it.
   */
  lemma FailingReportIsReported<R(!new)>(k: Rules<R>, e: Encounter, s: State<R>, first: bool, lead: nat, need: bool,
      n: nat, t: State<R>, left: R, error: string, answer: Answer, publish: Option<State<R>>)
    requires After(Simulate(k, e), s, first, n) == Some(t) && !Simulate(k, e).go(t)
    requires k.report(t.tick, t.rest, e.auditOffset, None) == Unreportable(left, error)
    ensures RunsTo(k, e, s, first, lead, need, answer, publish) <==>
            && publish == None
            && match k.report(t.tick, left, e.auditOffset, Some(error))
               case Reported(text, _) => answer == Report(text)
               case Unreportable(_, again) => answer == Thrown(again)
  {
    hide Simulate, After, EndsAfter, RunsTo, FirstIdle;
    NextTurn(Simulate(k, e), s, first, n, t);
    OnlyEnd(k, e, s, first, lead, need, n, Finished(t), answer, publish);
  }

  /** In state `t` the watched actor has no cast left to start. */
  predicate AllStarted<R>(t: State<R>, lead: nat)
  {
    lead < |t.actors| ==>
      match t.actors[lead].rotation
      case None => true
      case Some(r) => |r.casts| <= r.idx
  }

  /** `t` is the state after the first turn, among the first `n`, that left the watched actor no cast to start. */
  ghost predicate IsCheckpoint<R(!new)>(k: Rules<R>, e: Encounter, s: State<R>, first: bool, lead: nat, n: nat, t: State<R>)
  {
    exists j: nat :: 1 <= j <= n && StartsAllAt(k, e, s, first, lead, j, t)
  }

  ghost predicate StartsAllAt<R(!new)>(k: Rules<R>, e: Encounter, s: State<R>, first: bool, lead: nat, j: nat, t: State<R>)
  {
    && After(Simulate(k, e), s, first, j) == Some(t) && AllStarted(t, lead)
    && forall i: nat, u :: 1 <= i < j && After(Simulate(k, e), s, first, i) == Some(u) ==> !AllStarted(u, lead)
  }

  lemma {:induction false} FirstIdleIsCheckpoint<R(!new)>(k: Rules<R>, e: Encounter, s: State<R>, first: bool,
      lead: nat, n: nat)
    ensures match FirstIdle(Simulate(k, e), s, first, lead, n)
            case Some(t) => IsCheckpoint(k, e, s, first, lead, n, t)
            case None => forall i: nat, u :: 1 <= i <= n && After(Simulate(k, e), s, first, i) == Some(u) ==> !AllStarted(u, lead)
  {
    hide Simulate, After;
    if n == 0 {
    } else {
      FirstIdleIsCheckpoint(k, e, s, first, lead, n - 1);
      match FirstIdle(Simulate(k, e), s, first, lead, n - 1) {
        case Some(t) =>
        case None =>
          var t := After(Simulate(k, e), s, first, n);
          if t.Some? && AllStarted(t.value, lead) {
            assert StartsAllAt(k, e, s, first, lead, n, t.value);
          }
      }
    }
  }

  lemma OneCheckpoint<R(!new)>(k: Rules<R>, e: Encounter, s: State<R>, first: bool, lead: nat, n: nat, t1: State<R>,
      t2: State<R>)
    requires IsCheckpoint(k, e, s, first, lead, n, t1) && IsCheckpoint(k, e, s, first, lead, n, t2)
    ensures t1 == t2
  {
    hide Simulate, After, AllStarted;
    var j1: nat :| 1 <= j1 <= n && StartsAllAt(k, e, s, first, lead, j1, t1);
    var j2: nat :| 1 <= j2 <= n && StartsAllAt(k, e, s, first, lead, j2, t2);
  }

  /**
   A run that stops and is reported answers with the text. If a snapshot is needed, the cache is handed the
   checkpoint: the first end of a turn at which every cast of the watched actor has started; or, if there was
   none, the final state with what the report made of the rest.
   */
  lemma SuccessIsReported<R(!new)>(k: Rules<R>, e: Encounter, s: State<R>, first: bool, lead: nat, need: bool,
      n: nat, t: State<R>, text: string, left: R, answer: Answer, publish: Option<State<R>>)
    requires After(Simulate(k, e), s, first, n) == Some(t) && !Simulate(k, e).go(t)
    requires k.report(t.tick, t.rest, e.auditOffset, None) == Reported(text, left)
    ensures RunsTo(k, e, s, first, lead, need, answer, publish) <==>
            && answer == Report(text)
            && (publish.Some? <==> need)
            && (need && !IsCheckpoint(k, e, s, first, lead, n, publish.value) ==>
                  && publish.value == State(t.tick, t.encounter, t.actors, t.order, left)
                  && forall c :: !IsCheckpoint(k, e, s, first, lead, n, c))
  {
    hide FirstIdle, After;
    NextTurn(Simulate(k, e), s, first, n, t);
    OnlyEnd(k, e, s, first, lead, need, n, Finished(t), answer, publish);
    FirstIdleIsCheckpoint(k, e, s, first, lead, n);
    var m := Simulate(k, e);
    var idle := FirstIdle(m, s, first, lead, n);
    if idle.Some? {
      if need && publish.Some? && IsCheckpoint(k, e, s, first, lead, n, publish.value) {
        OneCheckpoint(k, e, s, first, lead, n, publish.value, idle.value);
      }
    } else {
      forall c
        ensures !IsCheckpoint(k, e, s, first, lead, n, c)
      {
      }
    }
  }

  /** The uncached answer is what such a run from the start is answered; an encounter that is refused is an exception. */
  lemma UncachedAnswerIsRun<R(!new)>(k: Rules<R>, e: Encounter, answer: Answer)
    ensures match k.setup(FrameOf(e))
            case Rejected(error) => UncachedAnswer(k, e, answer) <==> answer == Thrown(error)
            case Ready(rest) =>
              && Fresh(k, e).Some?
              && (UncachedAnswer(k, e, answer) <==> exists lead, publish :: RunsTo(k, e, Fresh(k, e).value, true, lead, false, answer, publish))
  {
    hide EndsAfter, AnswerOf, Leftover, FrameOf, Simulate;
    if k.setup(FrameOf(e)).Ready? {
      var s := Fresh(k, e).value;
      if UncachedAnswer(k, e, answer) {
        var n, end :| EndsAfter(Simulate(k, e), s, true, n, end) && answer == AnswerOf(k, e, end);
        OnlyEnd(k, e, s, true, 0, false, n, end, answer, Leftover(k, e, s, true, 0, false, n, end));
        assert RunsTo(k, e, s, true, 0, false, answer, Leftover(k, e, s, true, 0, false, n, end));
      }
      if exists lead, publish :: RunsTo(k, e, s, true, lead, false, answer, publish) {
        var lead, publish :| RunsTo(k, e, s, true, lead, false, answer, publish);
        var n, end :| RunEnds(k, e, s, true, lead, false, answer, publish, n, end);
        assert EndsAfter(Simulate(k, e), s, true, n, end) && answer == AnswerOf(k, e, end);
      }
    }
  }
}
