/**
 Reports and the snapshots that they leave behind. A run that stops before it has a checkpoint hands over
 its final registry, but only after the report has been written, and writing it may draw random numbers.
 */
module Reports {
  import opened Options
  import opened Encounters
  import opened StopPredicate
  import opened Runs
  import opened Simulation
  import opened Battle
  import opened Checkpoints

  /** What is left after one report for each of these offsets, one after another. */
  function Rereported<R>(k: Rules<R>, tick: nat, rest: R, offsets: seq<int>): R
  {
    if offsets == [] then rest
    else
      var n := |offsets| - 1;
      k.report(tick, Rereported(k, tick, rest, offsets[..n]), offsets[n], None).rest
  }

  /** None of these reports fails. */
  predicate Reportable<R>(k: Rules<R>, tick: nat, rest: R, offsets: seq<int>)
  {
    if offsets == [] then true
    else
      var n := |offsets| - 1;
      && Reportable(k, tick, rest, offsets[..n])
      && k.report(tick, Rereported(k, tick, rest, offsets[..n]), offsets[n], None).Reported?
  }

  function Spent<R>(k: Rules<R>, s: State<R>, offsets: seq<int>): State<R>
  {
    s.(rest := Rereported(k, s.tick, s.rest, offsets))
  }

  lemma SpentOnceMore<R>(k: Rules<R>, s: State<R>, offsets: seq<int>, offset: int)
    ensures AfterReport(k, Spent(k, s, offsets), offset) == Spent(k, s, offsets + [offset])
    ensures Reportable(k, s.tick, s.rest, offsets + [offset]) <==>
            Reportable(k, s.tick, s.rest, offsets)
            && k.report(s.tick, Spent(k, s, offsets).rest, offset, None).Reported?
  {
    assert (offsets + [offset])[..|offsets|] == offsets;
  }

  lemma {:induction false} SpentIsStillOver<R(!new)>(k: Rules<R>, e: Encounter, s: State<R>, offsets: seq<int>)
    requires ReportsOnlyDraw(k)
    ensures Continues(k, e, Spent(k, s, offsets)) <==> Continues(k, e, s)
    ensures Settled(k, s) ==> Settled(k, Spent(k, s, offsets))
    decreases |offsets|
  {
    hide Stops;
    if offsets == [] {
      assert Spent(k, s, offsets) == s;
    } else {
      var n := |offsets| - 1;
      var before := Spent(k, s, offsets[..n]);
      SpentIsStillOver(k, e, s, offsets[..n]);
      var reported := k.report(s.tick, before.rest, offsets[n], None);
      assert Spent(k, s, offsets).rest == reported.rest;
      assert OnlyDraws(k, s.tick, before.rest, offsets[n]);
      assert RosterOf(k, Spent(k, s, offsets)) == RosterOf(k, before);
    }
  }

  // ---------- Snapshots ----------

  /**
   `t` is what a run of `e` leaves for the cache. Without `offsets` it is the checkpoint, taken after `n`
   ticks; otherwise it is the final registry, reported for these offsets by the requests that handed it on.
   A `frugal` cache is one that serves one request at a time: it hands on final registries only of runs
   that never had a checkpoint, and an empty rotation's only once.
   */
  ghost predicate Leaves<R(!new)>(k: Rules<R>, e: Encounter, n: nat, s: State<R>, offsets: seq<int>, t: State<R>,
      frugal: bool)
  {
    && TakenAt(k, e, n, s)
    && t == Spent(k, s, offsets)
    && if offsets == [] then n > 0 && !Pending(s, 0)
       else
         && !Continues(k, e, s)
         && Reportable(k, s.tick, s.rest, offsets)
         && (frugal ==> (n == 0 || Pending(s, 0)) && (e.actors != [] && LeadCasts(e) == [] ==> |offsets| == 1))
  }

  /** Reporting the end of this request's own run again, and again, says the same as reporting it once. */
  ghost predicate Steady<R(!new)>(k: Rules<R>, e: Encounter, frugal: bool)
  {
    forall n, s, offsets :: offsets != [] && Leaves(k, e, n, s, offsets, Spent(k, s, offsets), frugal) ==>
      AnswerOf(k, e, Finished(Spent(k, s, offsets))) == AnswerOf(k, e, Finished(s))
  }

  /** No report on a state of this request's own run draws anything. */
  ghost predicate Quiet<R(!new)>(k: Rules<R>, e: Encounter)
  {
    Fresh(k, e).Some? ==>
      forall n, s, offset ::
        (After(Simulate(k, e), Fresh(k, e).value, true, n) == Some(s) && k.report(s.tick, s.rest, offset, None).Reported?)
        ==> AfterReport(k, s, offset) == s
  }

  lemma {:induction false} QuietLeavesRest<R(!new)>(k: Rules<R>, e: Encounter, n: nat, s: State<R>, offsets: seq<int>)
    requires Quiet(k, e) && Fresh(k, e).Some? && After(Simulate(k, e), Fresh(k, e).value, true, n) == Some(s)
    requires Reportable(k, s.tick, s.rest, offsets)
    ensures Spent(k, s, offsets) == s
    decreases |offsets|
  {
    if offsets == [] {
    } else {
      var m := |offsets| - 1;
      QuietLeavesRest(k, e, n, s, offsets[..m]);
      assert AfterReport(k, s, offsets[m]) == s;
    }
  }

  /** A request whose reports draw nothing is steady, whatever else is served. */
  lemma QuietIsSteady<R(!new)>(k: Rules<R>, e: Encounter, frugal: bool)
    requires Quiet(k, e)
    ensures Steady(k, e, frugal)
  {
    hide Simulate, Continues, Fresh;
    forall n, s, offsets | offsets != [] && Leaves(k, e, n, s, offsets, Spent(k, s, offsets), frugal)
      ensures AnswerOf(k, e, Finished(Spent(k, s, offsets))) == AnswerOf(k, e, Finished(s))
    {
      QuietLeavesRest(k, e, n, s, offsets);
    }
  }
}
