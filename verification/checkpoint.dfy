/**
 Snapshots of a run, and resuming a longer request from one.

 A snapshot of a request with casts `xs` is taken at the first end of a tick at which the last of
 `xs` has started, or, if the run stops before that, at its end. The main result is that a request
 for `xs + ys`, resumed from it, is at a state that its own uninterrupted run passes through.
 */
module Checkpoints {
  import opened Options
  import opened Sequences
  import opened Encounters
  import opened StopPredicate
  import opened Runs
  import opened Simulation
  import opened Battle

  // ---------- Which actor the program takes for the first one ----------

  /** Actor entities are searched from the most recently created one backwards. */
  function LastNamed(actors: seq<ActorConfig>, name: string, upTo: nat): (i: nat)
    requires 0 < upTo <= |actors| && actors[0].name == name
    ensures i < upTo && actors[i].name == name
    ensures forall j :: i < j < upTo ==> actors[j].name != name
  {
    if upTo == 1 || actors[upTo - 1].name == name then upTo - 1 else LastNamed(actors, name, upTo - 1)
  }

  function RotationActor(e: Encounter): nat
    requires e.actors != []
  {
    LastNamed(e.actors, e.actors[0].name, |e.actors|)
  }

  /** The search by name finds the first actor exactly if no later actor has its name. */
  lemma SearchFindsFirst(e: Encounter)
    requires e.actors != []
    ensures RotationActor(e) == 0 <==> UniqueLead(e)
  {
  }

  // ---------- Taking and resuming snapshots ----------

  /** The watched rotation still has a cast that was never started since it last began. */
  predicate Pending<R>(s: State<R>, lead: nat)
  {
    && lead < |s.actors|
    && s.actors[lead].rotation.Some?
    && s.actors[lead].rotation.value.idx < |s.actors[lead].rotation.value.casts|
  }

  /** A snapshot put to work for request `e`: the new casts, and the new encounter. */
  function Resume<R>(t: State<R>, e: Encounter, lead: nat): State<R>
    requires e.actors != [] && lead < |t.actors|
  {
    if LeadCasts(e) == [] then t.(encounter := e)
    else
      var present := t.actors[lead].rotation;
      var rotation := if present.Some? then present.value else Rotation([], 0, 0, false);
      t.(
        encounter := e,
        actors := t.actors[lead := Actor(Some(rotation.(casts := LeadCasts(e), repeat := e.actors[0].repeat)), false)],
        order := if present.Some? then t.order else t.order + [lead])
  }

  /**
   Whichever actor a request is restored to, it has the request's casts from then on, is where its rotation was, and is not
   marked; one without a rotation joins the storage behind the others. Nobody else's rotation changes.
   */
  lemma RestoringKeepsOk<R>(t: State<R>, e: Encounter, lead: nat)
    requires StateOk(t) && e.actors != [] && |e.actors| == |t.actors| && lead < |t.actors|
    ensures var s := Resume(t, e, lead);
            && StateOk(s) && s.encounter == e && s.tick == t.tick && s.rest == t.rest
            && t.order <= s.order && |s.actors| == |t.actors|
            && (forall i: nat :: i < |t.actors| && i != lead ==> s.actors[i] == t.actors[i])
            && (LeadCasts(e) == [] ==> s.actors[lead] == t.actors[lead])
            && (LeadCasts(e) != [] ==>
                  && !s.actors[lead].noMore && s.actors[lead].rotation.Some?
                  && var r := s.actors[lead].rotation.value;
                     && r.casts == e.actors[0].casts && r.repeat == e.actors[0].repeat
                     && r.idx == (if t.actors[lead].rotation.Some? then t.actors[lead].rotation.value.idx else 0)
                     && r.tickOffset == (if t.actors[lead].rotation.Some? then t.actors[lead].rotation.value.tickOffset else 0))
  {
    if LeadCasts(e) != [] && t.actors[lead].rotation.None? {
      NoRepeatsSnoc(t.order, lead);
    }
    hide NoRepeats;
  }

  /** `t` is the snapshot that an uninterrupted run of `e` leaves, taken after `n` ticks. */
  ghost predicate TakenAt<R(!new)>(k: Rules<R>, e: Encounter, n: nat, t: State<R>)
  {
    && Fresh(k, e).Some?
    && After(Simulate(k, e), Fresh(k, e).value, true, n) == Some(t)
    && (forall j :: 1 <= j < n ==> PendingAt(k, e, j))
    && (n == 0 || Pending(t, 0) ==> !Continues(k, e, t))
  }

  /** The first actor's rotation is unfinished at the end of tick `j` of the uninterrupted run. */
  ghost predicate PendingAt<R(!new)>(k: Rules<R>, e: Encounter, j: nat)
    requires Fresh(k, e).Some?
  {
    var s := After(Simulate(k, e), Fresh(k, e).value, true, j);
    s.Some? && Pending(s.value, 0)
  }

  // ---------- A tick does not look past the next cast ----------

  /** `a` is the first actor on its way through casts that `zs` begins with. */
  predicate OnItsWay(a: Actor, zs: seq<Cast>, repeat: bool)
  {
    && a.rotation.Some?
    && a.rotation.value.casts <= zs
    && a.rotation.value.casts != []
    && a.rotation.value.idx <= |a.rotation.value.casts|
    && a.rotation.value.repeat == repeat
    && !a.noMore
  }

  function Reseat(a: Actor, zs: seq<Cast>): Actor
    requires a.rotation.Some?
  {
    a.(rotation := Some(a.rotation.value.(casts := zs)))
  }

  /** The first actor's turn is the same whatever follows the casts it still has to start. */
  lemma TurnIgnoresLaterCasts<R>(k: Rules<R>, f: Frame, tick: nat, rest: R, a: Actor, zs: seq<Cast>, repeat: bool)
    requires OnItsWay(a, zs, repeat) && a.rotation.value.idx < |a.rotation.value.casts|
    ensures var t := TakeTurn(k, f, tick, rest, 0, a);
            && OnItsWay(t.actor, zs, repeat)
            && TakeTurn(k, f, tick, rest, 0, Reseat(a, zs)) == Turn(Reseat(t.actor, zs), t.rest, t.error)
  {
  }

  /** `s` belongs to a request that `e` extends, and its first actor has not run out of casts. */
  ghost predicate Compatible<R>(s: State<R>, e: Encounter)
  {
    && StateOk(s)
    && e.actors != []
    && |s.actors| == |e.actors|
    && FrameOf(s.encounter) == FrameOf(e)
    && (LeadCasts(e) != [] ==> OnItsWay(s.actors[0], LeadCasts(e), e.actors[0].repeat))
  }

  ghost predicate Blind<R>(s: State<R>, e: Encounter)
  {
    Compatible(s, e) && (LeadCasts(e) != [] ==> Pending(s, 0))
  }

  function Extend<R>(s: State<R>, e: Encounter): State<R>
  {
    if s.actors == [] || e.actors == [] || LeadCasts(e) == [] || s.actors[0].rotation.None? then s.(encounter := e)
    else s.(encounter := e, actors := s.actors[0 := Reseat(s.actors[0], LeadCasts(e))])
  }

  lemma ResumeIsExtend<R>(s: State<R>, e: Encounter)
    requires Compatible(s, e)
    ensures Resume(s, e, 0) == Extend(s, e)
  {
  }

  /** Actor `i` has the request's casts and nothing to show that they were once over. */
  predicate AlreadyHas<R>(s: State<R>, e: Encounter, i: nat)
    requires e.actors != [] && i < |s.actors|
  {
    && !s.actors[i].noMore
    && s.actors[i].rotation.Some?
    && s.actors[i].rotation.value.casts == LeadCasts(e)
    && s.actors[i].rotation.value.repeat == e.actors[0].repeat
  }

  /**
   Restoring a snapshot gives the first actor the request's casts, and changes nothing else, exactly if
   there are none, or no later actor has the first one's name, or both the first actor and the last one
   of its name have them already.
   */
  lemma RestoringIsFaithfulExactlyIf<R>(s: State<R>, e: Encounter)
    requires Compatible(s, e)
    ensures RotationActor(e) < |s.actors|
    ensures Resume(s, e, RotationActor(e)) == Extend(s, e) <==>
            (LeadCasts(e) == [] || UniqueLead(e) || (AlreadyHas(s, e, 0) && AlreadyHas(s, e, RotationActor(e))))
  {
    SearchFindsFirst(e);
    ResumeIsExtend(s, e);
    var i := RotationActor(e);
    var r, x := Resume(s, e, i), Extend(s, e);
    if LeadCasts(e) != [] && i != 0 {
      assert r.actors[0] == s.actors[0] && x.actors[i] == s.actors[i];
      assert x.actors[0].rotation.value.casts == LeadCasts(e);
      assert r.actors[i].rotation.value.casts == LeadCasts(e) && r.actors[i].rotation.value.repeat == e.actors[0].repeat;
      if AlreadyHas(s, e, 0) && AlreadyHas(s, e, i) {
        assert r.actors[i] == s.actors[i] && x.actors[0] == s.actors[0];
        assert r.actors == s.actors == x.actors;
      }
    }
  }

  lemma ExtendIsOk<R>(s: State<R>, e: Encounter)
    requires Compatible(s, e)
    ensures StateOk(Extend(s, e))
  {
  }

  lemma VisitIgnoresLaterCasts<R>(k: Rules<R>, s: State<R>, e: Encounter, i: nat)
    requires Compatible(s, e) && i < |s.actors| && (i == 0 ==> Blind(s, e))
    ensures StateOk(Extend(s, e))
    ensures var o := Visit(k, s, i);
            && Visit(k, Extend(s, e), i) == MapOutcome(o, (t: State<R>) => Extend(t, e))
            && Compatible(o.state, e)
            && (i != 0 && Blind(s, e) ==> Blind(o.state, e))
  {
    hide TakeTurn;
    ExtendIsOk(s, e);
    VisitKeepsShape(k, s, i);
    var f := FrameOf(e);
    var x := Extend(s, e);
    if i == 0 && LeadCasts(e) != [] {
      TurnIgnoresLaterCasts(k, f, s.tick, s.rest, s.actors[0], LeadCasts(e), e.actors[0].repeat);
      assert x.actors[0] == Reseat(s.actors[0], LeadCasts(e));
    } else {
      TurnKeepsActorOk(k, f, s.tick, s.rest, i, s.actors[i]);
      assert x.actors[i] == s.actors[i];
    }
    var o, o' := Visit(k, s, i), Visit(k, x, i);
    assert o'.state.actors == Extend(o.state, e).actors;
  }

  lemma {:induction false} VisitAllIgnoresLaterCasts<R>(k: Rules<R>, s: State<R>, e: Encounter, pending: seq<nat>)
    requires Compatible(s, e) && Within(pending, |s.actors|) && NoRepeats(pending)
    requires 0 in pending ==> Blind(s, e)
    ensures StateOk(Extend(s, e))
    ensures var o := VisitAll(k, s, pending);
            && VisitAll(k, Extend(s, e), pending) == MapOutcome(o, (t: State<R>) => Extend(t, e))
            && Compatible(o.state, e)
    decreases |pending|
  {
    hide Visit, FrameOf, Extend, Blind;
    ExtendIsOk(s, e);
    SameSize(s, e);
    if pending == [] {
    } else {
      VisitIgnoresLaterCasts(k, s, e, pending[0]);
      VisitKeepsShape(k, s, pending[0]);
      var o := Visit(k, s, pending[0]);
      if o.Running? {
        forall j | 0 <= j < |pending| - 1
          ensures pending[1..][j] != pending[0]
        {
          assert pending[1..][j] == pending[j + 1];
        }
        VisitAllIgnoresLaterCasts(k, o.state, e, pending[1..]);
      }
    }
  }

  lemma SameSize<R>(s: State<R>, e: Encounter)
    ensures |Extend(s, e).actors| == |s.actors|
    ensures FlagsOf(Extend(s, e).actors) == FlagsOf(s.actors)
    ensures Extend(s, e).order == s.order && Extend(s, e).tick == s.tick && Extend(s, e).rest == s.rest
    ensures Extend(s, e).encounter == e
  {
  }

  lemma GrantOneCommutes<R>(s: State<R>, e: Encounter, i: nat)
    requires Compatible(s, e) && i < |s.actors| && s.actors[i].rotation.None?
    ensures Compatible(GrantOne(s, i), e)
    ensures i < |Extend(s, e).actors| && Extend(s, e).actors[i].rotation.None?
    ensures GrantOne(Extend(s, e), i) == Extend(GrantOne(s, i), e)
  {
    assert GrantOne(Extend(s, e), i).actors == Extend(GrantOne(s, i), e).actors;
  }

  lemma {:induction false} GrantCommutes<R>(s: State<R>, e: Encounter, granted: seq<nat>)
    requires Compatible(s, e)
    ensures Grant(Extend(s, e), granted) == Extend(Grant(s, granted), e)
    ensures Compatible(Grant(s, granted), e)
    decreases |granted|
  {
    SameSize(s, e);
    if granted == [] {
    } else {
      var i := granted[0];
      if i < |s.actors| && s.actors[i].rotation.None? {
        GrantOneCommutes(s, e, i);
        GrantCommutes(GrantOne(s, i), e, granted[1..]);
      } else {
        GrantCommutes(s, e, granted[1..]);
      }
    }
  }

  lemma RegroupCommutes<R>(s: State<R>, e: Encounter, moved: seq<nat>)
    requires Compatible(s, e)
    ensures Compatible(Regroup(s, moved), e)
    ensures Regroup(Extend(s, e), moved) == Extend(Regroup(s, moved), e)
  {
    RegroupKeepsShape(s, moved);
  }

  lemma FinishIgnoresLaterCasts<R>(k: Rules<R>, s: State<R>, e: Encounter)
    requires Compatible(s, e)
    ensures FinishTick(k, Extend(s, e)) == MapOutcome(FinishTick(k, s), (t: State<R>) => Extend(t, e))
    ensures Compatible(FinishTick(k, s).state, e)
  {
    hide Grant;
    SameSize(s, e);
    var f := FrameOf(e);
    assert s.encounter.conditionTickOffset == f.conditionTickOffset;
    match k.after(f, s.tick, PulseDue(s.tick, f.conditionTickOffset), FlagsOf(s.actors), s.rest) {
      case Aborted(_, _) =>
      case Ended(rest, granted, moved) =>
        GrantCommutes(s.(rest := rest), e, granted);
        assert Extend(s, e).(rest := rest) == Extend(s.(rest := rest), e);
        RegroupCommutes(Grant(s.(rest := rest), granted), e, moved);
    }
  }

  /** A tick that starts with the next cast still to come does not look past it. */
  lemma TickIgnoresLaterCasts<R>(k: Rules<R>, s: State<R>, e: Encounter)
    requires Blind(s, e)
    ensures StateOk(Extend(s, e))
    ensures Tick(k, Extend(s, e)) == MapOutcome(Tick(k, s), (t: State<R>) => Extend(t, e))
    ensures Compatible(Tick(k, s).state, e)
  {
    hide VisitAll, FinishTick, FrameOf;
    ExtendIsOk(s, e);
    SameSize(s, e);
    var settled := s.(rest := k.settle(s.rest));
    assert Blind(settled, e) && Extend(s, e).(rest := k.settle(s.rest)) == Extend(settled, e);
    ReversedKeeps(s.order);
    VisitAllIgnoresLaterCasts(k, settled, e, Reversed(s.order));
    var o := VisitAll(k, settled, Reversed(s.order));
    if o.Running? {
      FinishIgnoresLaterCasts(k, o.state, e);
    }
  }

  lemma ContinuesIgnoresCasts<R>(k: Rules<R>, e1: Encounter, s: State<R>, e: Encounter)
    requires e1.conditions == e.conditions
    requires Compatible(s, e)
    ensures Continues(k, e, Extend(s, e)) == Continues(k, e1, s)
  {
    hide Stops;
    assert RosterOf(k, Extend(s, e)) == RosterOf(k, s);
  }

  /** As long as the shorter request has casts to start, the longer one runs in lockstep with it. */
  lemma ShorterRunsInLockstep<R(!new)>(k: Rules<R>, e1: Encounter, e: Encounter)
    requires e1.conditions == e.conditions
    ensures Lockstep(Simulate(k, e1), Simulate(k, e), (s: State<R>) => Extend(s, e), (s: State<R>) => Blind(s, e))
  {
    forall s: State<R> | Blind(s, e)
      ensures Simulate(k, e).go(Extend(s, e)) == Simulate(k, e1).go(s)
      ensures forall first: bool :: Simulate(k, e).turn(Extend(s, e), first) ==
                MapOutcome(Simulate(k, e1).turn(s, first), (t: State<R>) => Extend(t, e))
    {
      hide Tick, StateOk, FrameOf, Stops, Extend;
      ContinuesIgnoresCasts(k, e1, s, e);
      forall first: bool
        ensures Simulate(k, e).turn(Extend(s, e), first) ==
                MapOutcome(Simulate(k, e1).turn(s, first), (t: State<R>) => Extend(t, e))
      {
        TurnIgnoresLaterTurns(k, s, e, first);
      }
    }
  }

  lemma TurnIgnoresLaterTurns<R>(k: Rules<R>, s: State<R>, e: Encounter, first: bool)
    requires Blind(s, e)
    ensures StateOk(s)
    ensures LoopStep(k, Extend(s, e), first) == MapOutcome(LoopStep(k, s, first), (t: State<R>) => Extend(t, e))
    ensures Compatible(LoopStep(k, s, first).state, e)
  {
    hide Tick, FrameOf;
    var s' := if first then s else s.(tick := (s.tick + 1) % TICK_WRAP);
    assert Extend(s', e) == if first then Extend(s, e) else Extend(s, e).(tick := (s.tick + 1) % TICK_WRAP);
    TickIgnoresLaterCasts(k, s', e);
    ExtendIsOk(s, e);
  }

  // ---------- Fresh starts ----------

  lemma {:induction false} SameOrder(e1: Encounter, e2: Encounter, upTo: nat)
    requires |e1.actors| == |e2.actors| && upTo <= |e1.actors|
    requires forall i :: 0 <= i < upTo ==> (e1.actors[i].casts == [] <==> e2.actors[i].casts == [])
    ensures RotatingActors(e1, upTo) == RotatingActors(e2, upTo)
  {
    if upTo == 0 {
    } else {
      SameOrder(e1, e2, upTo - 1);
    }
  }

  lemma InitialIsExtended<R>(e1: Encounter, e: Encounter, rest: R)
    requires e1.actors != [] && e.actors != [] && |e1.actors| == |e.actors|
    requires forall i :: 0 < i < |e1.actors| ==> e1.actors[i] == e.actors[i]
    requires e1.actors[0].repeat == e.actors[0].repeat && (LeadCasts(e1) == [] <==> LeadCasts(e) == [])
    ensures InitialState(e, rest) == Extend(InitialState(e1, rest), e)
  {
    SameOrder(e1, e, |e.actors|);
    assert InitialState(e, rest).actors == Extend(InitialState(e1, rest), e).actors;
  }

  lemma InitialIsBlind<R>(e1: Encounter, e: Encounter, rest: R)
    requires Extends(e1, e) && FrameOf(e1) == FrameOf(e) && |e1.actors| == |e.actors|
    requires e1.actors[0].repeat == e.actors[0].repeat && (LeadCasts(e1) == [] <==> LeadCasts(e) == [])
    requires StateOk(InitialState(e1, rest))
    ensures Blind(InitialState(e1, rest), e)
  {
    hide StateOk, FrameOf;
  }

  /** Setting up a request and a prefix of it differ only in the casts and in the stored encounter. */
  lemma FreshIsExtended<R>(k: Rules<R>, e1: Encounter, e: Encounter)
    requires Extends(e1, e) && (LeadCasts(e1) == [] ==> LeadCasts(e) == [])
    ensures Fresh(k, e1).Some? <==> Fresh(k, e).Some?
    ensures Fresh(k, e1).Some? ==>
              && Fresh(k, e).value == Extend(Fresh(k, e1).value, e)
              && Blind(Fresh(k, e1).value, e)
  {
    hide StateOk, FrameOf, InitialState, Extend, Blind;
    ExtendsKeepsFrame(e1, e);
    if Fresh(k, e1).Some? {
      FreshIsOk(k, e1);
      var rest := k.settle(k.setup(FrameOf(e)).rest);
      InitialIsExtended(e1, e, rest);
      InitialIsBlind(e1, e, rest);
    }
  }

  // ---------- Statistics stay set up ----------

  predicate Settled<R(==)>(k: Rules<R>, s: State<R>)
  {
    k.settle(s.rest) == s.rest
  }

  lemma TurnKeepsSettled<R(!new)>(k: Rules<R>, s: State<R>, i: nat)
    requires Settles(k) && StateOk(s) && i < |s.actors|
    requires Settled(k, s) && Visit(k, s, i).Running?
    ensures Settled(k, Visit(k, s, i).state)
  {
    var f := FrameOf(s.encounter);
    var b := k.before(f, s.tick, s.rest, i);
    assert k.settle(b.rest) == b.rest;
    var q := k.castQueued(f, s.tick, b.rest, i);
    assert k.settle(q.rest) == q.rest;
    if s.actors[i].rotation.Some? && !Exhausted(s.actors[i].rotation.value) {
      var r := Rewind(s.actors[i].rotation.value, s.tick);
      var c := k.cast(f, s.tick, b.rest, i, r.casts[r.idx].skill);
      assert !c.Refuses? ==> k.settle(c.rest) == c.rest;
    }
  }

  lemma {:induction false} VisitsKeepSettled<R(!new)>(k: Rules<R>, s: State<R>, pending: seq<nat>)
    requires Settles(k) && StateOk(s) && Within(pending, |s.actors|)
    requires Settled(k, s) && VisitAll(k, s, pending).Running?
    ensures Settled(k, VisitAll(k, s, pending).state)
    decreases |pending|
  {
    hide Settles, Visit;
    if pending == [] {
    } else {
      VisitKeepsShape(k, s, pending[0]);
      TurnKeepsSettled(k, s, pending[0]);
      VisitsKeepSettled(k, Visit(k, s, pending[0]).state, pending[1..]);
    }
  }

  /** Repeating the statistics setup at the end of a tick changes nothing. */
  lemma TickSettles<R(!new)>(k: Rules<R>, s: State<R>)
    requires Settles(k) && StateOk(s) && Tick(k, s).Running?
    ensures Settled(k, Tick(k, s).state)
  {
    hide VisitAll;
    var settled := s.(rest := k.settle(s.rest));
    ReversedKeeps(s.order);
    VisitsKeepSettled(k, settled, Reversed(s.order));
    var o := VisitAll(k, settled, Reversed(s.order)).state;
    match k.after(FrameOf(o.encounter), o.tick, PulseDue(o.tick, o.encounter.conditionTickOffset), FlagsOf(o.actors), o.rest) {
      case Aborted(_, _) =>
      case Ended(rest, granted, _) => GrantKeepsRest(o.(rest := rest), granted);
    }
  }

  lemma {:induction false} GrantKeepsRest<R>(s: State<R>, granted: seq<nat>)
    ensures Grant(s, granted).rest == s.rest
    decreases |granted|
  {
    if granted == [] {
    } else {
      var i := granted[0];
      GrantKeepsRest(if i < |s.actors| && s.actors[i].rotation.None? then GrantOne(s, i) else s, granted[1..]);
    }
  }

  /** Every state of a fresh run is well formed and has its statistics set up. */
  lemma FreshRunSettled<R(!new)>(k: Rules<R>, e: Encounter, n: nat)
    requires Settles(k) && Fresh(k, e).Some? && After(Simulate(k, e), Fresh(k, e).value, true, n).Some?
    ensures var t := After(Simulate(k, e), Fresh(k, e).value, true, n).value;
            Settled(k, t) && StateOk(t) && t.encounter == e
  {
    FreshIsOk(k, e);
    var m, inv := Simulate(k, e), (s: State<R>) => StateOk(s) && s.encounter == e && Settled(k, s);
    forall s: State<R>, first: bool | inv(s) && m.turn(s, first).Running?
      ensures inv(m.turn(s, first).state)
    {
      hide Tick;
      AdvanceKeepsShape(k, s, first);
      TickSettles(k, if first then s else s.(tick := (s.tick + 1) % TICK_WRAP));
    }
    InvariantHolds(m, inv, Fresh(k, e).value, true, n);
  }

  // ---------- A snapshot lies on the path of every longer request ----------

  lemma BlindLeadsToCompatible<R(!new)>(k: Rules<R>, e1: Encounter, e: Encounter)
    ensures forall s: State<R>, first: bool :: Blind(s, e) && Simulate(k, e1).turn(s, first).Running? ==>
              Compatible(Simulate(k, e1).turn(s, first).state, e)
  {
    forall s: State<R>, first: bool | Blind(s, e) && Simulate(k, e1).turn(s, first).Running?
      ensures Compatible(Simulate(k, e1).turn(s, first).state, e)
    {
      hide Compatible;
      TurnIgnoresLaterTurns(k, s, e, first);
    }
  }

  /** Up to the snapshot, the longer request passes through the same states, with its own casts in them. */
  lemma PathIsShared<R(!new)>(k: Rules<R>, e1: Encounter, e: Encounter, n: nat, t: State<R>, j: nat)
    requires TakenAt(k, e1, n, t) && Extends(e1, e) && (LeadCasts(e1) == [] ==> LeadCasts(e) == [])
    requires j <= n
    ensures Fresh(k, e).Some?
    ensures var s1 := After(Simulate(k, e1), Fresh(k, e1).value, true, j);
            && s1.Some?
            && Compatible(s1.value, e)
            && After(Simulate(k, e), Fresh(k, e).value, true, j) == Some(Extend(s1.value, e))
  {
    hide StateOk, Continues, FrameOf, Compatible, Simulate;
    FreshIsExtended(k, e1, e);
    ExtendsKeepsFrame(e1, e);
    ShorterRunsInLockstep(k, e1, e);
    BlindLeadsToCompatible(k, e1, e);
    var m1, s := Simulate(k, e1), Fresh(k, e1).value;
    AfterSplits(m1, s, true, j, n - j);
    forall i: nat | i < j && After(m1, s, true, i).Some? && Compatible(After(m1, s, true, i).value, e)
      ensures Blind(After(m1, s, true, i).value, e)
    {
      assert i > 0 ==> PendingAt(k, e1, i);
    }
    LockstepRuns(m1, Simulate(k, e), (s: State<R>) => Extend(s, e), (s: State<R>) => Blind(s, e), (s: State<R>) => Compatible(s, e), s, true, j);
  }

  lemma ExtendsItself(e: Encounter)
    requires e.actors != []
    ensures Extends(e, e)
  {
    assert WithLeadCasts(e, LeadCasts(e)).actors == e.actors;
  }

  /**
   The state a longer request resumes from is the one its own uninterrupted run reaches after the
   same number of ticks, and at every earlier tick that run still had casts to start. A snapshot
   taken before any tick is only ever resumed into runs that stop at once.
   */
  lemma SnapshotIsOnPath<R(!new)>(k: Rules<R>, e1: Encounter, e: Encounter, n: nat, t: State<R>)
    requires Settles(k)
    requires TakenAt(k, e1, n, t) && Extends(e1, e) && (LeadCasts(e1) == [] ==> LeadCasts(e) == [])
    ensures Fresh(k, e).Some? && |t.actors| == |e.actors|
    ensures After(Simulate(k, e), Fresh(k, e).value, true, n) == Some(Resume(t, e, 0))
    ensures StateOk(Resume(t, e, 0)) && Settled(k, Resume(t, e, 0))
    ensures forall j :: 1 <= j < n ==> PendingAt(k, e, j)
    ensures n == 0 ==> !Continues(k, e, Resume(t, e, 0))
    ensures n > 0 && LeadCasts(e1) < LeadCasts(e) ==> PendingAt(k, e, n)
    ensures Pending(t, 0) ==> !Continues(k, e, Resume(t, e, 0)) && Pending(Resume(t, e, 0), 0)
    ensures LeadCasts(e1) == LeadCasts(e) && Pending(Resume(t, e, 0), 0) ==> Pending(t, 0)
    ensures Continues(k, e, Resume(t, e, 0)) <==> Continues(k, e1, t)
  {
    hide StateOk, Continues, FrameOf, Simulate, Extends;
    PathIsShared(k, e1, e, n, t, n);
    ResumeIsExtend(t, e);
    FreshRunSettled(k, e, n);
    ExtendsKeepsFrame(e1, e);
    ContinuesIgnoresCasts(k, e1, t, e);
    forall j | 1 <= j < n
      ensures PendingAt(k, e, j)
    {
      PathIsShared(k, e1, e, n, t, j);
      assert PendingAt(k, e1, j);
    }
    ExtendsItself(e1);
    PathIsShared(k, e1, e1, n, t, n);
  }
}
