/**
 The mutable simulation and one tick of it.

 A configured actor's rotation is modelled cast by cast, because it is what the prefix cache
 depends on. Everything else in the registry is the component `rest`, and every other game rule
 is an arbitrary function in `Rules`: no result below assumes anything about damage, effects,
 cooldowns, child actors or random rolls, except that they do not read a rotation's queue.
 */
module Simulation {
  import opened Options
  import opened Encounters
  import opened Sequences
  import opened StopPredicate
  import opened Runs

  /** `idx` is the next cast; a repeating rotation restarts relative to `tickOffset`. */
  datatype Rotation = Rotation(casts: seq<Cast>, idx: nat, tickOffset: nat, repeat: bool)

  /** One configured actor: its rotation component, if any, and its no-more-rotation mark. */
  datatype Actor = Actor(rotation: Option<Rotation>, noMore: bool)

  /** `order` is the packed order of the rotation storage, restricted to configured actors. */
  datatype State<R> = State(
    tick: nat,
    encounter: Encounter,
    actors: seq<Actor>,
    order: seq<nat>,
    rest: R)

  datatype Step<R> = Done(rest: R) | Broken(rest: R, error: string)

  /** Trying a queued cast: not now, started, or an error that ends the simulation. Looking it up may draw numbers. */
  datatype CastStep<R> = Waits(rest: R) | Starts(rest: R) | Refuses(rest: R, error: string)

  /**
   The rest of a tick. `granted` are actors that are given an empty rotation component. Destroying child
   actors may move the last of the configured ones forward, to each of the positions in `moved`.
   */
  datatype AfterStep<R> = Ended(rest: R, granted: seq<nat>, moved: seq<nat>) | Aborted(rest: R, error: string)

  datatype SetupStep<R> = Ready(rest: R) | Rejected(error: string)

  /** Writing a report evaluates conditions, which may draw random numbers, and may fail half-way. */
  datatype ReportStep<R> = Reported(text: string, rest: R) | Unreportable(rest: R, error: string)

  datatype Flags = Flags(hasRotation: bool, noMore: bool)

  /** A sighting in `rest`; a configured actor's rotation flags come from its `Actor`. */
  datatype Observed = Observed(sighting: Sighting, configured: Option<nat>)

  datatype Rules<!R> = Rules(
    setup: Frame -> SetupStep<R>,
    settle: R -> R,
    before: (Frame, nat, R, nat) -> Step<R>,
    hasQueued: (R, nat) -> bool,
    castQueued: (Frame, nat, R, nat) -> Step<R>,
    cast: (Frame, nat, R, nat, string) -> CastStep<R>,
    after: (Frame, nat, bool, seq<Flags>, R) -> AfterStep<R>,
    roster: R -> seq<Observed>,
    report: (nat, R, int, Option<string>) -> ReportStep<R>)

  /** Combat statistics, once set up, stay set up: repeating the setup changes nothing. */
  ghost predicate Settles<R(!new)>(k: Rules<R>)
  {
    && (forall r: R :: k.settle(k.settle(r)) == k.settle(r))
    && (forall f: Frame, t: nat, r: R, i: nat :: k.settle(r) == r ==> k.settle(k.before(f, t, r, i).rest) == k.before(f, t, r, i).rest)
    && (forall f: Frame, t: nat, r: R, i: nat :: k.settle(r) == r ==> k.settle(k.castQueued(f, t, r, i).rest) == k.castQueued(f, t, r, i).rest)
    && (forall f: Frame, t: nat, r: R, i: nat, c: string :: k.settle(r) == r && !k.cast(f, t, r, i, c).Refuses? ==>
          k.settle(k.cast(f, t, r, i, c).rest) == k.cast(f, t, r, i, c).rest)
    && (forall f: Frame, t: nat, p: bool, a: seq<Flags>, r: R :: k.settle(r) == r ==>
          k.settle(k.after(f, t, p, a, r).rest) == k.after(f, t, p, a, r).rest)
  }

  /** Reporting leaves alone what the exit test looks at, and the statistics that are set up. */
  ghost predicate ReportsOnlyDraw<R(!new)>(k: Rules<R>)
  {
    forall tick: nat, r: R, offset: int :: OnlyDraws(k, tick, r, offset)
  }

  predicate OnlyDraws<R(==)>(k: Rules<R>, tick: nat, r: R, offset: int)
  {
    var after := k.report(tick, r, offset, None).rest;
    k.roster(after) == k.roster(r) && (k.settle(r) == r ==> k.settle(after) == after)
  }

  predicate RotationOk(r: Rotation)
  {
    r.casts == [] ==> !r.repeat
  }

  predicate Within(s: seq<nat>, n: nat)
  {
    forall j :: 0 <= j < |s| ==> s[j] < n
  }

  ghost predicate StateOk<R>(s: State<R>)
  {
    && |s.actors| == |s.encounter.actors|
    && NoRepeats(s.order)
    && Within(s.order, |s.actors|)
    && (forall i: nat :: i in s.order ==> s.actors[i].rotation.Some?)
    && (forall i: nat :: i < |s.actors| && s.actors[i].rotation.Some? ==> i in s.order)
    && (forall i: nat :: i < |s.actors| ==> ActorOk(s.actors[i]))
  }

  // ---------- One actor's turn ----------

  /** A cast may start at the time the rotation gives, shifted by the last restart; the sum wraps. */
  predicate Due(tick: nat, c: Cast, r: Rotation)
  {
    tick >= (c.castTime + r.tickOffset) % TICK_WRAP
  }

  /** A repeating rotation that has run out starts again now. */
  function Rewind(r: Rotation, tick: nat): Rotation
  {
    if r.idx >= |r.casts| then r.(idx := 0, tickOffset := tick) else r
  }

  predicate Exhausted(r: Rotation)
  {
    r.idx >= |r.casts| && !r.repeat
  }

  predicate ActorOk(a: Actor)
  {
    a.rotation.Some? ==> RotationOk(a.rotation.value)
  }

  /** What a turn leaves of its actor and of everything else; an error ends the tick. */
  datatype Turn<R> = Turn(actor: Actor, rest: R, error: Option<string>)

  /** The turn of actor `i` when it has a rotation to perform and nothing queued in front of it. */
  function PerformNext<R>(k: Rules<R>, f: Frame, tick: nat, rest: R, i: nat, a: Actor): Turn<R>
    requires a.rotation.Some? && ActorOk(a)
  {
    if Exhausted(a.rotation.value) then
      Turn(a.(noMore := true), rest, None)
    else
      var r := Rewind(a.rotation.value, tick);
      var next := r.casts[r.idx];
      if !Due(tick, next, r) then
        Turn(a.(rotation := Some(r)), rest, None)
      else
        match k.cast(f, tick, rest, i, next.skill)
        case Waits(rest') => Turn(a.(rotation := Some(r)), rest', None)
        case Refuses(rest', error) => Turn(a.(rotation := Some(r)), rest', Some(error))
        case Starts(rest') => Turn(a.(rotation := Some(r.(idx := r.idx + 1))), rest', None)
  }

  /** Actor `i`'s turn in the first pass of a tick; unconfigured entities visited before it act in `before`. */
  function TakeTurn<R>(k: Rules<R>, f: Frame, tick: nat, rest: R, i: nat, a: Actor): Turn<R>
    requires ActorOk(a)
  {
    match k.before(f, tick, rest, i)
    case Broken(rest', error) => Turn(a, rest', Some(error))
    case Done(rest') =>
      if a.rotation.None? || a.noMore then
        Turn(a, rest', None)
      else if k.hasQueued(rest', i) then
        match k.castQueued(f, tick, rest', i)
        case Broken(rest'', error) => Turn(a, rest'', Some(error))
        case Done(rest'') => Turn(a, rest'', None)
      else
        PerformNext(k, f, tick, rest', i, a)
  }

  lemma TurnKeepsActorOk<R>(k: Rules<R>, f: Frame, tick: nat, rest: R, i: nat, a: Actor)
    requires ActorOk(a)
    ensures ActorOk(TakeTurn(k, f, tick, rest, i, a).actor)
    ensures TakeTurn(k, f, tick, rest, i, a).actor.rotation.Some? == a.rotation.Some?
  {
  }

  function Visit<R>(k: Rules<R>, s: State<R>, i: nat): Outcome<State<R>>
    requires i < |s.actors| && ActorOk(s.actors[i])
  {
    var t := TakeTurn(k, FrameOf(s.encounter), s.tick, s.rest, i, s.actors[i]);
    var s' := s.(actors := s.actors[i := t.actor], rest := t.rest);
    if t.error.None? then Running(s') else Failed(s', t.error.value)
  }

  /** `s'` is `s` after a turn of actor `i`. */
  ghost predicate OnlyActorMoved<R>(s: State<R>, s': State<R>, i: nat)
  {
    && StateOk(s')
    && s'.order == s.order && s'.tick == s.tick && s'.encounter == s.encounter
    && |s'.actors| == |s.actors|
    && forall j :: 0 <= j < |s.actors| && j != i ==> s'.actors[j] == s.actors[j]
  }

  lemma VisitKeepsShape<R>(k: Rules<R>, s: State<R>, i: nat)
    requires StateOk(s) && i < |s.actors|
    ensures OnlyActorMoved(s, Visit(k, s, i).state, i)
  {
    hide TakeTurn, RotationOk;
    TurnKeepsActorOk(k, FrameOf(s.encounter), s.tick, s.rest, i, s.actors[i]);
  }

  // ---------- A whole tick ----------

  /** The turns of the listed actors, one after another. */
  function VisitAll<R>(k: Rules<R>, s: State<R>, pending: seq<nat>): Outcome<State<R>>
    requires StateOk(s) && Within(pending, |s.actors|)
    decreases |pending|
  {
    if pending == [] then Running(s)
    else
      VisitKeepsShape(k, s, pending[0]);
      match Visit(k, s, pending[0])
      case Failed(s', e) => Failed(s', e)
      case Running(s') => VisitAll(k, s', pending[1..])
  }

  lemma NobodyLeft<R>(k: Rules<R>, s: State<R>)
    requires StateOk(s)
    ensures VisitAll(k, s, []) == Running(s)
  {
  }

  lemma VisitAllUnfolds<R>(k: Rules<R>, s: State<R>, turns: seq<nat>, n: nat)
    requires StateOk(s) && Within(turns, |s.actors|) && n < |turns|
    ensures var o := Visit(k, s, turns[n]);
            && Within(turns[n..], |s.actors|)
            && Within(turns[n + 1..], |s.actors|)
            && StateOk(o.state) && o.state.order == s.order && |o.state.actors| == |s.actors|
            && VisitAll(k, s, turns[n..]) == if o.Failed? then o else VisitAll(k, o.state, turns[n + 1..])
  {
    VisitKeepsShape(k, s, turns[n]);
    assert turns[n..][1..] == turns[n + 1..];
  }

  function FlagsOf(actors: seq<Actor>): seq<Flags>
  {
    seq(|actors|, i requires 0 <= i < |actors| => Flags(actors[i].rotation.Some?, actors[i].noMore))
  }

  function GrantOne<R>(s: State<R>, i: nat): State<R>
    requires i < |s.actors|
  {
    s.(actors := s.actors[i := s.actors[i].(rotation := Some(Rotation([], 0, 0, false)))], order := s.order + [i])
  }

  /** Skills queued on an actor give it an empty rotation component, at the end of the storage. */
  function Grant<R>(s: State<R>, granted: seq<nat>): State<R>
    decreases |granted|
  {
    if granted == [] then s
    else
      var i := granted[0];
      Grant(if i < |s.actors| && s.actors[i].rotation.None? then GrantOne(s, i) else s, granted[1..])
  }

  function Regroup<R>(s: State<R>, moved: seq<nat>): State<R>
  {
    s.(order := MoveAll(s.order, moved))
  }

  /** The sum is taken in 32-bit unsigned arithmetic. */
  predicate PulseDue(tick: nat, offset: int)
  {
    (tick + offset) % TICK_WRAP % 1000 == 0
  }

  function FinishTick<R>(k: Rules<R>, s: State<R>): Outcome<State<R>>
  {
    match k.after(FrameOf(s.encounter), s.tick, PulseDue(s.tick, s.encounter.conditionTickOffset), FlagsOf(s.actors), s.rest)
    case Aborted(rest, error) => Failed(s.(rest := rest), error)
    case Ended(rest, granted, moved) => Running(Regroup(Grant(s.(rest := rest), granted), moved))
  }

  /** One tick: statistics, one turn per rotation from the back of the storage, everything else. */
  function Tick<R>(k: Rules<R>, s: State<R>): Outcome<State<R>>
    requires StateOk(s)
  {
    ReversedKeeps(s.order);
    match VisitAll(k, s.(rest := k.settle(s.rest)), Reversed(s.order))
    case Failed(s', e) => Failed(s', e)
    case Running(s') => FinishTick(k, s')
  }

  /** One turn of the loop: the clock moves except before the very first tick of a fresh run. */
  function Advance<R>(k: Rules<R>, s: State<R>, first: bool): Outcome<State<R>>
    requires StateOk(s)
  {
    Tick(k, if first then s else s.(tick := (s.tick + 1) % TICK_WRAP))
  }

  // ---------- Setup, exit test and report ----------

  function RotatingActors(e: Encounter, upTo: nat): (order: seq<nat>)
    requires upTo <= |e.actors|
    ensures NoRepeats(order)
    ensures forall i: nat :: i in order <==> i < upTo && e.actors[i].casts != []
  {
    if upTo == 0 then []
    else if e.actors[upTo - 1].casts != [] then RotatingActors(e, upTo - 1) + [upTo - 1]
    else RotatingActors(e, upTo - 1)
  }

  function InitialActor(a: ActorConfig): Actor
  {
    Actor(if a.casts == [] then None else Some(Rotation(a.casts, 0, 0, a.repeat)), false)
  }

  function InitialState<R>(e: Encounter, rest: R): State<R>
  {
    State(0, e, seq(|e.actors|, i requires 0 <= i < |e.actors| => InitialActor(e.actors[i])), RotatingActors(e, |e.actors|), rest)
  }

  function RosterOf<R>(k: Rules<R>, s: State<R>): seq<Sighting>
  {
    var seen := k.roster(s.rest);
    seq(|seen|, i requires 0 <= i < |seen| => Resolve(seen[i], s.actors))
  }

  function Resolve(o: Observed, actors: seq<Actor>): Sighting
  {
    if o.configured.Some? && o.configured.value < |actors| then
      var a := actors[o.configured.value];
      o.sighting.(hasRotation := a.rotation.Some?, noMoreRotation := a.noMore)
    else o.sighting
  }

  ghost predicate Continues<R>(k: Rules<R>, e: Encounter, s: State<R>)
  {
    !Stops(e.conditions, RosterOf(k, s), s.tick)
  }

  // ---------- The same, in place ----------

  /** The registry of one simulation, changed in place. */
  class Registry<R> {
    var tick: nat
    var encounter: Encounter
    var actors: seq<Actor>
    var order: seq<nat>
    var rest: R

    ghost function View(): State<R>
      reads this
    {
      State(tick, encounter, actors, order, rest)
    }

    constructor (s: State<R>)
      ensures View() == s
    {
      tick, encounter, actors, order, rest := s.tick, s.encounter, s.actors, s.order, s.rest;
    }

    /** A copy of the present state. */
    method Snapshot() returns (s: State<R>)
      ensures s == View()
    {
      s := State(tick, encounter, actors, order, rest);
    }

    method PerformNextCast(k: Rules<R>, i: nat) returns (error: Option<string>)
      requires i < |actors| && actors[i].rotation.Some? && ActorOk(actors[i])
      modifies this
      ensures tick == old(tick) && encounter == old(encounter) && order == old(order)
      ensures var t := PerformNext(k, FrameOf(encounter), tick, old(rest), i, old(actors[i]));
              actors == old(actors)[i := t.actor] && rest == t.rest && error == t.error
    {
      error := None;
      var rotation := actors[i].rotation.value;
      if rotation.idx >= |rotation.casts| {
        if rotation.repeat {
          rotation := rotation.(idx := 0, tickOffset := tick);
          actors := actors[i := actors[i].(rotation := Some(rotation))];
        } else {
          actors := actors[i := actors[i].(noMore := true)];
          return;
        }
      }
      var next := rotation.casts[rotation.idx];
      if tick < (next.castTime + rotation.tickOffset) % TICK_WRAP {
        return;
      }
      match k.cast(FrameOf(encounter), tick, rest, i, next.skill) {
        case Waits(r) =>
          rest := r;
        case Refuses(r, e) =>
          rest := r;
          error := Some(e);
        case Starts(r) =>
          rest := r;
          actors := actors[i := actors[i].(rotation := Some(rotation.(idx := rotation.idx + 1)))];
      }
    }

    method VisitActor(k: Rules<R>, i: nat) returns (error: Option<string>)
      requires StateOk(View()) && i < |actors|
      modifies this
      ensures Visit(k, old(View()), i) ==
              if error.None? then Running(View()) else Failed(View(), error.value)
      ensures StateOk(View()) && order == old(order) && |actors| == old(|actors|)
    {
      VisitKeepsShape(k, View(), i);
      assert actors == actors[i := actors[i]];
      error := None;
      match k.before(FrameOf(encounter), tick, rest, i) {
        case Broken(r, e) =>
          rest := r;
          return Some(e);
        case Done(r) =>
          rest := r;
      }
      if actors[i].rotation.None? || actors[i].noMore {
        return;
      }
      if k.hasQueued(rest, i) {
        match k.castQueued(FrameOf(encounter), tick, rest, i) {
          case Broken(r, e) =>
            rest := r;
            error := Some(e);
          case Done(r) =>
            rest := r;
        }
        return;
      }
      error := PerformNextCast(k, i);
    }

    /** The first pass over the rotation storage, from its back to its front. */
    method PerformRotations(k: Rules<R>) returns (error: Option<string>)
      requires StateOk(View())
      modifies this
      ensures (ReversedKeeps(old(order)); VisitAll(k, old(View()), Reversed(old(order)))) ==
              if error.None? then Running(View()) else Failed(View(), error.value)
    {
      hide Visit, VisitAll, NoRepeats, RotationOk;
      error := None;
      ghost var turns := Reversed(order);
      ReversedKeeps(order);
      ghost var outcome := VisitAll(k, View(), turns);
      var n := |order|;
      assert turns[|turns| - n..] == turns;
      while n > 0
        invariant StateOk(View()) && order == old(order)
        invariant Within(turns, |actors|)
        invariant 0 <= n <= |order| == |turns|
        invariant error.None?
        invariant Within(turns[|turns| - n..], |actors|)
        invariant outcome == VisitAll(k, View(), turns[|turns| - n..])
      {
        VisitAllUnfolds(k, View(), turns, |turns| - n);
        n := n - 1;
        error := VisitActor(k, order[n]);
        if error.Some? {
          return;
        }
      }
      assert turns[|turns|..] == [];
      NobodyLeft(k, View());
    }

    method GrantRotations(granted: seq<nat>)
      modifies this
      ensures View() == Grant(old(View()), granted)
    {
      for j := 0 to |granted|
        invariant Grant(View(), granted[j..]) == Grant(old(View()), granted)
      {
        var i := granted[j];
        assert granted[j..][0] == i && granted[j..][1..] == granted[j + 1..];
        if i < |actors| && actors[i].rotation.None? {
          actors := actors[i := actors[i].(rotation := Some(Rotation([], 0, 0, false)))];
          order := order + [i];
        }
      }
    }

    /** Closes the gaps that removed child actors leave in the rotation storage. */
    method MoveRotations(moved: seq<nat>)
      modifies this`order
      ensures View() == Regroup(old(View()), moved)
    {
      for j := 0 to |moved|
        invariant MoveAll(order, moved[j..]) == MoveAll(old(order), moved)
        invariant actors == old(actors) && tick == old(tick) && encounter == old(encounter) && rest == old(rest)
      {
        var i := moved[j];
        assert moved[j..][0] == i && moved[j..][1..] == moved[j + 1..];
        if i < |order| {
          order := order[..i] + [order[|order| - 1]] + order[i..|order| - 1];
        }
      }
    }

    method TickOnce(k: Rules<R>) returns (error: Option<string>)
      requires StateOk(View())
      modifies this
      ensures Tick(k, old(View())) == if error.None? then Running(View()) else Failed(View(), error.value)
    {
      rest := k.settle(rest);
      error := PerformRotations(k);
      if error.Some? {
        return;
      }
      match k.after(FrameOf(encounter), tick, PulseDue(tick, encounter.conditionTickOffset), FlagsOf(actors), rest) {
        case Aborted(r, e) =>
          rest := r;
          error := Some(e);
        case Ended(r, granted, moved) =>
          rest := r;
          GrantRotations(granted);
          MoveRotations(moved);
      }
    }

    /** Moves the clock, except before the first tick of a fresh run, and ticks. */
    method AdvanceOnce(k: Rules<R>, first: bool) returns (error: Option<string>)
      requires StateOk(View())
      modifies this
      ensures Advance(k, old(View()), first) == if error.None? then Running(View()) else Failed(View(), error.value)
    {
      hide Tick;
      if !first {
        tick := (tick + 1) % TICK_WRAP;
      }
      error := TickOnce(k);
    }

    method Roster(k: Rules<R>) returns (roster: seq<Sighting>)
      ensures roster == RosterOf(k, View())
    {
      var seen := k.roster(rest);
      var present := actors;
      roster := seq(|seen|, i requires 0 <= i < |seen| => Resolve(seen[i], present));
    }
  }
}
