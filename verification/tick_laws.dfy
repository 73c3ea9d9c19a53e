/** What a tick does, as laws of whole ticks: turn after turn from the back of the storage, then everything else. */
module TickLaws {
  import opened Options
  import opened Sequences
  import opened Encounters
  import opened Runs
  import opened Simulation
  import opened Battle

  // ---------- The turns of a tick, one after another ----------

  lemma {:induction false} VisitAllJoins<R>(k: Rules<R>, s: State<R>, turns: seq<nat>, more: seq<nat>)
    requires StateOk(s) && Within(turns, |s.actors|) && Within(more, |s.actors|)
    ensures Within(turns + more, |s.actors|)
    ensures var o := VisitAll(k, s, turns);
            && StateOk(o.state) && |o.state.actors| == |s.actors|
            && VisitAll(k, s, turns + more) == if o.Failed? then o else VisitAll(k, o.state, more)
    decreases |turns|
  {
    if turns == [] {
      NobodyLeft(k, s);
      assert turns + more == more;
    } else {
      VisitAllUnfolds(k, s, turns, 0);
      VisitAllUnfolds(k, s, turns + more, 0);
      var o := Visit(k, s, turns[0]);
      hide StateOk, Visit;
      assert turns[0..] == turns && (turns + more)[0..] == turns + more && (turns + more)[1..] == turns[1..] + more;
      if o.Running? {
        VisitAllJoins(k, o.state, turns[1..], more);
      }
    }
  }

  lemma {:induction false} OthersKeepTheirs<R>(k: Rules<R>, s: State<R>, turns: seq<nat>, i: nat)
    requires StateOk(s) && Within(turns, |s.actors|) && i < |s.actors| && i !in turns
    ensures |VisitAll(k, s, turns).state.actors| == |s.actors|
    ensures VisitAll(k, s, turns).state.actors[i] == s.actors[i]
    decreases |turns|
  {
    if turns == [] {
      NobodyLeft(k, s);
    } else {
      VisitAllUnfolds(k, s, turns, 0);
      VisitKeepsShape(k, s, turns[0]);
      var o := Visit(k, s, turns[0]);
      hide StateOk, Visit;
      assert turns[0..] == turns;
      if o.Running? {
        OthersKeepTheirs(k, o.state, turns[1..], i);
      }
    }
  }

  /** The state when all actors from position `q` of the storage on have had their turns, the last one first. */
  ghost function Behind<R>(k: Rules<R>, s: State<R>, q: nat): (o: Outcome<State<R>>)
    requires StateOk(s) && q <= |s.order|
    ensures StateOk(o.state) && |o.state.actors| == |s.actors|
    ensures o.state.order == s.order && o.state.tick == s.tick && o.state.encounter == s.encounter
  {
    ReversedKeeps(s.order[q..]);
    VisitAllKeepsShape(k, s.(rest := k.settle(s.rest)), Reversed(s.order[q..]));
    VisitAll(k, s.(rest := k.settle(s.rest)), Reversed(s.order[q..]))
  }

  lemma ReversedFront(s: seq<nat>, q: nat)
    requires q < |s|
    ensures Reversed(s[q..]) == Reversed(s[q + 1..]) + [s[q]]
  {
    assert s[q..][0] == s[q] && s[q..][1..] == s[q + 1..];
  }

  lemma SoleTurn<R>(k: Rules<R>, s: State<R>, i: nat)
    requires StateOk(s) && i < |s.actors|
    ensures VisitAll(k, s, [i]) == Visit(k, s, i)
  {
    VisitAllUnfolds(k, s, [i], 0);
    assert [i][0..] == [i] && [i][1..] == [];
    var v := Visit(k, s, i);
    hide Visit, StateOk;
    if v.Running? {
      NobodyLeft(k, v.state);
    }
  }

  lemma NobodyBehind<R>(k: Rules<R>, s: State<R>)
    requires StateOk(s)
    ensures Behind(k, s, |s.order|) == Running(s.(rest := k.settle(s.rest)))
  {
    assert s.order[|s.order|..] == [];
    NobodyLeft(k, s.(rest := k.settle(s.rest)));
  }

  /** Turns come from the back of the storage to its front; nobody's rotation changes before its own turn, or after. */
  lemma TurnsInOrder<R>(k: Rules<R>, s: State<R>, q: nat)
    requires StateOk(s) && q < |s.order|
    ensures var o := Behind(k, s, q + 1);
            && o.state.actors[s.order[q]] == s.actors[s.order[q]]
            && Behind(k, s, q) == if o.Running? then Visit(k, o.state, s.order[q]) else o
  {
    var settled := s.(rest := k.settle(s.rest));
    var i := s.order[q];
    ReversedKeeps(s.order[q + 1..]);
    var turns := Reversed(s.order[q + 1..]);
    assert StateOk(settled) && Within(turns, |s.actors|) && Within([i], |s.actors|);
    assert i !in s.order[q + 1..];
    ReversedFront(s.order, q);
    VisitAllJoins(k, settled, turns, [i]);
    OthersKeepTheirs(k, settled, turns, i);
    var o := VisitAll(k, settled, turns);
    if o.Running? {
      SoleTurn(k, o.state, i);
    }
  }

  // ---------- One turn ----------

  /** An actor whose rotation is over, or that has something queued, has its rotation left alone. */
  lemma TurnWithoutRotation<R>(k: Rules<R>, s: State<R>, i: nat)
    requires StateOk(s) && i < |s.actors| && s.actors[i].rotation.Some?
    ensures match k.before(FrameOf(s.encounter), s.tick, s.rest, i)
            case Broken(left, error) => Visit(k, s, i) == Failed(s.(rest := left), error)
            case Done(found) =>
              && (s.actors[i].noMore ==> Visit(k, s, i) == Running(s.(rest := found)))
              && (!s.actors[i].noMore && k.hasQueued(found, i) ==>
                    match k.castQueued(FrameOf(s.encounter), s.tick, found, i)
                    case Done(left) => Visit(k, s, i) == Running(s.(rest := left))
                    case Broken(left, error) => Visit(k, s, i) == Failed(s.(rest := left), error))
  {
    assert s.actors[i := s.actors[i]] == s.actors;
  }

  /** The state with what a turn makes of one rotation and of everything else. */
  function With<R>(s: State<R>, i: nat, r: Rotation, noMore: bool, rest: R): State<R>
    requires i < |s.actors|
  {
    s.(actors := s.actors[i := Actor(Some(r), noMore)], rest := rest)
  }

  /** Actor `i` may perform its rotation, and finds `found` of everything else. */
  predicate Free<R(==)>(k: Rules<R>, s: State<R>, i: nat, found: R)
    requires i < |s.actors|
  {
    && s.actors[i].rotation.Some? && !s.actors[i].noMore
    && k.before(FrameOf(s.encounter), s.tick, s.rest, i) == Done(found)
    && !k.hasQueued(found, i)
  }

  /** At the end of a rotation that does not repeat, the actor is marked. */
  lemma TurnAtTheEnd<R>(k: Rules<R>, s: State<R>, i: nat, found: R)
    requires StateOk(s) && i < |s.actors| && Free(k, s, i, found)
    requires var r := s.actors[i].rotation.value; r.idx >= |r.casts| && !r.repeat
    ensures Visit(k, s, i) == Running(With(s, i, s.actors[i].rotation.value, true, found))
  {
  }

  /**
   With cast `j` next in a rotation that began at tick `since`, the turn starts it exactly if its time has come
   and the rules let it start; a rotation that repeats begins again, at the present tick, when it has run out.
   */
  lemma TurnWithACast<R>(k: Rules<R>, s: State<R>, i: nat, found: R, j: nat, since: nat)
    requires StateOk(s) && i < |s.actors| && Free(k, s, i, found)
    requires var r := s.actors[i].rotation.value;
             || (j == r.idx < |r.casts| && since == r.tickOffset)
             || (r.idx >= |r.casts| && r.repeat && j == 0 && since == s.tick)
    ensures var r := s.actors[i].rotation.value;
            && j < |r.casts|
            && var waiting := Rotation(r.casts, j, since, r.repeat);
               if s.tick < (r.casts[j].castTime + since) % TICK_WRAP then
                 Visit(k, s, i) == Running(With(s, i, waiting, false, found))
               else
                 match k.cast(FrameOf(s.encounter), s.tick, found, i, r.casts[j].skill)
                 case Waits(left) => Visit(k, s, i) == Running(With(s, i, waiting, false, left))
                 case Starts(left) => Visit(k, s, i) == Running(With(s, i, waiting.(idx := j + 1), false, left))
                 case Refuses(left, error) => Visit(k, s, i) == Failed(With(s, i, waiting, false, left), error)
  {
    assert ActorOk(s.actors[i]);
  }

  // ---------- The end of a tick ----------

  /** `joined` are items of `granted`, found at their first mentions, in this order. */
  ghost predicate Mentions(granted: seq<nat>, joined: seq<nat>, at: seq<nat>)
  {
    && |at| == |joined|
    && (forall a :: 0 <= a < |at| ==> at[a] < |granted| && granted[at[a]] == joined[a] && joined[a] !in granted[..at[a]])
    && (forall a :: 0 < a < |at| ==> at[a - 1] < at[a])
  }

  /** Those of `granted` that have no rotation. */
  ghost predicate Lack(actors: seq<Actor>, granted: seq<nat>, joined: seq<nat>)
  {
    forall i :: i in joined <==> i in granted && i < |actors| && actors[i].rotation.None?
  }

  lemma MentionedLater(granted: seq<nat>, joined: seq<nat>, at: seq<nat>) returns (later: seq<nat>)
    requires granted != [] && Mentions(granted[1..], joined, at) && granted[0] !in joined
    ensures Mentions(granted, joined, later)
  {
    later := seq(|at|, a requires 0 <= a < |at| => at[a] + 1);
    forall a | 0 <= a < |at|
      ensures granted[at[a] + 1] == joined[a] && joined[a] !in granted[..at[a] + 1]
    {
      assert joined[a] in joined;
      assert granted[..at[a] + 1] == [granted[0]] + granted[1..][..at[a]];
    }
  }

  lemma MentionedFirst(granted: seq<nat>, joined: seq<nat>, at: seq<nat>)
    requires granted != [] && Mentions(granted, joined, at) && granted[0] !in joined
    ensures Mentions(granted, [granted[0]] + joined, [0] + at)
  {
    if at != [] {
      assert joined[0] in joined && at[0] > 0;
    }
  }

  lemma LackFurther(actors: seq<Actor>, granted: seq<nat>, joined: seq<nat>)
    requires granted != []
    ensures var i := granted[0];
            if i < |actors| && actors[i].rotation.None? then
              Lack(actors[i := actors[i].(rotation := Some(Rotation([], 0, 0, false)))], granted[1..], joined) ==>
                Lack(actors, granted, [i] + joined) && i !in joined
            else Lack(actors, granted[1..], joined) ==> Lack(actors, granted, joined) && i !in joined
  {
    var i := granted[0];
    assert forall x :: x in granted <==> x == i || x in granted[1..];
    assert forall x :: x in [i] + joined <==> x == i || x in joined;
  }

  /** Actors that are given a queue get an empty rotation, at the end of the storage, unless they have one. */
  lemma {:induction false} GrantedJoin<R>(s: State<R>, granted: seq<nat>) returns (joined: seq<nat>, at: seq<nat>)
    ensures Mentions(granted, joined, at) && Lack(s.actors, granted, joined)
    ensures var u := Grant(s, granted);
            && u.tick == s.tick && u.encounter == s.encounter && u.rest == s.rest && u.order == s.order + joined
            && |u.actors| == |s.actors|
            && forall i: nat :: i < |s.actors| ==>
                 u.actors[i] == if i in joined then Actor(Some(Rotation([], 0, 0, false)), s.actors[i].noMore) else s.actors[i]
    decreases |granted|
  {
    hide Mentions, Lack;
    if granted == [] {
      joined, at := [], [];
      assert s.order + joined == s.order;
      NobodyLacks(s.actors);
    } else {
      var i := granted[0];
      var free := i < |s.actors| && s.actors[i].rotation.None?;
      var s' := if free then GrantOne(s, i) else s;
      joined, at := GrantedJoin(s', granted[1..]);
      LackFurther(s.actors, granted, joined);
      at := MentionedLater(granted, joined, at);
      if free {
        MentionedFirst(granted, joined, at);
        assert s'.order + joined == s.order + ([i] + joined);
        joined, at := [i] + joined, [0] + at;
      }
    }
  }

  lemma NobodyLacks(actors: seq<Actor>)
    ensures Mentions([], [], []) && Lack(actors, [], [])
  {
  }

  /**
   A tick ends with one step of all other rules. It is told whether a pulse is due, by the 32-bit sum of tick and
   offset, and of every actor whether it has a rotation and whether it is marked. It may give rotations to
   actors without one, and nobody else's changes.
   */
  lemma TickAfterTurns<R>(k: Rules<R>, s: State<R>, t: State<R>, pulse: bool, flags: seq<Flags>, step: AfterStep<R>)
      returns (joined: seq<nat>, at: seq<nat>)
    requires StateOk(s) && Behind(k, s, 0) == Running(t)
    requires pulse <==> ((s.tick + s.encounter.conditionTickOffset) % TICK_WRAP) % 1000 == 0
    requires |flags| == |t.actors|
    requires forall i :: 0 <= i < |flags| ==>
               flags[i].hasRotation == t.actors[i].rotation.Some? && flags[i].noMore == t.actors[i].noMore
    requires step == k.after(FrameOf(s.encounter), s.tick, pulse, flags, t.rest)
    ensures step.Aborted? ==> Tick(k, s) == Failed(t.(rest := step.rest), step.error)
    ensures step.Ended? ==> Mentions(step.granted, joined, at) && Lack(t.actors, step.granted, joined)
    ensures step.Ended? ==>
              && Tick(k, s).Running?
              && var u := Tick(k, s).state;
                 && u.tick == s.tick && u.encounter == s.encounter && u.rest == step.rest
                 && u.order == MoveAll(s.order + joined, step.moved)
                 && |u.actors| == |t.actors|
                 && forall i: nat :: i < |t.actors| ==>
                      u.actors[i] == if i in joined then Actor(Some(Rotation([], 0, 0, false)), t.actors[i].noMore) else t.actors[i]
  {
    assert s.order[0..] == s.order;
    assert flags == FlagsOf(t.actors);
    hide VisitAll, StateOk, MoveAll, Mentions, Lack, Grant;
    match step {
      case Aborted(_, _) =>
        joined, at := [], [];
      case Ended(left, granted, _) =>
        joined, at := GrantedJoin(t.(rest := left), granted);
    }
  }

  /** A turn that fails ends the tick. */
  lemma TickFailsWithATurn<R>(k: Rules<R>, s: State<R>)
    requires StateOk(s)
    ensures Behind(k, s, 0).Failed? ==> Tick(k, s) == Behind(k, s, 0)
  {
    assert s.order[0..] == s.order;
  }

  // ---------- A whole tick, for one actor ----------

  lemma TurnLeavesOthers<R>(k: Rules<R>, s: State<R>, p: nat, i: nat)
    requires StateOk(s) && p < |s.order| && i < |s.actors| && i != s.order[p] && Behind(k, s, p).Running?
    ensures Behind(k, s, p + 1).Running?
    ensures Behind(k, s, p).state.actors[i] == Behind(k, s, p + 1).state.actors[i]
  {
    TurnsInOrder(k, s, p);
    var o := Behind(k, s, p + 1);
    if o.Running? {
      VisitKeepsShape(k, o.state, s.order[p]);
    }
  }

  /** What has had its turn is left alone by the turns after it. */
  lemma {:induction false} LaterTurnsLeaveIt<R>(k: Rules<R>, s: State<R>, q: nat, p: nat)
    requires StateOk(s) && p <= q < |s.order| && Behind(k, s, p).Running?
    ensures Behind(k, s, q).Running?
    ensures Behind(k, s, p).state.actors[s.order[q]] == Behind(k, s, q).state.actors[s.order[q]]
    decreases q - p
  {
    Differ(s.order, p);
    assert forall j :: 0 <= j < |s.order| ==> s.order[j] < |s.actors|;
    hide StateOk, Behind, NoRepeats, Within;
    if p < q {
      TurnLeavesOthers(k, s, p, s.order[q]);
      LaterTurnsLeaveIt(k, s, q, p + 1);
    }
  }

  /** Actor `i` and its position in the storage, with the state at which it is its turn and what it then finds. */
  ghost predicate TurnOf<R>(k: Rules<R>, s: State<R>, i: nat, q: nat, t: State<R>, found: R)
    requires StateOk(s)
  {
    && q < |s.order| && s.order[q] == i
    && Behind(k, s, q + 1) == Running(t)
    && k.before(FrameOf(s.encounter), s.tick, t.rest, i) == Done(found)
  }

  lemma TickKeepsRotation<R>(k: Rules<R>, s: State<R>, i: nat)
    requires StateOk(s) && i < |s.actors| && Tick(k, s).Running?
    ensures Behind(k, s, 0).Running? && i < |Tick(k, s).state.actors|
    ensures var a := Behind(k, s, 0).state.actors[i];
            a.rotation.Some? ==> Tick(k, s).state.actors[i] == a
  {
    TickFailsWithATurn(k, s);
    var t := Behind(k, s, 0).state;
    var pulse := ((s.tick + s.encounter.conditionTickOffset) % TICK_WRAP) % 1000 == 0;
    var step := k.after(FrameOf(s.encounter), s.tick, pulse, FlagsOf(t.actors), t.rest);
    var joined, at := TickAfterTurns(k, s, t, pulse, FlagsOf(t.actors), step);
    assert i !in joined || t.actors[i].rotation.None?;
  }

  lemma TurnKeepsRotation<R>(k: Rules<R>, s: State<R>, q: nat)
    requires StateOk(s) && q < |s.order| && Behind(k, s, q).Running?
    ensures var o := Behind(k, s, q + 1);
            && o.Running?
            && k.before(FrameOf(s.encounter), s.tick, o.state.rest, s.order[q]).Done?
            && o.state.actors[s.order[q]] == s.actors[s.order[q]]
            && Behind(k, s, q) == Visit(k, o.state, s.order[q])
    ensures Behind(k, s, q).state.actors[s.order[q]].rotation.Some?
  {
    TurnsInOrder(k, s, q);
    assert s.order[q] in s.order;
    var t := Behind(k, s, q + 1).state;
    TurnKeepsActorOk(k, FrameOf(t.encounter), t.tick, t.rest, s.order[q], t.actors[s.order[q]]);
  }

  /** In a tick without errors, every actor with a rotation has one turn, and its rotation is as that turn leaves it. */
  lemma OneTurnEach<R>(k: Rules<R>, s: State<R>, i: nat) returns (q: nat, t: State<R>, found: R)
    requires StateOk(s) && i < |s.actors| && s.actors[i].rotation.Some? && Tick(k, s).Running?
    ensures TurnOf(k, s, i, q, t, found)
    ensures StateOk(t) && |t.actors| == |s.actors| && t.actors[i] == s.actors[i]
    ensures t.tick == s.tick && t.encounter == s.encounter
    ensures Visit(k, t, i).Running? && i < |Tick(k, s).state.actors|
    ensures Tick(k, s).state.actors[i] == Visit(k, t, i).state.actors[i]
  {
    assert i in s.order;
    q :| 0 <= q < |s.order| && s.order[q] == i;
    hide Visit, VisitAll, Tick, NoRepeats, Within, Behind;
    TickKeepsRotation(k, s, i);
    LaterTurnsLeaveIt(k, s, q, 0);
    TurnKeepsRotation(k, s, q);
    t := Behind(k, s, q + 1).state;
    found := k.before(FrameOf(s.encounter), s.tick, t.rest, i).rest;
  }

  /**
   In a tick without errors, an actor that is marked or has something queued keeps its rotation as it is. Any
   other is marked exactly at the end of a rotation that does not repeat. With cast `j` next, in a rotation that
   began at tick `since`, it starts that cast exactly if the time of the cast after `since` has come and
   the rules let it start; and a rotation begins again only at its end, and then at the present tick.
   */
  lemma TickMovesRotation<R>(k: Rules<R>, s: State<R>, i: nat) returns (q: nat, t: State<R>, found: R)
    requires StateOk(s) && i < |s.actors| && s.actors[i].rotation.Some? && Tick(k, s).Running?
    ensures TurnOf(k, s, i, q, t, found) && i < |Tick(k, s).state.actors|
    ensures var a, r, a' := s.actors[i], s.actors[i].rotation.value, Tick(k, s).state.actors[i];
            && (a.noMore || k.hasQueued(found, i) ==> a' == a)
            && (!a.noMore && !k.hasQueued(found, i) && |r.casts| <= r.idx && !r.repeat ==> a' == a.(noMore := true))
            && (!a.noMore && !k.hasQueued(found, i) && (r.idx < |r.casts| || r.repeat) ==>
                  var j, since := if r.idx < |r.casts| then r.idx else 0, if r.idx < |r.casts| then r.tickOffset else s.tick;
                  && j < |r.casts|
                  && var starts := s.tick >= (r.casts[j].castTime + since) % TICK_WRAP && k.cast(FrameOf(s.encounter), s.tick, found, i, r.casts[j].skill).Starts?;
                     a' == Actor(Some(Rotation(r.casts, if starts then j + 1 else j, since, r.repeat)), false))
  {
    hide Visit, Tick, StateOk;
    q, t, found := OneTurnEach(k, s, i);
    var a, r := s.actors[i], s.actors[i].rotation.value;
    TurnWithoutRotation(k, t, i);
    if !a.noMore && !k.hasQueued(found, i) {
      if |r.casts| <= r.idx && !r.repeat {
        TurnAtTheEnd(k, t, i, found);
      } else {
        TurnWithACast(k, t, i, found, if r.idx < |r.casts| then r.idx else 0, if r.idx < |r.casts| then r.tickOffset else s.tick);
      }
    }
  }
}
