/** The simulation loop as the program runs it, against the cache as the program keeps it. */
module CombatLoop {
  import opened Options
  import opened Encounters
  import opened StopPredicate
  import opened Runs
  import opened Simulation
  import opened Battle
  import opened Checkpoints
  import opened Reports
  import opened Lru
  import opened Transparency
  import MruCache

  /** Searches for the most recently created actor with the name of the request's first one. */
  method FindRotationActor<R>(registry: Registry<R>, e: Encounter) returns (lead: nat)
    requires e.actors != [] && FrameOf(registry.encounter) == FrameOf(e)
    ensures lead == RotationActor(e)
  {
    SameNames(registry.encounter, e);
    lead := |registry.encounter.actors| - 1;
    while registry.encounter.actors[lead].name != e.actors[0].name
      invariant lead < |registry.encounter.actors|
      invariant RotationActor(e) == LastNamed(e.actors, e.actors[0].name, lead + 1)
      decreases lead
    {
      lead := lead - 1;
    }
  }

  lemma SameNames(e1: Encounter, e2: Encounter)
    requires FrameOf(e1) == FrameOf(e2)
    ensures |e1.actors| == |e2.actors|
    ensures forall i :: 0 <= i < |e1.actors| ==> e1.actors[i].name == e2.actors[i].name
  {
    assert forall i :: 0 <= i < |e1.actors| ==> FrameOf(e1).actors[i] == (e1.actors[i].name, e1.actors[i].build);
    assert forall i :: 0 <= i < |e2.actors| ==> FrameOf(e2).actors[i] == (e2.actors[i].name, e2.actors[i].build);
  }

  /** Puts the request's casts and encounter into a restored registry. */
  method RestoreRequest<R>(registry: Registry<R>, e: Encounter, lead: nat)
    requires e.actors != [] && lead < |registry.actors|
    modifies registry
    ensures registry.View() == Resume(old(registry.View()), e, lead)
  {
    var casts := LeadCasts(e);
    if casts != [] {
      if registry.actors[lead].rotation.None? {
        registry.actors := registry.actors[lead := registry.actors[lead].(rotation := Some(Rotation([], 0, 0, false)))];
        registry.order := registry.order + [lead];
      }
      var rotation := registry.actors[lead].rotation.value;
      rotation := rotation.(casts := casts);
      rotation := rotation.(repeat := e.actors[0].repeat);
      registry.actors := registry.actors[lead := registry.actors[lead].(rotation := Some(rotation))];
      registry.actors := registry.actors[lead := registry.actors[lead].(noMore := false)];
    }
    registry.encounter := e;
  }

  /** The prefix search: the first hit is restored, and made the cache's most recent entry. */
  method FindSnapshot<R>(cache: MruCache.Cache<Encounter, State<R>>, e: Encounter) returns (snapshot: Option<State<R>>)
    requires cache.Valid() && e.actors != []
    modifies cache, cache.list, cache.list.repr
    ensures cache.Valid() && cache.capacity == old(cache.capacity) && cache.list.repr == old(cache.list.repr)
    ensures match Probe(old(cache.entries), e, |LeadCasts(e)|)
            case None => snapshot == None && cache.entries == old(cache.entries)
            case Some(n) =>
              (ProbeFindsLongest(old(cache.entries), e, |LeadCasts(e)|);
               && snapshot == Lookup(old(cache.entries), CacheKey(Prefix(e, n)))
               && cache.entries == Touched(old(cache.entries), CacheKey(Prefix(e, n))))
  {
    hide MruCache.Cache.Valid, Keys, Without;
    ghost var es := cache.entries;
    ProbeFindsLongest(es, e, |LeadCasts(e)|);
    WholePrefix(e);
    var current := e;
    var key := CacheKey(e);
    ghost var n: nat := |LeadCasts(e)|;
    while true
      invariant cache.Valid() && cache.capacity == old(cache.capacity) && cache.list.repr == old(cache.list.repr)
      invariant cache.entries == es
      invariant n <= |LeadCasts(e)| && current == Prefix(e, n) && key == CacheKey(current)
      invariant Probe(es, e, |LeadCasts(e)|) == Probe(es, e, n)
      decreases n
    {
      snapshot := cache.Get(key);
      if snapshot.Some? {
        return;
      }
      var casts := LeadCasts(current);
      if casts == [] {
        return;
      }
      current := WithLeadCasts(current, casts[..|casts| - 1]);
      n := n - 1;
      ShorterPrefix(e, n);
      if LeadCasts(current) == [] {
        return;
      }
      key := CacheKey(current);
    }
  }

  lemma ShorterPrefix(e: Encounter, n: nat)
    requires e.actors != [] && n < |LeadCasts(e)|
    ensures WithLeadCasts(Prefix(e, n + 1), LeadCasts(Prefix(e, n + 1))[..n]) == Prefix(e, n)
  {
    assert LeadCasts(e)[..n + 1][..n] == LeadCasts(e)[..n];
    assert WithLeadCasts(Prefix(e, n + 1), LeadCasts(e)[..n]).actors == Prefix(e, n).actors;
  }

  /** The report of a failure, with its error; if this report fails itself, its own exception reaches the caller. */
  method FailureReport<R>(k: Rules<R>, registry: Registry<R>, e: Encounter, error: string) returns (answer: Answer)
    modifies registry
    ensures match k.report(old(registry.tick), old(registry.rest), e.auditOffset, Some(error))
            case Reported(text, rest) => answer == Report(text) && registry.View() == old(registry.View()).(rest := rest)
            case Unreportable(rest, again) => answer == Thrown(again) && registry.View() == old(registry.View()).(rest := rest)
    ensures answer == AnswerOf(k, e, Crashed(old(registry.View()), error))
  {
    match k.report(registry.tick, registry.rest, e.auditOffset, Some(error)) {
      case Reported(text, rest) =>
        registry.rest := rest;
        answer := Report(text);
      case Unreportable(rest, error') =>
        registry.rest := rest;
        answer := Thrown(error');
    }
  }

  /** The report of a run that stopped, which changes the registry, and is reported as a failure if it fails. */
  method FinalReport<R>(k: Rules<R>, registry: Registry<R>, e: Encounter) returns (answer: Answer, written: bool)
    modifies registry
    ensures answer == AnswerOf(k, e, Finished(old(registry.View())))
    ensures written <==> Succeeds(k, e, Finished(old(registry.View())))
    ensures written ==> registry.View() == AfterReport(k, old(registry.View()), e.auditOffset)
    ensures match k.report(old(registry.tick), old(registry.rest), e.auditOffset, None)
            case Reported(text, rest) => written && answer == Report(text) && registry.View() == old(registry.View()).(rest := rest)
            case Unreportable(left, error) =>
              && !written
              && match k.report(old(registry.tick), left, e.auditOffset, Some(error))
                 case Reported(text, _) => answer == Report(text)
                 case Unreportable(_, again) => answer == Thrown(again)
  {
    match k.report(registry.tick, registry.rest, e.auditOffset, None) {
      case Reported(text, rest) =>
        registry.rest := rest;
        answer, written := Report(text), true;
      case Unreportable(rest, error) =>
        registry.rest := rest;
        answer := FailureReport(k, registry, e, error);
        written := false;
    }
  }

  /** Reports, and hands over the checkpoint, or else the registry as the report has left it. */
  method Conclude<R>(k: Rules<R>, registry: Registry<R>, e: Encounter, need: bool, checkpoint: Option<State<R>>)
      returns (answer: Answer, publish: Option<State<R>>)
    modifies registry
    ensures answer == AnswerOf(k, e, Finished(old(registry.View())))
    ensures publish ==
            if !need || !Succeeds(k, e, Finished(old(registry.View()))) then None
            else if checkpoint.Some? then checkpoint
            else Some(AfterReport(k, old(registry.View()), e.auditOffset))
  {
    hide AnswerOf, Succeeds, AfterReport;
    var written;
    answer, written := FinalReport(k, registry, e);
    var final := registry.Snapshot();
    publish := if !need || !written then None else if checkpoint.Some? then checkpoint else Some(final);
  }

  /** Ticks to the end of the run, taking one checkpoint on the way if one is needed. */
  method RunToEnd<R(!new)>(k: Rules<R>, registry: Registry<R>, e: Encounter, first: bool, lead: nat, need: bool)
      returns (answer: Answer, publish: Option<State<R>>)
    requires StateOk(registry.View()) && Halts(Simulate(k, e), registry.View(), first)
    modifies registry
    ensures RunsTo(k, e, old(registry.View()), first, lead, need, answer, publish)
  {
    hide Simulate, Continues, Advance, Stops, Pending, After, EndsAfter, RunsTo, Tick, StateOk, RosterOf, FirstIdle,
      AnswerOf, Apology, Succeeds, AfterReport;
    ghost var m, s := Simulate(k, e), registry.View();
    ghost var total: nat, expected :| EndsAfter(m, s, first, total, expected);
    ghost var n: nat := 0;
    NoTurnYet(m, s, first, lead);
    var isFirstTick := first;
    var checkpoint: Option<State<R>> := None;
    while true
      invariant StateOk(registry.View())
      invariant n <= total && After(m, s, first, n) == Some(registry.View())
      invariant isFirstTick == (first && n == 0)
      invariant checkpoint == if need then FirstIdle(m, s, first, lead, n) else None
      decreases total - n
    {
      ghost var here := registry.View();
      NextTurn(m, s, first, n, here);
      GoIsContinues(k, e, here);
      ContinuesMeansGo(k, e, here);
      StepIsAdvance(k, e, here, isFirstTick);
      var roster := registry.Roster(k);
      var go := ContinueCombatLoop(e.conditions, roster, registry.tick);
      if !go {
        answer, publish := Conclude(k, registry, e, need, checkpoint);
        RunLeaves(k, e, s, first, lead, need, n, Finished(here), answer, publish);
        return;
      }
      NotOverYet(m, s, first, n, here, total, expected);
      var error := registry.AdvanceOnce(k, isFirstTick);
      isFirstTick := false;
      if error.Some? {
        ghost var end := Crashed(registry.View(), error.value);
        answer := FailureReport(k, registry, e, error.value);
        publish := None;
        CrashLeavesNothing(k, e, s, first, lead, need, n + 1, end);
        RunLeaves(k, e, s, first, lead, need, n + 1, end, answer, publish);
        return;
      }
      IdleStep(m, s, first, lead, n, registry.View());
      n := n + 1;
      if need && checkpoint.None? {
        var present := registry.Snapshot();
        if !Pending(present, lead) {
          checkpoint := Some(present);
        }
      }
    }
  }

  lemma NoTurnYet<R>(m: Machine<State<R>>, s: State<R>, first: bool, lead: nat)
    ensures After(m, s, first, 0) == Some(s)
    ensures FirstIdle(m, s, first, lead, 0) == None
  {
  }

  lemma IdleStep<R>(m: Machine<State<R>>, s: State<R>, first: bool, lead: nat, n: nat, t: State<R>)
    requires After(m, s, first, n + 1) == Some(t)
    ensures FirstIdle(m, s, first, lead, n + 1) ==
            if FirstIdle(m, s, first, lead, n).Some? then FirstIdle(m, s, first, lead, n)
            else if Pending(t, lead) then None
            else Some(t)
  {
  }

  lemma CrashLeavesNothing<R>(k: Rules<R>, e: Encounter, s: State<R>, first: bool, lead: nat, need: bool, n: nat,
      end: End<State<R>>)
    requires end.Crashed?
    ensures Leftover(k, e, s, first, lead, need, n, end) == None
  {
  }

  lemma RunLeaves<R(!new)>(k: Rules<R>, e: Encounter, s: State<R>, first: bool, lead: nat, need: bool, n: nat,
      end: End<State<R>>, answer: Answer, publish: Option<State<R>>)
    requires EndsAfter(Simulate(k, e), s, first, n, end) && answer == AnswerOf(k, e, end)
    requires publish == Leftover(k, e, s, first, lead, need, n, end)
    ensures RunsTo(k, e, s, first, lead, need, answer, publish)
  {
    hide EndsAfter, Leftover, Simulate, AnswerOf;
    assert RunEnds(k, e, s, first, lead, need, answer, publish, n, end);
  }

  lemma ContinuesMeansGo<R>(k: Rules<R>, e: Encounter, s: State<R>)
    ensures Continues(k, e, s) <==> !Stops(e.conditions, RosterOf(k, s), s.tick)
  {
  }

  lemma StepIsAdvance<R>(k: Rules<R>, e: Encounter, s: State<R>, first: bool)
    requires StateOk(s)
    ensures Simulate(k, e).turn(s, first) == Advance(k, s, first)
    ensures StateOk(Advance(k, s, first).state)
  {
    AdvanceKeepsShape(k, s, first);
  }

  lemma RestoredBySteps<R>(k: Rules<R>, t: State<R>, e: Encounter, lead: nat)
    requires e.actors != [] && lead < |t.actors|
    ensures Restored(k, t, e, lead) == Resume(t, e, lead).(rest := k.settle(Resume(t, e, lead).rest))
  {
  }

  lemma HitRunsToItsEnd<R(!new)>(k: Rules<R>, es: Store<R>, capacity: nat, e: Encounter, n: nat)
    requires Settles(k) && ReportsOnlyDraw(k) && Sound(k, es, true) && EntriesOk(es, capacity) && Completes(k, e)
    requires e.actors != [] && UniqueLead(e) && n <= |LeadCasts(e)| && (n == 0 ==> LeadCasts(e) == [])
    requires Cached(es, e, n)
    ensures var t := Lookup(es, CacheKey(Prefix(e, n))).value;
            && RotationActor(e) == 0 < |t.actors|
            && StateOk(Restored(k, t, e, 0)) && Halts(Simulate(k, e), Restored(k, t, e, 0), false)
  {
    hide Sound, Genuine, Underway, Settles, ReportsOnlyDraw, Completes, Halts, StateOk, Restored, Lookup;
    var t := Lookup(es, CacheKey(Prefix(e, n))).value;
    SoundHit(k, es, CacheKey(Prefix(e, n)), true);
    RestoredIsUnderway(k, e, n, t, false, true);
    UnderwayHalts(k, e, Restored(k, t, e, 0), false, false, true);
  }

  /** The part of a request after a hit: restore, run on, publish. */
  method ServeFromSnapshot<R(!new)>(k: Rules<R>, cache: MruCache.Cache<Encounter, State<R>>, e: Encounter,
      t: State<R>, ghost n: nat, ghost es: Store<R>)
      returns (answer: Answer)
    requires cache.Valid() && Settles(k) && ReportsOnlyDraw(k) && Sound(k, es, true) && EntriesOk(es, cache.capacity)
    requires e.actors != [] && UniqueLead(e) && Completes(k, e) && n <= |LeadCasts(e)| && (n == 0 ==> LeadCasts(e) == [])
    requires Lookup(es, CacheKey(Prefix(e, n))) == Some(t) && RotationActor(e) < |t.actors|
    requires cache.entries == Touched(es, CacheKey(Prefix(e, n)))
    modifies cache, cache.list, cache.list.repr
    ensures cache.Valid() && cache.capacity == old(cache.capacity)
    ensures exists publish ::
              && RunsTo(k, e, Restored(k, t, e, RotationActor(e)), false, RotationActor(e), Lookup(old(cache.entries), CacheKey(e)).None?, answer, publish)
              && cache.entries == Publish(old(cache.entries), cache.capacity, CacheKey(e), publish)
  {
    hide Sound, Keys, Without, Completes, Lookup, Touched, RunsTo, FrameOf, Settles, ReportsOnlyDraw, StateOk, Halts,
      Restored, EntriesOk, UniqueLead, MruCache.Cache.Consistent;
    RestoredShape(k, es, e, n);
    HitRunsToItsEnd(k, es, cache.capacity, e, n);
    var registry := new Registry(t);
    var lead := FindRotationActor(registry, e);
    RestoreRequest(registry, e, lead);
    var found := cache.Contains(CacheKey(e));
    registry.rest := k.settle(registry.rest);
    assert registry.View() == Restored(k, t, e, lead) by { RestoredBySteps(k, t, e, lead); }
    ghost var publish;
    answer, publish := RunAndPublish(k, cache, registry, e, false, lead, !found);
  }

  /** Runs to the end, and stores the snapshot of a run that succeeded, if one is needed. */
  method RunAndPublish<R(!new)>(k: Rules<R>, cache: MruCache.Cache<Encounter, State<R>>, registry: Registry<R>,
      e: Encounter, first: bool, lead: nat, need: bool)
      returns (answer: Answer, ghost publish: Option<State<R>>)
    requires cache.Valid()
    requires StateOk(registry.View()) && Halts(Simulate(k, e), registry.View(), first)
    modifies registry, cache, cache.list, cache.list.repr
    ensures cache.Valid() && cache.capacity == old(cache.capacity)
    ensures RunsTo(k, e, old(registry.View()), first, lead, need, answer, publish)
    ensures cache.entries == Publish(old(cache.entries), cache.capacity, CacheKey(e), publish)
  {
    hide RunsTo, StateOk, Stored, MruCache.Cache.Consistent;
    var snapshot;
    answer, snapshot := RunToEnd(k, registry, e, first, lead, need);
    publish := snapshot;
    if snapshot.Some? {
      cache.Put(CacheKey(e), snapshot.value);
    }
  }

  /** The part of a request after a miss, or without caching. */
  method ServeFresh<R(!new)>(k: Rules<R>, cache: MruCache.Cache<Encounter, State<R>>, e: Encounter,
      caching: bool) returns (answer: Answer)
    requires cache.Valid() && Completes(k, e)
    requires caching ==> e.actors != []
    modifies cache, cache.list, cache.list.repr
    ensures cache.Valid() && cache.capacity == old(cache.capacity)
    ensures exists publish ::
              && RunsFresh(k, e, if caching then RotationActor(e) else 0, caching && Lookup(old(cache.entries), CacheKey(e)).None?, answer, publish)
              && cache.entries == Publish(old(cache.entries), cache.capacity, CacheKey(e), publish)
  {
    hide Keys, Lookup, RunsTo, FrameOf, StateOk, RotationActor, Halts, RotatingActors, InitialActor, UniqueLead,
        MruCache.Cache.Valid, MruCache.Cache.Consistent;
    var registry: Registry<R>;
    match k.setup(FrameOf(e)) {
      case Rejected(error) =>
        ghost var nothing: Option<State<R>> := None;
        assert Publish(cache.entries, cache.capacity, CacheKey(e), nothing) == cache.entries;
        return Thrown(error);
      case Ready(rest) =>
        registry := new Registry(InitialState(e, rest));
    }
    FreshIsOk(k, e);
    var lead, need := 0, false;
    if caching {
      lead := FindRotationActor(registry, e);
      var found := cache.Contains(CacheKey(e));
      need := !found;
    }
    registry.rest := k.settle(registry.rest);
    assert registry.View() == Fresh(k, e).value;
    ghost var publish;
    answer, publish := RunAndPublish(k, cache, registry, e, true, lead, need);
  }

  /**
   One request. Whatever sound snapshots the cache holds, it is left sound, with exactly the recency order
   and the new entry that `Handles` gives; and the answer is the one of an uncached run, if the request is
   not cached, or its reports say the same when repeated.
   */
  method Serve<R(!new)>(k: Rules<R>, cache: MruCache.Cache<Encounter, State<R>>, e: Encounter,
      wanted: bool) returns (answer: Answer)
    requires cache.Valid() && Settles(k) && ReportsOnlyDraw(k) && Sound(k, cache.entries, true)
    requires Cacheable(e, wanted, cache.capacity) ==> UniqueLead(e)
    requires Completes(k, e)
    modifies cache, cache.list, cache.list.repr
    ensures cache.Valid() && cache.capacity == old(cache.capacity)
    ensures Handles(k, cache.capacity, old(cache.entries), e, wanted, answer, cache.entries)
    ensures Sound(k, cache.entries, true)
    ensures !Cacheable(e, wanted, cache.capacity) || Steady(k, e, true) ==> UncachedAnswer(k, e, answer)
  {
    hide Sound, Keys, Without, Completes, UncachedAnswer, Lookup, Probe, RunsTo, Underway, StateOk, FrameOf, Settles,
        MruCache.Cache.Consistent;
    ghost var es, capacity := cache.entries, cache.capacity;
    cache.ValidEntries();
    if e.actors != [] {
      ProbeFindsLongest(es, e, |LeadCasts(e)|);
    }
    var enabled := cache.Enabled();
    var caching := wanted && e.randomSeed >= 0 && enabled && e.actors != [];
    var snapshot: Option<State<R>> := None;
    if caching {
      snapshot := FindSnapshot(cache, e);
    }
    if snapshot.Some? {
      ghost var n := Probe(es, e, |LeadCasts(e)|).value;
      RestoredShape(k, es, e, n);
      answer := ServeFromSnapshot(k, cache, e, snapshot.value, n, es);
      HitHandles(k, capacity, es, e, wanted, answer, cache.entries, n);
    } else {
      answer := ServeFresh(k, cache, e, caching);
      MissHandles(k, capacity, es, e, wanted, answer, cache.entries);
    }
    RequestIsTransparent(k, capacity, es, e, wanted, answer, cache.entries);
  }

}
