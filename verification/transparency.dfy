/** One request against the snapshot cache, and when its answer does not depend on the cache. */
module Transparency {
  import opened Options
  import opened Sequences
  import opened Encounters
  import opened Runs
  import opened Simulation
  import opened Battle
  import opened Checkpoints
  import opened Reports
  import opened Lru

  type Store<R> = seq<Entry<Encounter, State<R>>>

  // ---------- Searching the cache ----------

  /** The longest cached prefix with at most `n` casts. Only an empty request may use an empty prefix. */
  function Probe<R>(es: Store<R>, e: Encounter, n: nat): Option<nat>
    requires e.actors != [] && n <= |LeadCasts(e)|
  {
    if Lookup(es, CacheKey(Prefix(e, n))).Some? then Some(n)
    else if n <= 1 then None
    else Probe(es, e, n - 1)
  }

  ghost predicate Cached<R>(es: Store<R>, e: Encounter, n: nat)
    requires e.actors != [] && n <= |LeadCasts(e)|
  {
    Lookup(es, CacheKey(Prefix(e, n))).Some?
  }

  /** The search finds the longest cached prefix, and a non-empty request never uses the empty one. */
  lemma {:induction false} ProbeFindsLongest<R>(es: Store<R>, e: Encounter, n: nat)
    requires e.actors != [] && n <= |LeadCasts(e)|
    ensures Probe(es, e, n).Some? ==>
              && Probe(es, e, n).value <= n
              && Cached(es, e, Probe(es, e, n).value)
              && (Probe(es, e, n).value == 0 ==> n == 0)
              && forall j :: Probe(es, e, n).value < j <= n ==> !Cached(es, e, j)
    ensures Probe(es, e, n).None? ==>
              && (n == 0 ==> !Cached(es, e, 0))
              && forall j :: 1 <= j <= n ==> !Cached(es, e, j)
  {
    if Lookup(es, CacheKey(Prefix(e, n))).None? && n > 1 {
      ProbeFindsLongest(es, e, n - 1);
    }
  }

  lemma WholePrefix(e: Encounter)
    requires e.actors != []
    ensures Prefix(e, |LeadCasts(e)|) == e
  {
    assert LeadCasts(e)[..|LeadCasts(e)|] == LeadCasts(e);
    assert Prefix(e, |LeadCasts(e)|).actors == e.actors;
  }

  // ---------- What one request does ----------

  /** The first end of a tick, among the first `n`, at which the watched rotation has no cast left to start. */
  function FirstIdle<R>(m: Machine<State<R>>, s: State<R>, first: bool, lead: nat, n: nat): Option<State<R>>
  {
    if n == 0 then None
    else
      match FirstIdle(m, s, first, lead, n - 1)
      case Some(t) => Some(t)
      case None =>
        var t := After(m, s, first, n);
        if t.Some? && !Pending(t.value, lead) then t else None
  }

  /** Running to the end from `s` answers `answer` and leaves `publish` for the cache. */
  ghost predicate RunsTo<R(!new)>(k: Rules<R>, e: Encounter, s: State<R>, first: bool, lead: nat, need: bool,
      answer: Answer, publish: Option<State<R>>)
  {
    exists n, end :: RunEnds(k, e, s, first, lead, need, answer, publish, n, end)
  }

  /** Only a run that succeeds leaves anything: its checkpoint, or else its final state after the report. */
  ghost predicate RunEnds<R(!new)>(k: Rules<R>, e: Encounter, s: State<R>, first: bool, lead: nat, need: bool,
      answer: Answer, publish: Option<State<R>>, n: nat, end: End<State<R>>)
  {
    && EndsAfter(Simulate(k, e), s, first, n, end)
    && answer == AnswerOf(k, e, end)
    && publish == Leftover(k, e, s, first, lead, need, n, end)
  }

  ghost function Leftover<R>(k: Rules<R>, e: Encounter, s: State<R>, first: bool, lead: nat, need: bool, n: nat,
      end: End<State<R>>): Option<State<R>>
  {
    if !need || !Succeeds(k, e, end) then None
    else if FirstIdle(Simulate(k, e), s, first, lead, n).Some? then FirstIdle(Simulate(k, e), s, first, lead, n)
    else Some(AfterReport(k, end.state, e.auditOffset))
  }

  function Publish<R>(es: Store<R>, capacity: nat, key: Encounter, snapshot: Option<State<R>>): Store<R>
  {
    if snapshot.Some? then Stored(es, capacity, key, snapshot.value) else es
  }

  /** The state a snapshot is put to work in. */
  function Restored<R>(k: Rules<R>, t: State<R>, e: Encounter, lead: nat): State<R>
    requires e.actors != [] && lead < |t.actors|
  {
    var s := Resume(t, e, lead);
    s.(rest := k.settle(s.rest))
  }

  /** Request `e` against store `es` answers `answer` and leaves store `es'`. */
  ghost predicate Handles<R(!new)>(k: Rules<R>, capacity: nat, es: Store<R>, e: Encounter, wanted: bool,
      answer: Answer, es': Store<R>)
  {
    if !Cacheable(e, wanted, capacity) then
      es' == es && RunsFresh(k, e, 0, false, answer, None)
    else
      match Probe(es, e, |LeadCasts(e)|)
      case None =>
        exists publish ::
          && RunsFresh(k, e, RotationActor(e), Lookup(es, CacheKey(e)).None?, answer, publish)
          && es' == Publish(es, capacity, CacheKey(e), publish)
      case Some(n) =>
        (ProbeFindsLongest(es, e, |LeadCasts(e)|);
         var t := Lookup(es, CacheKey(Prefix(e, n))).value;
         var touched := Touched(es, CacheKey(Prefix(e, n)));
         && RotationActor(e) < |t.actors|
         && exists publish ::
              && RunsTo(k, e, Restored(k, t, e, RotationActor(e)), false, RotationActor(e), Lookup(touched, CacheKey(e)).None?, answer, publish)
              && es' == Publish(touched, capacity, CacheKey(e), publish))
  }

  /** A fresh run of `e`, or the exception that setting it up throws. */
  ghost predicate RunsFresh<R(!new)>(k: Rules<R>, e: Encounter, lead: nat, need: bool, answer: Answer,
      publish: Option<State<R>>)
  {
    match k.setup(FrameOf(e))
    case Rejected(error) => answer == Thrown(error) && publish == None
    case Ready(_) => RunsTo(k, e, Fresh(k, e).value, true, lead, need, answer, publish)
  }

  // ---------- Every cached snapshot is one its own request would leave ----------

  /** `t` is a snapshot that requests with this key leave. */
  ghost predicate Genuine<R(!new)>(k: Rules<R>, key: Encounter, t: State<R>, frugal: bool)
  {
    && t.encounter.actors != []
    && CacheKey(t.encounter) == key
    && UniqueLead(t.encounter)
    && exists n, s, offsets :: Leaves(k, t.encounter, n, s, offsets, t, frugal)
  }

  ghost predicate Sound<R(!new)>(k: Rules<R>, es: Store<R>, frugal: bool)
  {
    forall key :: Lookup(es, key).Some? ==> Genuine(k, key, Lookup(es, key).value, frugal)
  }

  lemma TouchKeepsSound<R(!new)>(k: Rules<R>, es: Store<R>, capacity: nat, key: Encounter,
      frugal: bool)
    requires Sound(k, es, frugal) && EntriesOk(es, capacity)
    ensures Sound(k, Touched(es, key), frugal) && EntriesOk(Touched(es, key), capacity)
  {
    hide Genuine;
    TouchKeepsContents(es, capacity, key);
  }

  lemma StoreKeepsSound<R(!new)>(k: Rules<R>, es: Store<R>, capacity: nat, key: Encounter, snapshot: Option<State<R>>,
      frugal: bool)
    requires Sound(k, es, frugal) && EntriesOk(es, capacity)
    requires snapshot.Some? ==> Genuine(k, key, snapshot.value, frugal)
    ensures Sound(k, Publish(es, capacity, key, snapshot), frugal) && EntriesOk(Publish(es, capacity, key, snapshot), capacity)
  {
    hide Genuine;
    if snapshot.Some? && capacity > 0 {
      StoreIsSound(es, capacity, key, snapshot.value);
    }
  }

  lemma ShrinkKeepsSound<R(!new)>(k: Rules<R>, es: Store<R>, limit: nat, frugal: bool)
    requires Sound(k, es, frugal) && NoRepeats(Keys(es))
    ensures Sound(k, Take(es, limit), frugal) && EntriesOk(Take(es, limit), limit)
  {
    hide Genuine;
    TakeKeepsOk(es, limit);
    forall key | Lookup(Take(es, limit), key).Some?
      ensures Genuine(k, key, Lookup(Take(es, limit), key).value, frugal)
    {
      LookupInTake(es, limit, key);
    }
  }

  // ---------- Runs that start on the path of the uninterrupted run ----------

  /** `s` is the state of the uninterrupted run of `e` after `i` ticks, and fit to be run on with flag `first`. */
  ghost predicate OnPath<R(!new)>(k: Rules<R>, e: Encounter, i: nat, s: State<R>, first: bool, need: bool)
  {
    && Fresh(k, e).Some?
    && After(Simulate(k, e), Fresh(k, e).value, true, i) == Some(s)
    && (forall j :: 1 <= j < i ==> PendingAt(k, e, j))
    && (need && i > 0 ==> PendingAt(k, e, i))
    && (first <==> i == 0)
  }

  /** `x` is where the uninterrupted run of `e` stops, after `i` ticks, but for the reports since. */
  ghost predicate AtEnd<R(!new)>(k: Rules<R>, e: Encounter, i: nat, s: State<R>, offsets: seq<int>, x: State<R>,
      need: bool, frugal: bool)
  {
    && TakenAt(k, e, i, s)
    && !Continues(k, e, s)
    && x == Spent(k, s, offsets)
    && (offsets != [] ==> Leaves(k, e, i, s, offsets, x, frugal))
    && (need && frugal && e.actors != [] ==> offsets != [] && LeadCasts(e) != [])
  }

  /** What a request for `e` may run on from. */
  ghost predicate Underway<R(!new)>(k: Rules<R>, e: Encounter, x: State<R>, first: bool, need: bool, frugal: bool)
  {
    || (exists i :: OnPath(k, e, i, x, first, need))
    || (!first && exists i, s, offsets :: AtEnd(k, e, i, s, offsets, x, need, frugal))
  }

  /** A run that starts on the path ends as the uninterrupted run does. */
  lemma PathRunEnds<R(!new)>(k: Rules<R>, e: Encounter, i: nat, s: State<R>, first: bool, need: bool, n: nat,
      end: End<State<R>>)
    requires OnPath(k, e, i, s, first, need)
    ensures EndsAfter(Simulate(k, e), s, first, n, end) <==>
            EndsAfter(Simulate(k, e), Fresh(k, e).value, true, i + n, end)
  {
    EndSplits(Simulate(k, e), Fresh(k, e).value, true, i, n, end);
  }

  /** Its states are the uninterrupted run's. */
  lemma PathRunStates<R(!new)>(k: Rules<R>, e: Encounter, i: nat, s: State<R>, first: bool, need: bool, j: nat)
    requires OnPath(k, e, i, s, first, need)
    ensures After(Simulate(k, e), s, first, j) == After(Simulate(k, e), Fresh(k, e).value, true, i + j)
  {
    AfterSplits(Simulate(k, e), Fresh(k, e).value, true, i, j);
  }

  lemma {:induction false} IdleIsFirst<R(!new)>(k: Rules<R>, e: Encounter, i: nat, s: State<R>, first: bool, n: nat)
    requires OnPath(k, e, i, s, first, true)
    requires forall j :: 1 <= j <= n ==> After(Simulate(k, e), s, first, j).Some?
    ensures FirstIdle(Simulate(k, e), s, first, 0, n).None? ==> forall j :: 1 <= j <= i + n ==> PendingAt(k, e, j)
    ensures FirstIdle(Simulate(k, e), s, first, 0, n).Some? ==>
              exists j :: i < j <= i + n && Leaves(k, e, j, FirstIdle(Simulate(k, e), s, first, 0, n).value, [],
                            FirstIdle(Simulate(k, e), s, first, 0, n).value, true)
  {
    hide Pending, Simulate, Fresh, Continues;
    if n == 0 {
    } else {
      IdleIsFirst(k, e, i, s, first, n - 1);
      if FirstIdle(Simulate(k, e), s, first, 0, n - 1).None? {
        PathRunStates(k, e, i, s, first, true, n);
        var t := After(Simulate(k, e), s, first, n).value;
        if Pending(t, 0) {
          assert PendingAt(k, e, i + n);
        } else {
          assert After(Simulate(k, e), s, first, n).Some?;
          assert FirstIdle(Simulate(k, e), s, first, 0, n) == Some(t);
          assert TakenAt(k, e, i + n, t);
          assert Leaves(k, e, i + n, t, [], t, true);
        }
      }
    }
  }

  lemma LeftIsGenuine<R(!new)>(k: Rules<R>, e: Encounter, n: nat, s: State<R>, offsets: seq<int>, t: State<R>,
      once: bool, frugal: bool)
    requires e.actors != [] && UniqueLead(e) && Leaves(k, e, n, s, offsets, t, once) && (frugal ==> once)
    ensures Genuine(k, CacheKey(e), t, frugal) && t.encounter == e
  {
    hide Continues, Pending, Simulate, StateOk;
    FreshIsOk(k, e);
    RunKeepsShape(k, e, Fresh(k, e).value, true, n);
    assert Leaves(k, e, n, s, offsets, t, frugal);
  }

  /** A run on the path that goes on to its end without a checkpoint hands over its final state, once reported. */
  lemma PathRunLeavesItsEnd<R(!new)>(k: Rules<R>, e: Encounter, i: nat, s: State<R>, first: bool, n: nat, t: State<R>)
    requires OnPath(k, e, i, s, first, true) && EndsAfter(Simulate(k, e), s, first, n, Finished(t))
    requires Succeeds(k, e, Finished(t)) && (forall j :: 1 <= j <= i + n ==> PendingAt(k, e, j))
    ensures Leaves(k, e, i + n, t, [e.auditOffset], AfterReport(k, t, e.auditOffset), true)
  {
    hide Pending, Simulate, Continues;
    EndPassesThrough(Simulate(k, e), s, first, n, Finished(t), n);
    PathRunStates(k, e, i, s, first, true, n);
    EndIsRefused(Simulate(k, e), s, first, n, Finished(t));
    GoIsContinues(k, e, t);
    SpentOnceMore(k, t, [], e.auditOffset);
    assert [] + [e.auditOffset] == [e.auditOffset];
    assert i + n > 0 ==> PendingAt(k, e, i + n);
  }

  /** A run that starts on the path answers as no cache would, and publishes only genuine snapshots. */
  lemma PathRunIsTransparent<R(!new)>(k: Rules<R>, e: Encounter, i: nat, s: State<R>, first: bool, need: bool,
      answer: Answer, publish: Option<State<R>>, frugal: bool)
    requires e.actors != [] && UniqueLead(e)
    requires OnPath(k, e, i, s, first, need) && RunsTo(k, e, s, first, 0, need, answer, publish)
    ensures UncachedAnswer(k, e, answer)
    ensures publish.Some? ==> Genuine(k, CacheKey(e), publish.value, frugal)
  {
    hide Continues, Pending, Simulate, FrameOf, StateOk, Leaves, Genuine, Succeeds;
    var n, end :| RunEnds(k, e, s, first, 0, need, answer, publish, n, end);
    PathRunEnds(k, e, i, s, first, need, n, end);
    if publish.Some? {
      var m := Simulate(k, e);
      SucceedsFinishes(k, e, end);
      forall j: nat | j <= n
        ensures After(m, s, first, j).Some?
      {
        EndPassesThrough(m, s, first, n, end, j);
      }
      IdleIsFirst(k, e, i, s, first, n);
      if FirstIdle(m, s, first, 0, n).None? {
        PathRunLeavesItsEnd(k, e, i, s, first, n, end.state);
        LeftIsGenuine(k, e, i + n, end.state, [e.auditOffset], publish.value, true, frugal);
      } else {
        var j :| i < j <= i + n && Leaves(k, e, j, publish.value, [], publish.value, true);
        LeftIsGenuine(k, e, j, publish.value, [], publish.value, true, frugal);
      }
    }
  }

  lemma SucceedsFinishes<R>(k: Rules<R>, e: Encounter, end: End<State<R>>)
    requires Succeeds(k, e, end)
    ensures end.Finished?
  {
  }

  // ---------- Requests that start where an earlier run stopped ----------

  /** Such a request stops at once, and reports what was reported before. */
  lemma SpentRunStops<R(!new)>(k: Rules<R>, e: Encounter, i: nat, s: State<R>, offsets: seq<int>, x: State<R>,
      need: bool, frugal: bool, n: nat, end: End<State<R>>)
    requires ReportsOnlyDraw(k) && AtEnd(k, e, i, s, offsets, x, need, frugal)
    ensures EndsAfter(Simulate(k, e), x, false, n, end) <==> n == 0 && end == Finished(x)
  {
    SpentIsStillOver(k, e, s, offsets);
    GoIsContinues(k, e, x);
  }

  lemma EndAnswersUncached<R(!new)>(k: Rules<R>, e: Encounter, i: nat, s: State<R>)
    requires TakenAt(k, e, i, s) && !Continues(k, e, s)
    ensures UncachedAnswer(k, e, AnswerOf(k, e, Finished(s)))
  {
    hide Continues, Simulate, Pending;
    GoIsContinues(k, e, s);
    NextTurn(Simulate(k, e), Fresh(k, e).value, true, i, s);
  }

  /**
   A request that starts where its own run stops, but for the reports since, answers as no cache would
   exactly if reporting again says what the first report said.
   */
  lemma SpentAnswersExactlyIf<R(!new)>(k: Rules<R>, e: Encounter, i: nat, s: State<R>, offsets: seq<int>, x: State<R>,
      lead: nat, need: bool, frugal: bool, answer: Answer, publish: Option<State<R>>)
    requires ReportsOnlyDraw(k) && AtEnd(k, e, i, s, offsets, x, need, frugal)
    requires RunsTo(k, e, x, false, lead, need, answer, publish)
    ensures UncachedAnswer(k, e, answer) <==> AnswerOf(k, e, Finished(x)) == AnswerOf(k, e, Finished(s))
    ensures Steady(k, e, frugal) ==> UncachedAnswer(k, e, answer)
  {
    hide Simulate, Continues, Leaves, TakenAt, AnswerOf, UncachedAnswer, Leftover;
    var n, end :| RunEnds(k, e, x, false, lead, need, answer, publish, n, end);
    SpentRunStops(k, e, i, s, offsets, x, need, frugal, n, end);
    EndAnswersUncached(k, e, i, s);
    if UncachedAnswer(k, e, answer) {
      UncachedAnswerIsUnique(k, e, answer, AnswerOf(k, e, Finished(s)));
    }
    if offsets == [] {
      assert x == s;
    }
  }

  /** What it publishes is its own end, reported once more. */
  lemma SpentIsHandedOn<R(!new)>(k: Rules<R>, e: Encounter, i: nat, s: State<R>, offsets: seq<int>, x: State<R>,
      lead: nat, need: bool, frugal: bool, answer: Answer, publish: Option<State<R>>)
    requires ReportsOnlyDraw(k) && AtEnd(k, e, i, s, offsets, x, need, frugal)
    requires RunsTo(k, e, x, false, lead, need, answer, publish)
    requires e.actors != [] && UniqueLead(e)
    ensures publish.Some? ==> Genuine(k, CacheKey(e), publish.value, frugal)
  {
    hide Simulate, Continues, TakenAt, AnswerOf, Genuine, Pending;
    var n, end :| RunEnds(k, e, x, false, lead, need, answer, publish, n, end);
    SpentRunStops(k, e, i, s, offsets, x, need, frugal, n, end);
    if publish.Some? {
      assert FirstIdle(Simulate(k, e), x, false, lead, 0) == None;
      SpentOnceMore(k, s, offsets, e.auditOffset);
      var once := offsets + [e.auditOffset];
      assert Leaves(k, e, i, s, once, publish.value, frugal);
      LeftIsGenuine(k, e, i, s, once, publish.value, frugal, frugal);
    }
  }

  // ---------- Restoring and starting ----------

  lemma ResumedSpent<R>(k: Rules<R>, s: State<R>, offsets: seq<int>, e: Encounter)
    requires e.actors != [] && s.actors != []
    ensures Resume(Spent(k, s, offsets), e, 0) == Spent(k, Resume(s, e, 0), offsets)
  {
  }

  /**
   A snapshot restored for a request that extends its own puts the run on that request's path, or at its
   end. A request that would save a snapshot under the very key it has hit must stop at once.
   */
  lemma RestoredIsUnderway<R(!new)>(k: Rules<R>, e: Encounter, n: nat, t: State<R>, need: bool, frugal: bool)
    requires Settles(k) && ReportsOnlyDraw(k)
    requires e.actors != [] && UniqueLead(e) && n <= |LeadCasts(e)| && (n == 0 ==> LeadCasts(e) == [])
    requires Genuine(k, CacheKey(Prefix(e, n)), t, frugal)
    requires need ==> n < |LeadCasts(e)| || (!frugal && t.actors != [] && !Continues(k, e, Restored(k, t, e, 0)))
    ensures RotationActor(e) == 0 < |t.actors|
    ensures Underway(k, e, Restored(k, t, e, 0), false, need, frugal)
  {
    hide Continues, StateOk, Extends, Simulate, Fresh, FrameOf, Prefix, ReportsOnlyDraw, Leaves, Settles, Pending;
    SearchFindsFirst(e);
    var e1 := t.encounter;
    PrefixKeyExtends(e1, e, n);
    assert LeadCasts(e1) <= LeadCasts(e);
    var i, s1, offsets :| Leaves(k, e1, i, s1, offsets, t, frugal);
    LeavesFacts(k, e1, i, s1, offsets, t, frugal);
    SnapshotIsOnPath(k, e1, e, i, s1);
    ResumedSpent(k, s1, offsets, e);
    var s, x := Resume(s1, e, 0), Restored(k, t, e, 0);
    SpentIsStillOver(k, e, s, offsets);
    assert x == Spent(k, s, offsets);
    if offsets == [] {
      assert x == s;
      CheckpointIsUnderway(k, e1, e, i, s1, need, frugal);
    } else {
      EndIsHandedOn(k, e1, e, i, s1, offsets, t, need, frugal);
    }
  }

  lemma LeavesFacts<R(!new)>(k: Rules<R>, e: Encounter, n: nat, s: State<R>, offsets: seq<int>, t: State<R>,
      frugal: bool)
    requires Leaves(k, e, n, s, offsets, t, frugal)
    ensures TakenAt(k, e, n, s) && t == Spent(k, s, offsets) && t.actors == s.actors
  {
  }

  lemma CheckpointIsUnderway<R(!new)>(k: Rules<R>, e1: Encounter, e: Encounter, i: nat, t: State<R>, need: bool,
      frugal: bool)
    requires Settles(k) && Leaves(k, e1, i, t, [], t, frugal)
    requires Extends(e1, e) && (LeadCasts(e1) == [] ==> LeadCasts(e) == []) && |t.actors| > 0
    requires e1.actors != [] && e.actors != []
    requires need ==> LeadCasts(e1) < LeadCasts(e) || (!frugal && !Continues(k, e, Resume(t, e, 0)))
    ensures Underway(k, e, Resume(t, e, 0), false, need, frugal)
  {
    hide Continues, StateOk, Extends, Simulate, FrameOf, Settles, Pending;
    SnapshotIsOnPath(k, e1, e, i, t);
    var x := Resume(t, e, 0);
    if need && !(LeadCasts(e1) < LeadCasts(e)) {
      assert Spent(k, x, []) == x;
      assert AtEnd(k, e, i, x, [], x, need, frugal);
    } else {
      assert OnPath(k, e, i, x, false, need);
    }
  }

  lemma EndIsHandedOn<R(!new)>(k: Rules<R>, e1: Encounter, e: Encounter, i: nat, s: State<R>, offsets: seq<int>,
      t: State<R>, need: bool, frugal: bool)
    requires Settles(k) && Leaves(k, e1, i, s, offsets, t, frugal) && offsets != []
    requires Extends(e1, e) && (LeadCasts(e1) == [] ==> LeadCasts(e) == []) && |s.actors| > 0
    requires e1.actors != [] && e.actors != [] && LeadCasts(e1) <= LeadCasts(e)
    requires need && frugal ==> LeadCasts(e1) < LeadCasts(e)
    ensures Underway(k, e, Spent(k, Resume(s, e, 0), offsets), false, need, frugal)
  {
    hide Continues, StateOk, Extends, Simulate, FrameOf, Settles, Pending;
    SnapshotIsOnPath(k, e1, e, i, s);
    var x := Resume(s, e, 0);
    assert TakenAt(k, e, i, x);
    assert Leaves(k, e, i, x, offsets, Spent(k, x, offsets), frugal);
    assert AtEnd(k, e, i, x, offsets, Spent(k, x, offsets), need, frugal);
  }

  /** The uninterrupted run is on its own path. */
  lemma FreshIsOnPath<R(!new)>(k: Rules<R>, e: Encounter, need: bool)
    requires Fresh(k, e).Some?
    ensures OnPath(k, e, 0, Fresh(k, e).value, true, need)
  {
  }

  lemma FreshRunIsTransparent<R(!new)>(k: Rules<R>, e: Encounter, lead: nat, need: bool, answer: Answer,
      publish: Option<State<R>>, frugal: bool)
    requires RunsFresh(k, e, lead, need, answer, publish)
    ensures UncachedAnswer(k, e, answer)
    ensures !need ==> publish == None
    ensures need && lead == 0 && e.actors != [] && UniqueLead(e) && publish.Some? ==>
              Genuine(k, CacheKey(e), publish.value, frugal)
  {
    hide Genuine, FirstIdle;
    if Fresh(k, e).Some? {
      FreshIsOnPath(k, e, need);
      if lead == 0 && e.actors != [] && UniqueLead(e) {
        PathRunIsTransparent(k, e, 0, Fresh(k, e).value, true, need, answer, publish, frugal);
      }
      var n, end :| RunEnds(k, e, Fresh(k, e).value, true, lead, need, answer, publish, n, end);
    }
  }

  /**
   Whatever a request runs on from, it publishes only genuine snapshots; and it answers as no cache
   would, if its reports say the same when repeated.
   */
  lemma UnderwayIsTransparent<R(!new)>(k: Rules<R>, e: Encounter, x: State<R>, first: bool, lead: nat, need: bool,
      answer: Answer, publish: Option<State<R>>, frugal: bool)
    requires ReportsOnlyDraw(k) && Underway(k, e, x, first, need, frugal)
    requires need ==> lead == 0 && e.actors != [] && UniqueLead(e)
    requires RunsTo(k, e, x, first, lead, need, answer, publish)
    ensures Steady(k, e, frugal) ==> UncachedAnswer(k, e, answer)
    ensures publish.Some? ==> need && Genuine(k, CacheKey(e), publish.value, frugal)
  {
    hide Genuine, OnPath, AtEnd, FirstIdle, Simulate, Continues, Steady, UncachedAnswer, AnswerOf, ReportsOnlyDraw;
    var n, end :| RunEnds(k, e, x, first, lead, need, answer, publish, n, end);
    if i :| OnPath(k, e, i, x, first, need) {
      if need {
        PathRunIsTransparent(k, e, i, x, first, need, answer, publish, frugal);
      } else {
        PathRunEnds(k, e, i, x, first, need, n, end);
        OnPathAnswers(k, e, i, x, first, need, n, end);
      }
    } else {
      var i, s, offsets :| AtEnd(k, e, i, s, offsets, x, need, frugal);
      SpentAnswersExactlyIf(k, e, i, s, offsets, x, lead, need, frugal, answer, publish);
      if need {
        SpentIsHandedOn(k, e, i, s, offsets, x, lead, need, frugal, answer, publish);
      }
    }
  }

  lemma OnPathAnswers<R(!new)>(k: Rules<R>, e: Encounter, i: nat, s: State<R>, first: bool, need: bool, n: nat,
      end: End<State<R>>)
    requires OnPath(k, e, i, s, first, need) && EndsAfter(Simulate(k, e), Fresh(k, e).value, true, i + n, end)
    ensures UncachedAnswer(k, e, AnswerOf(k, e, end))
  {
    hide Simulate;
  }

  // ---------- Transparency of one request ----------

  /**
   Whatever the cache holds, as long as it is sound, the cache stays sound; and the answer is the one of
   an uncached run, if the request is not cached, or its reports say the same when repeated.
   */
  lemma RequestIsTransparent<R(!new)>(k: Rules<R>, capacity: nat, es: Store<R>, e: Encounter, wanted: bool,
      answer: Answer, es': Store<R>)
    requires Settles(k) && ReportsOnlyDraw(k) && Sound(k, es, true) && EntriesOk(es, capacity)
    requires Cacheable(e, wanted, capacity) ==> UniqueLead(e)
    requires Handles(k, capacity, es, e, wanted, answer, es')
    ensures !Cacheable(e, wanted, capacity) || Steady(k, e, true) ==> UncachedAnswer(k, e, answer)
    ensures Sound(k, es', true) && EntriesOk(es', capacity)
  {
    hide Sound, Genuine, RunsTo, RunsFresh, Underway, UncachedAnswer, Steady, Settles, ReportsOnlyDraw;
    if !Cacheable(e, wanted, capacity) {
      FreshRunIsTransparent(k, e, 0, false, answer, None, true);
    } else {
      var whole := |LeadCasts(e)|;
      ProbeFindsLongest(es, e, whole);
      SearchFindsFirst(e);
      match Probe(es, e, whole) {
        case None =>
          var need := Lookup(es, CacheKey(e)).None?;
          var publish :| RunsFresh(k, e, 0, need, answer, publish) && es' == Publish(es, capacity, CacheKey(e), publish);
          FreshRunIsTransparent(k, e, 0, need, answer, publish, true);
          StoreKeepsSound(k, es, capacity, CacheKey(e), publish, true);
        case Some(n) =>
          var key := CacheKey(Prefix(e, n));
          var t, touched := Lookup(es, key).value, Touched(es, key);
          var need := Lookup(touched, CacheKey(e)).None?;
          var publish :| RunsTo(k, e, Restored(k, t, e, 0), false, 0, need, answer, publish)
                         && es' == Publish(touched, capacity, CacheKey(e), publish);
          ExactHitNeedsNothing(es, capacity, e, n);
          SoundHit(k, es, key, true);
          RestoredIsUnderway(k, e, n, t, need, true);
          UnderwayIsTransparent(k, e, Restored(k, t, e, 0), false, 0, need, answer, publish, true);
          TouchKeepsSound(k, es, capacity, key, true);
          StoreKeepsSound(k, touched, capacity, CacheKey(e), publish, true);
      }
    }
  }

  lemma SoundHit<R(!new)>(k: Rules<R>, es: Store<R>, key: Encounter, frugal: bool)
    requires Sound(k, es, frugal) && Lookup(es, key).Some?
    ensures Genuine(k, key, Lookup(es, key).value, frugal)
  {
  }

  /** A request that hits its own key finds it again when it asks whether a snapshot is needed. */
  lemma ExactHitNeedsNothing<R>(es: Store<R>, capacity: nat, e: Encounter, n: nat)
    requires e.actors != [] && n <= |LeadCasts(e)| && EntriesOk(es, capacity) && Cached(es, e, n)
    ensures n == |LeadCasts(e)| ==> Lookup(Touched(es, CacheKey(Prefix(e, n))), CacheKey(e)).Some?
  {
    WholePrefix(e);
    TouchKeepsContents(es, capacity, CacheKey(Prefix(e, n)));
  }

  // ---------- Every request that would complete completes ----------

  lemma UnderwayHalts<R(!new)>(k: Rules<R>, e: Encounter, x: State<R>, first: bool, need: bool, frugal: bool)
    requires ReportsOnlyDraw(k) && Underway(k, e, x, first, need, frugal) && Completes(k, e)
    ensures Halts(Simulate(k, e), x, first) && StateOk(x)
  {
    hide Continues, Simulate, AtEnd, ReportsOnlyDraw, StateOk;
    if i :| OnPath(k, e, i, x, first, need) {
      var m, start := Simulate(k, e), Fresh(k, e).value;
      var n: nat, end :| EndsAfter(m, start, true, n, end);
      EndPassesThrough(m, start, true, n, end, i);
      PathRunEnds(k, e, i, x, first, need, n - i, end);
      FreshIsOk(k, e);
      RunKeepsShape(k, e, start, true, i);
    } else {
      var i, s, offsets :| AtEnd(k, e, i, s, offsets, x, need, frugal);
      SpentRunStops(k, e, i, s, offsets, x, need, frugal, 0, Finished(x));
      SpentIsOk(k, e, i, s, offsets, x, need, frugal);
    }
  }

  lemma SpentIsOk<R(!new)>(k: Rules<R>, e: Encounter, i: nat, s: State<R>, offsets: seq<int>, x: State<R>, need: bool,
      frugal: bool)
    requires AtEnd(k, e, i, s, offsets, x, need, frugal)
    ensures StateOk(x)
  {
    hide Simulate, Continues;
    FreshIsOk(k, e);
    RunKeepsShape(k, e, Fresh(k, e).value, true, i);
  }

  lemma HaltingRunEnds<R(!new)>(k: Rules<R>, e: Encounter, s: State<R>, first: bool, lead: nat, need: bool)
      returns (answer: Answer, publish: Option<State<R>>)
    requires Halts(Simulate(k, e), s, first)
    ensures RunsTo(k, e, s, first, lead, need, answer, publish)
  {
    hide Simulate, Leftover;
    var n, end :| EndsAfter(Simulate(k, e), s, first, n, end);
    answer := AnswerOf(k, e, end);
    publish := Leftover(k, e, s, first, lead, need, n, end);
    assert RunEnds(k, e, s, first, lead, need, answer, publish, n, end);
  }

  lemma FreshRunCompletes<R(!new)>(k: Rules<R>, e: Encounter, lead: nat, need: bool)
      returns (answer: Answer, publish: Option<State<R>>)
    requires Completes(k, e)
    ensures RunsFresh(k, e, lead, need, answer, publish)
    ensures !need ==> publish == None
  {
    match k.setup(FrameOf(e)) {
      case Rejected(error) => answer, publish := Thrown(error), None;
      case Ready(_) => answer, publish := HaltingRunEnds(k, e, Fresh(k, e).value, true, lead, need);
    }
  }

  /** Against a sound cache, a request completes whenever its uncached run does. */
  lemma RequestCompletes<R(!new)>(k: Rules<R>, capacity: nat, es: Store<R>, e: Encounter, wanted: bool)
      returns (answer: Answer, es': Store<R>)
    requires Settles(k) && ReportsOnlyDraw(k) && Sound(k, es, true) && EntriesOk(es, capacity)
    requires Cacheable(e, wanted, capacity) ==> UniqueLead(e)
    requires Completes(k, e)
    ensures Handles(k, capacity, es, e, wanted, answer, es')
  {
    hide RunsFresh, RunsTo, Sound, Underway, Completes, Genuine, Settles, ReportsOnlyDraw;
    var publish: Option<State<R>>;
    if !Cacheable(e, wanted, capacity) {
      answer, publish := FreshRunCompletes(k, e, 0, false);
      es' := es;
    } else {
      ProbeFindsLongest(es, e, |LeadCasts(e)|);
      match Probe(es, e, |LeadCasts(e)|) {
        case None =>
          answer, publish := FreshRunCompletes(k, e, RotationActor(e), Lookup(es, CacheKey(e)).None?);
          es' := Publish(es, capacity, CacheKey(e), publish);
        case Some(n) =>
          var t, touched := Lookup(es, CacheKey(Prefix(e, n))).value, Touched(es, CacheKey(Prefix(e, n)));
          var need := Lookup(touched, CacheKey(e)).None?;
          ExactHitNeedsNothing(es, capacity, e, n);
          SoundHit(k, es, CacheKey(Prefix(e, n)), true);
          RestoredIsUnderway(k, e, n, t, need, true);
          UnderwayHalts(k, e, Restored(k, t, e, 0), false, need, true);
          answer, publish := HaltingRunEnds(k, e, Restored(k, t, e, 0), false, 0, need);
          es' := Publish(touched, capacity, CacheKey(e), publish);
      }
    }
  }

  lemma RestoredShape<R(!new)>(k: Rules<R>, es: Store<R>, e: Encounter, n: nat)
    requires Sound(k, es, true) && e.actors != [] && n <= |LeadCasts(e)| && Cached(es, e, n)
    ensures FrameOf(Lookup(es, CacheKey(Prefix(e, n))).value.encounter) == FrameOf(e)
    ensures |Lookup(es, CacheKey(Prefix(e, n))).value.actors| == |e.actors|
  {
    hide Simulate, Continues, Extends, Pending, StateOk;
    var t := Lookup(es, CacheKey(Prefix(e, n))).value;
    assert Genuine(k, CacheKey(Prefix(e, n)), t, true);
    PrefixKeyExtends(t.encounter, e, n);
    ExtendsKeepsFrame(t.encounter, e);
    var i, s, offsets :| Leaves(k, t.encounter, i, s, offsets, t, true);
    FreshIsOk(k, t.encounter);
    RunKeepsShape(k, t.encounter, Fresh(k, t.encounter).value, true, i);
    OneActorEach(s);
  }

  lemma OneActorEach<R>(s: State<R>)
    requires StateOk(s)
    ensures |s.actors| == |s.encounter.actors|
  {
  }

  lemma HitHandles<R(!new)>(k: Rules<R>, capacity: nat, es: Store<R>, e: Encounter, wanted: bool, answer: Answer,
      es': Store<R>, n: nat)
    requires Cacheable(e, wanted, capacity) && Probe(es, e, |LeadCasts(e)|) == Some(n)
    requires n <= |LeadCasts(e)| && Cached(es, e, n)
    requires RotationActor(e) < |Lookup(es, CacheKey(Prefix(e, n))).value.actors|
    requires var t, touched := Lookup(es, CacheKey(Prefix(e, n))).value, Touched(es, CacheKey(Prefix(e, n)));
             exists publish ::
               && RunsTo(k, e, Restored(k, t, e, RotationActor(e)), false, RotationActor(e), Lookup(touched, CacheKey(e)).None?, answer, publish)
               && es' == Publish(touched, capacity, CacheKey(e), publish)
    ensures Handles(k, capacity, es, e, wanted, answer, es')
  {
    hide RunsTo, Touched, Lookup, Probe;
  }

  lemma MissHandles<R(!new)>(k: Rules<R>, capacity: nat, es: Store<R>, e: Encounter, wanted: bool, answer: Answer,
      es': Store<R>)
    requires Cacheable(e, wanted, capacity) ==> Probe(es, e, |LeadCasts(e)|) == None
    requires var caching := Cacheable(e, wanted, capacity);
             exists publish ::
               && RunsFresh(k, e, if caching then RotationActor(e) else 0, caching && Lookup(es, CacheKey(e)).None?, answer, publish)
               && es' == Publish(es, capacity, CacheKey(e), publish)
    ensures Handles(k, capacity, es, e, wanted, answer, es')
  {
    hide RunsTo, Lookup, Probe;
    if !Cacheable(e, wanted, capacity) {
      var publish :| RunsFresh(k, e, 0, false, answer, publish) && es' == Publish(es, capacity, CacheKey(e), publish);
      FreshRunIsTransparent(k, e, 0, false, answer, publish, true);
    }
  }

  // ---------- What a request leaves in the cache ----------

  /** What a cacheable request runs from: its own start after a miss, a restored snapshot after a hit. */
  ghost predicate StartsFrom<R>(k: Rules<R>, es: Store<R>, e: Encounter, start: State<R>, first: bool)
    requires e.actors != []
  {
    match Probe(es, e, |LeadCasts(e)|)
    case None => first && Fresh(k, e) == Some(start)
    case Some(n) =>
      (ProbeFindsLongest(es, e, |LeadCasts(e)|);
       var t := Lookup(es, CacheKey(Prefix(e, n))).value;
       !first && RotationActor(e) < |t.actors| && start == Restored(k, t, e, RotationActor(e)))
  }

  lemma PublishedIsFound<R>(es: Store<R>, capacity: nat, key: Encounter, publish: Option<State<R>>)
    requires EntriesOk(es, capacity) && capacity > 0
    ensures publish.Some? || Lookup(es, key).Some? ==> Lookup(Publish(es, capacity, key, publish), key).Some?
  {
    if publish.Some? {
      StoreIsSound(es, capacity, key, publish.value);
    }
  }

  /** Without the caller's wish, with a negative seed, without a cache or without actors, the cache is left as it is. */
  lemma UncacheableLeavesCache<R(!new)>(k: Rules<R>, capacity: nat, es: Store<R>, e: Encounter, wanted: bool,
      answer: Answer, es': Store<R>)
    requires !wanted || e.randomSeed < 0 || capacity == 0 || e.actors == []
    requires Handles(k, capacity, es, e, wanted, answer, es')
    ensures es' == es
  {
  }

  lemma TouchedIsFirst<R>(es: Store<R>, key: Encounter)
    requires Lookup(es, key).Some?
    ensures Touched(es, key) != [] && Touched(es, key)[0] == Entry(key, Lookup(es, key).value)
  {
  }

  lemma StoredIsFirst<R>(es: Store<R>, capacity: nat, key: Encounter, t: State<R>)
    requires capacity > 0
    ensures Stored(es, capacity, key, t) != [] && Stored(es, capacity, key, t)[0] == Entry(key, t)
    ensures es != [] && capacity > 1 && es[0].key != key ==>
              |Stored(es, capacity, key, t)| > 1 && Stored(es, capacity, key, t)[1] == es[0]
  {
    if es != [] && capacity > 1 && es[0].key != key {
      assert Take(es, capacity - 1) == [es[0]] + Take(es[1..], capacity - 2);
      assert Without(es, key) == [es[0]] + Without(es[1..], key);
    }
  }

  /**
   A request that is cacheable and finds a prefix of itself leaves that prefix's snapshot as the most recent entry, or as
   the second one, if there is room for two, behind the snapshot that it leaves under its own key.
   */
  lemma HitIsMostRecent<R(!new)>(k: Rules<R>, capacity: nat, es: Store<R>, e: Encounter, wanted: bool,
      answer: Answer, es': Store<R>, n: nat)
    requires wanted && e.randomSeed >= 0 && capacity > 0 && e.actors != [] && EntriesOk(es, capacity)
    requires Handles(k, capacity, es, e, wanted, answer, es')
    requires n <= |LeadCasts(e)| && (n == 0 ==> LeadCasts(e) == [])
    requires Cached(es, e, n) && forall j :: n < j <= |LeadCasts(e)| ==> !Cached(es, e, j)
    ensures var hit := Entry(CacheKey(Prefix(e, n)), Lookup(es, CacheKey(Prefix(e, n))).value);
            && es' != []
            && (es'[0] == hit || (es'[0].key == CacheKey(e) && n < |LeadCasts(e)| && (capacity > 1 ==> |es'| > 1 && es'[1] == hit)))
  {
    hide RunsTo, Simulate, Restored, Stored, Touched, Lookup, EntriesOk, CacheKey;
    ProbeFindsLongest(es, e, |LeadCasts(e)|);
    assert Probe(es, e, |LeadCasts(e)|) == Some(n);
    var key := CacheKey(Prefix(e, n));
    var t, touched := Lookup(es, key).value, Touched(es, key);
    var publish :| && RunsTo(k, e, Restored(k, t, e, RotationActor(e)), false, RotationActor(e), Lookup(touched, CacheKey(e)).None?, answer, publish)
                   && es' == Publish(touched, capacity, CacheKey(e), publish);
    TouchedIsFirst(es, key);
    TouchKeepsContents(es, capacity, key);
    if publish.Some? {
      NeededIfPublished(k, e, Restored(k, t, e, RotationActor(e)), false, RotationActor(e), Lookup(touched, CacheKey(e)).None?, answer, publish);
      StoredIsFirst(touched, capacity, CacheKey(e), publish.value);
      WholePrefix(e);
    }
  }

  lemma NeededIfPublished<R(!new)>(k: Rules<R>, e: Encounter, s: State<R>, first: bool, lead: nat, need: bool,
      answer: Answer, publish: Option<State<R>>)
    requires RunsTo(k, e, s, first, lead, need, answer, publish) && publish.Some?
    ensures need
  {
    hide EndsAfter, AnswerOf, Succeeds;
  }

  /** Afterwards a cacheable request's key is in the cache, unless it could not be set up, or its run did not succeed. */
  lemma SuccessIsCached<R(!new)>(k: Rules<R>, capacity: nat, es: Store<R>, e: Encounter, wanted: bool,
      answer: Answer, es': Store<R>)
    requires wanted && e.randomSeed >= 0 && capacity > 0 && e.actors != [] && EntriesOk(es, capacity)
    requires Handles(k, capacity, es, e, wanted, answer, es')
    ensures || Lookup(es', CacheKey(e)).Some?
            || k.setup(FrameOf(e)).Rejected?
            || exists start, first, n, end :: StartsFrom(k, es, e, start, first)
                 && EndsAfter(Simulate(k, e), start, first, n, end) && !Succeeds(k, e, end)
  {
    hide Simulate, FirstIdle, AnswerOf, Succeeds, Restored, Stored, EndsAfter;
    ProbeFindsLongest(es, e, |LeadCasts(e)|);
    match Probe(es, e, |LeadCasts(e)|) {
      case None =>
        var need := Lookup(es, CacheKey(e)).None?;
        var publish :| RunsFresh(k, e, RotationActor(e), need, answer, publish)
                       && es' == Publish(es, capacity, CacheKey(e), publish);
        PublishedIsFound(es, capacity, CacheKey(e), publish);
        if k.setup(FrameOf(e)).Ready? && need {
          LeftoverIfSucceeds(k, e, Fresh(k, e).value, true, RotationActor(e), need, answer, publish);
        }
      case Some(n) =>
        var t, touched := Lookup(es, CacheKey(Prefix(e, n))).value, Touched(es, CacheKey(Prefix(e, n)));
        var start, need := Restored(k, t, e, RotationActor(e)), Lookup(touched, CacheKey(e)).None?;
        var publish :| RunsTo(k, e, start, false, RotationActor(e), need, answer, publish)
                       && es' == Publish(touched, capacity, CacheKey(e), publish);
        TouchKeepsContents(es, capacity, CacheKey(Prefix(e, n)));
        PublishedIsFound(touched, capacity, CacheKey(e), publish);
        if need {
          LeftoverIfSucceeds(k, e, start, false, RotationActor(e), need, answer, publish);
        }
    }
  }

  lemma LeftoverIfSucceeds<R(!new)>(k: Rules<R>, e: Encounter, s: State<R>, first: bool, lead: nat, need: bool,
      answer: Answer, publish: Option<State<R>>)
    requires RunsTo(k, e, s, first, lead, need, answer, publish) && need
    ensures publish.Some? || exists n, end :: EndsAfter(Simulate(k, e), s, first, n, end) && !Succeeds(k, e, end)
  {
    hide Simulate, FirstIdle, AnswerOf, Succeeds, EndsAfter;
    var n, end :| RunEnds(k, e, s, first, lead, need, answer, publish, n, end);
    assert publish == Leftover(k, e, s, first, lead, need, n, end);
    if publish.None? {
      assert !Succeeds(k, e, end);
      assert EndsAfter(Simulate(k, e), s, first, n, end);
    }
  }

  // ---------- Any number of requests, one after another ----------

  datatype Request = Simulation(encounter: Encounter, wanted: bool) | Resize(capacity: nat)

  /** Serving the requests in order, from this cache, can give these answers. */
  ghost predicate Serves<R(!new)>(k: Rules<R>, capacity: nat, es: Store<R>, requests: seq<Request>,
      answers: seq<Answer>)
    decreases |requests|
  {
    if requests == [] then answers == []
    else
      match requests[0]
      case Resize(c) => Serves(k, c, Take(es, c), requests[1..], answers)
      case Simulation(e, wanted) =>
        && answers != []
        && exists es' :: Handles(k, capacity, es, e, wanted, answers[0], es') && Serves(k, capacity, es', requests[1..], answers[1..])
  }

  /** Each answer is the one of an uncached run of its request. */
  ghost predicate AnswersUncached<R(!new)>(k: Rules<R>, requests: seq<Request>, answers: seq<Answer>)
    decreases |requests|
  {
    if requests == [] then answers == []
    else
      match requests[0]
      case Resize(_) => AnswersUncached(k, requests[1..], answers)
      case Simulation(e, _) => answers != [] && UncachedAnswer(k, e, answers[0]) && AnswersUncached(k, requests[1..], answers[1..])
  }

  /** Whether the cache is used also depends on its capacity at the time. */
  predicate MayUseCache(r: Request)
  {
    r.Simulation? && r.wanted && r.encounter.randomSeed >= 0 && r.encounter.actors != []
  }

  /** No request that may be cached has a later actor with its first one's name. */
  ghost predicate Distinguishable(requests: seq<Request>)
  {
    forall r | r in requests :: MayUseCache(r) ==> UniqueLead(r.encounter)
  }

  ghost predicate AllSteady<R(!new)>(k: Rules<R>, requests: seq<Request>)
  {
    forall r | r in requests :: MayUseCache(r) ==> Steady(k, r.encounter, true)
  }

  lemma {:induction false} SessionIsTransparent<R(!new)>(k: Rules<R>, capacity: nat, es: Store<R>,
      requests: seq<Request>, answers: seq<Answer>)
    requires Settles(k) && ReportsOnlyDraw(k) && Sound(k, es, true) && EntriesOk(es, capacity)
    requires Distinguishable(requests) && AllSteady(k, requests)
    requires Serves(k, capacity, es, requests, answers)
    ensures AnswersUncached(k, requests, answers)
    decreases |requests|
  {
    hide Sound, Handles, UncachedAnswer, Settles, ReportsOnlyDraw, Steady;
    if requests == [] {
    } else {
      var later := requests[1..];
      assert requests[0] in requests && Distinguishable(later) && AllSteady(k, later);
      match requests[0] {
        case Resize(c) =>
          ShrinkKeepsSound(k, es, c, true);
          SessionIsTransparent(k, c, Take(es, c), later, answers);
        case Simulation(e, wanted) =>
          var es' :| Handles(k, capacity, es, e, wanted, answers[0], es') && Serves(k, capacity, es', later, answers[1..]);
          RequestIsTransparent(k, capacity, es, e, wanted, answers[0], es');
          SessionIsTransparent(k, capacity, es', later, answers[1..]);
      }
    }
  }

  /**
   Cache transparency. From an empty cache of any capacity, every answer to any finite sequence of
   requests, with any hits, prefix hits, misses, evictions and resizes among them, is the answer of
   an uncached run of the same request, if repeating a request's report does not change it.
   */
  lemma CachingIsTransparent<R(!new)>(k: Rules<R>, capacity: nat, requests: seq<Request>, answers: seq<Answer>)
    requires Settles(k) && ReportsOnlyDraw(k) && Distinguishable(requests) && AllSteady(k, requests)
    requires Serves(k, capacity, [], requests, answers)
    ensures AnswersUncached(k, requests, answers)
  {
    SessionIsTransparent(k, capacity, [], requests, answers);
  }

  /** The condition that can be told from the encounters: nothing that their reports evaluate draws random numbers. */
  lemma QuietSessionIsTransparent<R(!new)>(k: Rules<R>, capacity: nat, requests: seq<Request>, answers: seq<Answer>)
    requires Settles(k) && ReportsOnlyDraw(k) && Distinguishable(requests)
    requires forall r | r in requests :: MayUseCache(r) ==> Quiet(k, r.encounter)
    requires Serves(k, capacity, [], requests, answers)
    ensures AnswersUncached(k, requests, answers)
  {
    hide Settles, ReportsOnlyDraw, Quiet, Steady, Serves, AnswersUncached;
    forall r | r in requests && MayUseCache(r)
      ensures Steady(k, r.encounter, true)
    {
      QuietIsSteady(k, r.encounter, true);
    }
    CachingIsTransparent(k, capacity, requests, answers);
  }
}
