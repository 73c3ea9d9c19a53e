/**
 Requests served at the same time. The cache's lock makes `get`, `contains`, `put`, `enabled` and
 `resize` atomic steps; everything a request does between two of them concerns only itself.
 */
module Concurrent {
  import opened Options
  import opened Sequences
  import opened Encounters
  import opened Runs
  import opened Simulation
  import opened Battle
  import opened Checkpoints
  import opened Reports
  import opened Lru
  import opened Transparency

  /** Where a request is. `left` is the length of the next prefix to look for. */
  datatype Phase<R> =
    | Probing(e: Encounter, left: nat)
    | Hit(e: Encounter, snapshot: State<R>, n: nat)
    | Missed(e: Encounter)
    | Going(e: Encounter, start: State<R>, first: bool, lead: nat, need: bool)
    | Ending(e: Encounter, answer: Answer, publish: Option<State<R>>)
    | Returned(e: Encounter, answer: Answer)

  datatype World<R> = World(capacity: nat, entries: Store<R>, threads: seq<Phase<R>>)

  datatype Action<R> =
    | Arrive(e: Encounter, wanted: bool)
    | Probe(i: nat)
    | Check(i: nat)
    | Run(i: nat, answer: Answer, publish: Option<State<R>>)
    | Store(i: nat)
    | Resize(capacity: nat)

  function Setting<R>(w: World<R>, i: nat, p: Phase<R>): World<R>
    requires i < |w.threads|
  {
    w.(threads := w.threads[i := p])
  }

  /** What a fresh request goes on with after its setup. */
  function Start<R>(k: Rules<R>, e: Encounter, lead: nat, need: bool): Phase<R>
  {
    match k.setup(FrameOf(e))
    case Rejected(error) => Returned(e, Thrown(error))
    case Ready(_) => Going(e, Fresh(k, e).value, true, lead, need)
  }

  /** A new request reads whether the cache is enabled, and either goes searching or starts at once. */
  function Arrival<R>(k: Rules<R>, w: World<R>, e: Encounter, wanted: bool): Phase<R>
  {
    if Cacheable(e, wanted, w.capacity) then Probing(e, |LeadCasts(e)|) else Start(k, e, 0, false)
  }

  /** One probe of the search: a hit, or the next shorter prefix, or nothing left to look for. */
  ghost predicate Probes<R>(w: World<R>, w': World<R>, i: nat)
  {
    && i < |w.threads| && w.threads[i].Probing?
    && var p := w.threads[i];
       && p.e.actors != [] && p.left <= |LeadCasts(p.e)|
       && var key := CacheKey(Prefix(p.e, p.left));
          match Lookup(w.entries, key)
          case Some(t) => w' == Setting(w, i, Hit(p.e, t, p.left)).(entries := Touched(w.entries, key))
          case None => w' == Setting(w, i, if p.left <= 1 then Missed(p.e) else Probing(p.e, p.left - 1))
  }

  /** Restoring or setting up, and then asking whether the full key is in the cache. */
  ghost predicate Checks<R>(k: Rules<R>, w: World<R>, w': World<R>, i: nat)
  {
    && i < |w.threads|
    && match w.threads[i]
       case Hit(e, t, _) =>
         && e.actors != [] && RotationActor(e) < |t.actors|
         && w' == Setting(w, i, Going(e, Restored(k, t, e, RotationActor(e)), false, RotationActor(e), Lookup(w.entries, CacheKey(e)).None?))
       case Missed(e) =>
         && e.actors != []
         && w' == Setting(w, i, Start(k, e, RotationActor(e), Lookup(w.entries, CacheKey(e)).None?))
       case _ => false
  }

  ghost predicate Next<R(!new)>(k: Rules<R>, w: World<R>, w': World<R>, a: Action<R>)
  {
    match a
    case Arrive(e, wanted) => w' == w.(threads := w.threads + [Arrival(k, w, e, wanted)])
    case Probe(i) => Probes(w, w', i)
    case Check(i) => Checks(k, w, w', i)
    case Run(i, answer, publish) =>
      && i < |w.threads| && w.threads[i].Going?
      && var p := w.threads[i];
         && RunsTo(k, p.e, p.start, p.first, p.lead, p.need, answer, publish)
         && w' == Setting(w, i, Ending(p.e, answer, publish))
    case Store(i) =>
      && i < |w.threads| && w.threads[i].Ending?
      && var p := w.threads[i];
         w' == Setting(w, i, Returned(p.e, p.answer)).(entries := Publish(w.entries, w.capacity, CacheKey(p.e), p.publish))
    case Resize(c) => w' == w.(capacity := c, entries := Take(w.entries, c))
  }

  /**
   What the interleaving must respect: a request that hit its own key, and no longer finds that key when
   it asks whether it has to save a snapshot, stops at once. One request at a time always finds it.
   */
  ghost predicate Careful<R>(k: Rules<R>, w: World<R>, a: Action<R>)
  {
    match a
    case Arrive(e, wanted) => Cacheable(e, wanted, w.capacity) ==> UniqueLead(e)
    case Check(i) => i < |w.threads| && HasLostItsHit(w, i) ==> StopsAtOnce(k, w.threads[i])
    case _ => true
  }

  ghost predicate HasLostItsHit<R>(w: World<R>, i: nat)
    requires i < |w.threads|
  {
    var p := w.threads[i];
    p.Hit? && p.e.actors != [] && p.n == |LeadCasts(p.e)| && Lookup(w.entries, CacheKey(p.e)).None?
  }

  ghost predicate StopsAtOnce<R>(k: Rules<R>, p: Phase<R>)
    requires p.Hit? && p.e.actors != []
  {
    RotationActor(p.e) < |p.snapshot.actors| && !Continues(k, p.e, Restored(k, p.snapshot, p.e, RotationActor(p.e)))
  }

  // ---------- The invariant ----------

  ghost predicate PhaseOk<R(!new)>(k: Rules<R>, p: Phase<R>)
  {
    match p
    case Probing(e, left) => e.actors != [] && UniqueLead(e) && left <= |LeadCasts(e)| && (left == 0 ==> LeadCasts(e) == [])
    case Hit(e, t, n) =>
      && e.actors != [] && UniqueLead(e) && n <= |LeadCasts(e)| && (n == 0 ==> LeadCasts(e) == [])
      && Genuine(k, CacheKey(Prefix(e, n)), t, false)
    case Missed(e) => e.actors != [] && UniqueLead(e)
    case Going(e, start, first, lead, need) =>
      && Underway(k, e, start, first, need, false)
      && (need ==> lead == 0 && e.actors != [] && UniqueLead(e))
    case Ending(e, answer, publish) =>
      && (Steady(k, e, false) ==> UncachedAnswer(k, e, answer))
      && (publish.Some? ==> Genuine(k, CacheKey(e), publish.value, false))
    case Returned(e, answer) => Steady(k, e, false) ==> UncachedAnswer(k, e, answer)
  }

  /** Every cached snapshot is genuine, and every request is on the path of its own uncached run. */
  ghost predicate Inv<R(!new)>(k: Rules<R>, w: World<R>)
  {
    && Sound(k, w.entries, false) && EntriesOk(w.entries, w.capacity)
    && forall i :: 0 <= i < |w.threads| ==> PhaseOk(k, w.threads[i])
  }

  lemma StartIsOk<R(!new)>(k: Rules<R>, e: Encounter, lead: nat, need: bool)
    requires need ==> lead == 0 && e.actors != [] && UniqueLead(e)
    ensures PhaseOk(k, Start(k, e, lead, need))
  {
    if Fresh(k, e).Some? {
      FreshIsOnPath(k, e, need);
    }
  }

  lemma SettingKeepsInv<R(!new)>(k: Rules<R>, w: World<R>, i: nat, p: Phase<R>)
    requires Inv(k, w) && i < |w.threads| && PhaseOk(k, p)
    ensures Inv(k, Setting(w, i, p))
  {
    hide PhaseOk, Sound;
  }

  lemma ProbeKeepsInv<R(!new)>(k: Rules<R>, w: World<R>, w': World<R>, i: nat)
    requires Inv(k, w) && Probes(w, w', i)
    ensures Inv(k, w')
  {
    hide Genuine, Touched;
    var p := w.threads[i];
    var key := CacheKey(Prefix(p.e, p.left));
    match Lookup(w.entries, key) {
      case Some(t) =>
        assert PhaseOk(k, p);
        SettingKeepsInv(k, w, i, Hit(p.e, t, p.left));
        TouchKeepsSound(k, w.entries, w.capacity, key, false);
      case None =>
        assert PhaseOk(k, p);
        SettingKeepsInv(k, w, i, if p.left <= 1 then Missed(p.e) else Probing(p.e, p.left - 1));
    }
  }

  lemma CheckKeepsInv<R(!new)>(k: Rules<R>, w: World<R>, w': World<R>, i: nat)
    requires Settles(k) && ReportsOnlyDraw(k) && Inv(k, w) && Checks(k, w, w', i) && Careful(k, w, Check(i))
    ensures Inv(k, w')
  {
    hide Genuine, Sound, Underway, Settles, ReportsOnlyDraw, Restored, Continues;
    var p := w.threads[i];
    assert PhaseOk(k, p);
    var need := Lookup(w.entries, CacheKey(p.e)).None?;
    match p {
      case Hit(e, t, n) =>
        SearchFindsFirst(e);
        RestoredIsUnderway(k, e, n, t, need, false);
        SettingKeepsInv(k, w, i, Going(e, Restored(k, t, e, 0), false, 0, need));
      case Missed(e) =>
        SearchFindsFirst(e);
        StartIsOk(k, e, 0, need);
        SettingKeepsInv(k, w, i, Start(k, e, 0, need));
      case _ =>
    }
  }

  lemma RunKeepsInv<R(!new)>(k: Rules<R>, w: World<R>, w': World<R>, i: nat, answer: Answer, publish: Option<State<R>>)
    requires ReportsOnlyDraw(k) && Inv(k, w) && Next(k, w, w', Run(i, answer, publish))
    ensures Inv(k, w')
  {
    hide Genuine, Sound, Underway, UncachedAnswer, RunEnds, Steady, ReportsOnlyDraw;
    var p := w.threads[i];
    assert PhaseOk(k, p);
    UnderwayIsTransparent(k, p.e, p.start, p.first, p.lead, p.need, answer, publish, false);
    SettingKeepsInv(k, w, i, Ending(p.e, answer, publish));
  }

  /** A request that was not restored from a snapshot, cached or not, is answered as uncached in any case. */
  lemma FreshRunAnswersUncached<R(!new)>(k: Rules<R>, w: World<R>, w': World<R>, i: nat, answer: Answer,
      publish: Option<State<R>>)
    requires Inv(k, w) && Next(k, w, w', Run(i, answer, publish)) && w.threads[i].first
    ensures UncachedAnswer(k, w.threads[i].e, answer) && w'.threads[i] == Ending(w.threads[i].e, answer, publish)
  {
    hide Genuine, Sound, OnPath, UncachedAnswer, AnswerOf, Simulate, EndsAfter;
    var p := w.threads[i];
    assert PhaseOk(k, p);
    var j :| OnPath(k, p.e, j, p.start, p.first, p.need);
    var n, end :| RunEnds(k, p.e, p.start, p.first, p.lead, p.need, answer, publish, n, end);
    PathRunEnds(k, p.e, j, p.start, p.first, p.need, n, end);
    OnPathAnswers(k, p.e, j, p.start, p.first, p.need, n, end);
  }

  lemma StoreKeepsInv<R(!new)>(k: Rules<R>, w: World<R>, w': World<R>, i: nat)
    requires Inv(k, w) && Next(k, w, w', Action.Store(i))
    ensures Inv(k, w')
  {
    hide Genuine, Sound, UncachedAnswer, Stored, Steady;
    var p := w.threads[i];
    assert PhaseOk(k, p);
    SettingKeepsInv(k, w, i, Returned(p.e, p.answer));
    StoreKeepsSound(k, w.entries, w.capacity, CacheKey(p.e), p.publish, false);
  }

  /** Every step keeps the invariant, whatever the other requests are doing. */
  lemma StepKeepsInv<R(!new)>(k: Rules<R>, w: World<R>, w': World<R>, a: Action<R>)
    requires Settles(k) && ReportsOnlyDraw(k) && Inv(k, w) && Next(k, w, w', a) && Careful(k, w, a)
    ensures Inv(k, w')
  {
    hide Genuine, Sound, Underway, UncachedAnswer, Settles, ReportsOnlyDraw, RunsTo, Touched, Stored, Steady;
    match a {
      case Arrive(e, wanted) =>
        if !Cacheable(e, wanted, w.capacity) {
          StartIsOk(k, e, 0, false);
        }
        assert PhaseOk(k, Arrival(k, w, e, wanted));
      case Probe(i) => ProbeKeepsInv(k, w, w', i);
      case Check(i) => CheckKeepsInv(k, w, w', i);
      case Run(i, answer, publish) => RunKeepsInv(k, w, w', i, answer, publish);
      case Store(i) => StoreKeepsInv(k, w, w', i);
      case Resize(c) => ShrinkKeepsSound(k, w.entries, c, false);
    }
  }

  // ---------- Whole interleavings ----------

  ghost predicate Execution<R(!new)>(k: Rules<R>, ws: seq<World<R>>, actions: seq<Action<R>>)
  {
    && |ws| == |actions| + 1
    && forall i :: 0 <= i < |actions| ==> Next(k, ws[i], ws[i + 1], actions[i])
  }

  function Empty<R>(capacity: nat): World<R>
  {
    World(capacity, [], [])
  }

  lemma EmptyIsFine<R(!new)>(k: Rules<R>, capacity: nat)
    ensures Inv(k, Empty<R>(capacity))
  {
  }

  lemma {:induction false} InvHolds<R(!new)>(k: Rules<R>, ws: seq<World<R>>, actions: seq<Action<R>>, j: nat)
    requires Settles(k) && ReportsOnlyDraw(k) && Execution(k, ws, actions) && ws[0] == Empty(ws[0].capacity)
    requires forall i :: 0 <= i < |actions| ==> Careful(k, ws[i], actions[i])
    requires j < |ws|
    ensures Inv(k, ws[j])
  {
    hide Settles, ReportsOnlyDraw, Next, Inv, Careful;
    if j == 0 {
      EmptyIsFine(k, ws[0].capacity);
    } else {
      InvHolds(k, ws, actions, j - 1);
      StepKeepsInv(k, ws[j - 1], ws[j], actions[j - 1]);
    }
  }

  /**
   Concurrent transparency. In every state of every careful interleaving of any number of requests,
   every cached snapshot is one that its key's own uninterrupted run leaves, and every request that
   has returned has returned the answer of its uncached run, if repeating its report does not change it.
   */
  lemma ConcurrentRequestsAreTransparent<R(!new)>(k: Rules<R>, ws: seq<World<R>>, actions: seq<Action<R>>, j: nat)
    requires Settles(k) && ReportsOnlyDraw(k) && Execution(k, ws, actions) && ws[0] == Empty(ws[0].capacity)
    requires forall i :: 0 <= i < |actions| ==> Careful(k, ws[i], actions[i])
    requires j < |ws|
    ensures Sound(k, ws[j].entries, false)
    ensures forall i :: 0 <= i < |ws[j].threads| && ws[j].threads[i].Returned? && Steady(k, ws[j].threads[i].e, false) ==>
              UncachedAnswer(k, ws[j].threads[i].e, ws[j].threads[i].answer)
  {
    hide Sound, Next, UncachedAnswer, Settles, ReportsOnlyDraw, Steady, Careful;
    InvHolds(k, ws, actions, j);
    forall i | 0 <= i < |ws[j].threads| && ws[j].threads[i].Returned? && Steady(k, ws[j].threads[i].e, false)
      ensures UncachedAnswer(k, ws[j].threads[i].e, ws[j].threads[i].answer)
    {
      assert PhaseOk(k, ws[j].threads[i]);
    }
  }

  // ---------- The premise is exact ----------

  lemma {:induction false} IdleIsOnTheWay<R>(m: Machine<State<R>>, s: State<R>, first: bool, lead: nat, n: nat)
      returns (j: nat)
    requires FirstIdle(m, s, first, lead, n).Some?
    ensures 1 <= j <= n && After(m, s, first, j) == FirstIdle(m, s, first, lead, n)
  {
    if FirstIdle(m, s, first, lead, n - 1).Some? {
      j := IdleIsOnTheWay(m, s, first, lead, n - 1);
    } else {
      j := n;
    }
  }

  /** What a run leaves that went on for `m > 0` ticks is, but for a report, the state after one of them. */
  lemma LeftoverIsOnTheWay<R(!new)>(k: Rules<R>, e: Encounter, x: State<R>, answer: Answer, publish: State<R>, m: nat,
      end: End<State<R>>) returns (j: nat, u: State<R>)
    requires RunEnds(k, e, x, false, 0, true, answer, Some(publish), m, end) && m > 0
    ensures 1 <= j <= m && After(Simulate(k, e), x, false, j) == Some(u)
    ensures publish.tick == u.tick && publish.encounter == u.encounter
  {
    hide Simulate, FirstIdle;
    if FirstIdle(Simulate(k, e), x, false, 0, m).Some? {
      j := IdleIsOnTheWay(Simulate(k, e), x, false, 0, m);
      u := publish;
    } else {
      j, u := m, end.state;
      EndPassesThrough(Simulate(k, e), x, false, m, end, m);
    }
  }

  /** A snapshot taken later than one that was already idle is none that this request leaves. */
  lemma TooLateIsNotGenuine<R(!new)>(k: Rules<R>, e: Encounter, n: nat, x: State<R>, j: nat, u: State<R>,
      publish: State<R>)
    requires Fresh(k, e).Some? && After(Simulate(k, e), Fresh(k, e).value, true, n) == Some(x)
    requires n > 0 && !Pending(x, 0) && j > 0 && n + j <= TICK_WRAP
    requires After(Simulate(k, e), Fresh(k, e).value, true, n + j) == Some(u)
    requires publish.tick == u.tick && publish.encounter == e
    ensures !Genuine(k, CacheKey(e), publish, false)
  {
    hide Simulate, Continues, Pending, Reportable, Rereported;
    if Genuine(k, CacheKey(e), publish, false) {
      var i: nat, s, offsets :| Leaves(k, e, i, s, offsets, publish, false);
      assert i > n ==> PendingAt(k, e, n);
      FreshRunCountsTicks(k, e, n + j - 1);
      if i > 0 {
        FreshRunCountsTicks(k, e, i - 1);
      } else {
        FreshIsOk(k, e);
      }
    }
  }

  lemma SameKeyExtends(e1: Encounter, e: Encounter)
    requires e1.actors != [] && e.actors != [] && CacheKey(e1) == CacheKey(e)
    ensures Extends(e1, e) && LeadCasts(e1) == LeadCasts(e)
  {
    WholePrefix(e);
    PrefixKeyExtends(e1, e, |LeadCasts(e)|);
  }

  /**
   A request hit the snapshot of its own key, has lost it, and therefore saves one under the same key. With
   less than 2^32 ticks, what it saves is a snapshot of that key exactly if the request stops at once.
   */
  lemma LostHitSavesGenuineExactlyIf<R(!new)>(k: Rules<R>, e: Encounter, n: nat, s: State<R>, offsets: seq<int>,
      t: State<R>, answer: Answer, publish: State<R>, m: nat, end: End<State<R>>)
    requires Settles(k) && ReportsOnlyDraw(k)
    requires e.actors != [] && UniqueLead(e) && Genuine(k, CacheKey(e), t, false) && t.actors != []
    requires Leaves(k, t.encounter, n, s, offsets, t, false)
    requires RunEnds(k, e, Restored(k, t, e, 0), false, 0, true, answer, Some(publish), m, end)
    requires n + m <= TICK_WRAP
    ensures Genuine(k, CacheKey(e), publish, false) <==> !Continues(k, e, Restored(k, t, e, 0))
  {
    hide Simulate, Continues, Settles, ReportsOnlyDraw, Leaves, Genuine, RunEnds, Pending, Extends, Prefix, Restored;
    var x, whole := Restored(k, t, e, 0), |LeadCasts(e)|;
    WholePrefix(e);
    if !Continues(k, e, x) {
      RestoredIsUnderway(k, e, whole, t, true, false);
      assert RunsTo(k, e, x, false, 0, true, answer, Some(publish));
      SearchFindsFirst(e);
      UnderwayIsTransparent(k, e, x, false, 0, true, answer, Some(publish), false);
    } else {
      GenuineKey(k, CacheKey(e), t, false);
      GoingOnIsCheckpoint(k, e, n, s, offsets, t);
      GoingOnTakesTurns(k, e, x, answer, publish, m, end);
      var j, u := LeftoverIsOnTheWay(k, e, x, answer, publish, m, end);
      AfterSplits(Simulate(k, e), Fresh(k, e).value, true, n, j);
      FreshIsOk(k, e);
      RunKeepsShape(k, e, Fresh(k, e).value, true, n + j);
      TooLateIsNotGenuine(k, e, n, x, j, u, publish);
    }
  }

  /** Its own answer is right in any case; only what it saves may mislead others. */
  lemma LostHitAnswersUncached<R(!new)>(k: Rules<R>, e: Encounter, t: State<R>, answer: Answer,
      publish: Option<State<R>>)
    requires Settles(k) && ReportsOnlyDraw(k)
    requires e.actors != [] && UniqueLead(e) && Genuine(k, CacheKey(e), t, false) && t.actors != []
    requires RunsTo(k, e, Restored(k, t, e, 0), false, 0, true, answer, publish)
    ensures Steady(k, e, false) ==> UncachedAnswer(k, e, answer)
  {
    hide Settles, ReportsOnlyDraw, Genuine, Restored, Steady, UncachedAnswer, AnswerOf, Prefix, Simulate, EndsAfter;
    WholePrefix(e);
    SearchFindsFirst(e);
    var x := Restored(k, t, e, 0);
    RestoredIsUnderway(k, e, |LeadCasts(e)|, t, false, false);
    var n, end :| RunEnds(k, e, x, false, 0, true, answer, publish, n, end);
    assert RunEnds(k, e, x, false, 0, false, answer, None, n, end);
    UnderwayIsTransparent(k, e, x, false, 0, false, answer, None, false);
  }

  lemma GenuineKey<R(!new)>(k: Rules<R>, key: Encounter, t: State<R>, frugal: bool)
    requires Genuine(k, key, t, frugal)
    ensures t.encounter.actors != [] && CacheKey(t.encounter) == key
  {
  }

  lemma GoingOnTakesTurns<R(!new)>(k: Rules<R>, e: Encounter, x: State<R>, answer: Answer, publish: State<R>, m: nat,
      end: End<State<R>>)
    requires RunEnds(k, e, x, false, 0, true, answer, Some(publish), m, end) && Continues(k, e, x)
    ensures m > 0
  {
    hide Continues;
    GoIsContinues(k, e, x);
  }

  lemma GoingOnIsCheckpoint<R(!new)>(k: Rules<R>, e: Encounter, n: nat, s: State<R>, offsets: seq<int>, t: State<R>)
    requires Settles(k) && ReportsOnlyDraw(k)
    requires e.actors != [] && t.encounter.actors != [] && CacheKey(t.encounter) == CacheKey(e) && t.actors != []
    requires Leaves(k, t.encounter, n, s, offsets, t, false)
    requires Continues(k, e, Restored(k, t, e, 0))
    ensures n > 0 && Fresh(k, e).Some? && !Pending(Restored(k, t, e, 0), 0)
    ensures After(Simulate(k, e), Fresh(k, e).value, true, n) == Some(Restored(k, t, e, 0))
  {
    hide Simulate, Continues, Settles, ReportsOnlyDraw, Extends, Pending, FrameOf, StateOk, Fresh;
    SameKeyExtends(t.encounter, e);
    SnapshotIsOnPath(k, t.encounter, e, n, s);
    ResumedSpent(k, s, offsets, e);
    SpentIsStillOver(k, e, Resume(s, e, 0), offsets);
    if offsets == [] {
      assert t == s;
    }
  }

  // ---------- Room for every key ----------

  /** Only keys from `keys` are requested, and there is always room for all of them. */
  ghost predicate Roomy<R(!new)>(ws: seq<World<R>>, actions: seq<Action<R>>, keys: set<Encounter>)
    requires |ws| == |actions| + 1
  {
    && (forall j :: 0 <= j < |ws| ==> |keys| <= ws[j].capacity)
    && (forall j :: 0 <= j < |actions| && actions[j].Arrive? ==> CacheKey(actions[j].e) in keys)
  }

  /** Nothing has been evicted: a request that has hit a key would find it. */
  ghost predicate AllThere<R(!new)>(w: World<R>, keys: set<Encounter>)
  {
    && EntriesOk(w.entries, |keys|)
    && (forall key :: key in Keys(w.entries) ==> key in keys)
    && (forall i :: 0 <= i < |w.threads| ==> CacheKey(w.threads[i].e) in keys && HitIsThere(w.entries, w.threads[i]))
  }

  ghost predicate HitIsThere<R(!new)>(es: Store<R>, p: Phase<R>)
  {
    p.Hit? && p.e.actors != [] && p.n <= |LeadCasts(p.e)| ==> CacheKey(Prefix(p.e, p.n)) in Keys(es)
  }

  lemma HitsStayThere<R(!new)>(w: World<R>, w': World<R>, keys: set<Encounter>)
    requires AllThere(w, keys) && EntriesOk(w'.entries, |keys|)
    requires forall key :: key in Keys(w.entries) ==> key in Keys(w'.entries)
    requires forall key :: key in Keys(w'.entries) ==> key in keys
    requires forall i :: 0 <= i < |w'.threads| && (i >= |w.threads| || w'.threads[i] != w.threads[i]) ==>
               CacheKey(w'.threads[i].e) in keys && HitIsThere(w'.entries, w'.threads[i])
    ensures AllThere(w', keys)
  {
    hide EntriesOk, Keys;
    forall i | 0 <= i < |w'.threads|
      ensures CacheKey(w'.threads[i].e) in keys && HitIsThere(w'.entries, w'.threads[i])
    {
      if i < |w.threads| && w'.threads[i] == w.threads[i] {
        assert HitIsThere(w.entries, w.threads[i]);
      }
    }
  }

  lemma KeysFit<R(!new)>(es: Store<R>, keys: set<Encounter>, key: Encounter)
    requires NoRepeats(Keys(es)) && (forall x :: x in Keys(es) ==> x in keys) && key in keys
    ensures |es| <= |keys|
    ensures key !in Keys(es) ==> |es| < |keys|
  {
    hide NoRepeats, Keys;
    NoRepeatsFit(Keys(es), keys);
    if key !in Keys(es) {
      NoRepeatsMiss(Keys(es), keys, key);
    }
  }

  /** With room for every key, storing one of them evicts nothing. */
  lemma StoringEvictsNothing<R(!new)>(es: Store<R>, capacity: nat, key: Encounter, v: State<R>, keys: set<Encounter>)
    requires EntriesOk(es, |keys|) && (forall x :: x in Keys(es) ==> x in keys) && key in keys
    requires |keys| <= capacity
    ensures EntriesOk(Stored(es, capacity, key, v), |keys|)
    ensures forall x :: x in Keys(Stored(es, capacity, key, v)) <==> x in Keys(es) || x == key
  {
    hide Keys, Without, Lookup;
    KeysFit(es, keys, key);
    LookupIsInKeys(es, key);
    StoreIsSound(es, capacity, key, v);
    TakeIsPrefix(es, capacity - 1);
    WithoutNoRepeats(es, key);
    var rest := if Lookup(es, key).Some? then Without(es, key) else es;
    ConsBinds(key, v, rest);
    forall x
      ensures x in Keys(rest) <==> x in Keys(es) && (x != key || key !in Keys(es))
    {
      LookupWithout(es, key, x);
    }
  }

  lemma StepKeepsThere<R(!new)>(k: Rules<R>, w: World<R>, w': World<R>, a: Action<R>, keys: set<Encounter>)
    requires Next(k, w, w', a) && AllThere(w, keys) && |keys| <= w.capacity && |keys| <= w'.capacity
    requires a.Arrive? ==> CacheKey(a.e) in keys
    ensures AllThere(w', keys)
  {
    hide RunsTo, Restored, Keys, Lookup, Touched, Stored, Prefix, EntriesOk;
    match a {
      case Probe(i) =>
        var key := CacheKey(Prefix(w.threads[i].e, w.threads[i].left));
        TouchKeepsKeys(w.entries, |keys|, key);
        LookupIsInKeys(w.entries, key);
      case Store(i) =>
        var p := w.threads[i];
        if p.publish.Some? {
          StoringEvictsNothing(w.entries, w.capacity, CacheKey(p.e), p.publish.value, keys);
        }
      case Resize(c) => TakeIsPrefix(w.entries, c); assert |w.entries| <= |keys| by { FitsIn(w.entries, |keys|); }
      case _ =>
    }
    HitsStayThere(w, w', keys);
  }

  lemma FitsIn<R>(es: Store<R>, capacity: nat)
    requires EntriesOk(es, capacity)
    ensures |es| <= capacity
  {
  }

  lemma TouchKeepsKeys<R(!new)>(es: Store<R>, capacity: nat, key: Encounter)
    requires EntriesOk(es, capacity)
    ensures EntriesOk(Touched(es, key), capacity)
    ensures forall x :: x in Keys(Touched(es, key)) <==> x in Keys(es)
  {
    hide Keys, Touched, Lookup;
    TouchKeepsContents(es, capacity, key);
    forall x
      ensures x in Keys(Touched(es, key)) <==> x in Keys(es)
    {
      LookupIsInKeys(es, x);
      LookupIsInKeys(Touched(es, key), x);
    }
  }

  lemma {:induction false} NothingIsEvicted<R(!new)>(k: Rules<R>, ws: seq<World<R>>, actions: seq<Action<R>>,
      keys: set<Encounter>, j: nat)
    requires Execution(k, ws, actions) && ws[0] == Empty(ws[0].capacity) && Roomy(ws, actions, keys) && j < |ws|
    ensures AllThere(ws[j], keys)
  {
    hide Next, AllThere;
    if j == 0 {
      EmptyHasAll<R>(ws[0].capacity, keys);
    } else {
      NothingIsEvicted(k, ws, actions, keys, j - 1);
      StepKeepsThere(k, ws[j - 1], ws[j], actions[j - 1], keys);
    }
  }

  lemma EmptyHasAll<R(!new)>(capacity: nat, keys: set<Encounter>)
    ensures AllThere(Empty<R>(capacity), keys)
  {
  }

  /**
   The condition that can be seen to beforehand: if the cache always has room for all keys that are
   requested, every interleaving is careful, as long as first actors' names are their own.
   */
  lemma RoomMakesCareful<R(!new)>(k: Rules<R>, ws: seq<World<R>>, actions: seq<Action<R>>, keys: set<Encounter>, j: nat)
    requires Execution(k, ws, actions) && ws[0] == Empty(ws[0].capacity) && Roomy(ws, actions, keys)
    requires j < |actions|
    requires actions[j].Arrive? && Cacheable(actions[j].e, actions[j].wanted, ws[j].capacity) ==> UniqueLead(actions[j].e)
    ensures Careful(k, ws[j], actions[j])
  {
    hide Next, Roomy, EntriesOk, Keys, Lookup;
    NothingIsEvicted(k, ws, actions, keys, j);
    if actions[j].Check? && actions[j].i < |ws[j].threads| && HasLostItsHit(ws[j], actions[j].i) {
      var p := ws[j].threads[actions[j].i];
      WholePrefix(p.e);
      assert HitIsThere(ws[j].entries, p);
      LookupIsInKeys(ws[j].entries, CacheKey(p.e));
      assert false;
    }
  }

  /**
   Concurrent transparency under conditions that can be seen to beforehand: first actors' names are their
   own, the cache always has room for all requested keys, and reports draw no random numbers.
   */
  lemma RoomyRequestsAreTransparent<R(!new)>(k: Rules<R>, ws: seq<World<R>>, actions: seq<Action<R>>,
      keys: set<Encounter>, j: nat, i: nat)
    requires Settles(k) && ReportsOnlyDraw(k)
    requires Execution(k, ws, actions) && ws[0] == Empty(ws[0].capacity) && Roomy(ws, actions, keys)
    requires forall a :: a in actions && a.Arrive? && a.e.actors != [] ==> UniqueLead(a.e)
    requires j < |ws| && i < |ws[j].threads| && ws[j].threads[i].Returned? && Quiet(k, ws[j].threads[i].e)
    ensures UncachedAnswer(k, ws[j].threads[i].e, ws[j].threads[i].answer)
  {
    hide Settles, ReportsOnlyDraw, Next, Roomy, Quiet, Steady, UncachedAnswer, Sound, Careful;
    forall l | 0 <= l < |actions|
      ensures Careful(k, ws[l], actions[l])
    {
      assert actions[l] in actions;
      RoomMakesCareful(k, ws, actions, keys, l);
    }
    QuietIsSteady(k, ws[j].threads[i].e, false);
    ConcurrentRequestsAreTransparent(k, ws, actions, j);
  }

  // ---------- What reaches the cache ----------

  /** What a request is about to publish is what its own run left, whatever happened since. */
  lemma {:induction false} EndingsAreRuns<R(!new)>(k: Rules<R>, ws: seq<World<R>>, actions: seq<Action<R>>, j: nat,
      i: nat) returns (r: nat)
    requires Execution(k, ws, actions) && ws[0].threads == []
    requires j < |ws| && i < |ws[j].threads| && ws[j].threads[i].Ending?
    ensures r < j && i < |ws[r].threads| && ws[r].threads[i].Going? && ws[r].threads[i].e == ws[j].threads[i].e
    ensures actions[r] == Run(i, ws[j].threads[i].answer, ws[j].threads[i].publish)
  {
    hide RunsTo, Probes, Checks;
    var before, a := ws[j - 1], actions[j - 1];
    assert Next(k, before, ws[j], a);
    if i < |before.threads| && before.threads[i] == ws[j].threads[i] {
      r := EndingsAreRuns(k, ws, actions, j - 1, i);
    } else {
      OnlyRunsEnd(k, before, ws[j], a, i);
      r := j - 1;
    }
  }

  lemma OnlyRunsEnd<R(!new)>(k: Rules<R>, w: World<R>, w': World<R>, a: Action<R>, i: nat)
    requires Next(k, w, w', a) && i < |w'.threads| && w'.threads[i].Ending?
    requires i >= |w.threads| || w.threads[i] != w'.threads[i]
    ensures i < |w.threads| && w.threads[i].Going? && w.threads[i].e == w'.threads[i].e
    ensures a == Run(i, w'.threads[i].answer, w'.threads[i].publish)
  {
    hide RunsTo, Lookup, Restored;
  }

  /**
   In any interleaving, whatever a request publishes is left by its own run, which needed a snapshot,
   stopped without failing, and had its report written.
   */
  lemma OnlySuccessIsPublished<R(!new)>(k: Rules<R>, ws: seq<World<R>>, actions: seq<Action<R>>, j: nat, i: nat)
    requires Execution(k, ws, actions) && ws[0].threads == []
    requires j < |actions| && actions[j] == Action.Store(i) && ws[j + 1].entries != ws[j].entries
    ensures i < |ws[j].threads| && ws[j].threads[i].Ending? && ws[j].threads[i].publish.Some?
    ensures exists r, n, end :: 0 <= r < j && actions[r] == Run(i, ws[j].threads[i].answer, ws[j].threads[i].publish)
              && i < |ws[r].threads| && ws[r].threads[i].Going? && ws[r].threads[i].need
              && EndsAfter(Simulate(k, ws[j].threads[i].e), ws[r].threads[i].start, ws[r].threads[i].first, n, end)
              && Succeeds(k, ws[j].threads[i].e, end)
  {
    hide Simulate, EndsAfter, FirstIdle, AnswerOf, Succeeds, Stored;
    assert Next(k, ws[j], ws[j + 1], actions[j]);
    var r := EndingsAreRuns(k, ws, actions, j, i);
    var p, q := ws[r].threads[i], ws[j].threads[i];
    assert Next(k, ws[r], ws[r + 1], actions[r]);
    var n, end :| RunEnds(k, p.e, p.start, p.first, p.lead, p.need, q.answer, q.publish, n, end);
  }
}
