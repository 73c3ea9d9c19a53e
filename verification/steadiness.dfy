/**
 Caching is transparent exactly if reports say the same when they are repeated. One half is the
 transparency of sessions; here is the other: from a report that does not, a session of requests that
 are served one after another, the last of which is answered otherwise than uncached.
 */
module Steadiness {
  import opened Options
  import opened Encounters
  import opened Runs
  import opened Simulation
  import opened Battle
  import opened Checkpoints
  import opened Reports
  import opened Lru
  import opened Transparency

  /** `e` with `j` more casts of the first actor, and with another audit offset. */
  function Longer(e: Encounter, j: nat, offset: int): Encounter
    requires e.actors != []
  {
    WithLeadCasts(e, LeadCasts(e) + seq(j, _ => Cast("", 0))).(auditOffset := offset)
  }

  lemma LongerExtends(e: Encounter, i: nat, j: nat, o1: int, o2: int)
    requires e.actors != [] && i <= j
    ensures Extends(e, Longer(e, j, o2)) && Extends(Longer(e, i, o1), Longer(e, j, o2))
    ensures |LeadCasts(Longer(e, j, o2))| == |LeadCasts(e)| + j
    ensures CacheKey(Prefix(Longer(e, j, o2), |LeadCasts(e)| + i)) == CacheKey(Longer(e, i, o1))
    ensures UniqueLead(Longer(e, j, o2)) <==> UniqueLead(e)
    ensures i < j ==> CacheKey(Longer(e, j, o2)) != CacheKey(Longer(e, i, o1))
  {
    var short, long := Longer(e, i, o1), Longer(e, j, o2);
    assert LeadCasts(long)[..|LeadCasts(e)| + i] == LeadCasts(short);
    assert LeadCasts(e) == LeadCasts(long)[..|LeadCasts(e)|];
    assert Prefix(long, |LeadCasts(e)| + i).actors == short.actors;
    assert WithLeadCasts(e, LeadCasts(long)).actors == long.actors;
    assert WithLeadCasts(short, LeadCasts(long)).actors == long.actors;
    assert |long.actors| == |e.actors| && forall l :: 0 < l < |e.actors| ==> long.actors[l] == e.actors[l];
    assert |LeadCasts(CacheKey(long))| == |LeadCasts(e)| + j && |LeadCasts(CacheKey(short))| == |LeadCasts(e)| + i;
  }

  /** The end of the run of `e`, as the run of a longer request has it, after some reports. */
  function LongerEnd<R>(k: Rules<R>, e: Encounter, s: State<R>, j: nat, offset: int, offsets: seq<int>): State<R>
    requires e.actors != [] && s.actors != []
  {
    Spent(k, Resume(s, Longer(e, j, offset), 0), offsets)
  }

  /** A report on the end of a run that never had a checkpoint, which, repeated, says something else. */
  ghost predicate Unsteady<R(!new)>(k: Rules<R>, e: Encounter, n: nat, s: State<R>, offsets: seq<int>)
  {
    && offsets != [] && Leaves(k, e, n, s, offsets, Spent(k, s, offsets), true)
    && AnswerOf(k, e, Finished(Spent(k, s, offsets))) != AnswerOf(k, e, Finished(s))
  }

  ghost predicate Base<R(!new)>(k: Rules<R>, e: Encounter, n: nat, s: State<R>, offsets: seq<int>)
  {
    && Settles(k) && ReportsOnlyDraw(k)
    && e.actors != [] && UniqueLead(e) && e.randomSeed >= 0
    && s.actors != []
    && Unsteady(k, e, n, s, offsets)
  }

  /** The longer request's own run stops at the same tick, with everything but the casts the same. */
  lemma LongerStopsThere<R(!new)>(k: Rules<R>, e: Encounter, n: nat, s: State<R>, offsets: seq<int>, j: nat,
      offset: int)
    requires Base(k, e, n, s, offsets) && (LeadCasts(e) == [] ==> j == 0)
    ensures var x, f := Resume(s, Longer(e, j, offset), 0), Longer(e, j, offset);
            && TakenAt(k, f, n, x) && !Continues(k, f, x) && Settled(k, x)
            && x.tick == s.tick && x.rest == s.rest
            && (forall l :: 1 <= l <= n ==> PendingAt(k, f, l))
  {
    hide Continues, Simulate, StateOk, Pending, Reportable, Rereported, AnswerOf, Settles, ReportsOnlyDraw, Extends;
    var f := Longer(e, j, offset);
    LongerExtends(e, 0, j, 0, offset);
    SnapshotIsOnPath(k, e, f, n, s);
  }

  lemma ResumedTwice<R>(s: State<R>, f1: Encounter, f2: Encounter)
    requires f1.actors != [] && f2.actors != [] && s.actors != []
    requires LeadCasts(f1) == [] <==> LeadCasts(f2) == []
    requires f1.actors[0].repeat == f2.actors[0].repeat
    ensures Resume(Resume(s, f1, 0), f2, 0) == Resume(s, f2, 0)
  {
    assert Resume(Resume(s, f1, 0), f2, 0).actors == Resume(s, f2, 0).actors;
  }

  /** What the cache holds after `j` requests: the end of the last one's run, reported by all of them. */
  ghost function Held<R>(k: Rules<R>, e: Encounter, s: State<R>, offsets: seq<int>, j: nat): Store<R>
    requires e.actors != [] && s.actors != [] && j <= |offsets|
  {
    if j == 0 then []
    else [Entry(CacheKey(Longer(e, j - 1, offsets[j - 1])), LongerEnd(k, e, s, j - 1, offsets[j - 1], offsets[..j]))]
  }

  ghost function Reply<R>(k: Rules<R>, e: Encounter, s: State<R>, j: nat, offset: int, offsets: seq<int>): Answer
    requires e.actors != [] && s.actors != []
  {
    AnswerOf(k, Longer(e, j, offset), Finished(LongerEnd(k, e, s, j, offset, offsets)))
  }

  /** A snapshot of one request, restored for a longer one, is the end of that one's own run but for the reports. */
  lemma RestoredIsLongerEnd<R(!new)>(k: Rules<R>, e: Encounter, n: nat, s: State<R>, offsets: seq<int>, i: nat, j: nat,
      o1: int, o2: int, os: seq<int>)
    requires Base(k, e, n, s, offsets) && i <= j && (LeadCasts(e) == [] ==> j == 0)
    ensures var t, f := LongerEnd(k, e, s, i, o1, os), Longer(e, j, o2);
            && t.actors != [] && Restored(k, t, f, 0) == LongerEnd(k, e, s, j, o2, os)
            && !Continues(k, f, LongerEnd(k, e, s, j, o2, os))
  {
    hide Continues, Reportable, Rereported, AnswerOf, Settles, ReportsOnlyDraw, Extends, Leaves;
    LongerStopsThere(k, e, n, s, offsets, j, o2);
    ResumedTwice(s, Longer(e, i, o1), Longer(e, j, o2));
    ResumedSpent(k, Resume(s, Longer(e, i, o1), 0), os, Longer(e, j, o2));
    SpentIsStillOver(k, Longer(e, j, o2), Resume(s, Longer(e, j, o2), 0), os);
  }

  /** A run that stops at once, and needs a snapshot, leaves what it started from, reported once more. */
  lemma StoppedRunLeaves<R(!new)>(k: Rules<R>, f: Encounter, x: State<R>, need: bool, publish: Option<State<R>>)
    requires !Continues(k, f, x)
    requires publish == if need && Succeeds(k, f, Finished(x)) then Some(AfterReport(k, x, f.auditOffset)) else None
    ensures RunsTo(k, f, x, false, 0, need, AnswerOf(k, f, Finished(x)), publish)
  {
    hide Continues, AnswerOf, Succeeds;
    GoIsContinues(k, f, x);
    StopsHere(Simulate(k, f), x);
    hide Simulate, EndsAfter;
    assert FirstIdle(Simulate(k, f), x, false, 0, 0) == None;
    assert RunEnds(k, f, x, false, 0, need, AnswerOf(k, f, Finished(x)), publish, 0, Finished(x));
  }

  lemma StopsHere<S>(m: Machine<S>, x: S)
    requires !m.go(x)
    ensures EndsAfter(m, x, false, 0, Finished(x))
  {
  }

  lemma {:induction false} NeverIdle<R(!new)>(k: Rules<R>, f: Encounter, n: nat)
    requires Fresh(k, f).Some? && forall l :: 1 <= l <= n ==> PendingAt(k, f, l)
    ensures FirstIdle(Simulate(k, f), Fresh(k, f).value, true, 0, n) == None
  {
    hide Simulate, Pending;
    if n == 0 {
    } else {
      NeverIdle(k, f, n - 1);
      assert PendingAt(k, f, n);
    }
  }

  /** The first request runs from its start and leaves its end, reported once. */
  lemma FirstRunLeaves<R(!new)>(k: Rules<R>, e: Encounter, n: nat, s: State<R>, offsets: seq<int>)
    requires Base(k, e, n, s, offsets)
    ensures RunsFresh(k, Longer(e, 0, offsets[0]), 0, true, Reply(k, e, s, 0, offsets[0], []),
              Some(LongerEnd(k, e, s, 0, offsets[0], offsets[..1])))
  {
    hide Continues, Simulate, Reportable, Rereported, AnswerOf, Settles, ReportsOnlyDraw, Extends, Leaves, Succeeds, Pending;
    var f, x := Longer(e, 0, offsets[0]), Resume(s, Longer(e, 0, offsets[0]), 0);
    LongerStopsThere(k, e, n, s, offsets, 0, offsets[0]);
    PrefixReports(k, e, n, s, offsets, 0, 0);
    GoIsContinues(k, f, x);
    NextTurn(Simulate(k, f), Fresh(k, f).value, true, n, x);
    NeverIdle(k, f, n);
    SpentOnceMore(k, x, [], offsets[0]);
    assert [] + [offsets[0]] == offsets[..1];
    assert Spent(k, x, []) == x by { NothingReported(k, x); }
    assert RunEnds(k, f, Fresh(k, f).value, true, 0, true, Reply(k, e, s, 0, offsets[0], []),
        Some(LongerEnd(k, e, s, 0, offsets[0], offsets[..1])), n, Finished(x));
  }

  lemma NothingReported<R>(k: Rules<R>, x: State<R>)
    ensures Spent(k, x, []) == x
  {
  }

  /** None of the reports on the way fails. */
  lemma PrefixReports<R(!new)>(k: Rules<R>, e: Encounter, n: nat, s: State<R>, offsets: seq<int>, j: nat, i: nat)
    requires Base(k, e, n, s, offsets) && i < |offsets| && (LeadCasts(e) == [] ==> j == 0)
    ensures Succeeds(k, Longer(e, j, offsets[i]), Finished(LongerEnd(k, e, s, j, offsets[i], offsets[..i])))
  {
    hide Continues, Simulate, AnswerOf, Settles, ReportsOnlyDraw, Extends, Pending;
    LongerStopsThere(k, e, n, s, offsets, j, offsets[i]);
    ReportableFront(k, s.tick, s.rest, offsets, i);
  }

  lemma {:induction false} ReportableFront<R>(k: Rules<R>, tick: nat, rest: R, offsets: seq<int>, i: nat)
    requires Reportable(k, tick, rest, offsets) && i < |offsets|
    ensures k.report(tick, Rereported(k, tick, rest, offsets[..i]), offsets[i], None).Reported?
    decreases |offsets|
  {
    var n := |offsets| - 1;
    if i == n {
    } else {
      ReportableFront(k, tick, rest, offsets[..n], i);
      assert offsets[..n][..i] == offsets[..i];
    }
  }

  // ---------- The session ----------

  lemma FirstIsHandled<R(!new)>(k: Rules<R>, e: Encounter, n: nat, s: State<R>, offsets: seq<int>)
    requires Base(k, e, n, s, offsets)
    ensures Handles(k, 1, Held(k, e, s, offsets, 0), Longer(e, 0, offsets[0]), true,
              Reply(k, e, s, 0, offsets[0], []), Held(k, e, s, offsets, 1))
  {
    hide Settles, ReportsOnlyDraw, Leaves, AnswerOf, RunsFresh, Spent, Resume;
    var f := Longer(e, 0, offsets[0]);
    LongerExtends(e, 0, 0, offsets[0], offsets[0]);
    SearchFindsFirst(f);
    FirstRunLeaves(k, e, n, s, offsets);
    var publish := Some(LongerEnd(k, e, s, 0, offsets[0], offsets[..1]));
    ProbeFindsLongest<R>([], f, |LeadCasts(f)|);
    assert Held(k, e, s, offsets, 1) == Publish([], 1, CacheKey(f), publish);
  }

  /** A request whose cache holds only the snapshot of the one before it finds that. */
  lemma FindsTheOneBefore<R(!new)>(e: Encounter, j: nat, o1: int, o2: int, t: State<R>, u: State<R>)
    requires e.actors != [] && LeadCasts(e) != [] && j > 0
    ensures var f1, f, len := Longer(e, j - 1, o1), Longer(e, j, o2), |LeadCasts(e)| + j;
            var es := [Entry(CacheKey(f1), t)];
            && f.actors != [] && |LeadCasts(f)| == len
            && Probe(es, f, len) == Some((len - 1) as nat) && Cached(es, f, len - 1)
            && Lookup(es, CacheKey(Prefix(f, len - 1))) == Some(t)
            && Touched(es, CacheKey(Prefix(f, len - 1))) == es
            && Lookup(es, CacheKey(f)) == None && Stored(es, 1, CacheKey(f), u) == [Entry(CacheKey(f), u)]
  {
    hide Lookup, Touched, Stored, Longer, Prefix;
    var f1, f, len := Longer(e, j - 1, o1), Longer(e, j, o2), |LeadCasts(e)| + j;
    LongerExtends(e, j - 1, j, o1, o2);
    SingleEntry(CacheKey(f1), t, CacheKey(f), u);
    WholePrefix(f);
    assert Probe([Entry(CacheKey(f1), t)], f, len - 1) == Some((len - 1) as nat);
  }

  /** Each further request hits the one before it, stops at once, and takes its place in the cache. */
  lemma NextIsHandled<R(!new)>(k: Rules<R>, e: Encounter, n: nat, s: State<R>, offsets: seq<int>, j: nat)
    requires Base(k, e, n, s, offsets) && 0 < j < |offsets| && LeadCasts(e) != []
    ensures Handles(k, 1, Held(k, e, s, offsets, j), Longer(e, j, offsets[j]), true,
              Reply(k, e, s, j, offsets[j], offsets[..j]), Held(k, e, s, offsets, j + 1))
  {
    hide Settles, ReportsOnlyDraw, Leaves, AnswerOf, RunsTo, Spent, Resume, Continues, Succeeds, Restored, Lookup,
      Touched, Stored, Longer, Prefix, Probe, Unsteady;
    var f1, f := Longer(e, j - 1, offsets[j - 1]), Longer(e, j, offsets[j]);
    var t := LongerEnd(k, e, s, j - 1, offsets[j - 1], offsets[..j]);
    var x, u := LongerEnd(k, e, s, j, offsets[j], offsets[..j]), LongerEnd(k, e, s, j, offsets[j], offsets[..j + 1]);
    OffsetOf(e, j, offsets[j]);
    RestoredIsLongerEnd(k, e, n, s, offsets, j - 1, j, offsets[j - 1], offsets[j], offsets[..j]);
    PrefixReports(k, e, n, s, offsets, j, j);
    SpentOnceMore(k, Resume(s, f, 0), offsets[..j], offsets[j]);
    assert offsets[..j] + [offsets[j]] == offsets[..j + 1];
    StoppedRunLeaves(k, f, x, true, Some(u));
    FindsTheOneBefore(e, j, offsets[j - 1], offsets[j], t, u);
    LongerExtends(e, j, j, 0, offsets[j]);
    SearchFindsFirst(f);
    HitHandles(k, 1, Held(k, e, s, offsets, j), f, true, Reply(k, e, s, j, offsets[j], offsets[..j]),
      Held(k, e, s, offsets, j + 1), |LeadCasts(e)| + j - 1);
  }

  lemma OffsetOf(e: Encounter, j: nat, offset: int)
    requires e.actors != []
    ensures Longer(e, j, offset).auditOffset == offset && Longer(e, j, offset).actors != []
    ensures Longer(e, j, offset).randomSeed == e.randomSeed
  {
  }

  /** The last request hits its own key, and reports what the reports before it have left. */
  lemma LastIsHandled<R(!new)>(k: Rules<R>, e: Encounter, n: nat, s: State<R>, offsets: seq<int>)
    requires Base(k, e, n, s, offsets) && (LeadCasts(e) == [] ==> |offsets| == 1)
    ensures var m := |offsets|;
            Handles(k, 1, Held(k, e, s, offsets, m), Longer(e, m - 1, e.auditOffset), true,
              Reply(k, e, s, m - 1, e.auditOffset, offsets), Held(k, e, s, offsets, m))
  {
    hide Settles, ReportsOnlyDraw, Leaves, AnswerOf, RunsTo, Spent, Resume, Continues, Succeeds, Restored, Lookup, Touched, Stored, Longer, Prefix;
    var m := |offsets|;
    var o := offsets[m - 1];
    var f1, f := Longer(e, m - 1, o), Longer(e, m - 1, e.auditOffset);
    var t, x := LongerEnd(k, e, s, m - 1, o, offsets), LongerEnd(k, e, s, m - 1, e.auditOffset, offsets);
    assert offsets[..m] == offsets;
    LongerExtends(e, m - 1, m - 1, o, e.auditOffset);
    RestoredIsLongerEnd(k, e, n, s, offsets, m - 1, m - 1, o, e.auditOffset, offsets);
    OffsetOf(e, m - 1, e.auditOffset);
    StoppedRunLeaves(k, f, x, false, None);
    WholePrefix(f);
    SearchFindsFirst(f);
    var es, len := Held(k, e, s, offsets, m), |LeadCasts(e)| + m - 1;
    var other := f.(settings := f.settings + "*");
    assert CacheKey(other) != CacheKey(f) by { assert |CacheKey(other).settings| != |CacheKey(f).settings|; }
    SingleEntry(CacheKey(f), t, CacheKey(other), t);
    assert es == [Entry(CacheKey(f), t)];
    assert Probe(es, f, len) == Some(len as nat);
    assert es == Publish(es, 1, CacheKey(f), None);
    HitHandles(k, 1, es, f, true, Reply(k, e, s, m - 1, e.auditOffset, offsets), es, len);
  }

  ghost function Session(e: Encounter, offsets: seq<int>, j: nat): seq<Request>
    requires e.actors != [] && offsets != [] && j <= |offsets|
    decreases |offsets| - j
  {
    if j == |offsets| then [Request.Simulation(Longer(e, j - 1, e.auditOffset), true)]
    else [Request.Simulation(Longer(e, j, offsets[j]), true)] + Session(e, offsets, j + 1)
  }

  ghost function Answers<R>(k: Rules<R>, e: Encounter, s: State<R>, offsets: seq<int>, j: nat): seq<Answer>
    requires e.actors != [] && s.actors != [] && offsets != [] && j <= |offsets|
    decreases |offsets| - j
  {
    if j == |offsets| then [Reply(k, e, s, j - 1, e.auditOffset, offsets)]
    else [Reply(k, e, s, j, offsets[j], offsets[..j])] + Answers(k, e, s, offsets, j + 1)
  }

  lemma {:induction false} SessionIsServed<R(!new)>(k: Rules<R>, e: Encounter, n: nat, s: State<R>, offsets: seq<int>,
      j: nat)
    requires Base(k, e, n, s, offsets) && (LeadCasts(e) == [] ==> |offsets| == 1) && j <= |offsets|
    ensures Serves(k, 1, Held(k, e, s, offsets, j), Session(e, offsets, j), Answers(k, e, s, offsets, j))
    decreases |offsets| - j
  {
    hide Base, Handles, Reply, Longer, Held;
    FrugalBase(k, e, n, s, offsets);
    var requests, answers := Session(e, offsets, j), Answers(k, e, s, offsets, j);
    if j == |offsets| {
      LastIsHandled(k, e, n, s, offsets);
      assert requests[1..] == [] && answers[1..] == [];
      assert Serves(k, 1, Held(k, e, s, offsets, j), requests[1..], answers[1..]);
    } else {
      if j == 0 {
        assert offsets[..0] == [];
        FirstIsHandled(k, e, n, s, offsets);
      } else {
        NextIsHandled(k, e, n, s, offsets, j);
      }
      SessionIsServed(k, e, n, s, offsets, j + 1);
      assert requests[1..] == Session(e, offsets, j + 1) && answers[1..] == Answers(k, e, s, offsets, j + 1);
    }
  }

  lemma FrugalBase<R(!new)>(k: Rules<R>, e: Encounter, n: nat, s: State<R>, offsets: seq<int>)
    requires Base(k, e, n, s, offsets)
    ensures offsets != [] && e.actors != [] && s.actors != [] && (LeadCasts(e) == [] ==> |offsets| == 1)
  {
  }

  /** The last answer of the session is not the uncached one. */
  lemma LastIsWrong<R(!new)>(k: Rules<R>, e: Encounter, n: nat, s: State<R>, offsets: seq<int>)
    requires Base(k, e, n, s, offsets)
    ensures var m := |offsets|;
            !UncachedAnswer(k, Longer(e, m - 1, e.auditOffset), Reply(k, e, s, m - 1, e.auditOffset, offsets))
  {
    hide Settles, ReportsOnlyDraw, Leaves, Continues, Simulate, UncachedAnswer, TakenAt, Resume;
    var m := |offsets|;
    var f := Longer(e, m - 1, e.auditOffset);
    FrugalBase(k, e, n, s, offsets);
    LongerStopsThere(k, e, n, s, offsets, m - 1, e.auditOffset);
    var x := Resume(s, f, 0);
    EndAnswersUncached(k, f, n, x);
    SameReport(k, e, f, Spent(k, s, offsets), Spent(k, x, offsets));
    SameReport(k, e, f, s, x);
    if UncachedAnswer(k, f, Reply(k, e, s, m - 1, e.auditOffset, offsets)) {
      UncachedAnswerIsUnique(k, f, Reply(k, e, s, m - 1, e.auditOffset, offsets), AnswerOf(k, f, Finished(x)));
    }
  }

  lemma SameReport<R>(k: Rules<R>, e: Encounter, f: Encounter, s: State<R>, x: State<R>)
    requires e.auditOffset == f.auditOffset && s.tick == x.tick && s.rest == x.rest
    ensures AnswerOf(k, e, Finished(s)) == AnswerOf(k, f, Finished(x))
  {
  }

  lemma {:induction false} LastIsAnswered<R(!new)>(k: Rules<R>, e: Encounter, s: State<R>, offsets: seq<int>, j: nat)
    requires e.actors != [] && s.actors != [] && offsets != [] && j <= |offsets|
    requires AnswersUncached(k, Session(e, offsets, j), Answers(k, e, s, offsets, j))
    ensures var m := |offsets|;
            UncachedAnswer(k, Longer(e, m - 1, e.auditOffset), Reply(k, e, s, m - 1, e.auditOffset, offsets))
    decreases |offsets| - j
  {
    hide UncachedAnswer, Reply, Longer;
    if j == |offsets| {
    } else {
      assert Session(e, offsets, j)[1..] == Session(e, offsets, j + 1);
      assert Answers(k, e, s, offsets, j)[1..] == Answers(k, e, s, offsets, j + 1);
      LastIsAnswered(k, e, s, offsets, j + 1);
    }
  }

  lemma {:induction false} SessionIsDistinguishable(e: Encounter, offsets: seq<int>, j: nat)
    requires e.actors != [] && UniqueLead(e) && offsets != [] && j <= |offsets|
    ensures Distinguishable(Session(e, offsets, j))
    decreases |offsets| - j
  {
    hide Longer, UniqueLead;
    if j == |offsets| {
      LongerExtends(e, j - 1, j - 1, 0, e.auditOffset);
      OffsetOf(e, j - 1, e.auditOffset);
    } else {
      LongerExtends(e, j, j, 0, offsets[j]);
      OffsetOf(e, j, offsets[j]);
      SessionIsDistinguishable(e, offsets, j + 1);
    }
  }

  /** Every answer of every session is the uncached one. */
  ghost predicate Transparent<R(!new)>(k: Rules<R>)
  {
    forall capacity, requests, answers ::
      Distinguishable(requests) && Serves(k, capacity, [], requests, answers) ==> AnswersUncached(k, requests, answers)
  }

  /** Every request that may be cached is steady. */
  ghost predicate ReportsAreSteady<R(!new)>(k: Rules<R>)
  {
    forall e: Encounter :: e.actors != [] && UniqueLead(e) && e.randomSeed >= 0 ==> Steady(k, e, true)
  }

  lemma UnsteadyIsNotTransparent<R(!new)>(k: Rules<R>, e: Encounter, n: nat, s: State<R>, offsets: seq<int>)
    requires Base(k, e, n, s, offsets)
    ensures !Transparent(k)
  {
    hide Base, Handles, Reply, Longer, Serves, AnswersUncached, UncachedAnswer, Session, Answers, Distinguishable;
    FrugalBase(k, e, n, s, offsets);
    BaseIsDistinguishable(k, e, n, s, offsets);
    SessionIsServed(k, e, n, s, offsets, 0);
    LastIsWrong(k, e, n, s, offsets);
    var requests, answers := Session(e, offsets, 0), Answers(k, e, s, offsets, 0);
    assert Held(k, e, s, offsets, 0) == [];
    if AnswersUncached(k, requests, answers) {
      LastIsAnswered(k, e, s, offsets, 0);
    }
  }

  lemma BaseIsDistinguishable<R(!new)>(k: Rules<R>, e: Encounter, n: nat, s: State<R>, offsets: seq<int>)
    requires Base(k, e, n, s, offsets)
    ensures Distinguishable(Session(e, offsets, 0))
  {
    SessionIsDistinguishable(e, offsets, 0);
  }

  /**
   Caching is transparent exactly if, for every request that may be cached, reporting the end of its own
   run again says the same as reporting it once.
   */
  lemma TransparentExactlyIf<R(!new)>(k: Rules<R>)
    requires Settles(k) && ReportsOnlyDraw(k)
    ensures Transparent(k) <==> ReportsAreSteady(k)
  {
    hide Settles, ReportsOnlyDraw, Serves, AnswersUncached, Leaves, AnswerOf, UniqueLead;
    if ReportsAreSteady(k) {
      forall capacity, requests, answers | Distinguishable(requests) && Serves(k, capacity, [], requests, answers)
        ensures AnswersUncached(k, requests, answers)
      {
        CachingIsTransparent(k, capacity, requests, answers);
      }
    } else {
      var e: Encounter :| e.actors != [] && UniqueLead(e) && e.randomSeed >= 0 && !Steady(k, e, true);
      var n, s, offsets := UnsteadyEnd(k, e);
      EndHasActors(k, e, n, s, offsets);
      UnsteadyIsNotTransparent(k, e, n, s, offsets);
    }
  }

  lemma UnsteadyEnd<R(!new)>(k: Rules<R>, e: Encounter) returns (n: nat, s: State<R>, offsets: seq<int>)
    requires !Steady(k, e, true)
    ensures Unsteady(k, e, n, s, offsets)
  {
    hide Leaves, AnswerOf;
    n, s, offsets :| offsets != [] && Leaves(k, e, n, s, offsets, Spent(k, s, offsets), true)
                     && AnswerOf(k, e, Finished(Spent(k, s, offsets))) != AnswerOf(k, e, Finished(s));
  }

  lemma EndHasActors<R(!new)>(k: Rules<R>, e: Encounter, n: nat, s: State<R>, offsets: seq<int>)
    requires e.actors != [] && Unsteady(k, e, n, s, offsets)
    ensures s.actors != []
  {
    hide Simulate, Continues, StateOk;
    FreshIsOk(k, e);
    RunKeepsShape(k, e, Fresh(k, e).value, true, n);
    OneActorEach(s);
  }
}
