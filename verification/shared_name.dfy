/** Two actors that share the first one's name, and what goes wrong. */
module SharedName {
  import opened Options
  import opened Encounters
  import opened StopPredicate
  import opened Runs
  import opened Simulation
  import opened Battle
  import opened Checkpoints
  import opened Lru
  import opened Transparency
  import opened Game

  const TWINS := Fight([Player("A", ["a"]), Player("A", ["b"])])
  const MORE := Fight([Player("A", ["a", "c"]), Player("A", ["b"])])

  function Plays(skills: seq<string>, idx: nat, noMore: bool): Actor
  {
    Actor(Some(Rotation(Player("A", skills).casts, idx, 0, false)), noMore)
  }

  function Both(e: Encounter, tick: nat, a: Actor, b: Actor, log: string): State<string>
  {
    Here(tick, e, [a, b], [0, 1], log)
  }

  lemma BothTurn(e: Encounter, tick: nat, a: Actor, b: Actor, log: string, first: bool)
    requires |e.actors| == 2 && e.conditions == [LIMIT] && tick < 2 && Simple(a) && Simple(b)
    ensures Simulate(GAME, e).go(Both(e, tick, a, b, log))
    ensures Simulate(GAME, e).turn(Both(e, tick, a, b, log), first) ==
            Running(Both(e, if first then tick else tick + 1, Played(a), Played(b), log + Said(b, 1) + Said(a, 0) + "."))
  {
    hide Tick, Stops, Played, Said, RotationOk;
    var s := Both(e, tick, a, b, log);
    GoesUntilLimit(e, s);
    SimpleIsOk(a);
    SimpleIsOk(b);
    assert StateOk(s);
    TwoActorTick(Ticked(s, first));
  }

  lemma SimpleIsOk(a: Actor)
    requires Simple(a)
    ensures ActorOk(a) && a.rotation.Some?
  {
  }

  lemma PlaysIsSimple(skills: seq<string>, idx: nat, noMore: bool)
    requires idx <= |skills|
    ensures Simple(Plays(skills, idx, noMore))
    ensures Played(Plays(skills, idx, noMore)) ==
            if !noMore && idx < |skills| then Plays(skills, idx + 1, false) else Plays(skills, idx, true)
    ensures forall i: nat :: Said(Plays(skills, idx, noMore), i) ==
              if !noMore && idx < |skills| then (if i == 0 then skills[idx] else "*" + skills[idx]) else ""
  {
  }

  lemma BothFresh(more: seq<string>)
    requires more != []
    ensures var e := Fight([Player("A", more), Player("A", ["b"])]);
            Fresh(GAME, e) == Some(Both(e, 0, Plays(more, 0, false), Plays(["b"], 0, false), ""))
  {
    var e := Fight([Player("A", more), Player("A", ["b"])]);
    assert RotatingActors(e, 0) == [];
    assert RotatingActors(e, 1) == [0];
    assert RotatingActors(e, 2) == [0, 1];
    assert Fresh(GAME, e).value.actors == Both(e, 0, Plays(more, 0, false), Plays(["b"], 0, false), "").actors;
  }

  function TwinSnapshot(): State<string>
  {
    Both(TWINS, 0, Plays(["a"], 1, false), Plays(["b"], 1, false), "*ba.")
  }

  lemma TwinsRun()
    ensures RunsFresh(GAME, TWINS, 1, true, Report("*ba..."), Some(TwinSnapshot()))
  {
    hide Simulate, Played, Said, Simple;
    var m := Simulate(GAME, TWINS);
    var s0 := Both(TWINS, 0, Plays(["a"], 0, false), Plays(["b"], 0, false), "");
    var s2 := Both(TWINS, 1, Plays(["a"], 1, true), Plays(["b"], 1, true), "*ba..");
    var s3 := Both(TWINS, 2, Plays(["a"], 1, true), Plays(["b"], 1, true), "*ba...");
    BothFresh(["a"]);
    PlaysIsSimple(["a"], 0, false); PlaysIsSimple(["a"], 1, false); PlaysIsSimple(["a"], 1, true);
    PlaysIsSimple(["b"], 0, false); PlaysIsSimple(["b"], 1, false); PlaysIsSimple(["b"], 1, true);
    BothTurn(TWINS, 0, Plays(["a"], 0, false), Plays(["b"], 0, false), "", true);
    BothTurn(TWINS, 0, Plays(["a"], 1, false), Plays(["b"], 1, false), "*ba.", false);
    BothTurn(TWINS, 1, Plays(["a"], 1, true), Plays(["b"], 1, true), "*ba..", false);
    GoesUntilLimit(TWINS, s3);
    assert "" + ("*" + "b") + "a" + "." == "*ba." && "*ba." + "" + "" + "." == "*ba.." && "*ba.." + "" + "" + "." == "*ba...";
    ThreeTurns(m, s0, TwinSnapshot(), s2, s3);
    assert FirstIdle(m, s0, true, 1, 0) == None;
    assert FirstIdle(m, s0, true, 1, 1) == Some(TwinSnapshot());
    assert FirstIdle(m, s0, true, 1, 2) == Some(TwinSnapshot());
    assert FirstIdle(m, s0, true, 1, 3) == Some(TwinSnapshot());
    assert RunEnds(GAME, TWINS, s0, true, 1, true, Report("*ba..."), Some(TwinSnapshot()), 3, Finished(s3));
  }

  /** Three turns of the longer request, played without a cache. */
  lemma MoreTurns()
    ensures var m, e := Simulate(GAME, MORE), MORE;
            var s0 := Both(e, 0, Plays(["a", "c"], 0, false), Plays(["b"], 0, false), "");
            var s1 := Both(e, 0, Plays(["a", "c"], 1, false), Plays(["b"], 1, false), "*ba.");
            var s2 := Both(e, 1, Plays(["a", "c"], 2, false), Plays(["b"], 1, true), "*ba.c.");
            var s3 := Both(e, 2, Plays(["a", "c"], 2, true), Plays(["b"], 1, true), "*ba.c..");
            && Fresh(GAME, e) == Some(s0)
            && m.go(s0) && m.go(s1) && m.go(s2) && !m.go(s3)
            && m.turn(s0, true) == Running(s1) && m.turn(s1, false) == Running(s2) && m.turn(s2, false) == Running(s3)
  {
    hide Simulate, Played, Said, Simple;
    BothFresh(["a", "c"]);
    PlaysIsSimple(["a", "c"], 0, false); PlaysIsSimple(["a", "c"], 1, false); PlaysIsSimple(["a", "c"], 2, false);
    PlaysIsSimple(["b"], 0, false); PlaysIsSimple(["b"], 1, false); PlaysIsSimple(["b"], 1, true);
    BothTurn(MORE, 0, Plays(["a", "c"], 0, false), Plays(["b"], 0, false), "", true);
    BothTurn(MORE, 0, Plays(["a", "c"], 1, false), Plays(["b"], 1, false), "*ba.", false);
    BothTurn(MORE, 1, Plays(["a", "c"], 2, false), Plays(["b"], 1, true), "*ba.c.", false);
    GoesUntilLimit(MORE, Both(MORE, 2, Plays(["a", "c"], 2, true), Plays(["b"], 1, true), "*ba.c.."));
    assert "" + ("*" + "b") + "a" + "." == "*ba.";
    assert "*ba." + "" + "c" + "." == "*ba.c." && "*ba.c." + "" + "" + "." == "*ba.c..";
  }

  lemma MoreUncached()
    ensures UncachedAnswer(GAME, MORE, Report("*ba.c.."))
  {
    hide Simulate, UncachedAnswer;
    MoreTurns();
    var s0 := Both(MORE, 0, Plays(["a", "c"], 0, false), Plays(["b"], 0, false), "");
    var s1 := Both(MORE, 0, Plays(["a", "c"], 1, false), Plays(["b"], 1, false), "*ba.");
    var s2 := Both(MORE, 1, Plays(["a", "c"], 2, false), Plays(["b"], 1, true), "*ba.c.");
    var s3 := Both(MORE, 2, Plays(["a", "c"], 2, true), Plays(["b"], 1, true), "*ba.c..");
    ThreeTurns(Simulate(GAME, MORE), s0, s1, s2, s3);
    FreshAnswers(MORE, s0, 3, s3);
  }

  /** The restored casts go to the other actor of that name, which then casts what the first one should. */
  lemma MoreResumed()
    ensures exists publish :: RunsTo(GAME, MORE, Restored(GAME, TwinSnapshot(), MORE, 1), false, 1, true, Report("*ba.*c.."), publish)
  {
    hide Simulate, Played, Said, Simple;
    var m := Simulate(GAME, MORE);
    var s1 := Both(MORE, 0, Plays(["a"], 1, false), Plays(["a", "c"], 1, false), "*ba.");
    var s2 := Both(MORE, 1, Plays(["a"], 1, true), Plays(["a", "c"], 2, false), "*ba.*c.");
    var s3 := Both(MORE, 2, Plays(["a"], 1, true), Plays(["a", "c"], 2, true), "*ba.*c..");
    assert Restored(GAME, TwinSnapshot(), MORE, 1) == s1;
    PlaysIsSimple(["a"], 1, false); PlaysIsSimple(["a"], 1, true);
    PlaysIsSimple(["a", "c"], 1, false); PlaysIsSimple(["a", "c"], 2, false); PlaysIsSimple(["a", "c"], 2, true);
    BothTurn(MORE, 0, Plays(["a"], 1, false), Plays(["a", "c"], 1, false), "*ba.", false);
    BothTurn(MORE, 1, Plays(["a"], 1, true), Plays(["a", "c"], 2, false), "*ba.*c.", false);
    GoesUntilLimit(MORE, s3);
    assert "*ba." + ("*" + "c") + "" + "." == "*ba.*c." && "*ba.*c." + "" + "" + "." == "*ba.*c..";
    assert EndsAfter(m, s3, false, 0, Finished(s3));
    assert EndsAfter(m, s2, false, 1, Finished(s3));
    assert EndsAfter(m, s1, false, 2, Finished(s3));
    var idle := FirstIdle(m, s1, false, 1, 2);
    var publish := if idle.Some? then idle else Some(s3);
    assert RunEnds(GAME, MORE, s1, false, 1, true, Report("*ba.*c.."), publish, 2, Finished(s3));
    assert RunsTo(GAME, MORE, Restored(GAME, TwinSnapshot(), MORE, 1), false, 1, true, Report("*ba.*c.."), publish);
  }

  lemma TwinFacts()
    ensures RotationActor(TWINS) == 1 && RotationActor(MORE) == 1
    ensures CacheKey(Prefix(MORE, 1)) == CacheKey(TWINS) && Prefix(MORE, 2) == MORE && CacheKey(MORE) != CacheKey(TWINS)
    ensures |LeadCasts(MORE)| == 2 && |LeadCasts(TWINS)| == 1 && Prefix(TWINS, 1) == TWINS
  {
    assert |LeadCasts(MORE)| == 2 && |LeadCasts(TWINS)| == 1;
    WholePrefix(MORE);
    WholePrefix(TWINS);
    assert LeadCasts(MORE)[..1] == LeadCasts(TWINS);
    assert Prefix(MORE, 1).actors == TWINS.actors;
  }

  lemma TwinsHandled()
    ensures Handles(GAME, 4, [], TWINS, true, Report("*ba..."), [Entry(CacheKey(TWINS), TwinSnapshot())])
  {
    hide RunsFresh, Prefix, RotationActor;
    TwinFacts();
    TwinsRun();
    var es: Store<string> := [];
    var publish := Some(TwinSnapshot());
    assert Probe(es, TWINS, 1) == None;
    assert Publish(es, 4, CacheKey(TWINS), publish) == [Entry(CacheKey(TWINS), TwinSnapshot())];
  }

  lemma MoreHandled() returns (es': Store<string>)
    ensures Handles(GAME, 4, [Entry(CacheKey(TWINS), TwinSnapshot())], MORE, true, Report("*ba.*c.."), es')
  {
    hide RunsTo, Prefix, RotationActor, Restored, Touched, Lookup;
    var es := [Entry(CacheKey(TWINS), TwinSnapshot())];
    TwinFacts();
    MoreResumed();
    SingleEntry(CacheKey(TWINS), TwinSnapshot(), CacheKey(MORE), TwinSnapshot());
    assert Probe(es, MORE, 1) == Some(1);
    assert Probe(es, MORE, 2) == Some(1);
    var publish :| RunsTo(GAME, MORE, Restored(GAME, TwinSnapshot(), MORE, 1), false, 1, true, Report("*ba.*c.."), publish);
    es' := Publish(es, 4, CacheKey(MORE), publish);
  }

  /**
   If two actors share the first one's name, caching is not transparent: after a first request has
   been cached, a longer one, served alone and in order, is answered otherwise than uncached.
   */
  lemma NamesMustDiffer() returns (es: Store<string>, es': Store<string>, wrong: Answer)
    ensures !UniqueLead(MORE)
    ensures Handles(GAME, 4, [], TWINS, true, Report("*ba..."), es)
    ensures Handles(GAME, 4, es, MORE, true, wrong, es')
    ensures !UncachedAnswer(GAME, MORE, wrong)
  {
    hide Handles, UncachedAnswer;
    es := [Entry(CacheKey(TWINS), TwinSnapshot())];
    wrong := Report("*ba.*c..");
    assert MORE.actors[1].name == MORE.actors[0].name;
    TwinsHandled();
    es' := MoreHandled();
    MoreUncached();
    assert "*ba.*c.."[4] != "*ba.c.."[4];
    if UncachedAnswer(GAME, MORE, wrong) {
      UncachedAnswerIsUnique(GAME, MORE, wrong, Report("*ba.c.."));
    }
  }

  // ---------- The same request twice ----------

  function MoreSnapshot(): State<string>
  {
    Both(MORE, 0, Plays(["a", "c"], 1, false), Plays(["b"], 1, false), "*ba.")
  }

  /** The checkpoint is taken when the other actor of that name is through. */
  lemma MoreRun()
    ensures RunsFresh(GAME, MORE, 1, true, Report("*ba.c.."), Some(MoreSnapshot()))
  {
    hide Simulate, Played, Said, Simple;
    var m := Simulate(GAME, MORE);
    var s0 := Both(MORE, 0, Plays(["a", "c"], 0, false), Plays(["b"], 0, false), "");
    var s2 := Both(MORE, 1, Plays(["a", "c"], 2, false), Plays(["b"], 1, true), "*ba.c.");
    var s3 := Both(MORE, 2, Plays(["a", "c"], 2, true), Plays(["b"], 1, true), "*ba.c..");
    MoreTurns();
    ThreeTurns(m, s0, MoreSnapshot(), s2, s3);
    assert FirstIdle(m, s0, true, 1, 0) == None;
    assert FirstIdle(m, s0, true, 1, 1) == Some(MoreSnapshot());
    assert FirstIdle(m, s0, true, 1, 2) == Some(MoreSnapshot());
    assert FirstIdle(m, s0, true, 1, 3) == Some(MoreSnapshot());
    assert RunEnds(GAME, MORE, s0, true, 1, true, Report("*ba.c.."), Some(MoreSnapshot()), 3, Finished(s3));
  }

  /** Hitting its own key, the request gives its casts to the other actor, who casts the last of them as well. */
  lemma MoreAgain()
    ensures RunsTo(GAME, MORE, Restored(GAME, MoreSnapshot(), MORE, 1), false, 1, false, Report("*ba.*cc.."), None)
  {
    hide Simulate, Played, Said, Simple;
    var m := Simulate(GAME, MORE);
    var s1 := Both(MORE, 0, Plays(["a", "c"], 1, false), Plays(["a", "c"], 1, false), "*ba.");
    var s2 := Both(MORE, 1, Plays(["a", "c"], 2, false), Plays(["a", "c"], 2, false), "*ba.*cc.");
    var s3 := Both(MORE, 2, Plays(["a", "c"], 2, true), Plays(["a", "c"], 2, true), "*ba.*cc..");
    assert Restored(GAME, MoreSnapshot(), MORE, 1) == s1;
    PlaysIsSimple(["a", "c"], 1, false); PlaysIsSimple(["a", "c"], 2, false); PlaysIsSimple(["a", "c"], 2, true);
    BothTurn(MORE, 0, Plays(["a", "c"], 1, false), Plays(["a", "c"], 1, false), "*ba.", false);
    BothTurn(MORE, 1, Plays(["a", "c"], 2, false), Plays(["a", "c"], 2, false), "*ba.*cc.", false);
    GoesUntilLimit(MORE, s3);
    assert "*ba." + ("*" + "c") + "c" + "." == "*ba.*cc." && "*ba.*cc." + "" + "" + "." == "*ba.*cc..";
    assert EndsAfter(m, s3, false, 0, Finished(s3));
    assert EndsAfter(m, s2, false, 1, Finished(s3));
    assert EndsAfter(m, s1, false, 2, Finished(s3));
    assert RunEnds(GAME, MORE, s1, false, 1, false, Report("*ba.*cc.."), None, 2, Finished(s3));
  }

  /** The same request, served twice in order, is answered otherwise the second time. */
  lemma NamesMustDifferForRepeats() returns (es: Store<string>)
    ensures !UniqueLead(MORE)
    ensures Handles(GAME, 4, [], MORE, true, Report("*ba.c.."), es) && UncachedAnswer(GAME, MORE, Report("*ba.c.."))
    ensures Handles(GAME, 4, es, MORE, true, Report("*ba.*cc.."), es)
    ensures !UncachedAnswer(GAME, MORE, Report("*ba.*cc.."))
  {
    hide RunsFresh, RunsTo, Prefix, RotationActor, Restored, UncachedAnswer, Lookup, Touched;
    TwinFacts();
    MoreRun();
    MoreAgain();
    MoreUncached();
    assert MORE.actors[1].name == MORE.actors[0].name;
    es := [Entry(CacheKey(MORE), MoreSnapshot())];
    SingleEntry(CacheKey(MORE), MoreSnapshot(), CacheKey(TWINS), MoreSnapshot());
    NothingThere(CacheKey(MORE), CacheKey(Prefix(MORE, 1)));
    assert Probe<string>([], MORE, 1) == None && Probe<string>([], MORE, 2) == None;
    assert es == Publish([], 4, CacheKey(MORE), Some(MoreSnapshot()));
    assert Probe(es, MORE, 2) == Some(2);
    assert es == Publish(es, 4, CacheKey(MORE), None);
    assert "*ba.*cc.."[4] != "*ba.c.."[4];
    if UncachedAnswer(GAME, MORE, Report("*ba.*cc..")) {
      UncachedAnswerIsUnique(GAME, MORE, Report("*ba.*cc.."), Report("*ba.c.."));
    }
  }

  lemma NothingThere(k1: Encounter, k2: Encounter)
    ensures Lookup<Encounter, State<string>>([], k1) == None && Lookup<Encounter, State<string>>([], k2) == None
  {
  }
}
