# A verified model of the prefix-cached combat simulation

The program simulates a fight: an encounter lists actors, each with a rotation of skill casts, and
conditions that end the fight. Every millisecond is one tick over an entity registry. Because a tick is
expensive and requests often extend one another by a few casts of the first actor, the simulation loop
keeps snapshots of the registry in a cache. A request looks for the longest cached prefix of its first
actor's casts, copies that snapshot, swaps in its own longer rotation, and ticks on. On its way it takes one
checkpoint, at the first end of a tick at which the last queued cast has started, and stores it under
its own key.

The main theorem says when nobody can tell: every answer, to any sequence of requests, is the answer of a
run that never used the cache, exactly if writing a report twice says the same as writing it once. The other
parts of the model are what that rests on (the cache's linked list and index, the exact copy of a registry,
the cascade that destroys entities while iterating) and two vendored components with self-contained contracts
(the byte queue behind the TCP server, the command-line recogniser and token loop).

## How the model is built

* `runs.dfy`: machines that repeat "test, then turn"; splitting, uniqueness and lockstep of runs; clocks.
* `encounter.dfy`, `stop_predicate.dfy`, `simulation.dfy`, `battle.dfy`, `pulses.dfy`: requests and keys, the
  exit test, one tick with its rotations, the simulation as a machine, condition pulses. A rotation is
  modelled cast by cast. All other game rules are arbitrary functions in one record, `Rules`, so the
  results hold for every rule set. These functions take everything that the corresponding systems may read,
  which does not include the casts a rotation still holds in its queue.
* `tick_laws.dfy`, `timing.dfy`, `endings.dfy`, `answers.dfy`: what a tick does to every rotation, when casts start in a
  run, when the exit test stops it, and what callers are told, each said without the functions that define it.
  `played_fights.dfy` plays out four fights of another small game: a waiting cast, a repeating rotation, an end by
  ROTATION, and a failure.
* `checkpoint.dfy`, `reports.dfy`, `transparency.dfy`, `steadiness.dfy`, `concurrent.dfy`: snapshots and resuming, what
  reports leave behind, one request and sessions, the exact condition for transparency, and interleaved requests.
  `combat_loop.dfy` is the program's loop itself, against the cache itself. `game.dfy`, `drawing_report.dfy`,
  `early_eviction.dfy` and `shared_name.dfy` play one small concrete game, which satisfies the hypotheses and shows
  that three premises cannot be dropped.
* `lru.dfy`, `mru_cache.dfy`: the cache as a value, and the list and index that refine it.
* `entities.dfy`, `storage.dfy`, `ecs.dfy`, `copy_registry.dfy`, `ownership.dfy`: identifiers with recycled slots,
  packed storages, the registry, copying it, and the ownership cascade. The first three are the vendored entt
  library's `basic_registry`, `basic_sparse_set` and `basic_storage` (include/entt/entt.hpp, version 3.11); the
  table cites the program's own lines that rely on them.
* `streambuf.dfy`: the byte queue. `literals.dfy`, `token_loop.dfy`, `command_lines.dfy`: the command line.
* `options.dfy`, `sequences.dfy`: an optional value, and facts about sequences.

Code that changes things in place is a method or a class with loops and frames, proved against functions
on values; the theorems are about those functions. Ticks are 32-bit unsigned and wrap; narrowing to `int` is
written out where the program narrows.

## Hypotheses

* `Settles`: once combat statistics are set up, no later part of a tick makes setting them up again change
  anything (`src/system/actor.cpp:14-25` only adds statistics to actors that have none).
* `ReportsOnlyDraw`: writing a report leaves alone what the exit test looks at and the statistics. A report evaluates
  conditions (`src/system/audit.cpp:521-566`), which may draw from the random generator
  (`src/utils/condition_utils.cpp:224-226`), and clears what it computes. `Game.GameSettles` and
  `DrawingReport.DrawingSettles` show that these two hypotheses can be met, without and with drawing.
* `Steady`, for each request that may be cached: reporting the end of its own run again says the same. It matters only
  for runs that stop before they have a checkpoint, because the registry they hand over has been reported already.
  It is exactly what transparency needs (`Steadiness.TransparentExactlyIf`, `DrawingReport.ReportsMustNotDraw`). It holds
  for every encounter without conditions on random numbers, whose reports draw nothing (`Reports.QuietIsSteady`).
* `UniqueLead`, for each request that may be cached: no later actor carries the first actor's name. The program
  searches for the first actor by name, from the most recently created one backwards, so it is the wrong actor exactly
  if this fails (`Checkpoints.SearchFindsFirst`, `Checkpoints.RestoringIsFaithfulExactlyIf`), and then a cached answer can
  be wrong (`SharedName.NamesMustDiffer`, `SharedName.NamesMustDifferForRepeats`).
* `Careful`, for concurrent requests only: a request that hit its own full key, and no longer finds that key when it asks
  whether to save a checkpoint, stops at once. Otherwise what it saves is wrong (`Concurrent.LostHitSavesGenuineExactlyIf`,
  `EarlyEviction.PremiseIsNeeded`). Requests served one at a time always find the key
  (`Transparency.ExactHitNeedsNothing`), and so do all if the cache always has room for every requested key
  (`Concurrent.RoomMakesCareful`).
* `Completes`: the uncached run stops. A run that never stops has no answer to compare; with a TIME condition
  every run stops (`Battle.TimedEncounterCompletes`).
* Setup depends on the encounter only. It also reads the recipe files that an encounter names
  (`src/system/encounter.cpp:118-119`), which are assumed not to change while snapshots are cached.
* Keys are compared as normalised encounters: writing an encounter to text is taken to lose nothing.

## Where the code and what is said about it differ

* The cache is meant to be invisible. With two actors of the first one's name it is not (see `UniqueLead`), nor if
  reports draw random numbers (see `Steady`).
* The byte queue documents that preparing too much throws. It also moves the characters first, so a failed
  `prepare` can spoil what is still to be read: exactly if there is a gap in front of the queue and the queue is longer
  (`Streambuf.FailureIsHarmlessExactlyIf`, `Streambuf.SpoiltByFailure`). A failed character put never does.
* The comment on the positional grammar speaks of `-`; the code accepts any of the parser's prefix characters there,
  but looks up the letters of a compound option with `-` whatever the prefix is.
* A negative condition offset is added in unsigned arithmetic: until the sum reaches zero, pulses come 296 ticks away
  from the multiples of 1000 (`Pulses.PulseCountBelowZero`, `Pulses.NegativeOffsetShifts`).
* The cascade runs only if something was marked in the same tick: an entity orphaned in another way stays until
  then (`Ownership.DestroyMarkedEntities`).

## Model

| member | source | states |
|---|---|---|
| `Encounters.ExtendsKeepsFrame` | src/combat_loop.cpp:177-183 | requests that differ only in the first actor's casts, the audit offset and the caching wish give setup and ticks the same input |
| `Encounters.PrefixKeyExtends` | src/combat_loop.cpp:285-305 | a key equal to the key of one of my prefixes belongs to a request that mine extends, with the same actor names |
| `Encounters.FramesAgreeExactlyIf` | src/system/encounter.cpp:85-156 | two encounters give setup and ticks the same input exactly if names, builds, settings, pulse offset and seed agree; conditions, casts and audit offset are no part of it |
| `Encounters.KeysAgreeExactlyIf` | src/combat_loop.cpp:177-183 | two requests share a key exactly if they differ at most in the audit offset and the caching wish |
| `StopPredicate.RotationsOver` | src/combat_loop.cpp:196-215 | the flag after the early exits says that everyone concerned with a rotation has no more of it and is not in an animation |
| `StopPredicate.ActiveSkillsOver` | src/combat_loop.cpp:216-242 | the two flags say that everyone concerned with a rotation has no more of it and no active skill |
| `StopPredicate.SomeoneTookDamage` | src/combat_loop.cpp:243-265 | some actor with statistics and exactly that name lost at least that much health |
| `StopPredicate.ContinueCombatLoop` | src/combat_loop.cpp:185-274 | false exactly if some actor is downstate or some condition's quantified meaning holds |
| `StopPredicate.StopsIgnoresStorageOrder` | src/combat_loop.cpp:185-274 | the verdict is the same for every permutation of the actor storage |
| `StopPredicate.EmptyNameIsNoWildcardForDamage` | src/combat_loop.cpp:200-254 | an empty name means everyone for ROTATION and ACTIVE_SKILLS, and nobody named for DAMAGE |
| `Runs.AfterSplits` | src/combat_loop.cpp:365-372 | a run of i + j turns is i turns and then j turns with the first-tick flag cleared |
| `Runs.EndSplits` | src/combat_loop.cpp:365-379 | a run resumed from a state on its way stops as the whole run does, after the turns that were left |
| `Runs.EndIsUnique` | src/combat_loop.cpp:365-379 | a run stops in at most one way |
| `Runs.LockstepRuns` | src/combat_loop.cpp:365-372 | machines that agree through a view as long as an invariant holds pass through the same states |
| `Runs.ClockOfRun` | src/combat_loop.cpp:364-369 | turn j of a run works at the start value plus j, or plus j + 1 if the run was resumed, modulo 2^32 |
| `Runs.ResumedClockContinues` | src/combat_loop.cpp:363-369 | interrupting after i > 0 turns and resuming executes the uninterrupted run's tick values, without gap or repeat |
| `Runs.LimitStops` | src/combat_loop.cpp:266-271 | a test that refuses clock values from a limit on stops the run, within limit minus clock turns, one more for a fresh run |
| `Simulation.Registry.PerformNextCast` | src/system/rotation.cpp:42-241 | in place, what `PerformNext` says of one actor, everything else unchanged; what that means is said by the `TickLaws` rows |
| `Simulation.Registry.VisitActor` | src/system/rotation.cpp:29-268 | one actor's turn, errors included, is `Visit` of the state before |
| `Simulation.Registry.PerformRotations` | src/system/rotation.cpp:24-271 | the pass over the rotation storage from its back is the fold of the turns in reverse packed order, as removals have left it, stopped by the first error |
| `Simulation.Registry.GrantRotations` | src/utils/actor_utils.cpp:196-202 | actors that are given a queue get an empty rotation component, at the end of the storage, unless they have one |
| `Simulation.Registry.MoveRotations` | src/system/rotation.cpp:272-284 | each removed child actor in front of the last configured one moves that one into its place, and no rotation is added or lost |
| `Sequences.GapsCloseInOrder` | src/system/rotation.cpp:272-284 | two gaps are closed one after another, each by what is then the last rotation; a gap behind all configured ones moves nothing |
| `Simulation.Registry.TickOnce` | src/combat_loop.cpp:113-175 | statistics, rotations, the rest of the tick with its pulse test, in this order and with every error path |
| `Simulation.Registry.AdvanceOnce` | src/combat_loop.cpp:366-370 | the clock moves, wrapping, before every tick but the first of a fresh run |
| `Simulation.VisitKeepsShape` | src/system/rotation.cpp:29-268 | a turn changes only its own actor's rotation, never the storage order, the clock or the stored encounter |
| `TickLaws.TurnsInOrder` | src/system/rotation.cpp:24-271 | turns come from the back of the storage to its front, each on what the one before has left; nobody's rotation changes before its own turn; the first failing turn is the last |
| `TickLaws.TurnWithoutRotation` | src/system/rotation.cpp:25-60 | an actor that is marked or has something queued keeps its rotation; what else the turn leaves, and with which error it fails |
| `TickLaws.TurnAtTheEnd` | src/system/rotation.cpp:43-56 | at the end of a rotation that does not repeat, the turn marks the actor and does nothing else |
| `TickLaws.TurnWithACast` | src/system/rotation.cpp:43-241 | with a cast next, in a rotation that began at a tick, the turn waits before its time, and then starts it, waits or fails as the rules say; a repeating rotation begins again at its end, at the present tick |
| `TickLaws.GrantedJoin` | src/utils/actor_utils.cpp:196-202 | exactly the actors of the list without a rotation get an empty one, and join the storage at its end in the order of their first mention |
| `TickLaws.TickAfterTurns` | src/combat_loop.cpp:130-175 | after the turns, one step of all other rules is told whether tick plus offset, modulo 2^32, is a multiple of 1000, and every actor's rotation and mark; it gives rotations only to actors without one |
| `TickLaws.OneTurnEach` | src/system/rotation.cpp:24-271 | in a tick without errors every actor with a rotation has one turn, and the tick leaves its rotation as that turn did |
| `TickLaws.TickMovesRotation` | src/system/rotation.cpp:24-271 | of a whole tick: an index moves by at most one; past a cast exactly if its time after the last restart has come, nothing is queued and the rules start it; a restart happens only at the end of a repeating rotation, a mark exactly at the end of one that does not repeat |
| `Timing.NoCastStartsEarly` | src/system/rotation.cpp:43-67 | at every state of a run from the start, below the wrap, each cast of the present round started no earlier than its time after the last restart, and whoever is marked has started all casts of a rotation that does not repeat |
| `Timing.CastsStartOnTime` | src/system/rotation.cpp:43-241 | in such a run an unhindered actor starts cast j exactly at the later of its time and the tick after cast j - 1, and is marked in the turn after the last |
| `Endings.RosterShows` | src/combat_loop.cpp:199-239 | the exit test sees the simulation's own rotations and marks for configured actors, and everything else as it is |
| `Endings.RotationStopsExactlyIf` | src/combat_loop.cpp:196-215 | with ROTATION as the only condition and nobody downstate, stops exactly if nobody concerned has a rotation that is unmarked, or one and an animation |
| `Endings.ActiveSkillsStopExactlyIf` | src/combat_loop.cpp:216-242 | the same for ACTIVE_SKILLS with active skills in place of animations |
| `Endings.DamageStopsExactlyIf` | src/combat_loop.cpp:243-265 | with DAMAGE as the only condition, stops exactly if someone of exactly that name with statistics lost at least that much |
| `Endings.StopsByOneOfThem` | src/combat_loop.cpp:185-274 | someone downstate stops it; otherwise several conditions stop it exactly if one of them alone would |
| `Endings.RotationFightIsPlayedOut` | src/combat_loop.cpp:196-215 | a fight from the start that ends through ROTATION alone has started every cast of everyone concerned, each no earlier than its time, and marked them |
| `PlayedFights.LaterCastWaits` | src/system/rotation.cpp:63-67 | a played-out fight in which the second cast waits for its time |
| `PlayedFights.RotationRepeats` | src/system/rotation.cpp:43-49 | a played-out fight with a repeating rotation, each round counted from its restart |
| `PlayedFights.EndsByRotation` | src/combat_loop.cpp:196-215 | a played-out fight that ends by ROTATION after the tick that marks its actor |
| `PlayedFights.RefusalIsReported` | src/combat_loop.cpp:375-379 | a played-out fight that fails, and whose answer has the error, on the registry as the failure left it |
| `Battle.AdvanceKeepsShape` | src/combat_loop.cpp:365-372 | every turn keeps the state well formed and the stored encounter, and moves the clock as stated |
| `Battle.RunKeepsShape` | src/combat_loop.cpp:365-372 | every state of a run from a well-formed state is well formed and keeps the stored encounter |
| `Battle.FreshIsOk` | src/system/encounter.cpp:85-156 | setup gives a well-formed state at tick 0 with the request stored |
| `Battle.UncachedAnswerIsUnique` | src/combat_loop.cpp:307-379 | a request has at most one uncached answer |
| `Battle.SimulationIsClocked` | src/combat_loop.cpp:364-370 | no tick moves the clock; a turn moves it by one, wrapping, unless it is the first of a fresh run |
| `Battle.FreshRunCountsTicks` | src/combat_loop.cpp:308-370 | turn j of a fresh simulation works at tick j modulo 2^32 |
| `Battle.TimedEncounterCompletes` | src/combat_loop.cpp:266-271 | with a TIME condition a fresh run stops after at most that many ticks and one more, and at once for time 0 |
| `Pulses.PulseDueExactly` | src/combat_loop.cpp:158-159 | when the 32-bit sum of tick and offset is a multiple of 1000, for sums that went below zero too |
| `Pulses.PulseCount` | src/combat_loop.cpp:157-162 | pulses in [a, b) are the difference of the two floor quotients |
| `Pulses.PulseCountBelowZero` | src/combat_loop.cpp:157-162 | while the sums are negative the same holds, shifted by 296 |
| `Pulses.OnePulsePerThousand` | src/combat_loop.cpp:157-162 | any 1000 consecutive ticks without wrap have exactly one pulse |
| `Pulses.NegativeOffsetShifts` | src/combat_loop.cpp:158-159 | a concrete negative offset for which the unshifted count is wrong |
| `Pulses.PulsesSplit` | src/combat_loop.cpp:157-162 | splitting a range of ticks conserves the number of pulses |
| `Pulses.InterruptionKeepsPulses` | src/combat_loop.cpp:157-162 | a fresh run interrupted after any i > 0 turns and resumed pulses as often as the uninterrupted one, as the quotients say |
| `Checkpoints.SearchFindsFirst` | src/combat_loop.cpp:315-321 | the search by name finds the first actor if and only if no later actor has its name |
| `Checkpoints.RestoringKeepsOk` | src/combat_loop.cpp:325-338 | whichever actor is restored to, the state stays well formed; it has the request's casts, keeps its place in the rotation, and is not marked; nobody else's rotation changes |
| `Checkpoints.RestoringIsFaithfulExactlyIf` | src/combat_loop.cpp:315-338 | restoring gives the first actor the request's casts and changes nothing else if and only if there are none, or no later actor has the first one's name, or both the first actor and the last one of its name already have these casts, this repeat flag and no mark |
| `Checkpoints.TurnIgnoresLaterCasts` | src/system/rotation.cpp:42-66 | with a cast still to start, the first actor's turn is the same whatever follows that cast |
| `Checkpoints.VisitAllIgnoresLaterCasts` | src/system/rotation.cpp:24-271 | with a cast still to start, the whole pass over the rotations is the same whatever follows that cast |
| `Checkpoints.GrantCommutes` | src/utils/actor_utils.cpp:196-202 | giving actors empty rotations commutes with swapping in the longer casts |
| `Checkpoints.RegroupCommutes` | src/system/rotation.cpp:272-284 | closing the gaps that destroyed child actors leave in the rotation storage commutes with swapping in the longer casts |
| `Checkpoints.TickIgnoresLaterCasts` | src/combat_loop.cpp:113-175 | with a cast still to start, the whole tick is the same whatever follows that cast, failing ticks included |
| `Checkpoints.ShorterRunsInLockstep` | src/combat_loop.cpp:350-372 | a request and its extension run in lockstep while the shorter one has a cast to start |
| `Checkpoints.FreshIsExtended` | src/system/encounter.cpp:130-147 | setups of a non-empty prefix and of its extension differ only in the casts and the stored encounter; one throws if the other does |
| `Checkpoints.TickSettles` | src/combat_loop.cpp:117 | repeating the statistics setup at the end of a tick changes nothing |
| `Checkpoints.FreshRunSettled` | src/combat_loop.cpp:362-372 | at every state of a fresh run, setting up the statistics again changes nothing |
| `Checkpoints.PathIsShared` | src/combat_loop.cpp:344-357 | up to the checkpoint, the longer request's run passes through the shorter one's states with its own casts in them |
| `Checkpoints.SnapshotIsOnPath` | src/combat_loop.cpp:325-386 | the state a snapshot is made from (the checkpoint, or the final state before its report), resumed for any extension, is a state of that extension's own run after as many ticks, which stops or goes on there just as the shorter one's does; one without ticks, or of a run that ended early, resumes only into a run that stops at once |
| `Transparency.ProbeFindsLongest` | src/combat_loop.cpp:284-306 | the search finds the longest cached prefix; a non-empty request never uses the empty one, an empty one only itself |
| `CombatLoop.FindSnapshot` | src/combat_loop.cpp:284-306 | the search loop ends, returns exactly that snapshot, and changes only the recency of the key it hit |
| `CombatLoop.FindRotationActor` | src/combat_loop.cpp:313-324 | the loop over actors from the back ends at the last actor with the first one's name |
| `CombatLoop.RestoreRequest` | src/combat_loop.cpp:325-338 | the casts, the repeat flag, the mark and the stored encounter after restoring, and the place of a rotation that had to be added |
| `Transparency.TouchKeepsSound` | src/mru_cache.hpp:36-45 | a hit leaves every cached snapshot genuine |
| `Transparency.StoreKeepsSound` | src/mru_cache.hpp:47-66 | storing a genuine snapshot, with whatever it evicts, leaves every cached snapshot genuine |
| `Transparency.ShrinkKeepsSound` | src/mru_cache.hpp:68-80 | shrinking leaves every cached snapshot genuine |
| `Transparency.PathRunEnds` | src/combat_loop.cpp:359-379 | a run from a state on the uninterrupted path stops exactly as the uninterrupted run does |
| `Transparency.IdleIsFirst` | src/combat_loop.cpp:344-357 | the checkpoint of a run that joined the path late is still the first possible one of the uninterrupted run |
| `Transparency.PathRunIsTransparent` | src/combat_loop.cpp:341-388 | a run on the path answers as the uncached run, without any condition, and publishes only a genuine snapshot, reported once if it is a final one |
| `Transparency.PathRunLeavesItsEnd` | src/combat_loop.cpp:373-386 | a run that ends without a checkpoint hands over its final state as the report has left it |
| `Transparency.SpentAnswersExactlyIf` | src/combat_loop.cpp:362-388 | a request restored from a final registry answers as uncached if and only if reporting from the already reported state says what the first report said |
| `Transparency.SpentIsHandedOn` | src/combat_loop.cpp:373-386 | such a request hands over the same final state, reported once more |
| `Transparency.RestoredIsUnderway` | src/combat_loop.cpp:289-339 | a genuine snapshot restored for a request puts it on its own uncached run's path, or where that run stops but for the reports since |
| `Transparency.FreshRunIsTransparent` | src/combat_loop.cpp:307-311 | a fresh run answers as the uncached run and publishes only a genuine snapshot, and nothing if none is needed |
| `Transparency.UnderwayIsTransparent` | src/combat_loop.cpp:341-388 | whatever genuine state a request runs on from, it publishes only genuine snapshots, and answers as uncached if its report, repeated, says the same |
| `Transparency.ExactHitNeedsNothing` | src/combat_loop.cpp:289-343 | one request at a time finds the key it hit when it asks for it |
| `Transparency.RequestIsTransparent` | src/combat_loop.cpp:276-389 | one request against any cache of genuine snapshots leaves only genuine snapshots, and answers as uncached if it is not cached or its own run's report, repeated, says the same |
| `Transparency.RequestCompletes` | src/combat_loop.cpp:276-389 | one request against any cache of genuine snapshots answers whenever its uncached run stops |
| `Transparency.SuccessIsCached` | src/combat_loop.cpp:343-387 | afterwards a cacheable request finds its key in the cache, unless setup threw or the run it made did not succeed |
| `Transparency.UncacheableLeavesCache` | src/combat_loop.cpp:277-279 | without the caller's wish, with a negative seed, without capacity or without actors, the cache is left as it is |
| `Transparency.HitIsMostRecent` | src/combat_loop.cpp:286-386 | the longest cached prefix's snapshot is the most recent entry afterwards, or the second one behind the request's own |
| `Transparency.CachingIsTransparent` | src/combat_loop.cpp:276-389 | from an empty cache of any capacity, every answer of any finite session of requests and resizes is the uncached one, if each request's report, repeated, says the same |
| `Transparency.QuietSessionIsTransparent` | src/combat_loop.cpp:276-389 | the same under a condition on the encounters: nothing their reports evaluate draws random numbers |
| `Reports.SpentIsStillOver` | src/combat_loop.cpp:373-386 | however often a state has been reported, the exit test says the same of it, and its statistics stay set up |
| `Reports.QuietIsSteady` | src/system/audit.cpp:521-592 | if reports on the states of a run draw nothing, any number of repeated reports says the same |
| `Steadiness.LongerStopsThere` | src/combat_loop.cpp:325-386 | a longer request than one whose run ended early stops at the same tick, with the same registry but for its casts |
| `Steadiness.NextIsHandled` | src/combat_loop.cpp:284-388 | each longer request in turn hits the final registry of the one before, stops at once, and replaces it by one reported once more |
| `Steadiness.UnsteadyIsNotTransparent` | src/combat_loop.cpp:276-389 | from any report that does not say the same when repeated, a session at capacity one with a wrong last answer |
| `Steadiness.TransparentExactlyIf` | src/combat_loop.cpp:276-389 | every session is answered as uncached if and only if, for every request that may be cached, reporting its final state again says the same |
| `DrawingReport.ReportsMustNotDraw` | src/combat_loop.cpp:373-386 | two equal requests that stop at once, served in order, the second answered otherwise because the first one's report has drawn |
| `CombatLoop.RunToEnd` | src/combat_loop.cpp:341-379 | the tick loop ends, reports the end of the run, and hands over the first idle state or else the final one after its report, and nothing if the run or its report fails |
| `CombatLoop.FinalReport` | src/combat_loop.cpp:371-379 | the answer is the report's text, or that of a second report with the first one's error on what the first one left, or the second one's exception; the registry keeps what a successful report made of it |
| `CombatLoop.FailureReport` | src/combat_loop.cpp:375-379 | the answer is the text of a report with exactly this error, at this tick and audit offset, of the registry as it is, or that report's own exception |
| `Answers.FailingTurnIsReported` | src/combat_loop.cpp:365-388 | a run whose next turn fails is answered by the report with that error of what the failure left, or by its exception, and hands nothing over |
| `Answers.FailingReportIsReported` | src/combat_loop.cpp:371-388 | a run that stops and whose report fails is answered by a second report with that error, and hands nothing over |
| `Answers.SuccessIsReported` | src/combat_loop.cpp:344-388 | a run that stops and is reported answers with the text; if a snapshot is needed it hands over the state after the first turn by which every cast of the watched actor had started, or if there was none its last state as the report left it |
| `Answers.UncachedAnswerIsRun` | src/combat_loop.cpp:307-379 | the uncached answer is what the run from the start is answered, or the exception of the setup |
| `CombatLoop.Conclude` | src/combat_loop.cpp:371-388 | after the report, what is handed over is the checkpoint, or else the registry as the report has left it |
| `CombatLoop.RunAndPublish` | src/combat_loop.cpp:359-388 | the run's snapshot, if any, is what the cache receives under the full key, and nothing else changes |
| `CombatLoop.ServeFromSnapshot` | src/combat_loop.cpp:313-388 | a hit: restore, ask for the key, set up statistics, run, publish |
| `CombatLoop.ServeFresh` | src/combat_loop.cpp:307-388 | a miss or an uncached request: set up (an exception passes through), run, publish only if caching |
| `CombatLoop.Serve` | src/combat_loop.cpp:276-389 | the whole function, on the linked list and index: its effect on the cache is the specified one, and its answer is the uncached one if it is not cached or its report, repeated, says the same |
| `Concurrent.ProbeKeepsInv` | src/combat_loop.cpp:289-305 | one locked probe keeps the invariant: cached snapshots are genuine, and every request is on its own uncached run's path or at its end |
| `Concurrent.CheckKeepsInv` | src/combat_loop.cpp:313-343 | restoring and then asking for the key keeps the invariant, under the stated premise |
| `Concurrent.RunKeepsInv` | src/combat_loop.cpp:344-379 | running to the end keeps the invariant |
| `Concurrent.FreshRunAnswersUncached` | src/combat_loop.cpp:307-379 | a request that was not restored from a snapshot is answered as uncached, without a condition on reports |
| `Concurrent.StoreKeepsInv` | src/combat_loop.cpp:383-387 | publishing, into whatever the cache has become meanwhile, keeps the invariant |
| `Concurrent.StepKeepsInv` | src/combat_loop.cpp:276-389 | every step of every request, and every resize, keeps the invariant |
| `Concurrent.ConcurrentRequestsAreTransparent` | src/combat_loop.cpp:276-389 | in every state of every interleaving that respects the premise, all snapshots are genuine, and every returned answer is the uncached one if its report, repeated, says the same |
| `Concurrent.LostHitSavesGenuineExactlyIf` | src/combat_loop.cpp:343-387 | below 2^32 ticks, what an exact hit that has lost its key saves is a genuine snapshot if and only if the request stops at once |
| `Concurrent.LostHitAnswersUncached` | src/combat_loop.cpp:343-388 | the answer of such a request is right in any case |
| `Concurrent.TooLateIsNotGenuine` | src/combat_loop.cpp:344-357 | a state later than one that was already idle is none that the request leaves |
| `Concurrent.StoringEvictsNothing` | src/mru_cache.hpp:47-66 | with room for every key, a put keeps all keys |
| `Concurrent.RoomMakesCareful` | src/mru_cache.hpp:47-80 | if there is always room for all requested keys, every step of every interleaving respects the premise |
| `Concurrent.RoomyRequestsAreTransparent` | src/combat_loop.cpp:276-389 | concurrent transparency under conditions seen to beforehand: own names, room for all keys, reports that draw nothing |
| `Concurrent.EndingsAreRuns` | src/combat_loop.cpp:359-387 | what a request is about to publish is what its own run left, whatever happened since |
| `Concurrent.OnlySuccessIsPublished` | src/combat_loop.cpp:383-387 | in any interleaving, a request that changes the cache at its end needed a snapshot, and its own run stopped without failing and was reported |
| `Game.GameSettles` | src/combat_loop.cpp:117 | a concrete rule set satisfies the hypotheses on statistics and on reports |
| `EarlyEviction.ShortResumedSavesLate` | src/combat_loop.cpp:343-357 | an exact hit that does not find its key saves its checkpoint a tick late |
| `EarlyEviction.LongResumedFromLate` | src/combat_loop.cpp:325-338 | a request resumed from that checkpoint casts a tick late |
| `EarlyEviction.PremiseIsNeeded` | src/combat_loop.cpp:289-357 | an interleaving from an empty cache, in order but for one eviction between a hit and its check, that returns a wrong answer |
| `SharedName.MoreResumed` | src/combat_loop.cpp:315-334 | with a shared name the restored casts go to the other actor |
| `SharedName.NamesMustDiffer` | src/combat_loop.cpp:315-334 | two requests served in order, after which a cached answer differs from the uncached one |
| `SharedName.NamesMustDifferForRepeats` | src/combat_loop.cpp:315-334 | the same request served twice in order, answered otherwise the second time because its casts went to the other actor |
| `Lru.TouchKeepsContents` | src/mru_cache.hpp:36-45 | a hit moves its key to the front and changes no lookup |
| `Lru.StoreIsSound` | src/mru_cache.hpp:47-66 | a put binds its key, keeps keys distinct and the size within capacity, and gives no other key another value |
| `Lru.ReplayIsOk` | src/mru_cache.hpp:34-66 | after any history the keys are distinct and the size is within capacity |
| `Lru.HoldsMostRecent` | src/mru_cache.hpp:36-66 | at constant positive capacity c the list is the first c distinct keys of puts and successful gets, latest first |
| `Lru.TouchMovesToFront` | src/mru_cache.hpp:36-66 | one put or successful get keeps the list the first c distinct keys, latest first |
| `Lru.LargerCacheContainsSmaller` | src/mru_cache.hpp:36-66 | fed the same history, the smaller cache is a subsequence of the larger one, in the same order, with the same values |
| `Lru.LargerCacheNeverLosesHits` | src/mru_cache.hpp:36-66 | a hit in the smaller cache is a hit in the larger one, with the same snapshot |
| `MruCache.RecencyList.Erase` | src/mru_cache.hpp:55 | unlinking a node anywhere removes exactly it and keeps the links |
| `MruCache.RecencyList.PushFront` | src/mru_cache.hpp:64 | a node new to the list becomes its front |
| `MruCache.IndexFinds` | src/mru_cache.hpp:38-44 | the index has a key exactly if the list does, and points at the key's own node |
| `MruCache.SizesAgree` | src/mru_cache.hpp:58-79 | index and list have the same size |
| `MruCache.UnindexRemoves` | src/mru_cache.hpp:55-60 | dropping a key from index and list drops its entry |
| `MruCache.IndexAdds` | src/mru_cache.hpp:64-65 | adding a new key to both makes it the most recent entry |
| `MruCache.Cache.Enabled` | src/mru_cache.hpp:24-27 | enabled exactly if a snapshot put into the cache would be found again; a disabled cache holds nothing |
| `MruCache.Cache.Contains` | src/mru_cache.hpp:29-32 | exactly the cached keys, without touching the recency |
| `MruCache.Cache.Get` | src/mru_cache.hpp:36-45 | returns the stored snapshot, and the list and index then represent the touched recency order |
| `MruCache.Cache.EvictTo` | src/mru_cache.hpp:58-79 | the eviction loop keeps exactly the longest fitting prefix |
| `MruCache.Cache.Put` | src/mru_cache.hpp:47-66 | list and index then represent the abstract put; nothing happens at capacity zero |
| `MruCache.Cache.Resize` | src/mru_cache.hpp:68-80 | throws exactly for a non-positive average; otherwise the capacity is the floor quotient, or zero, and the longest fitting prefix stays |
| `Entities.ChainIsTheDead` | src/utils/registry_utils.cpp:216-220 | the released slots are exactly those whose identifier is not in use |
| `Entities.CreateIsSafe` | src/utils/registry_utils.cpp:216-220 | creating hands out an identifier that was not in use, recycled or new, and changes no other |
| `Entities.ReleaseIsSafe` | src/combat_loop.cpp:81 | destroying takes exactly that identifier out of use |
| `Entities.RecycledGetsNextVersion` | src/utils/registry_utils.cpp:216-217 | an identifier released and handed out again has the same slot and another version, one more, or 0 in place of the reserved 4095; the old one is not alive |
| `Entities.VersionCountsReleases` | src/utils/registry_utils.cpp:216-217 | after any creations and releases, a slot's version counts its releases modulo 4095 |
| `Entities.StaleStaysDead` | src/combat_loop.cpp:79-86 | a destroyed identifier is not alive again after any creations and releases with fewer than 4094 more releases of its slot |
| `Entities.StaleComesBack` | src/combat_loop.cpp:79-86 | with 4094 more releases of its slot it can be: the bound is exact |
| `Storages.RemovedContents` | src/utils/registry_utils.cpp:223-230 | removing by moving the last item into the hole takes out one identifier and changes no other value |
| `Storages.PopMirrors` | src/utils/registry_utils.cpp:223-230 | the same removal keeps packed positions and sparse slots inverse to each other |
| `Storages.Storage.Emplace` | src/utils/registry_utils.cpp:233 | appends at the end of the packed order |
| `Storages.Storage.Get` | src/utils/registry_utils.cpp:233 | finds the identifier's own value |
| `Storages.Storage.Remove` | src/utils/registry_utils.cpp:228 | the removal on the packed and sparse arrays has exactly that effect |
| `Ecs.DestroyedIsOk` | src/combat_loop.cpp:79-100 | destroying an entity removes it from every storage, and leaves every other entity and all its components |
| `Ecs.EntityRegistry.Create` | src/system/encounter.cpp:70 | a new identifier that was not alive, and no other change |
| `Ecs.EntityRegistry.Assure` | src/utils/registry_utils.cpp:227 | finds a storage or adds an empty one, and changes nothing else |
| `Ecs.EntityRegistry.Emplace` | src/system/encounter.cpp:73-74 | adds one component at the end of its storage |
| `Ecs.EntityRegistry.Remove` | src/combat_loop.cpp:334 | removes one component if it is there |
| `Ecs.EntityRegistry.Destroy` | src/combat_loop.cpp:79-100 | removes the entity from all storages and releases its identifier |
| `Ecs.StaleHandle` | src/combat_loop.cpp:79-100 | create, destroy, create: the second entity has the same slot and version 1, and the first handle is not alive |
| `CopyRegistry.CopyStorage` | src/utils/registry_utils.cpp:226-235 | the copied storage has the same values in the same packed order |
| `CopyRegistry.CopyNext` | src/utils/registry_utils.cpp:226-235 | one turn of the loop over storages copies the next one, or reports exactly what is wrong with it |
| `CopyRegistry.CopyRegistry` | generate_copy_registry_utils.py:49-74 | fails exactly with the first storage that is unregistered or not packed; otherwise the copy has the same identifiers, free list, context and storages, in fresh objects |
| `CopyRegistry.FailsWithTheFirst` | generate_copy_registry_utils.py:49-74 | copying fails exactly if some component type is unknown or its storage not packed, and names the first such type |
| `CopyRegistry.StepKeepsAlike` | src/utils/registry_utils.cpp:216-235 | one operation on registries that differ only in empty storages is allowed on both or neither, shows the same, and keeps them so |
| `CopyRegistry.List` | generate_copy_registry_utils.py:61-63 | a storage is listed from its back, each item with its own value |
| `CopyRegistry.Perform` | src/utils/registry_utils.cpp:216-235 | each operation on a registry has exactly the specified effect on its abstract value and shows exactly what is specified |
| `CopyRegistry.PerformAll` | src/utils/registry_utils.cpp:216-235 | a run of operations on a registry shows the specified trace |
| `CopyRegistry.CopyAndCompare` | src/utils/registry_utils.cpp:211-236 | any operations on a copy, and then the same on the registry it was copied from, show the same identifiers, versions, values and order |
| `CopyRegistry.AlikeForever` | src/utils/registry_utils.cpp:216-235 | abstract registries that differ only in which empty storages exist cannot be told apart by any sequence of operations |
| `CopyRegistry.LaterHistory` | src/utils/registry_utils.cpp:216-235 | a concrete history: the last component moves into a gap, listings run from the back, a destroyed entity's slot comes back with the next version |
| `Ownership.DoomedExactlyIfSevered` | src/combat_loop.cpp:79-86 | the recursion over owners says yes exactly if something up the chain is gone |
| `Ownership.FateIsSettled` | src/combat_loop.cpp:88-93 | destroying entities that were doomed anyway changes nobody's fate |
| `Ownership.SweepIsExact` | src/combat_loop.cpp:88-93 | a sweep destroys exactly the visited entities that were doomed at its start |
| `Ownership.SweepInAnyOrder` | src/combat_loop.cpp:88-93 | any visiting order leaves exactly the entities with an unbroken chain of owners, with all their components |
| `Ownership.TryCleanEntity` | src/combat_loop.cpp:79-86 | destroys the entity exactly if some owner from here on is gone, otherwise changes nothing |
| `Ownership.CleanChildrenOfDestroyedOwners` | src/combat_loop.cpp:88-93 | the loop over the shrinking storage is the sweep that visits each entity present at its start once, from the back |
| `Ownership.CascadeIsExact` | src/combat_loop.cpp:95-104 | destroying the marked and then sweeping leaves exactly the entities with nothing marked or dead up their chain |
| `Ownership.DestroyMarked` | src/combat_loop.cpp:95-100 | the loop over the shrinking storage destroys exactly the marked entities |
| `Ownership.DestroyMarkedEntities` | src/combat_loop.cpp:95-104 | leaves exactly the entities with nothing marked or dead up their chain of owners, with all their components; if nothing was marked, everything stays |
| `Ownership.LostExactlyIf` | src/combat_loop.cpp:79-104 | an entity is lost exactly if it is dead, or marked, or its owner component names one that is lost |
| `Ownership.ThreeGenerations` | src/combat_loop.cpp:79-104 | a concrete family: a marked entity takes its children and their children with it, a child of a stale handle goes too, others stay |
| `Streambuf.FailureIsHarmlessExactlyIf` | include/asio/basic_streambuf.hpp:322-340 | a failing reservation leaves any contents intact if and only if the move to the front did not overlap |
| `Streambuf.SpoiltByFailure` | include/asio/basic_streambuf.hpp:322-340 | a concrete queue whose two characters a failing prepare turns into one of them, twice |
| `Streambuf.Buffer.constructor` | include/asio/basic_streambuf.hpp:131-141 | an empty queue within its bound |
| `Streambuf.Buffer.Size` | include/asio/basic_streambuf.hpp:158-161 | the number of characters in the queue |
| `Streambuf.Buffer.Reserve` | include/asio/basic_streambuf.hpp:308-346 | succeeds exactly if there is room or may be, keeps the contents through shift and regrowth; what a failure leaves to be read |
| `Streambuf.Buffer.Prepare` | include/asio/basic_streambuf.hpp:214-219 | throws exactly if size plus n exceeds the maximum |
| `Streambuf.Buffer.Commit` | include/asio/basic_streambuf.hpp:233-238 | appends what was filled in, at most what was prepared |
| `Streambuf.Buffer.Consume` | include/asio/basic_streambuf.hpp:247-254 | removes from the front, at most everything |
| `Streambuf.Buffer.Underflow` | include/asio/basic_streambuf.hpp:263-274 | the first character, or end of input exactly if the queue is empty |
| `Streambuf.Buffer.Take` | include/asio/basic_streambuf.hpp:263-274 | removes exactly the first character |
| `Streambuf.Buffer.Overflow` | include/asio/basic_streambuf.hpp:283-306 | appends one character; throws exactly at the maximum, and then the contents stay |
| `Streambuf.Buffer.Put` | include/asio/basic_streambuf.hpp:283-306 | a character put, whether or not it fits the array, throws exactly at the maximum, and otherwise appends the character |
| `Streambuf.Buffer.ReadSizeHelper` | include/asio/basic_streambuf.hpp:353-359 | the largest amount within the limit and the bound that is at most 512 or fits the array as it is; preparing it never throws |
| `Streambuf.Buffer.Receive` | include/asio/impl/read_until.hpp:134-146 | one read step never fails for want of room, and appends a prefix of what the peer sent |
| `Literals.SplitIsGreedy` | include/argparse/argparse.hpp:842-847 | digits followed by no digit are all of the leading digits |
| `Literals.ConsumeDigits` | include/argparse/argparse.hpp:843-847 | the loop drops exactly the leading digits |
| `Literals.PostEByFirst` | include/argparse/argparse.hpp:814-818 | any split into optional sign and digits is the greedy one |
| `Literals.PostDecimalPointIsGreedy` | include/argparse/argparse.hpp:807-808 | any split after the point is the greedy one |
| `Literals.LiteralByFirst` | include/argparse/argparse.hpp:796-802 | a literal that starts with a digit is an integer, or all its leading digits and what may follow |
| `Literals.RecognisePostE` | include/argparse/argparse.hpp:921-931 | accepts exactly what the grammar's post-e derives |
| `Literals.RecogniseExponentPartOpt` | include/argparse/argparse.hpp:908-919 | accepts exactly an optional exponent part |
| `Literals.RecognisePostDecimalPoint` | include/argparse/argparse.hpp:901-906 | accepts exactly what the grammar's post-decimal-point derives |
| `Literals.RecogniseIntegerPartConsumed` | include/argparse/argparse.hpp:882-899 | accepts exactly what may follow an integer part |
| `Literals.IsDecimalLiteral` | include/argparse/argparse.hpp:795-932 | the recogniser accepts a string if and only if the grammar derives it |
| `Literals.LiteralsAreWrittenNumbers` | include/argparse/argparse.hpp:795-932 | the grammar derives exactly the unsigned numbers written with digits before or behind a point, or both, perhaps an exponent, and no leading zero in an integer |
| `Literals.IsPositional` | include/argparse/argparse.hpp:939-961 | decides the positional grammar, for any set of prefix characters |
| `Literals.NumbersAreNoOptions` | include/argparse/argparse.hpp:928-961 | concrete tokens: negative numbers, a bare dash and the empty token are positional, options with the parser's prefix are not |
| `TokenLoop.Argument.Consume` | include/argparse/argparse.hpp:516-575 | what one use takes: the greedy run, long enough and convertible; refused as a duplicate, as too few, or as not convertible exactly for that cause |
| `TokenLoop.Argument.BarredTakesNothing` | include/argparse/argparse.hpp:516-575 | a use with a cause of refusal could not have been granted in any way |
| `TokenLoop.Argument.TakesNothing` | include/argparse/argparse.hpp:528-574 | a flag takes nothing, and so does an argument with a default value if fewer than its minimum are left |
| `TokenLoop.Argument.TakesExactly` | include/argparse/argparse.hpp:533-571 | any other takes up to its maximum, stops only at the end or an option-like token, and needs its minimum and acceptable tokens |
| `TokenLoop.Argument.BarsExactly` | include/argparse/argparse.hpp:518-574 | duplicate exactly on a second use of what may not repeat; too few exactly if too little is left without a default, or an option-like token is among the first minimum; not convertible only with a token that is not accepted |
| `TokenLoop.Argument.Apply` | include/argparse/argparse.hpp:549-570 | the action is applied to each token in order, and fails exactly if some token is not convertible |
| `TokenLoop.Parser.Give` | include/argparse/argparse.hpp:1494-1503 | a use adds exactly its tokens to its own argument and touches no other; a refusal comes with its cause, of this argument at this position |
| `TokenLoop.Parser.ParseNamed` | include/argparse/argparse.hpp:1500-1503 | an option given by its whole name takes what follows it, or is refused for a cause of its own |
| `TokenLoop.Parser.ParseLetters` | include/argparse/argparse.hpp:1514-1524 | letters of a compound token take what follows, one after another, up to the first that is unknown or barred |
| `TokenLoop.Parser.ParseOption` | include/argparse/argparse.hpp:1500-1528 | an option's name as a whole, or a compound, each with what it takes; refused exactly as unknown, or with the option that is barred |
| `TokenLoop.Parser.ParseArgsInternal` | include/argparse/argparse.hpp:1469-1531 | succeeds if and only if there is a way to share out all tokens after the first, and then every token was an option's name or was given to exactly one argument, in order; otherwise it has stopped at a subcommand, or at what may not come next, and says why |
| `TokenLoop.Parser.OneWay` | include/argparse/argparse.hpp:1477-1530 | there is at most one way to share out all tokens |
| `TokenLoop.Parser.RefusedOnce` | include/argparse/argparse.hpp:1477-1530 | a command line is refused at one place and for one reason only |
| `TokenLoop.Parser.StuckIsTheEnd` | include/argparse/argparse.hpp:1477-1530 | where a step is refused with a cause, no way of sharing out the tokens exists |
| `CommandLines.FileIsParsed` | include/argparse/argparse.hpp:1484-1496 | one token for one positional argument is parsed and given to it |
| `CommandLines.CompoundIsParsed` | include/argparse/argparse.hpp:1504-1524 | a flag and an option in one token, the option's value, and a positional argument: all are parsed and given to the right arguments |
| `CommandLines.RefusalsAreNamed` | include/argparse/argparse.hpp:1500-1528 | an option without its value is too few, an unknown letter and an unknown long name are unknown |
| `TokenLoop.EveryTokenCountsOnce` | include/argparse/argparse.hpp:1477-1530 | the tokens accounted for are as many as the option tokens and everything the arguments were given |

## Left out

- Combat systems (strikes, effects, attributes, cooldowns, audits): every rule set is covered by `Rules`; no rule is modelled. Later passes of one tick over rotations act on queued skills only and are part of `Rules.after`.
- Random numbers: the generator's state is part of `rest`, and every function of `Rules` that returns a `rest` may draw; the numbers themselves are not modelled. Caching is refused for negative seeds as in the program.
- JSON, floating-point rounding, logging, sockets, files and the two `main` programs. The text written for a key is assumed to determine the encounter.
- Mutexes and shared pointers: each locked operation is one atomic step, and a snapshot handed out is a value, which nothing can change.
- Memory exhaustion, and runs that never stop.
- Transparency.CachingIsTransparent: assumes that no later actor of a request that may be cached carries the first actor's name. The condition is exact for the search and for the restored state; it is sufficient but not necessary for the answer, because a run that stops at once hides a wrong restore.
- Concurrent.ConcurrentRequestsAreTransparent: the premise on lost hits is exact for the snapshot that is saved; whether a later request is misled by it depends on what is requested.
- CombatLoop.Serve: the snapshot is copied as a value. The registry copy in `copy_registry.dfy` is proved to be indistinguishable, but the two files share no state type.
- Ecs.EntityRegistry.Create: creating more than 2^20 - 1 entities is outside the model; the library asserts against it.
- Ecs.EntityRegistry.Emplace: the caller owes a live entity without that component, as the library asserts.
- Ownership.DestroyMarkedEntities: ownership is assumed to be acyclic; the recursion of the program does not end otherwise.
- Streambuf.Buffer.Commit: counts are assumed to fit a 32-bit signed integer, which the narrowing in the program needs.
- Streambuf.Buffer.Consume: the same, and pointer overflow for huge counts is not modelled.
- Streambuf.Buffer.Prepare: after a failure nothing is promised about later operations. The array is a fresh one after growing; whether a vector grows in place is not modelled.
- TokenLoop.Argument.Consume: values are the tokens an action was applied to; converted values, implicit values and user-supplied effects of actions are not modelled.
- TokenLoop.Parser.ParseArgsInternal: splitting `--name=value` beforehand, and what a subcommand's parser does with its tokens, are not part of this model.
- Registered component types: the set of known types is a parameter of the copy; scanning headers for it is not modelled.
