/** Simulation requests, and the key under which a request's snapshot is cached. */
module Encounters {
  /** Ticks are 32-bit unsigned in the program. */
  const TICK_WRAP := 0x1_0000_0000

  /** One queued skill of a rotation: it may start at `castTime` or later. */
  datatype Cast = Cast(skill: string, castTime: nat)

  datatype ActorConfig = ActorConfig(name: string, build: string, casts: seq<Cast>, repeat: bool)

  datatype ConditionKind = InvalidCondition | TimeCondition | RotationCondition | DamageCondition | ActiveSkillsCondition

  datatype Condition = Condition(kind: ConditionKind, time: nat, actor: string, damage: int)

  /** `settings` stands for every field that the loop itself never inspects. */
  datatype Encounter = Encounter(
    actors: seq<ActorConfig>,
    conditions: seq<Condition>,
    settings: string,
    conditionTickOffset: int,
    auditOffset: int,
    enableCaching: bool,
    randomSeed: int)

  /** Equality of keys is equality of encounters up to the two fields that cannot change a simulation. */
  function CacheKey(e: Encounter): Encounter
  {
    e.(auditOffset := 0, enableCaching := true)
  }

  function LeadCasts(e: Encounter): seq<Cast>
    requires e.actors != []
  {
    e.actors[0].casts
  }

  /** The same request with the first actor's rotation replaced. */
  function WithLeadCasts(e: Encounter, casts: seq<Cast>): Encounter
    requires e.actors != []
  {
    e.(actors := e.actors[0 := e.actors[0].(casts := casts)])
  }

  /** The same request with only the first `n` casts of the first actor. */
  function Prefix(e: Encounter, n: nat): Encounter
    requires e.actors != [] && n <= |LeadCasts(e)|
  {
    WithLeadCasts(e, LeadCasts(e)[..n])
  }

  /** What setting up an encounter and ticking it may read besides the rotations. */
  datatype Frame = Frame(
    actors: seq<(string, string)>,
    settings: string,
    conditionTickOffset: int,
    randomSeed: int)

  function FrameOf(e: Encounter): Frame
  {
    Frame(
      seq(|e.actors|, i requires 0 <= i < |e.actors| => (e.actors[i].name, e.actors[i].build)),
      e.settings, e.conditionTickOffset, e.randomSeed)
  }

  /** Setup and ticks are given the actors' names and builds, the settings, the offset of the pulses and the seed, and no more. */
  lemma FramesAgreeExactlyIf(e1: Encounter, e2: Encounter)
    ensures FrameOf(e1) == FrameOf(e2) <==>
            && |e1.actors| == |e2.actors|
            && (forall i :: 0 <= i < |e1.actors| ==> e1.actors[i].name == e2.actors[i].name && e1.actors[i].build == e2.actors[i].build)
            && e1.settings == e2.settings && e1.conditionTickOffset == e2.conditionTickOffset && e1.randomSeed == e2.randomSeed
  {
    var f1, f2 := FrameOf(e1), FrameOf(e2);
    if f1 == f2 {
      assert |f1.actors| == |f2.actors|;
      forall i | 0 <= i < |e1.actors|
        ensures e1.actors[i].name == e2.actors[i].name && e1.actors[i].build == e2.actors[i].build
      {
        assert f1.actors[i] == f2.actors[i];
      }
    }
  }

  /** Requests share a key exactly if they differ at most in the audit offset and the wish to be cached. */
  lemma KeysAgreeExactlyIf(e1: Encounter, e2: Encounter)
    ensures CacheKey(e1) == CacheKey(e2) <==>
            && e1.actors == e2.actors && e1.conditions == e2.conditions && e1.settings == e2.settings
            && e1.conditionTickOffset == e2.conditionTickOffset && e1.randomSeed == e2.randomSeed
  {
    var k1, k2 := CacheKey(e1), CacheKey(e2);
    assert k1 == k2 ==> k1.actors == k2.actors && k1.conditions == k2.conditions;
  }

  /** The caller's wish is granted only for reproducible encounters that have an actor. */
  predicate Cacheable(e: Encounter, wanted: bool, capacity: nat)
  {
    wanted && e.randomSeed >= 0 && capacity != 0 && e.actors != []
  }

  /** No later actor carries the first actor's name. */
  predicate UniqueLead(e: Encounter)
    requires e.actors != []
  {
    forall i :: 0 < i < |e.actors| ==> e.actors[i].name != e.actors[0].name
  }

  /** `longer` asks for everything `shorter` asks for, and possibly for more casts of the first actor. */
  predicate Extends(shorter: Encounter, longer: Encounter)
  {
    && shorter.actors != []
    && longer.actors != []
    && LeadCasts(shorter) <= LeadCasts(longer)
    && CacheKey(longer) == CacheKey(WithLeadCasts(shorter, LeadCasts(longer)))
  }

  lemma ExtendsKeepsFrame(shorter: Encounter, longer: Encounter)
    requires Extends(shorter, longer)
    ensures FrameOf(shorter) == FrameOf(longer)
    ensures |shorter.actors| == |longer.actors|
    ensures forall i :: 0 < i < |shorter.actors| ==> shorter.actors[i] == longer.actors[i]
    ensures shorter.actors[0].repeat == longer.actors[0].repeat
    ensures shorter.conditions == longer.conditions
  {
    assert CacheKey(longer).actors == WithLeadCasts(shorter, LeadCasts(longer)).actors;
    assert CacheKey(longer).conditions == shorter.conditions;
    assert CacheKey(longer).settings == shorter.settings;
    assert CacheKey(longer).conditionTickOffset == shorter.conditionTickOffset;
    assert CacheKey(longer).randomSeed == shorter.randomSeed;
    assert FrameOf(shorter).actors == FrameOf(longer).actors;
  }

  /** A request whose key is the key of one of my prefixes is a request that I extend. */
  lemma PrefixKeyExtends(shorter: Encounter, e: Encounter, n: nat)
    requires e.actors != [] && n <= |LeadCasts(e)|
    requires CacheKey(shorter) == CacheKey(Prefix(e, n))
    ensures Extends(shorter, e)
    ensures LeadCasts(shorter) == LeadCasts(e)[..n]
    ensures UniqueLead(shorter) <==> UniqueLead(e)
  {
    var p := Prefix(e, n);
    assert CacheKey(shorter).actors == shorter.actors == p.actors;
    assert WithLeadCasts(shorter, LeadCasts(e)).actors == e.actors;
    assert CacheKey(shorter).conditions == shorter.conditions;
    assert CacheKey(shorter).settings == shorter.settings;
    assert CacheKey(shorter).conditionTickOffset == shorter.conditionTickOffset;
    assert CacheKey(shorter).randomSeed == shorter.randomSeed;
  }
}
