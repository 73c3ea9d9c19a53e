/** When damaging conditions pulse, and how many pulses a run has however often it is interrupted. */
module Pulses {
  import opened Options
  import opened Encounters
  import opened Runs
  import opened Simulation
  import opened Battle

  /** The pulses at the tick values from `a` up to but not including `b`. */
  function PulsesIn(a: nat, b: nat, offset: int): nat
    decreases b
  {
    if b <= a then 0 else PulsesIn(a, b - 1, offset) + if PulseDue(b - 1, offset) then 1 else 0
  }

  /** Pulses before `t` if every tick value with `t + offset` divisible by 1000 had one. */
  function Thousands(t: int): int
  {
    t / 1000
  }

  lemma ThousandsStep(x: int)
    ensures Thousands(x) == Thousands(x - 1) + if x % 1000 == 0 then 1 else 0
  {
  }

  /** The 32-bit sum pulses at the multiples of 1000; a sum that went below zero is off by 296. */
  lemma PulseDueExactly(t: nat, offset: int)
    requires -TICK_WRAP <= t + offset < TICK_WRAP
    ensures PulseDue(t, offset) <==> (t + offset + if t + offset < 0 then 296 else 0) % 1000 == 0
  {
    if t + offset < 0 {
      assert (t + offset) % TICK_WRAP == t + offset + TICK_WRAP;
      assert TICK_WRAP == 4294967 * 1000 + 296;
      assert (t + offset + 296 + 4294967 * 1000) % 1000 == (t + offset + 296) % 1000;
    }
  }

  /** As long as the sums do not wrap, the pulses in a range are counted by a difference of quotients. */
  lemma {:induction false} PulseCount(a: nat, b: nat, offset: int)
    requires a <= b && 0 <= a + offset && b + offset <= TICK_WRAP
    ensures PulsesIn(a, b, offset) == Thousands(b - 1 + offset) - Thousands(a - 1 + offset)
    decreases b
  {
    if a < b {
      PulseCount(a, b - 1, offset);
      PulseDueExactly(b - 1, offset);
      ThousandsStep(b - 1 + offset);
    }
  }

  /** Before the sums reach zero the same holds with all pulses shifted by 296. */
  lemma {:induction false} PulseCountBelowZero(a: nat, b: nat, offset: int)
    requires a <= b && -TICK_WRAP <= a + offset && b + offset <= 0
    ensures PulsesIn(a, b, offset) == Thousands(b - 1 + offset + 296) - Thousands(a - 1 + offset + 296)
    decreases b
  {
    if a < b {
      PulseCountBelowZero(a, b - 1, offset);
      PulseDueExactly(b - 1, offset);
      ThousandsStep(b - 1 + offset + 296);
    }
  }

  /** So any 1000 consecutive ticks contain exactly one pulse. */
  lemma OnePulsePerThousand(a: nat, offset: int)
    requires 0 <= a + offset && a + 1000 + offset <= TICK_WRAP
    ensures PulsesIn(a, a + 1000, offset) == 1
  {
    PulseCount(a, a + 1000, offset);
    assert (a - 1 + offset + 1000) / 1000 == (a - 1 + offset) / 1000 + 1;
  }

  /** A negative offset really moves the pulses: tick 0 has none, although its sum is a multiple of 1000. */
  lemma NegativeOffsetShifts()
    ensures (0 - 1000) % 1000 == 0 && !PulseDue(0, -1000) && PulseDue(704, -1000)
  {
    PulseDueExactly(0, -1000);
    PulseDueExactly(704, -1000);
  }

  lemma {:induction false} PulsesSplit(a: nat, b: nat, c: nat, offset: int)
    requires a <= b <= c
    ensures PulsesIn(a, c, offset) == PulsesIn(a, b, offset) + PulsesIn(b, c, offset)
    decreases c
  {
    if b < c {
      PulsesSplit(a, b, c - 1, offset);
    }
  }

  /** The pulses of the first `n` turns of a run that starts at tick value `tick`. */
  function PulsesOfTurns(tick: nat, first: bool, n: nat, offset: int): nat
  {
    if n == 0 then 0
    else PulsesOfTurns(tick, first, n - 1, offset) + if PulseDue(TickOfTurn(tick, first, n - 1), offset) then 1 else 0
  }

  lemma WithoutWrap(t: nat)
    requires t < TICK_WRAP
    ensures t % TICK_WRAP == t
  {
  }

  lemma {:induction false} TurnsAreTicks(tick: nat, first: bool, n: nat, offset: int)
    requires tick + n < TICK_WRAP
    ensures var start := if first then tick else tick + 1;
            PulsesOfTurns(tick, first, n, offset) == PulsesIn(start, start + n, offset)
  {
    hide PulseDue;
    var start := if first then tick else tick + 1;
    if n == 0 {
    } else {
      TurnsAreTicks(tick, first, n - 1, offset);
      WithoutWrap(start + n - 1);
      assert TickOfTurn(tick, first, n - 1) == start + n - 1;
      assert PulsesIn(start, start + n, offset) ==
             PulsesIn(start, start + n - 1, offset) + if PulseDue(start + n - 1, offset) then 1 else 0;
    }
  }

  /**
   Interrupting a fresh run after `i > 0` turns, at whatever state, and resuming it for `j` turns
   pulses as often as the uninterrupted run of `i + j` turns, which is what the quotients say.
   */
  lemma InterruptionKeepsPulses<R(!new)>(k: Rules<R>, e: Encounter, i: nat, j: nat, t: State<R>)
    requires Fresh(k, e).Some? && After(Simulate(k, e), Fresh(k, e).value, true, i) == Some(t)
    requires i > 0 && i + j < TICK_WRAP && 0 <= e.conditionTickOffset && i + j + e.conditionTickOffset <= TICK_WRAP
    ensures PulsesOfTurns(0, true, i, e.conditionTickOffset) + PulsesOfTurns(t.tick, false, j, e.conditionTickOffset)
         == PulsesOfTurns(0, true, i + j, e.conditionTickOffset)
         == Thousands(i + j - 1 + e.conditionTickOffset) - Thousands(e.conditionTickOffset - 1)
  {
    hide Simulate, Fresh, After, PulsesIn, PulsesOfTurns, Thousands;
    var o := e.conditionTickOffset;
    FreshRunCountsTicks(k, e, i - 1);
    assert t.tick == i - 1;
    TurnsAreTicks(0, true, i, o);
    TurnsAreTicks(t.tick, false, j, o);
    TurnsAreTicks(0, true, i + j, o);
    PulsesSplit(0, i, i + j, o);
    PulseCount(0, i + j, o);
  }
}
