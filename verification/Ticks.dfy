/**
 The 32-bit tick counter of the timer service, seen against an unbounded clock.

 An absolute time is an unbounded number of ticks since boot.  The hardware counter shows
 it modulo 2^32; all the timer code ever sees is that remainder.
 */
module Ticks {

  const M: int := 0x1_0000_0000

  type Tick = x: int | 0 <= x < M witness 0

  /** What the tick counter shows at absolute time `t`. */
  function Wrap(t: int): Tick {
    t % M
  }

  /** The first absolute time after `t` at which the counter shows 0 again. */
  function Rollover(t: int): int {
    (t / M + 1) * M
  }

  /** Unsigned 32-bit addition and subtraction. */
  function Add(a: Tick, b: Tick): Tick {
    if a + b < M then a + b else a + b - M
  }

  function Sub(a: Tick, b: Tick): Tick {
    if a >= b then a - b else a - b + M
  }

  /** An absolute time is its wrap epoch's start plus what the counter shows. */
  lemma Split(t: int)
    ensures t == Rollover(t) - M + Wrap(t)
    ensures Rollover(t) - M <= t < Rollover(t)
  {
  }

  /** Counter arithmetic agrees with absolute arithmetic, modulo the counter's range. */
  lemma WrapArithmetic(a: int, b: int)
    ensures Add(Wrap(a), Wrap(b)) == Wrap(a + b)
    ensures Sub(Wrap(a), Wrap(b)) == Wrap(a - b)
  {
    Split(a);
    Split(b);
    SameRemainder(a + b, Wrap(a) + Wrap(b), a / M + b / M);
    SameRemainder(a - b, Wrap(a) - Wrap(b), a / M - b / M);
  }

  lemma SameRemainder(a: int, b: int, laps: int)
    requires a == b + laps * M
    ensures Wrap(a) == Wrap(b)
  {
    Split(a);
    Split(b);
  }

  /** Two times in one epoch are ordered as the counter shows them. */
  lemma SameEpoch(a: int, b: int)
    requires Rollover(a) == Rollover(b)
    ensures Wrap(b) - Wrap(a) == b - a
  {
  }

  /** The counter going backwards reveals a rollover, as long as fewer than 2^32 ticks passed. */
  lemma RolloverSeen(last: int, now: int)
    requires last <= now < last + M
    ensures Wrap(now) < Wrap(last) <==> Rollover(now) != Rollover(last)
    ensures Wrap(now) < Wrap(last) ==> Rollover(now) == Rollover(last) + M
  {
  }

  datatype Placement = ProcessNow | Current | Overflow

  /** The comparisons of prvInsertTimerInActiveList, on counter values alone. */
  function TickTests(next: Tick, now: Tick, command: Tick, period: Tick): Placement {
    if next <= now then
      if Sub(now, command) >= period then ProcessNow else Overflow
    else
      if now < command && next >= command then ProcessNow else Current
  }

  /** Where a timer commanded at `command` belongs at `now`, on the unbounded clock. */
  function Place(command: int, period: int, now: int): Placement {
    if command + period <= now then ProcessNow
    else if command + period < Rollover(now) then Current
    else Overflow
  }

  /**
   However old the command is, the counter comparisons answer "process now" exactly when
   the age of the command, as far as the counter can tell it, has reached the period.
   */
  lemma TickTestsSeeAgeModuloRange(command: int, period: Tick, now: int)
    ensures TickTests(Wrap(command + period), Wrap(now), Wrap(command), period) == ProcessNow
            <==> Wrap(now - command) >= period
  {
    WrapArithmetic(command, period);
    WrapArithmetic(now, command);
    TickTestsOnCounters(Wrap(command), period, Wrap(now));
  }

  lemma TickTestsOnCounters(command: Tick, period: Tick, now: Tick)
    ensures TickTests(Add(command, period), now, command, period) == ProcessNow <==> Sub(now, command) >= period
  {
  }

  /**
   While a command is less than 2^32 ticks old, the counter comparisons choose exactly the
   placement that the unbounded clock calls for.
   */
  lemma TickTestsExact(command: int, period: Tick, now: int)
    requires command <= now < command + M
    ensures TickTests(Wrap(command + period), Wrap(now), Wrap(command), period) == Place(command, period, now)
    ensures command + period < Rollover(now) + M
  {
    TickTestsSeeAgeModuloRange(command, period, now);
    AgeExact(command, now);
    Split(now);
    if now < command + period {
      RolloverSeen(now, command + period);
      DistinctInLap(now, command + period);
    }
  }

  lemma AgeExact(command: int, now: int)
    requires command <= now < command + M
    ensures Wrap(now - command) == now - command
  {
  }

  lemma DistinctInLap(a: int, b: int)
    requires a < b < a + M
    ensures Wrap(a) != Wrap(b)
  {
    Split(a);
    Split(b);
  }

  /**
   Over all ages: the comparisons recognise an expired timer exactly unless the command is
   at least 2^32 ticks old and its age modulo the range has fallen below the period.
   */
  lemma TickTestsRightIff(command: int, period: Tick, now: int)
    requires command <= now
    ensures (TickTests(Wrap(command + period), Wrap(now), Wrap(command), period) == ProcessNow
             <==> command + period <= now)
            <==> now < command + M || Wrap(now - command) >= period
  {
    TickTestsSeeAgeModuloRange(command, period, now);
    Split(now - command);
  }

  /** Such a command: one of period 1 that is received a whole lap of the counter late. */
  lemma LapLateMissed(command: int, period: Tick)
    requires 0 < period
    ensures command + period <= command + M
    ensures TickTests(Wrap(command + period), Wrap(command + M), Wrap(command), period) != ProcessNow
  {
    TickTestsSeeAgeModuloRange(command, period, command + M);
    Split(M);
  }
}
