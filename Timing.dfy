/** Elapsed time since the stored start time (main/timing.c).  The wall
    clock read by gettimeofday is a parameter: `cur` is what it returned. */
module Timing {
  import opened CTypes

  const US_PER_S: int := 1000000
  const US_PER_MS: int := 1000

  /** A struct timeval: seconds and microseconds. */
  datatype TimeVal = TimeVal(sec: int, usec: int)

  /** gettimeofday keeps the microsecond field inside one second. */
  predicate Normalized(t: TimeVal) { 0 <= t.usec < US_PER_S }

  /** The exact number of microseconds from `start` to `cur`. */
  function ElapsedUs(start: TimeVal, cur: TimeVal): int
  {
    (cur.sec - start.sec) * US_PER_S + (cur.usec - start.usec)
  }

  /** micros(): the elapsed microseconds, cast to uint32. */
  function MicrosBetween(start: TimeVal, cur: TimeVal): (r: int)
    ensures 0 <= r < TWO32
    ensures (ElapsedUs(start, cur) - r) % TWO32 == 0
    ensures 0 <= ElapsedUs(start, cur) < TWO32 ==> r == ElapsedUs(start, cur)
  {
    U32((cur.sec - start.sec) * US_PER_S + cur.usec - start.usec)
  }

  /** millis(): whole seconds scaled to ms, plus the microsecond difference
      divided on its own with C truncation, cast to uint32. */
  function MillisBetween(start: TimeVal, cur: TimeVal): (r: int)
    ensures 0 <= r < TWO32
  {
    U32((cur.sec - start.sec) * 1000 + CDiv(cur.usec - start.usec, US_PER_MS))
  }

  lemma DivShift(a: int, b: int)
    ensures (a * 1000 + b) / 1000 == a + b / 1000
  {
  }

  /** Before the 32-bit wrap, millis() is the floor of the elapsed
      milliseconds, or one more exactly when the microsecond field went
      backwards by an amount that is not a whole millisecond (the separate
      truncation of a negative difference rounds it up). */
  lemma {:induction false} MillisVersusElapsed(start: TimeVal, cur: TimeVal)
    requires Normalized(start) && Normalized(cur)
    requires 0 <= ElapsedUs(start, cur)
    requires ElapsedUs(start, cur) / US_PER_MS + 1 < TWO32
    ensures var e := ElapsedUs(start, cur) / US_PER_MS;
            var du := cur.usec - start.usec;
            MillisBetween(start, cur) == e + (if du < 0 && du % US_PER_MS != 0 then 1 else 0)
    ensures 0 <= MillisBetween(start, cur) - ElapsedUs(start, cur) / US_PER_MS <= 1
  {
    var ds := cur.sec - start.sec;
    var du := cur.usec - start.usec;
    assert ElapsedUs(start, cur) == (ds * 1000) * 1000 + du;
    DivShift(ds * 1000, du);
    var raw := ds * 1000 + CDiv(du, US_PER_MS);
    if du >= 0 {
      assert CDiv(du, US_PER_MS) == du / US_PER_MS;
    } else if du % US_PER_MS == 0 {
      assert CDiv(du, US_PER_MS) == du / US_PER_MS;
    } else {
      assert CDiv(du, US_PER_MS) == du / US_PER_MS + 1;
    }
    assert 0 <= raw < TWO32;
  }

  /** At the moment recorded by timing_init both counters read zero. */
  lemma CountersZeroAtStart(t: TimeVal)
    ensures MicrosBetween(t, t) == 0 && MillisBetween(t, t) == 0
  {
  }

  /** The global `_startTime` written by timing_init and read by the counters. */
  class Clock {
    var startTime: TimeVal

    constructor ()
      ensures startTime == TimeVal(0, 0)
    {
      startTime := TimeVal(0, 0);
    }

    /** timing_init(): record the current time as the start. */
    method TimingInit(now: TimeVal)
      modifies this
      ensures startTime == now
    {
      startTime := now;
    }

    method Micros(now: TimeVal) returns (r: int)
      ensures r == MicrosBetween(startTime, now)
      ensures (ElapsedUs(startTime, now) - r) % TWO32 == 0
    {
      r := U32((now.sec - startTime.sec) * US_PER_S + now.usec - startTime.usec);
    }

    method Millis(now: TimeVal) returns (r: int)
      ensures r == MillisBetween(startTime, now)
      ensures 0 <= r < TWO32
    {
      r := U32((now.sec - startTime.sec) * 1000 + CDiv(now.usec - startTime.usec, US_PER_MS));
    }
  }
}
