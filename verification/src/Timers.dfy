/** Timer arithmetic and counted timers: preload and compare values, and an interrupt that masks itself. */
module Timers {
  const FULL := 0x1_0000               // the counter counts up and overflows here

  /** The clock of a timer: half the system clock, or a 256th of it. */
  datatype Setup = Rejected | Half(preload: int) | Slow(preload: int)

  /** The frequency branches of the timer setups. */
  function Configure(mclk: nat, freq: nat): Setup {
    if freq > mclk / 2 then Rejected
    else if freq > mclk / 2 / FULL then Half(FULL - mclk / 2 / freq)
    else if freq > mclk / 256 / FULL then Slow(FULL - mclk / 256 / freq)
    else Rejected
  }

  lemma DivBounds(m: nat, f: nat)
    requires f > 0
    ensures m / f * f <= m < (m / f + 1) * f
  {
  }

  /** A clock divided by a frequency above its 65536th part fits the counter. */
  lemma CountFits(m: nat, f: nat)
    requires m / FULL < f <= m
    ensures 1 <= m / f < FULL && m / f * f <= m < (m / f + 1) * f
  {
    DivBounds(m, f);
    DivBounds(m, FULL);
    MulMonotone(m / FULL + 1, f, FULL);
    QuotientBelow(m, f, FULL);
    QuotientPositive(m, f);
  }

  lemma QuotientBelow(m: nat, f: nat, k: nat)
    requires f > 0 && m < k * f
    ensures m / f < k
  {
    DivBounds(m, f);
    if m / f >= k {
      MulMonotone(k, m / f, f);
    }
  }

  lemma QuotientPositive(m: nat, f: nat)
    requires 0 < f <= m
    ensures m / f >= 1
  {
  }

  function ClockOf(mclk: nat, s: Setup): nat { if s.Half? then mclk / 2 else mclk / 256 }

  /** Every accepted frequency gives a preload the register can hold, and the timer overflows at least as often
      as asked: one count more would be too slow. Accepted is what lies between the two limits. */
  lemma SetupExact(mclk: nat, freq: nat)
    ensures Configure(mclk, freq).Rejected? <==> freq > mclk / 2 || freq <= mclk / 256 / FULL
    ensures var s := Configure(mclk, freq); !s.Rejected? ==>
      var counts := FULL - s.preload;
      && 1 <= s.preload <= 0xFFFF
      && counts * freq <= ClockOf(mclk, s) < (counts + 1) * freq
  {
    assert mclk / 256 / FULL <= mclk / 2 / FULL <= mclk / 256;
    if mclk / 2 / FULL < freq <= mclk / 2 {
      CountFits(mclk / 2, freq);
    } else if mclk / 256 / FULL < freq <= mclk / 2 / FULL {
      CountFits(mclk / 256, freq);
    }
  }

  /** The compare value of timer_pwm_setup. */
  function Compare(preload: int, duty: nat): int { preload + duty * (FULL - preload) / 100 - 1 }

  /** The pulse is within one count below the wanted part of the period, and grows with the duty. */
  lemma PulseExact(preload: int, duty: nat, more: nat)
    requires 1 <= preload <= 0xFFFF && duty <= more <= 100
    ensures preload - 1 <= Compare(preload, duty) <= Compare(preload, more) <= 0xFFFF
    ensures var high := Compare(preload, duty) + 1 - preload; var period := FULL - preload;
      0 <= duty * period - 100 * high < 100
  {
    var period := FULL - preload;
    MulMonotone(duty, more, period);
    MulMonotone(more, 100, period);
    DivMonotone(duty * period, more * period);
    DivMonotone(more * period, 100 * period);
  }

  lemma MulMonotone(a: nat, b: nat, c: nat)
    requires a <= b
    ensures a * c <= b * c
  {
  }

  lemma DivMonotone(a: nat, b: nat)
    requires a <= b
    ensures a / 100 <= b / 100
  {
  }

  // ---- counted timers ----------------------------------------------------------------------------

  /** trap and trap_counter of one timer, how often the user's function was called, and whether the timer's
      interrupt is still enabled. */
  datatype Counted = Counted(trap: nat, limit: nat, calls: nat, enabled: bool)

  function Began(times: nat): Counted { Counted(0, times, 0, true) }

  /** local_timer_times_isr; a masked interrupt does not come. */
  function Fire(c: Counted): Counted {
    if !c.enabled then c
    else if c.trap < c.limit then c.(trap := c.trap + 1, calls := c.calls + 1)
    else Counted(0, 0, c.calls, false)
  }

  function FireMany(c: Counted, n: nat): Counted { if n == 0 then c else Fire(FireMany(c, n - 1)) }

  /** After n overflows the user's function has been called min(n, times) times; the overflow after the last
      call masks the interrupt, and none before. */
  lemma {:induction false} CallsExact(times: nat, n: nat)
    ensures var c := FireMany(Began(times), n);
      && c.calls == (if n < times then n else times)
      && (c.enabled <==> n <= times)
      && (if c.enabled then c.trap == c.calls && c.limit == times else c.trap == 0 && c.limit == 0)
  {
    if n > 0 {
      CallsExact(times, n - 1);
    }
  }

  class Timer {
    var state: Counted

    constructor (times: nat)
      ensures state == Began(times)
    {
      state := Began(times);
    }

    /** local_timer_times_isr0 to 3, with a user function registered. */
    method Interrupt()
      modifies this
      ensures state == Fire(old(state))
    {
      if state.enabled {
        if state.trap < state.limit {
          state := state.(calls := state.calls + 1);
          state := state.(trap := state.trap + 1);
        } else {
          state := state.(enabled := false);
          state := state.(trap := 0, limit := 0);
        }
      }
    }
  }

  /** timer_pwm_setup: the values for the preload and the compare register, or none. */
  method PwmSetup(mclk: nat, freq: nat, duty: nat) returns (ok: bool, preload: int, ccp: int)
    ensures ok <==> duty <= 100 && !Configure(mclk, freq).Rejected?
    ensures ok ==> preload == Configure(mclk, freq).preload && ccp == Compare(preload, duty)
    ensures ok ==> 1 <= preload <= 0xFFFF && preload - 1 <= ccp <= 0xFFFF
  {
    preload, ccp := 0, 0;
    if duty > 100 {
      return false, 0, 0;
    }
    SetupExact(mclk, freq);
    if freq > mclk / 2 {
      return false, 0, 0;
    } else if freq > mclk / 2 / FULL {
      preload := FULL - mclk / 2 / freq;
    } else if freq > mclk / 256 / FULL {
      preload := FULL - mclk / 256 / freq;
    } else {
      return false, 0, 0;
    }
    ccp := preload + duty * (FULL - preload) / 100 - 1;
    PulseExact(preload, duty, duty);
    ok := true;
  }
}
