// Periodic release on a phase grid with unsigned 32-bit tick arithmetic, and what the wrap of the
// tick counter at 2^32 - 1 does to it.
module PhaseLock {
  import opened Prelude
  import opened Strides

  const WORD: int := 0x1_0000_0000
  const TICK_WRAP: int := 0xFFFF_FFFF      // the counter restarts at 0 when it would reach this

  type Word = x: int | 0 <= x < WORD

  function Wrap(x: int): Word {
    x % WORD
  }

  function TickAdd(base: Word, offset: Word): Word {
    Wrap(base + offset)
  }

  function TickDelta(to: Word, from: Word): Word {
    Wrap(to - from)
  }

  // RK_STICK: the same word read as two's complement.
  function Signed(x: Word): int {
    if x < 0x8000_0000 then x else x - WORD
  }

  // Ticks from now to the next point of the grid base + k * period that lies ahead.
  function ToNextRelease(now: Word, base: Word, period: int): (d: int)
    requires 1 <= period <= MAX_PERIOD
    ensures 1 <= d <= period && (TickDelta(now, base) + d) % period == 0
  {
    var e := TickDelta(now, base);
    NextMultiple(e, period);
    period - e % period
  }

  lemma NextMultiple(e: int, period: int)
    requires 0 <= e && 1 <= period
    ensures 0 <= e % period < period
    ensures (e / period + 1) * period == e + (period - e % period)
    ensures (e + (period - e % period)) % period == 0
  {
    assert e == (e / period) * period + e % period;
    MultipleMod(e / period + 1, period);
  }

  // The computed words agree with the grid although every step may wrap.
  lemma DelayWords(now: Word, base: Word, period: int)
    requires 1 <= period <= MAX_PERIOD
    ensures var e := TickDelta(now, base);
            var factor := Wrap(e / period + 1);
            var next := TickAdd(base, Wrap(factor * period));
            && TickDelta(next, now) == ToNextRelease(now, base, period)
            && next == Wrap(now + ToNextRelease(now, base, period))
            && (factor > 1 <==> e >= period && !(period == 1 && e == WORD - 1))
  {
    var e := TickDelta(now, base);
    hide Wrap;
    NextMultiple(e, period);
    Quotient(e, period);
    var f, t := e / period + 1, (e / period + 1) * period;
    FactorWord(f, period);
    WrapNear(f);
    OffsetWord(now, base, t, period - e % period);
  }

  lemma FactorWord(f: int, period: int)
    requires 1 <= f <= WORD && 1 <= period && (f == WORD ==> period == 1)
    ensures Wrap(Wrap(f) * period) == Wrap(f * period)
  {
    if f == WORD {
      assert Wrap(f) * period == 0;
    }
  }

  lemma OffsetWord(now: Word, base: Word, t: int, d: int)
    requires t == TickDelta(now, base) + d && 1 <= d <= MAX_PERIOD
    ensures TickAdd(base, Wrap(t)) == Wrap(now + d)
    ensures TickDelta(TickAdd(base, Wrap(t)), now) == d
  {
    hide Wrap;
    WrapNear(now - base);
    WrapNear(t);
    WrapNear(base + Wrap(t));
    WrapNear(now + d);
    WrapNear(TickAdd(base, Wrap(t)) - now);
  }

  lemma WrapNear(x: int)
    requires -WORD <= x < 2 * WORD
    ensures Wrap(x) == if x < 0 then x + WORD else if x < WORD then x else x - WORD
  {
  }

  lemma Quotient(e: int, period: int)
    requires 0 <= e < WORD && 1 <= period
    ensures 0 <= e / period <= e
    ensures e / period == WORD - 1 <==> period == 1 && e == WORD - 1
    ensures e / period >= 1 <==> e >= period
  {
    var q := e / period;
    assert e == q * period + e % period;
    TimesAtLeast(q, 1, period);
    TimesAtLeast(q, 2, period);
    TimesAtLeast(period, 1, q);
  }

  // A product of non-negative factors is monotone.
  lemma TimesAtLeast(a: int, b: int, c: int)
    requires 0 <= c
    ensures a >= b ==> a * c >= b * c
    ensures a <= b ==> a * c <= b * c
  {
  }

  lemma OneOverrun(e: int, period: int)
    requires 0 <= e < WORD && 1 <= period <= MAX_PERIOD
    ensures (if Wrap(e / period + 1) > 1 then 1 else 0) == e / period <==> e < 2 * period
  {
    Quotient(e, period);
    var q := e / period;
    assert e == q * period + e % period;
    TimesAtLeast(q, 2, period);
    TimesAtLeast(1, q, period);
    WrapNear(q + 1);
  }

  datatype Sleep = InvalidParam | Elapsed | TooFar | For(ticks: Word)

  class Sleeper {
    var wakeTime: Word
    var overruns: nat

    constructor ()
      ensures wakeTime == 0 && overruns == 0
    {
      wakeTime, overruns := 0, 0;
    }

    // The end of a cycle: sleep until the next release.
    method SleepRelease(now: Word, period: Word) returns (r: Sleep)
      modifies this
      ensures r.InvalidParam? <==> !(1 <= period <= MAX_PERIOD)
      ensures r.InvalidParam? ==> wakeTime == old(wakeTime) && overruns == old(overruns)
      ensures !r.InvalidParam? ==>
                && r == For(ToNextRelease(now, old(wakeTime), period))
                && wakeTime == Wrap(now + r.ticks)
                && (overruns == old(overruns) + 1 || overruns == old(overruns))
                && (overruns > old(overruns) <==>
                      var e := TickDelta(now, old(wakeTime));
                      e >= period && !(period == 1 && e == WORD - 1))
      // e / period releases are skipped; the counter says so exactly when that is less than two
      ensures !r.InvalidParam? ==>
                var e := TickDelta(now, old(wakeTime));
                overruns - old(overruns) == e / period <==> e < 2 * period
    {
      if period == 0 || period > MAX_PERIOD {
        return InvalidParam;
      }
      DelayWords(now, wakeTime, period);
      OneOverrun(TickDelta(now, wakeTime), period);
      var base := wakeTime;
      var elapsed := TickDelta(now, base);
      var offsetFactor := Wrap(elapsed / period + 1);
      if offsetFactor > 1 {
        overruns := overruns + 1;
      }
      var offset := Wrap(offsetFactor * period);
      var nextWake := TickAdd(base, offset);
      var delay := TickDelta(nextWake, now);
      assert delay != 0;
      wakeTime := nextWake;
      return For(delay);
    }

    // Sleep to an absolute anchor that advances by one interval a call. The word is read as a signed
    // distance, so an anchor more than half the range back counts as ahead.
    method SleepUntil(last: Word, now: Word, ticks: Word) returns (r: Sleep, anchor: Word)
      modifies this`overruns
      ensures r.InvalidParam? <==> !(1 <= ticks <= MAX_PERIOD)
      ensures anchor == if r.InvalidParam? then last else TickAdd(last, ticks)
      ensures overruns == old(overruns) + (if r.Elapsed? then 1 else 0)
      ensures 1 <= ticks <= MAX_PERIOD ==>
                var e := TickDelta(now, last);
                && (r.Elapsed? <==> ticks <= e < ticks + 0x8000_0000)
                && (r.TooFar? <==> e == ticks + 0x8000_0000)
                && (r.For? ==> 1 <= r.ticks <= MAX_PERIOD && Wrap(now + r.ticks) == anchor
                               && r.ticks == if e < ticks then ticks - e else WORD + ticks - e)
    {
      if ticks == 0 || ticks > MAX_PERIOD {
        return InvalidParam, last;
      }
      hide Wrap;
      anchor := TickAdd(last, ticks);
      WrapNear(last + ticks);
      WrapNear(now - last);
      WrapNear(now - anchor);
      WrapNear(anchor - now);
      if Signed(TickDelta(now, anchor)) >= 0 {
        overruns := overruns + 1;
        return Elapsed, anchor;
      }
      var remaining := TickDelta(anchor, now);
      if remaining > MAX_PERIOD {
        return TooFar, anchor;
      }
      r := For(remaining);
      WrapNear(now + remaining);
    }
  }

  // A task of period 10 calls 20 ticks after its last release, at the origin: two releases are
  // skipped and one is counted.
  method TwoSkippedOneCounted(s: Sleeper)
    requires s.wakeTime == 0
    modifies s
    ensures TickDelta(20, old(s.wakeTime)) / 10 == 2 && s.overruns == old(s.overruns) + 1 && s.wakeTime == 30
  {
    var r := s.SleepRelease(20, 10);
    assert r == For(10);
  }

  // A periodic timer that expired is armed again by the same law, from its last nominal expiry.
  method TimerReload(now: Word, nextTime: Word, period: Word) returns (delay: Word, newNext: Word)
    requires 1 <= period <= MAX_PERIOD
    ensures delay == ToNextRelease(now, nextTime, period) && 1 <= delay <= MAX_PERIOD
    ensures newNext == Wrap(now + delay)
  {
    DelayWords(now, nextTime, period);
    var elapsed := TickDelta(now, nextTime);
    var skips := Wrap(elapsed / period + 1);
    var offset := Wrap(skips * period);
    newNext := TickAdd(nextTime, offset);
    delay := TickDelta(newNext, now);
  }

  // ---- runs before the counter wraps -------------------------------------------------------

  // Release times of a task that computes for busy[i] ticks and then calls SleepRelease(period).
  function Releases(wake: Word, ready: nat, busy: seq<nat>, period: int): seq<nat>
    requires 1 <= period <= MAX_PERIOD
    decreases |busy|
  {
    if busy == [] || ready + busy[0] >= TICK_WRAP then []
    else
      var now := ready + busy[0];
      var next := now + ToNextRelease(now, wake, period);
      [next] + Releases(Wrap(next), next, busy[1..], period)
  }

  // However long the task ran, it becomes ready only at multiples of the period, each later than the
  // call and at most one period after it, in strictly increasing order.
  lemma {:induction false} OnTheGrid(wake: Word, ready: nat, busy: seq<nat>, period: int)
    requires 1 <= period <= MAX_PERIOD
    requires wake % period == 0 && wake <= ready
    ensures var r := Releases(wake, ready, busy, period);
            && |r| <= |busy|
            && (forall i: nat :: i < |r| ==> r[i] % period == 0)
            && (forall i: nat :: i < |r| ==>
                  var call := (if i == 0 then ready else r[i - 1]) + busy[i]; call < r[i] <= call + period)
    decreases |busy|
  {
    if busy == [] || ready + busy[0] >= TICK_WRAP {
    } else {
      var now: Word := ready + busy[0];
      var d := ToNextRelease(now, wake, period);
      var next: nat := now + d;
      assert TickDelta(now, wake) == now - wake;
      SumMod(wake, now - wake + d, period);
      if next < TICK_WRAP {
        OnTheGrid(Wrap(next), next, busy[1..], period);
      } else {
        assert Releases(Wrap(next), next, busy[1..], period) == [];
      }
      var rest := Releases(Wrap(next), next, busy[1..], period);
      var r := Releases(wake, ready, busy, period);
      assert r == [next] + rest;
      forall i: nat | i < |r|
        ensures r[i] % period == 0
        ensures var call := (if i == 0 then ready else r[i - 1]) + busy[i]; call < r[i] <= call + period
      {
        if i > 0 {
          assert r[i] == rest[i - 1] && busy[i] == busy[1..][i - 1];
        }
      }
    }
  }

  lemma SumMod(a: int, b: int, m: int)
    requires 1 <= m && a % m == 0 && b % m == 0
    ensures (a + b) % m == 0
  {
    assert a == (a / m) * m && b == (b / m) * m;
    assert a + b == (a / m + b / m) * m;
    MultipleMod(a / m + b / m, m);
  }

  // ---- across a wrap -----------------------------------------------------------------------

  // The value of the counter after t ticks.
  function Counter(t: nat): Word {
    t % TICK_WRAP
  }

  function Wraps(t: nat): nat {
    t / TICK_WRAP
  }

  // A task that called at tick `called` and was told to sleep `delay` ticks calls again at `now`, any
  // time after its release. Between the calls the counter restarts w times, and the word of elapsed
  // ticks wraps u times; each moves the phase. The next release is on the same grid exactly when
  // the period divides what they add up to.
  lemma GridAfterWraps(called: nat, delay: int, now: nat, period: int)
    requires 1 <= period <= MAX_PERIOD && 1 <= delay <= period && called + delay <= now
    ensures var w := Wraps(now) - Wraps(called);
            var u := (now - called - delay + w) / WORD;
            var wake := Wrap(Counter(called) + delay);
            var next := now + ToNextRelease(Counter(now), wake, period);
            (next - (called + delay)) % period == 0 <==> (w - u * WORD) % period == 0
  {
    var w := Wraps(now) - Wraps(called);
    var wake := Wrap(Counter(called) + delay);
    var e := now - called - delay;
    CounterElapsed(called, delay, now);
    var d := ToNextRelease(Counter(now), wake, period);
    var u := (e + w) / WORD;
    assert TickDelta(Counter(now), wake) == e + w - u * WORD;
    assert (e + w - u * WORD + d) % period == 0;
    DifferenceMod(e + d, w - u * WORD, period);
  }

  // Less than one counter period late, the word of elapsed ticks does not wrap: a single restart of
  // the counter moves the phase of every period but 1.
  lemma GridAfterOneCounterPeriod(called: nat, delay: int, now: nat, period: int)
    requires 1 <= period <= MAX_PERIOD && 1 <= delay <= period
    requires called + delay <= now < called + delay + TICK_WRAP - 1
    ensures var w := Wraps(now) - Wraps(called);
            var wake := Wrap(Counter(called) + delay);
            var next := now + ToNextRelease(Counter(now), wake, period);
            && 0 <= w <= 2
            && ((next - (called + delay)) % period == 0 <==> w % period == 0)
  {
    var w := Wraps(now) - Wraps(called);
    assert now == Wraps(now) * TICK_WRAP + Counter(now);
    assert called == Wraps(called) * TICK_WRAP + Counter(called);
    assert (now - called - delay + w) / WORD == 0;
    GridAfterWraps(called, delay, now, period);
  }

  // Ten ticks before the wrap a task of period 10 asks for its next release; it calls again 3 ticks
  // after that release and is sent 6 ticks ahead, one short of the grid.
  lemma WrapMovesPhase()
    ensures var called, now := TICK_WRAP - 10, TICK_WRAP + 3;
            && ToNextRelease(Counter(now), Wrap(Counter(called) + 10), 10) == 6
            && (now + 6 - (called + 10)) % 10 != 0
  {
  }

  // The word of elapsed ticks is the true time and the restarts of the counter, modulo the word.
  lemma CounterElapsed(called: nat, delay: int, now: nat)
    requires 1 <= delay <= MAX_PERIOD && called + delay <= now
    ensures var w := Wraps(now) - Wraps(called);
            TickDelta(Counter(now), Wrap(Counter(called) + delay)) == Wrap(now - called - delay + w)
  {
    var w := Wraps(now) - Wraps(called);
    assert now == Wraps(now) * TICK_WRAP + Counter(now);
    assert called == Wraps(called) * TICK_WRAP + Counter(called);
    var c := Counter(called) + delay;
    assert c == WORD * (c / WORD) + Wrap(c);
    assert now - called - delay + w == Counter(now) - c + w * WORD;
    WrapMultiple(Counter(now) - Wrap(c), w - c / WORD);
  }

  lemma WrapMultiple(x: int, k: int)
    ensures Wrap(x + k * WORD) == Wrap(x)
  {
  }

  lemma DifferenceMod(a: int, w: int, m: int)
    requires 1 <= m && (a + w) % m == 0
    ensures a % m == 0 <==> w % m == 0
  {
    if a % m == 0 {
      NegMod(a, m);
      SumMod(a + w, -a, m);
    }
    if w % m == 0 {
      NegMod(w, m);
      SumMod(a + w, -w, m);
    }
  }

  lemma NegMod(a: int, m: int)
    requires 1 <= m && a % m == 0
    ensures (-a) % m == 0
  {
    assert a == (a / m) * m;
    assert -a == (-(a / m)) * m;
    MultipleMod(-(a / m), m);
  }
}
