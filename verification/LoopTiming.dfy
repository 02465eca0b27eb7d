/** `Loop` of `src/interval.rs` on a clock that never goes back and a sleep that may overshoot.
    Times are in nanoseconds. */
module LoopTiming {
  import opened Basics

  /** The clock, with the durations of all sleeps that were asked for. */
  class Clock {
    var now: nat
    var slept: seq<nat>

    /** `Instant::now()` */
    method Read() returns (t: nat)
      modifies this
      ensures t == now >= old(now) && slept == old(slept)
    {
      var d: nat :| d >= 0;
      now := now + d;
      t := now;
    }

    method Sleep(d: nat)
      modifies this
      ensures now >= old(now) + d && slept == old(slept) + [d]
    {
      var more: nat :| more >= 0;
      now := now + d + more;
      slept := slept + [d];
    }
  }

  function Abs(x: int): nat {
    if x < 0 then -x else x
  }

  /** `(int_micros - elapsed).unsigned_abs().as_u16_max()` */
  function JitterOf(interval: nat, elapsed: nat): nat {
    var d := Abs(interval / 1000 - elapsed / 1000);
    if d > 0xFFFF then 0xFFFF else d
  }

  /** The distance of the whole microseconds elapsed from those of the interval, cut at 16 bits. */
  predicate IsJitter(interval: nat, elapsed: nat, j: nat) {
    var p, e := interval / 1000, elapsed / 1000;
    if p <= e <= p + 65535 then j == e - p
    else if e <= p <= e + 65535 then j == p - e
    else j == 65535
  }

  lemma JitterExactly(interval: nat, elapsed: nat)
    ensures IsJitter(interval, elapsed, JitterOf(interval, elapsed))
  {
  }

  /** The mutable part of a loop timer. */
  datatype Timer = Timer(nextIter: nat, t: nat, marked: bool)

  /** The clock readings of one tick: on entry, after the sleep or on re-anchoring, for the
      report, and on return. */
  datatype Tick = Tick(entry: nat, second: nat, third: nat, exit: nat)

  predicate OnTime(x: Timer, k: Tick) {
    k.entry <= x.nextIter
  }

  /** The relation of one `Loop::tick` to the readings of the clock. */
  predicate Ticks(interval: nat, report: bool, x: Timer, since: nat, k: Tick, x': Timer) {
    && since <= k.entry <= k.second <= k.third <= k.exit
    && (k.entry < x.nextIter ==> x.nextIter <= k.second)
    && x'.nextIter == (if OnTime(x, k) then x.nextIter else k.second) + interval
    && x'.t == (if report then k.third else x.t)
    && x'.marked
  }

  class Loop {
    var nextIter: nat
    const interval: nat
    var t: nat
    const report: bool
    const isTask: bool
    var marked: bool

    ghost function View(): Timer
      reads this
    {
      Timer(nextIter, t, marked)
    }

    /** `prepare`, from the moment the gate is open. */
    constructor (interval: nat, shift: nat, report: bool, isTask: bool, clock: Clock)
      modifies clock
      ensures this.interval == interval && this.report == report && this.isTask == isTask
      ensures clock.now >= old(clock.now) + shift && clock.slept == old(clock.slept) + [shift]
      ensures View() == Timer(clock.now + interval, clock.now, !isTask)
    {
      this.interval := interval;
      this.report := report;
      this.isTask := isTask;
      new;
      clock.Sleep(shift);
      var now := clock.Read();
      nextIter := now + interval;
      t := now;
      marked := !isTask;
    }

    /** Whether `mark_thread_ready` was called, the result, and the jitter reported. */
    method DoTick(clock: Clock) returns (marks: bool, onTime: bool, jitter: Option<nat>, ghost k: Tick)
      requires t <= clock.now
      modifies this, clock
      ensures Ticks(interval, report, old(View()), old(clock.now), k, View()) && k.exit == clock.now
      ensures onTime == OnTime(old(View()), k)
      ensures clock.slept == old(clock.slept) + if k.entry < old(nextIter) then [old(nextIter) - k.entry] else []
      ensures marks == (!old(marked) && isTask) && marked
      ensures jitter == if report then Some(JitterOf(interval, t - old(t))) else None
      ensures report ==> IsJitter(interval, t - old(t), jitter.value)
      ensures t <= clock.now
    {
      marks := false;
      if !marked {
        if isTask {
          marks := true;
        }
        marked := true;
      }
      var now := clock.Read();
      ghost var entry := now;
      if now > nextIter {
        onTime := false;
      } else if now == nextIter {
        onTime := true;
      } else {
        clock.Sleep(nextIter - now);
        onTime := true;
      }
      ghost var second := clock.now;
      if onTime {
        nextIter := nextIter + interval;
      } else {
        var again := clock.Read();
        second := again;
        nextIter := again + interval;
      }
      jitter := None;
      ghost var third := clock.now;
      if report {
        var now3 := clock.Read();
        third := now3;
        jitter := Some(JitterOf(interval, now3 - t));
        t := now3;
      }
      k := Tick(entry, second, third, clock.now);
    }
  }

  // ---------------------------------------------------------------- runs of ticks

  /** Timers before and after each tick, starting at `start`; between ticks the body runs. */
  predicate TickRun(interval: nat, report: bool, start: nat, xs: seq<Timer>, ks: seq<Tick>) {
    && |xs| == |ks| + 1
    && xs[0].nextIter == start + interval && xs[0].t == start
    && forall i :: 0 <= i < |ks| ==>
         Ticks(interval, report, xs[i], if i == 0 then start else ks[i - 1].exit, ks[i], xs[i + 1])
  }

  /** A tick entered at or before its deadline goes on from the deadline, a later one from a new
      reading of the clock; so every tick moves the deadline by at least one interval, and no tick
      returns before its deadline. */
  lemma TickAdvances(interval: nat, report: bool, x: Timer, since: nat, k: Tick, x': Timer)
    requires Ticks(interval, report, x, since, k, x')
    ensures x.nextIter + interval <= x'.nextIter
    ensures x.nextIter <= k.second && x'.nextIter <= k.exit + interval
    ensures k.entry <= x.nextIter ==> x'.nextIter == x.nextIter + interval
    ensures k.entry > x.nextIter ==> k.entry <= x'.nextIter - interval <= k.exit
  {
  }

  /** The `n`-th tick returns no earlier than `n` intervals after the start, however the sleeps
      overshoot. */
  lemma {:induction false} RateBound(interval: nat, report: bool, start: nat, xs: seq<Timer>, ks: seq<Tick>, n: nat)
    requires TickRun(interval, report, start, xs, ks) && n <= |ks|
    ensures start + Times(n + 1, interval) <= xs[n].nextIter
    ensures n > 0 ==> start + Times(n, interval) <= ks[n - 1].second <= ks[n - 1].exit
  {
    hide Times;
    TimesStep(n, interval);
    if n > 0 {
      RateBound(interval, report, start, xs, ks, n - 1);
      assert Ticks(interval, report, xs[n - 1], if n == 1 then start else ks[n - 2].exit, ks[n - 1], xs[n]);
    }
  }

  /** Where the deadlines were last anchored: the start, or the late tick that re-anchored. */
  function Anchor(start: nat, xs: seq<Timer>, ks: seq<Tick>, n: nat): nat
    requires n <= |ks| < |xs|
  {
    if n == 0 then start
    else if OnTime(xs[n - 1], ks[n - 1]) then Anchor(start, xs, ks, n - 1)
    else ks[n - 1].second
  }

  /** On-time ticks since then. */
  function OnTimeSince(xs: seq<Timer>, ks: seq<Tick>, n: nat): nat
    requires n <= |ks| < |xs|
  {
    if n == 0 || !OnTime(xs[n - 1], ks[n - 1]) then 0 else OnTimeSince(xs, ks, n - 1) + 1
  }

  /** Deadlines do not drift: they stay on the grid of the last anchor. */
  lemma {:induction false} DriftFree(interval: nat, report: bool, start: nat, xs: seq<Timer>, ks: seq<Tick>, n: nat)
    requires TickRun(interval, report, start, xs, ks) && n <= |ks|
    ensures xs[n].nextIter == Anchor(start, xs, ks, n) + Times(OnTimeSince(xs, ks, n) + 1, interval)
  {
    hide Times;
    TimesStep(OnTimeSince(xs, ks, n), interval);
    if n > 0 {
      DriftFree(interval, report, start, xs, ks, n - 1);
      assert Ticks(interval, report, xs[n - 1], if n == 1 then start else ks[n - 2].exit, ks[n - 1], xs[n]);
    }
  }

  /** A loop that is never late keeps the grid of its start for ever. */
  lemma {:induction false} NeverLate(interval: nat, report: bool, start: nat, xs: seq<Timer>, ks: seq<Tick>, n: nat)
    requires TickRun(interval, report, start, xs, ks) && n <= |ks|
    requires forall i :: 0 <= i < n ==> OnTime(xs[i], ks[i])
    ensures Anchor(start, xs, ks, n) == start && OnTimeSince(xs, ks, n) == n
    ensures xs[n].nextIter == start + Times(n + 1, interval)
  {
    hide Times;
    if n > 0 {
      NeverLate(interval, report, start, xs, ks, n - 1);
    }
    DriftFree(interval, report, start, xs, ks, n);
  }

  /** The measured periods of the first `n` ticks. */
  function PeriodSum(xs: seq<Timer>, n: nat): int
    requires n < |xs|
  {
    if n == 0 then 0 else PeriodSum(xs, n - 1) + (xs[n].t - xs[n - 1].t)
  }

  /** The mean measured period is never below the interval. */
  lemma {:induction false} MeanPeriod(interval: nat, start: nat, xs: seq<Timer>, ks: seq<Tick>, n: nat)
    requires TickRun(interval, true, start, xs, ks) && n <= |ks|
    ensures PeriodSum(xs, n) == xs[n].t - start
    ensures PeriodSum(xs, n) >= Times(n, interval)
  {
    hide Times;
    TimesStep(n, interval);
    if n > 0 {
      MeanPeriod(interval, start, xs, ks, n - 1);
      RateBound(interval, true, start, xs, ks, n);
      assert Ticks(interval, true, xs[n - 1], if n == 1 then start else ks[n - 2].exit, ks[n - 1], xs[n]);
    }
  }

  /** What each reporting tick of a run measures: the jitter of the time since the one before. */
  lemma TickJitter(interval: nat, start: nat, xs: seq<Timer>, ks: seq<Tick>, n: nat)
    requires TickRun(interval, true, start, xs, ks) && 0 < n <= |ks|
    ensures var since := if n == 1 then start else ks[n - 2].third;
            && xs[n - 1].t == since && xs[n].t == ks[n - 1].third >= since
            && IsJitter(interval, ks[n - 1].third - since, JitterOf(interval, xs[n].t - xs[n - 1].t))
  {
    assert Ticks(interval, true, xs[n - 1], if n == 1 then start else ks[n - 2].exit, ks[n - 1], xs[n]);
    if n > 1 {
      assert Ticks(interval, true, xs[n - 2], if n == 2 then start else ks[n - 3].exit, ks[n - 2], xs[n - 1]);
    }
    JitterExactly(interval, xs[n].t - xs[n - 1].t);
    hide JitterOf, IsJitter;
  }

  /** Ticks that wake and report exactly at their deadline measure no jitter. */
  lemma PunctualMeansNoJitter(interval: nat, start: nat, xs: seq<Timer>, ks: seq<Tick>, n: nat)
    requires TickRun(interval, true, start, xs, ks) && 0 < n <= |ks|
    requires forall i :: 0 <= i < n ==> OnTime(xs[i], ks[i]) && ks[i].third == xs[i].nextIter
    ensures xs[n].t - xs[n - 1].t == interval
    ensures JitterOf(interval, xs[n].t - xs[n - 1].t) == 0
  {
    hide Times;
    TimesStep(n - 1, interval);
    NeverLate(interval, true, start, xs, ks, n - 1);
    assert Ticks(interval, true, xs[n - 1], if n == 1 then start else ks[n - 2].exit, ks[n - 1], xs[n]);
    if n > 1 {
      NeverLate(interval, true, start, xs, ks, n - 2);
      assert Ticks(interval, true, xs[n - 2], if n == 2 then start else ks[n - 3].exit, ks[n - 2], xs[n - 1]);
    }
  }
}
