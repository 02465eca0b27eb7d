/** `ThreadStats` of `src/tasks.rs`: a jitter accumulator in 32 bits with two restart rules. */
module JitterStatistics {
  import opened Basics

  const U16_MAX: nat := 0xFFFF
  const U32_MAX: nat := 0xFFFF_FFFF

  type Sample = x: nat | x <= U16_MAX

  datatype Jitter = Jitter(min: Sample, max: Sample, last: Sample, total: nat)

  datatype Stats = Stats(iters: nat, jitter: Option<Jitter>)

  datatype ThreadInfo = ThreadInfo(iters: nat, min: nat, max: nat, last: nat, avg: nat)

  function Sum(xs: seq<Sample>): nat {
    if xs == [] then 0 else Sum(xs[..|xs| - 1]) + xs[|xs| - 1]
  }

  predicate Bounded(xs: seq<Sample>, lo: nat, hi: nat) {
    forall i :: 0 <= i < |xs| ==> lo <= xs[i] <= hi
  }

  /** `s` describes the samples reported since the last reset: the extremes are those of all of
      them, the total is that of the last `iters`. */
  predicate Describes(s: Stats, xs: seq<Sample>) {
    && (s.jitter.None? <==> xs == [])
    && (s.iters == 0 <==> xs == [])
    && s.iters <= |xs| && s.iters <= U32_MAX
    && match s.jitter
       case None => true
       case Some(j) =>
         && j.min in xs && j.max in xs && Bounded(xs, j.min, j.max)
         && j.last == xs[|xs| - 1]
         && j.total == Sum(xs[|xs| - s.iters..]) <= U32_MAX
  }

  /** The window starts anew at the limit of the counter or when the total would overflow. */
  predicate Restarts(s: Stats, j: Sample) {
    s.iters == U32_MAX || (s.jitter.Some? && s.jitter.value.total > U32_MAX - j)
  }

  /** One more sample fits the window of the last `n`: neither the counter nor the total leaves its
      32 bits. */
  predicate CanGrow(n: nat, xs: seq<Sample>, j: Sample)
    requires n <= |xs|
  {
    n + 1 < 0x1_0000_0000 && Sum(xs[|xs| - n..]) + j < 0x1_0000_0000
  }

  /** The window is given up only when it has to be. */
  lemma RestartsExactly(s: Stats, xs: seq<Sample>, j: Sample)
    requires Describes(s, xs)
    ensures Restarts(s, j) <==> !CanGrow(s.iters, xs, j)
  {
    hide Bounded;
    if xs == [] {
      assert xs[|xs| - s.iters..] == [];
    }
  }

  function AsU16Max(v: nat): nat {
    if v > U16_MAX then U16_MAX else v
  }

  /** Samples are all numbers of 16 bits, and anything larger is cut to the largest of them. */
  lemma CutExactly(v: nat)
    ensures AsU16Max(v) == if v < 0x1_0000 then v else 65535
    ensures U16_MAX == 65535
  {
  }

  class ThreadStats {
    var iters: nat
    var jitter: Option<Jitter>
    ghost var samples: seq<Sample>

    ghost predicate Valid()
      reads this
    {
      Describes(Stats(iters, jitter), samples)
    }

    constructor ()
      ensures Valid() && samples == []
    {
      iters, jitter, samples := 0, None, [];
    }

    method ReportJitter(j: Sample)
      requires Valid()
      modifies this
      ensures Valid() && samples == old(samples) + [j]
      ensures iters == if Restarts(Stats(old(iters), old(jitter)), j) then 1 else old(iters) + 1
      ensures iters == if CanGrow(old(iters), old(samples), j) then old(iters) + 1 else 1
    {
      hide Describes;
      ghost var before := Stats(iters, jitter);
      var wasReset := iters == U32_MAX;
      if wasReset {
        iters := 1;
      } else {
        iters := iters + 1;
      }
      if jitter.Some? {
        var s := jitter.value;
        if s.min > j {
          s := s.(min := j);
        }
        if s.max < j {
          s := s.(max := j);
        }
        s := s.(last := j);
        if wasReset {
          s := s.(total := j);
        } else if s.total > U32_MAX - j {
          iters := 1;
          s := s.(total := j);
        } else {
          s := s.(total := s.total + j);
        }
        jitter := Some(s);
      } else {
        jitter := Some(Jitter(j, j, j, j));
      }
      ReportedDescribes(before, samples, j, Stats(iters, jitter));
      RestartsExactly(before, samples, j);
      samples := samples + [j];
    }

    method Reset()
      modifies this
      ensures Valid() && samples == []
    {
      iters, jitter, samples := 0, None, [];
    }

    /** The average lies between the extremes, so it fits 16 bits and is not cut off. */
    method Info() returns (r: Option<ThreadInfo>)
      requires Valid()
      ensures r.None? <==> samples == []
      ensures r.Some? ==>
                && r.value.iters == iters > 0
                && r.value.min <= r.value.avg <= r.value.max <= U16_MAX
                && r.value.avg == Sum(samples[|samples| - iters..]) / iters
                && r.value.last == samples[|samples| - 1]
                && r.value.min in samples && r.value.max in samples
                && Bounded(samples, r.value.min, r.value.max)
    {
      if jitter.None? {
        return None;
      }
      var s := jitter.value;
      AverageInside(Stats(iters, jitter), samples);
      return Some(ThreadInfo(iters, s.min, s.max, s.last, AsU16Max(s.total / iters)));
    }
  }

  /** The window of the last `n` samples grows by one, or shrinks to the newest. */
  lemma WindowAppend(xs: seq<Sample>, j: Sample, n: nat)
    requires n <= |xs|
    ensures Sum((xs + [j])[|xs| - n..]) == Sum(xs[|xs| - n..]) + j
    ensures Sum((xs + [j])[|xs|..]) == j
  {
    var w := (xs + [j])[|xs| - n..];
    assert w[..|w| - 1] == xs[|xs| - n..];
    assert (xs + [j])[|xs|..] == [j];
    assert [j][..0] == [];
  }

  lemma BoundsAppend(xs: seq<Sample>, j: Sample, lo: Sample, hi: Sample)
    requires Bounded(xs, lo, hi) && (xs == [] || (lo in xs && hi in xs))
    ensures xs != [] ==>
              && Bounded(xs + [j], if lo > j then j else lo, if hi < j then j else hi)
              && (if lo > j then j else lo) in xs + [j] && (if hi < j then j else hi) in xs + [j]
    ensures xs == [] ==> Bounded(xs + [j], j, j) && j in xs + [j]
  {
    assert (xs + [j])[|xs|] == j;
  }

  /** The accounting of one report. */
  lemma ReportedDescribes(s: Stats, xs: seq<Sample>, j: Sample, s': Stats)
    requires Describes(s, xs)
    requires s'.iters == if Restarts(s, j) then 1 else s.iters + 1
    requires s'.jitter == Some(
               if s.jitter.None? then Jitter(j, j, j, j)
               else Jitter(if s.jitter.value.min > j then j else s.jitter.value.min,
                           if s.jitter.value.max < j then j else s.jitter.value.max,
                           j,
                           if Restarts(s, j) then j else s.jitter.value.total + j))
    ensures Describes(s', xs + [j])
  {
    hide Sum, Bounded;
    var ys := xs + [j];
    WindowAppend(xs, j, s.iters);
    if s.jitter.None? {
      BoundedNothing(j);
      BoundsAppend(xs, j, j, j);
      assert xs[|xs| - s.iters..] == [];
      SumOfNothing();
    } else {
      BoundsAppend(xs, j, s.jitter.value.min, s.jitter.value.max);
    }
    assert ys[|ys| - 1] == j;
    assert |ys| - 1 == |xs| && |ys| - (s.iters + 1) == |xs| - s.iters;
  }

  lemma SumOfNothing()
    ensures Sum([]) == 0
  {
  }

  lemma BoundedNothing(j: Sample)
    ensures Bounded([], j, j)
  {
  }

  lemma {:induction false} SumBounds(xs: seq<Sample>, lo: nat, hi: nat)
    requires Bounded(xs, lo, hi)
    ensures Times(|xs|, lo) <= Sum(xs) <= Times(|xs|, hi)
  {
    hide Times;
    TimesStep(if xs == [] then 0 else |xs| - 1, lo);
    TimesStep(if xs == [] then 0 else |xs| - 1, hi);
    if xs != [] {
      SumBounds(xs[..|xs| - 1], lo, hi);
    }
  }

  lemma {:induction false} TimesMono(n: nat, a: nat, b: nat)
    requires a <= b
    ensures Times(n, a) <= Times(n, b)
  {
    hide Times;
    TimesStep(if n == 0 then 0 else n - 1, a);
    TimesStep(if n == 0 then 0 else n - 1, b);
    if n > 0 {
      TimesMono(n - 1, a, b);
    }
  }

  lemma QuotientTimes(total: nat, n: nat)
    requires n > 0
    ensures Times(n, total / n) <= total < Times(n, total / n + 1)
  {
    assert total == n * (total / n) + total % n;
    TimesNext(n, total / n);
  }

  lemma TimesNext(n: nat, a: nat)
    ensures Times(n, a + 1) == Times(n, a) + n
  {
  }

  lemma DivBounds(total: nat, n: nat, lo: nat, hi: nat)
    requires n > 0 && Times(n, lo) <= total <= Times(n, hi)
    ensures lo <= total / n <= hi
  {
    QuotientTimes(total, n);
    hide Times;
    var q := total / n;
    if q < lo {
      TimesMono(n, q + 1, lo);
    }
    if hi < q {
      TimesMono(n, hi + 1, q);
      TimesNext(n, hi);
    }
  }

  /** Across both restart rules the average of the window stays between the extremes. */
  lemma AverageInside(s: Stats, xs: seq<Sample>)
    requires Describes(s, xs) && xs != []
    ensures s.iters > 0 && s.jitter.Some?
    ensures s.jitter.value.min <= s.jitter.value.total / s.iters <= s.jitter.value.max
    ensures AsU16Max(s.jitter.value.total / s.iters) == s.jitter.value.total / s.iters
  {
    var j := s.jitter.value;
    var window := xs[|xs| - s.iters..];
    assert Bounded(window, j.min, j.max);
    SumBounds(window, j.min, j.max);
    DivBounds(j.total, s.iters, j.min, j.max);
  }

  // ---------------------------------------------------------------- any history

  datatype Op = Report(j: Sample) | Clear

  function SinceReset(ops: seq<Op>): seq<Sample> {
    if ops == [] then []
    else
      var before := SinceReset(ops[..|ops| - 1]);
      match ops[|ops| - 1]
      case Report(j) => before + [j]
      case Clear => []
  }

  /** After any sequence of reports and resets the statistics describe exactly the samples since
      the last reset. */
  method Replay(ops: seq<Op>) returns (stats: ThreadStats)
    ensures fresh(stats) && stats.Valid() && stats.samples == SinceReset(ops)
  {
    stats := new ThreadStats();
    var i := 0;
    while i < |ops|
      invariant 0 <= i <= |ops| && fresh(stats) && stats.Valid()
      invariant stats.samples == SinceReset(ops[..i])
    {
      match ops[i] {
        case Report(j) => stats.ReportJitter(j);
        case Clear => stats.Reset();
      }
      i := i + 1;
      assert ops[..i][..i - 1] == ops[..i - 1];
    }
    assert ops[..i] == ops;
  }
}
