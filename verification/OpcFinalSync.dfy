/** The last OPC-UA output cycle of a PLC run: it is not filtered, so that at Stopped the server holds
    exactly what the last cycle collected. */
module OpcFinalSync {
  import opened Basics
  import opened Controller
  import opened Lifecycle
  import opened LifecycleInvariants
  import opened LifecycleStrong
  import opened LifecycleTheorems
  import opened OpcCaches
  import opened OpcOutput

  predicate InBody(s: State, n: Name) {
    n in s.output.threads && s.output.threads[n].pc == Body
  }

  /** Cycle `x` runs in the body of output `n` that step `ends[x]` ends, and asks at state `at[x]`
      whether the status is Active. */
  ghost predicate CycleInBody(r: Run, n: Name, at: nat, end: nat, c: Cycle)
    requires |r.actions| < |r.states|
  {
    && at <= end < |r.actions| && EndsBody(r, Output, n, end)
    && (forall m :: at <= m <= end ==> InBody(r.states[m], n))
    && c.active == (r.states[at].status == Active)
  }

  /** The cycles are those of the bodies that output `n` has executed before step `k`. */
  ghost predicate CyclesOf(r: Run, n: Name, k: nat, at: seq<nat>, ends: seq<nat>, cs: seq<Cycle>)
    requires k <= |r.actions| < |r.states|
  {
    && |at| == |ends| == |cs|
    && (forall x :: 0 <= x < |cs| ==> ends[x] < k && CycleInBody(r, n, at[x], ends[x], cs[x]))
    && (forall x, y :: 0 <= x < y < |cs| ==> ends[x] < ends[y])
    && (forall j :: 0 <= j < k && EndsBody(r, Output, n, j) ==> j in ends)
  }

  /** The last cycle begins after a sync that began at step `i`. */
  lemma LastCycleIsLater(r: Run, n: Name, k: nat, at: seq<nat>, ends: seq<nat>, cs: seq<Cycle>, i: nat, j: nat)
    requires ValidRun(r) && k <= |r.actions| && CyclesOf(r, n, k, at, ends, cs)
    requires j < k && Sync(r, n, i, j)
    ensures cs != [] && i < at[|cs| - 1] <= ends[|cs| - 1] < k
  {
    hide StepOk;
    assert EndsBody(r, Output, n, j);
    var x: nat :| x < |ends| && ends[x] == j;
    var last := |cs| - 1;
    assert CycleInBody(r, n, at[last], ends[last], cs[last]) && CycleInBody(r, n, at[x], j, cs[x]);
    assert !InBody(r.states[i], n);
  }

  /** From the return of the shutdown function on the status is past Active. */
  lemma PastActive(r: Run, f: nat, m: nat)
    requires ValidRun(r) && f < |r.actions| && f <= m < |r.states| && !Early(r.states[m])
    requires ShutdownReturns(r, f)
    ensures r.states[m].status != Active
  {
    hide StepOk, Early, Joined;
    NotEarlyBefore(r, f, m);
    StrongRun(r, f);
    StrongParts(r.states[f]);
    hide Strong, Weak, Barriers;
    StatusMonotone(r, f, m);
  }

  /** At the moment Stopped is stored, with a shutdown function, output `n` runs no cycle any more;
      its last one began after the function returned, with all inputs and programs finished, and was
      not filtered. If its write succeeded the server holds exactly what it collected. */
  lemma FinalDeviceIsExact(r: Run, k: nat, n: Name, at: seq<nat>, ends: seq<nat>,
                           ttl: Option<nat>, ws: seq<World>, cs: seq<Cycle>) returns (f: nat)
    requires ValidRun(r) && k < |r.actions| && !Early(r.states[k + 1])
    requires r.states[k].shutdownFn && n in r.states[k].output.threads
    requires Stores(r.states[k], r.actions[k]) == Some(Stopped)
    requires CyclesOf(r, n, k, at, ends, cs) && OutputRun(ttl, ws, cs)
    ensures !InBody(r.states[k], n)
    ensures cs != [] && f < at[|cs| - 1] && ShutdownReturns(r, f)
    ensures var c := cs[|cs| - 1];
            && c.written == c.source
            && (c.ok ==> ws[|cs|].device == ws[|cs| - 1].device + c.source)
  {
    hide Strong, Apply, Enabled, Stores, Early, ShutdownReturns, Sync, InMark;
    FinalSync(r, k, n);
    NotEarlyBefore(r, k, k + 1);
    StrongRun(r, k);
    assert StepOk(r, k);
    StoppedMeansLastBodies(r.states[k], r.actions[k], n);
    NotInLastBody(r.states[k], n);
    var f0, i, j :| 0 <= f0 < i < j < k && ShutdownReturns(r, f0) && Sync(r, n, i, j);
    f := f0;
    LastCycleIsLater(r, n, k, at, ends, cs, i, j);
    var last := |cs| - 1;
    NotEarlyBefore(r, at[last], k);
    PastActive(r, f, at[last]);
    assert Steps(ttl, ws[last], cs[last], ws[last + 1]);
  }

  lemma NotInLastBody(s: State, n: Name)
    requires AfterLastBody(s, n)
    ensures !InBody(s, n)
  {
  }
}
