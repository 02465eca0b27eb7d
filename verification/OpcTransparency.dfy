/** Exactly when the OPC-UA output filter is transparent: which patterns of Active cycles keep
    agreement with an unfiltered worker, and which sources keep the device identical. */
module OpcTransparency {
  import opened Basics
  import opened Controller
  import opened Lifecycle
  import opened LifecycleTheorems
  import opened Variants
  import opened OpcCaches
  import opened OpcOutput

  // ---------------------------------------------------------------- one interval is needed

  ghost predicate HasFlags(cs: seq<Cycle>, flags: seq<bool>) {
    |cs| == |flags| && forall i :: 0 <= i < |cs| ==> cs[i].active == flags[i]
  }

  ghost predicate HasSources(cs: seq<Cycle>, sources: seq<Values>) {
    |cs| == |sources| && forall i :: 0 <= i < |cs| ==> cs[i].source == sources[i]
  }

  predicate OneInterval(flags: seq<bool>) {
    forall i, j, k :: 0 <= i <= j <= k < |flags| && flags[i] && flags[k] ==> flags[j]
  }

  /** Every run with these flags and no failed write keeps the device in agreement throughout. */
  ghost predicate AlwaysAgrees(d: nat, flags: seq<bool>) {
    forall ws: seq<World>, cs: seq<Cycle> ::
      OutputRun(Some(d), ws, cs) && AllOk(cs) && HasFlags(cs, flags) ==>
        forall i :: 0 <= i <= |cs| ==> Agrees(ws[i].device, Unfiltered(ws[0].device, cs, i))
  }

  const NODE: NodeId := NodeId("ns=2;s=fan1")
  const ON: Variant := Scalar(1, 1)
  const OFF: Variant := Scalar(1, 0)

  /** What an undisturbed cycle passes to the write. */
  function Unsuppressed(w: World, source: Values, active: bool): Values {
    map n | n in source && !(active && MaySuppress(w.entries, n, source[n], 0)) :: source[n]
  }

  /** One cycle on a clock that stands still, with no eviction. */
  function StillCycle(w: World, source: Values, active: bool): Cycle {
    Cycle(0, source, active, {}, Unsuppressed(w, source, active), true)
  }

  function StillWorld(d: nat, w: World, source: Values, active: bool): World {
    var written := Unsuppressed(w, source, active);
    World(if active then w.entries + (map n | n in written :: Entry(written[n], d)) else w.entries,
          0, w.device + written)
  }

  lemma StillSteps(d: nat, w: World, source: Values, active: bool)
    requires w.now == 0
    ensures Steps(Some(d), w, StillCycle(w, source, active), StillWorld(d, w, source, active))
  {
    var c, w' := StillCycle(w, source, active), StillWorld(d, w, source, active);
    if active {
      UndisturbedExactly(d, w.entries, 0, source, c.written, w'.entries);
    } else {
      assert c.written == source;
      assert w.entries - {} == w.entries;
    }
  }

  /** The worker on these sources and statuses, undisturbed from an empty device. */
  function StillRun(d: nat, sources: seq<Values>, flags: seq<bool>, m: nat): (w: World)
    requires m <= |sources| == |flags|
    ensures w.now == 0
  {
    if m == 0 then World(map[], 0, map[])
    else StillWorld(d, StillRun(d, sources, flags, m - 1), sources[m - 1], flags[m - 1])
  }

  function StillWorlds(d: nat, sources: seq<Values>, flags: seq<bool>): (ws: seq<World>)
    requires |sources| == |flags|
    ensures |ws| == |flags| + 1
  {
    seq(|flags| + 1, x requires 0 <= x <= |flags| => StillRun(d, sources, flags, x))
  }

  function StillCycles(d: nat, sources: seq<Values>, flags: seq<bool>): (cs: seq<Cycle>)
    requires |sources| == |flags|
    ensures |cs| == |flags|
  {
    seq(|flags|, x requires 0 <= x < |flags| =>
      StillCycle(StillRun(d, sources, flags, x), sources[x], flags[x]))
  }

  lemma StillAt(d: nat, sources: seq<Values>, flags: seq<bool>, m: nat)
    requires m < |sources| == |flags|
    ensures StillWorlds(d, sources, flags)[m + 1] == StillRun(d, sources, flags, m + 1)
    ensures StillCycles(d, sources, flags)[m].source == sources[m]
  {
    hide StillRun;
  }

  lemma StillRunIsRun(d: nat, sources: seq<Values>, flags: seq<bool>)
    requires |sources| == |flags|
    ensures var ws, cs := StillWorlds(d, sources, flags), StillCycles(d, sources, flags);
            && OutputRun(Some(d), ws, cs) && AllOk(cs) && HasFlags(cs, flags) && HasSources(cs, sources)
            && forall m :: 0 <= m < |cs| ==> cs[m].source == sources[m]
  {
    hide Steps, StillWorld;
    var ws, cs := StillWorlds(d, sources, flags), StillCycles(d, sources, flags);
    forall x | 0 <= x < |cs|
      ensures Steps(Some(d), ws[x], cs[x], ws[x + 1])
    {
      StillSteps(d, ws[x], sources[x], flags[x]);
    }
  }

  /** The value goes off strictly between the cycles `i` and `k`. */
  function GapSources(count: nat, i: nat, k: nat): (ss: seq<Values>)
    ensures |ss| == count
  {
    seq(count, m => map[NODE := if i < m < k then OFF else ON])
  }

  /** In the gap the cache keeps the old value while the device follows the source. */
  lemma {:induction false} GapGoesStale(d: nat, flags: seq<bool>, i: nat, k: nat, m: nat)
    requires i < m <= k < |flags| && flags[i]
    requires forall j :: i < j < k ==> !flags[j]
    ensures var w := StillRun(d, GapSources(|flags|, i, k), flags, m);
            && NODE in w.entries && w.entries[NODE] == Entry(ON, d)
            && (m > i + 1 ==> NODE in w.device && w.device[NODE] == OFF)
  {
    if m > i + 1 {
      GapGoesStale(d, flags, i, k, m - 1);
    } else {
      StillExpiry(d, GapSources(|flags|, i, k), flags, i);
    }
  }

  /** Undisturbed entries all expire at the ttl. */
  lemma {:induction false} StillExpiry(d: nat, sources: seq<Values>, flags: seq<bool>, m: nat)
    requires m <= |sources| == |flags|
    ensures forall n :: n in StillRun(d, sources, flags, m).entries ==>
              StillRun(d, sources, flags, m).entries[n].expires == d
  {
    if m > 0 {
      StillExpiry(d, sources, flags, m - 1);
    }
  }

  /** Two Active cycles around an inactive one, chosen next to each other. */
  lemma FindGap(flags: seq<bool>) returns (i: nat, k: nat)
    requires !OneInterval(flags)
    ensures i + 1 < k < |flags| && flags[i] && flags[k]
    ensures forall j :: i < j < k ==> !flags[j]
  {
    var i0, j0, k0 :| 0 <= i0 <= j0 <= k0 < |flags| && flags[i0] && flags[k0] && !flags[j0];
    i, k := j0, j0;
    while !flags[i]
      invariant i0 <= i <= j0
      invariant forall j :: i < j <= j0 ==> !flags[j]
      decreases i
    {
      i := i - 1;
    }
    while !flags[k]
      invariant j0 <= k <= k0
      invariant forall j :: j0 <= j < k ==> !flags[j]
      decreases k0 - k
    {
      k := k + 1;
    }
  }

  /** With the status leaving Active and coming back, some run ends with a stale device. */
  lemma GapBreaksAgreement(d: nat, flags: seq<bool>) returns (ws: seq<World>, cs: seq<Cycle>, m: nat)
    requires !OneInterval(flags)
    ensures OutputRun(Some(d), ws, cs) && AllOk(cs) && HasFlags(cs, flags) && m <= |cs|
    ensures !Agrees(ws[m].device, Unfiltered(ws[0].device, cs, m))
  {
    var i, k := FindGap(flags);
    var sources := GapSources(|flags|, i, k);
    ws, cs := StillWorlds(d, sources, flags), StillCycles(d, sources, flags);
    StillRunIsRun(d, sources, flags);
    GapGoesStale(d, flags, i, k, k);
    hide OutputRun, AllOk, HasFlags, HasSources, OneInterval, StillRun, Agrees, Unfiltered, GapSources;
    m := k + 1;
    assert sources[k] == map[NODE := ON] by { GapSourceOn(|flags|, i, k); }
    StaysSuppressed(d, sources, flags, k, NODE);
    UnfilteredLast(ws[0].device, cs, k, NODE);
    Disagrees(ws[m].device, Unfiltered(ws[0].device, cs, m));
  }

  lemma GapSourceOn(count: nat, i: nat, k: nat)
    requires k < count
    ensures GapSources(count, i, k)[k] == map[NODE := ON]
  {
  }

  lemma UnfilteredLast(device: Values, cs: seq<Cycle>, m: nat, n: NodeId)
    requires m < |cs| && n in cs[m].source
    ensures n in Unfiltered(device, cs, m + 1) && Unfiltered(device, cs, m + 1)[n] == cs[m].source[n]
  {
  }

  lemma Disagrees(device: Values, reference: Values)
    requires NODE in device && device[NODE] == OFF && NODE in reference && reference[NODE] == ON
    ensures !Agrees(device, reference)
  {
    assert !Close(OFF, ON);
  }

  /** An Active cycle over a live equal entry leaves the device as it was at the node. */
  lemma StaysSuppressed(d: nat, sources: seq<Values>, flags: seq<bool>, m: nat, n: NodeId)
    requires m < |sources| == |flags| && flags[m] && n in sources[m]
    requires MaySuppress(StillRun(d, sources, flags, m).entries, n, sources[m][n], 0)
    ensures var w, w' := StillRun(d, sources, flags, m), StillRun(d, sources, flags, m + 1);
            (n in w.device <==> n in w'.device) && (n in w.device ==> w'.device[n] == w.device[n])
  {
  }

  /** The filter is transparent for every source, clock and eviction if and only if the Active
      cycles are one interval. */
  lemma TransparentExactly(d: nat, flags: seq<bool>)
    ensures AlwaysAgrees(d, flags) <==> OneInterval(flags)
  {
    if OneInterval(flags) {
      forall ws: seq<World>, cs: seq<Cycle> | OutputRun(Some(d), ws, cs) && AllOk(cs) && HasFlags(cs, flags)
        ensures forall i :: 0 <= i <= |cs| ==> Agrees(ws[i].device, Unfiltered(ws[0].device, cs, i))
      {
        forall i | 0 <= i <= |cs|
          ensures Agrees(ws[i].device, Unfiltered(ws[0].device, cs, i))
        {
          FilterRefines(Some(d), ws, cs, i);
        }
      }
    } else {
      var ws, cs, m := GapBreaksAgreement(d, flags);
    }
  }

  /** `flags` are what an output loop finds when it asks, at the states `at` of a PLC run, whether
      the status is Active. */
  predicate ReadsActive(r: Run, at: seq<nat>, flags: seq<bool>) {
    && |at| == |flags|
    && (forall x, y :: 0 <= x <= y < |at| ==> at[x] <= at[y])
    && (forall x :: 0 <= x < |at| ==> at[x] < |r.states| && flags[x] == (r.states[at[x]].status == Active))
  }

  /** What an output loop reads during one run of the PLC does form one interval. */
  lemma PlcFlagsAreOneInterval(r: Run, at: seq<nat>, flags: seq<bool>)
    requires ValidRun(r) && ReadsActive(r, at, flags)
    ensures OneInterval(flags)
  {
    hide ValidRun;
    forall i, j, k | 0 <= i <= j <= k < |flags| && flags[i] && flags[k]
      ensures flags[j]
    {
      ActiveIsContiguous(r, at[i], at[j], at[k]);
    }
  }

  /** So, on every run of the PLC and as long as writes succeed, the filtered output loop keeps
      the server where an unfiltered one would. */
  lemma PlcOutputAgrees(r: Run, at: seq<nat>, flags: seq<bool>, d: nat, ws: seq<World>, cs: seq<Cycle>, i: nat)
    requires ValidRun(r) && ReadsActive(r, at, flags)
    requires OutputRun(Some(d), ws, cs) && AllOk(cs) && HasFlags(cs, flags) && i <= |cs|
    ensures Agrees(ws[i].device, Unfiltered(ws[0].device, cs, i))
  {
    hide ValidRun, OutputRun, Agrees, Unfiltered, AllOk;
    PlcFlagsAreOneInterval(r, at, flags);
    TransparentExactly(d, flags);
  }

  // ---------------------------------------------------------------- identity

  /** A worker maps the same nodes in every cycle. */
  predicate SameNodes(sources: seq<Values>) {
    forall i, j :: 0 <= i < |sources| && 0 <= j < |sources| ==> sources[i].Keys == sources[j].Keys
  }

  /** In two adjacent Active cycles `n` is given different values that the filter takes for equal:
      one zero float for the other. */
  predicate Flips(sources: seq<Values>, flags: seq<bool>, m: nat, n: NodeId)
    requires |sources| == |flags|
  {
    && m + 1 < |sources| && flags[m] && flags[m + 1]
    && n in sources[m] && n in sources[m + 1]
    && sources[m][n] != sources[m + 1][n] && Eq(sources[m][n], sources[m + 1][n])
  }

  ghost predicate HasFlip(sources: seq<Values>, flags: seq<bool>)
    requires |sources| == |flags|
  {
    exists m: nat, n: NodeId :: Flips(sources, flags, m, n)
  }

  /** The device holds the very values an unfiltered worker would have written, throughout every
      run with these sources and statuses and no failed write. */
  ghost predicate AlwaysIdentical(ttl: Option<nat>, sources: seq<Values>, flags: seq<bool>) {
    forall ws: seq<World>, cs: seq<Cycle> ::
      OutputRun(ttl, ws, cs) && AllOk(cs) && HasFlags(cs, flags) && HasSources(cs, sources) ==>
        forall i :: 0 <= i <= |cs| ==> ws[i].device == Unfiltered(ws[0].device, cs, i)
  }

  lemma ContiguousFlags(cs: seq<Cycle>, flags: seq<bool>)
    requires HasFlags(cs, flags) && OneInterval(flags)
    ensures Contiguous(cs)
  {
  }

  /** Without a flip a suppressed value is the one on the device. */
  lemma SuppressedIsIdentical(d: nat, ws: seq<World>, cs: seq<Cycle>, sources: seq<Values>, flags: seq<bool>,
                              i: nat, n: NodeId)
    requires OutputRun(Some(d), ws, cs) && AllOk(cs) && i < |cs|
    requires HasFlags(cs, flags) && HasSources(cs, sources) && OneInterval(flags)
    requires SameNodes(sources) && !HasFlip(sources, flags)
    requires ws[i].device == Unfiltered(ws[0].device, cs, i)
    requires n in cs[i].source && n !in cs[i].written
    ensures n in ws[i].device && ws[i].device[n] == cs[i].source[n]
  {
    ContiguousFlags(cs, flags);
    assert Steps(Some(d), ws[i], cs[i], ws[i + 1]);
    assert MaySuppress(ws[i].entries, n, cs[i].source[n], cs[i].start);
    ConsultedIsSynced(d, ws, cs, i, i);
    if forall j :: 0 <= j < i ==> !cs[j].active {
      EmptyBefore(Some(d), ws, cs, i);
      assert false;
    } else {
      assert cs[i - 1].active;
      assert !Flips(sources, flags, i - 1, n);
    }
  }

  lemma {:induction false} IdenticalWithoutFlips(ttl: Option<nat>, ws: seq<World>, cs: seq<Cycle>,
                                                 sources: seq<Values>, flags: seq<bool>, i: nat)
    requires OutputRun(ttl, ws, cs) && AllOk(cs) && i <= |cs|
    requires HasFlags(cs, flags) && HasSources(cs, sources) && OneInterval(flags)
    requires ttl.Some? ==> SameNodes(sources) && !HasFlip(sources, flags)
    ensures ws[i].device == Unfiltered(ws[0].device, cs, i)
  {
    hide Steps, HasFlags, HasSources, OneInterval, SameNodes, HasFlip, Submap;
    if i > 0 {
      IdenticalWithoutFlips(ttl, ws, cs, sources, flags, i - 1);
      var w, c := ws[i - 1], cs[i - 1];
      assert Steps(ttl, w, c, ws[i]);
      forall n | ttl.Some? && n in c.source && n !in c.written
        ensures n in w.device && w.device[n] == c.source[n]
      {
        SuppressedIsIdentical(ttl.value, ws, cs, sources, flags, i - 1, n);
      }
      IdenticalStep(ttl, w, c, ws[i]);
    }
  }

  /** A cycle whose suppressed values are on the device does what an unfiltered one would. */
  lemma IdenticalStep(ttl: Option<nat>, w: World, c: Cycle, w': World)
    requires Steps(ttl, w, c, w') && c.ok
    requires ttl.Some? ==> forall n :: n in c.source && n !in c.written ==> n in w.device && w.device[n] == c.source[n]
    ensures w'.device == w.device + c.source
  {
    hide MaySuppress, Cached;
  }

  /** Between two Active cycles of the undisturbed worker every mapped node has a live entry, and
      the device holds its value. */
  lemma StillHeld(d: nat, sources: seq<Values>, flags: seq<bool>, m: nat, n: NodeId)
    requires m + 1 < |sources| == |flags| && OneInterval(flags)
    requires flags[m] && flags[m + 1] && n in sources[m]
    ensures var w := StillRun(d, sources, flags, m + 1);
            && n in w.entries && w.entries[n].expires == d
            && n in w.device && w.device[n] == w.entries[n].value
  {
    StillCaches(d, sources, flags, m, n);
    StillExpiry(d, sources, flags, m + 1);
    hide StillRun, Steps;
    var ws, cs := StillWorlds(d, sources, flags), StillCycles(d, sources, flags);
    StillRunIsRun(d, sources, flags);
    ContiguousFlags(cs, flags);
    ConsultedIsSynced(d, ws, cs, m + 1, m + 1);
  }

  lemma StillCaches(d: nat, sources: seq<Values>, flags: seq<bool>, m: nat, n: NodeId)
    requires m < |sources| == |flags| && flags[m] && n in sources[m]
    ensures n in StillRun(d, sources, flags, m + 1).entries
  {
  }

  /** A flip is suppressed: the device keeps the value it had. */
  lemma FlipHolds(d: nat, sources: seq<Values>, flags: seq<bool>, m: nat, n: NodeId)
    requires |sources| == |flags| && OneInterval(flags) && Flips(sources, flags, m, n)
    requires var w := StillRun(d, sources, flags, m + 1); n in w.device ==> w.device[n] == sources[m][n]
    ensures var w := StillRun(d, sources, flags, m + 2); n in w.device && w.device[n] == sources[m][n]
  {
    hide OneInterval, StillRun, Eq;
    StillHeld(d, sources, flags, m, n);
    StaysSuppressed(d, sources, flags, m + 1, n);
  }

  /** After a flip the undisturbed worker leaves the device with the other zero, unless it had
      something else there before. */
  lemma FlipBreaks(d: nat, sources: seq<Values>, flags: seq<bool>, m: nat, n: NodeId)
    requires |sources| == |flags| && OneInterval(flags) && Flips(sources, flags, m, n)
    ensures var ws, cs := StillWorlds(d, sources, flags), StillCycles(d, sources, flags);
            || ws[m + 1].device != Unfiltered(ws[0].device, cs, m + 1)
            || (n in ws[m + 2].device && ws[m + 2].device[n] == sources[m][n]
                && n in Unfiltered(ws[0].device, cs, m + 2)
                && Unfiltered(ws[0].device, cs, m + 2)[n] == sources[m + 1][n])
  {
    hide StillRun, StillWorld, StillCycle, Unfiltered, OneInterval, Eq;
    var ws, cs := StillWorlds(d, sources, flags), StillCycles(d, sources, flags);
    StillAt(d, sources, flags, m);
    StillAt(d, sources, flags, m + 1);
    hide StillWorlds, StillCycles;
    UnfilteredLast(ws[0].device, cs, m, n);
    UnfilteredLast(ws[0].device, cs, m + 1, n);
    if ws[m + 1].device == Unfiltered(ws[0].device, cs, m + 1) {
      FlipHolds(d, sources, flags, m, n);
    }
  }

  /** The device is identical to that of the unfiltered worker on all runs with these sources if
      and only if no node flips between equal values in adjacent Active cycles. */
  lemma IdenticalExactly(ttl: Option<nat>, sources: seq<Values>, flags: seq<bool>)
    requires |sources| == |flags| && SameNodes(sources) && OneInterval(flags)
    ensures AlwaysIdentical(ttl, sources, flags) <==> ttl.None? || !HasFlip(sources, flags)
  {
    hide AllOk, HasSources, OneInterval, SameNodes, Flips, Unfiltered, Steps;
    if ttl.None? || !HasFlip(sources, flags) {
      forall ws: seq<World>, cs: seq<Cycle>, i |
        OutputRun(ttl, ws, cs) && AllOk(cs) && HasFlags(cs, flags) && HasSources(cs, sources) && 0 <= i <= |cs|
        ensures ws[i].device == Unfiltered(ws[0].device, cs, i)
      {
        IdenticalWithoutFlips(ttl, ws, cs, sources, flags, i);
      }
    } else {
      var m: nat, n: NodeId :| Flips(sources, flags, m, n);
      FlippedRun(ttl.value, sources, flags, m, n);
    }
  }

  lemma FlippedRun(d: nat, sources: seq<Values>, flags: seq<bool>, m: nat, n: NodeId)
    requires |sources| == |flags| && OneInterval(flags) && Flips(sources, flags, m, n)
    ensures !AlwaysIdentical(Some(d), sources, flags)
  {
    FlipBreaks(d, sources, flags, m, n);
    StillRunIsRun(d, sources, flags);
    var ws, cs := StillWorlds(d, sources, flags), StillCycles(d, sources, flags);
    hide OutputRun, AllOk, HasFlags, HasSources, OneInterval, StillRun, Unfiltered, Eq;
    assert ws[m + 1].device != Unfiltered(ws[0].device, cs, m + 1)
        || ws[m + 2].device != Unfiltered(ws[0].device, cs, m + 2);
  }

  /** The same for the statuses read on any run of the PLC. */
  lemma PlcOutputIdenticalExactly(r: Run, at: seq<nat>, flags: seq<bool>, ttl: Option<nat>, sources: seq<Values>)
    requires ValidRun(r) && ReadsActive(r, at, flags)
    requires |sources| == |flags| && SameNodes(sources)
    ensures AlwaysIdentical(ttl, sources, flags) <==> ttl.None? || !HasFlip(sources, flags)
  {
    hide ValidRun;
    PlcFlagsAreOneInterval(r, at, flags);
    IdenticalExactly(ttl, sources, flags);
  }

  /** On this run the device holds another value where an unfiltered worker would have put `v`. */
  ghost predicate HoldsAnother(d: nat, v: Variant, ws: seq<World>, cs: seq<Cycle>, i: nat, n: NodeId) {
    && OutputRun(Some(d), ws, cs) && AllOk(cs) && Contiguous(cs) && i <= |cs|
    && n in Unfiltered(ws[0].device, cs, i) && Unfiltered(ws[0].device, cs, i)[n] == v
    && (n in ws[i].device ==> ws[i].device[n] != v)
  }

  /** Two Active cycles, first the other zero and then `v`: the second is not written. */
  lemma ZeroRun(d: nat, v: Variant) returns (ws: seq<World>, cs: seq<Cycle>)
    requires SignedZeroRisk(v)
    ensures OutputRun(Some(d), ws, cs) && AllOk(cs)
    ensures HasFlags(cs, [true, true]) && HasSources(cs, [map[NODE := FlipZeros(v)], map[NODE := v]])
    ensures NODE in ws[2].device && ws[2].device[NODE] == FlipZeros(v) != v
    ensures Unfiltered(ws[0].device, cs, 2)[NODE] == v
  {
    FlipIsEq(v);
    var sources, flags := [map[NODE := FlipZeros(v)], map[NODE := v]], [true, true];
    ws, cs := StillWorlds(d, sources, flags), StillCycles(d, sources, flags);
    StillRunIsRun(d, sources, flags);
    FlipBreaks(d, sources, flags, 0, NODE);
    assert ws[0] == World(map[], 0, map[]);
    assert Unsuppressed(ws[0], sources[0], true) == sources[0];
    assert Unfiltered(ws[0].device, cs, 1) == ws[0].device + cs[0].source;
    assert ws[1].device == ws[0].device + sources[0];
  }

  /** Exactly the values with a zero float and no NaN can be missed on some run. */
  lemma MissedExactly(d: nat, v: Variant)
    ensures (exists ws: seq<World>, cs: seq<Cycle>, i: nat, n: NodeId :: HoldsAnother(d, v, ws, cs, i, n))
            <==> SignedZeroRisk(v)
  {
    if SignedZeroRisk(v) {
      var ws, cs := ZeroRun(d, v);
      assert HoldsAnother(d, v, ws, cs, 2, NODE);
    } else {
      forall ws: seq<World>, cs: seq<Cycle>, i: nat, n: NodeId
        ensures !HoldsAnother(d, v, ws, cs, i, n)
      {
        if HoldsAnother(d, v, ws, cs, i, n) {
          FilterRefines(Some(d), ws, cs, i);
          CloseIsIdentityExactly(v);
        }
      }
    }
  }
}
