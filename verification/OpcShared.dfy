/** Several OPC-UA outputs on one server, each with its own thread and cache. A cycle of one may run
    between the filter and the write of another. */
module OpcShared {
  import opened Basics
  import opened Controller
  import opened Lifecycle
  import opened LifecycleTheorems
  import opened Variants
  import opened OpcCaches
  import opened OpcOutput
  import opened OpcTransparency

  /** What the configuration says of one output: its ttl and the nodes it maps. */
  datatype OutputConfig = OutputConfig(ttl: Option<nat>, nodes: set<NodeId>)

  /** The cache of one output, when it last used it, and the cycle it has begun and not yet written.
      Filters of different outputs may overlap in time. */
  datatype Worker = Worker(entries: Entries, now: nat, begun: Option<Cycle>)

  const COLD: Worker := Worker(map[], 0, None)

  datatype Plant = Plant(workers: seq<Worker>, device: Values)

  /** An output collects and filters, or makes its write. */
  datatype Turn = Collect(who: nat, c: Cycle) | Commit(who: nat)

  ghost predicate WorkerMoves(out: OutputConfig, s: Plant, w: Worker, t: Turn, s': Plant, w': Worker) {
    match t
    case Collect(_, c) =>
      && w.begun == None && w'.begun == Some(c) && c.source.Keys == out.nodes
      && Prepares(out.ttl, w.entries, w.now, c, w'.entries, w'.now)
      && s'.device == s.device
    case Commit(_) =>
      && w.begun.Some? && w' == w.(begun := None)
      && Writes(s.device, w.begun.value, s'.device)
  }

  ghost predicate Moves(outs: seq<OutputConfig>, s: Plant, t: Turn, s': Plant) {
    && |s.workers| == |s'.workers| == |outs| && t.who < |outs|
    && (forall k :: 0 <= k < |outs| && k != t.who ==> s'.workers[k] == s.workers[k])
    && WorkerMoves(outs[t.who], s, s.workers[t.who], t, s', s'.workers[t.who])
  }

  /** A run: states separated by turns, starting with empty caches. */
  ghost predicate SharedRun(outs: seq<OutputConfig>, ss: seq<Plant>, ts: seq<Turn>) {
    && |ss| == |ts| + 1
    && |ss[0].workers| == |outs|
    && (forall k :: 0 <= k < |outs| ==> ss[0].workers[k] == COLD)
    && (forall i :: 0 <= i < |ts| ==> Moves(outs, ss[i], ts[i], ss[i + 1]))
  }

  ghost predicate TurnsOk(ts: seq<Turn>) {
    forall i :: 0 <= i < |ts| && ts[i].Collect? ==> ts[i].c.ok
  }

  predicate ActiveTurn(t: Turn, k: nat) {
    t.Collect? && t.who == k && t.c.active
  }

  /** The Active cycles of each output form one interval among its own. */
  ghost predicate TurnsContiguous(ts: seq<Turn>) {
    forall i, j, k ::
      0 <= i <= j <= k < |ts| && ts[j].Collect? && ActiveTurn(ts[i], ts[j].who) && ActiveTurn(ts[k], ts[j].who) ==>
        ts[j].c.active
  }

  /** What an unfiltered worker writes in this turn. */
  function Unsparing(s: Plant, t: Turn): Values {
    if t.Commit? && t.who < |s.workers| && s.workers[t.who].begun.Some? then s.workers[t.who].begun.value.source
    else map[]
  }

  /** The device after `i` turns if every output wrote all its nodes in each of its cycles. */
  function UnfilteredTurns(ss: seq<Plant>, ts: seq<Turn>, i: nat): Values
    requires i <= |ts| < |ss|
  {
    if i == 0 then ss[0].device else UnfilteredTurns(ss, ts, i - 1) + Unsparing(ss[i - 1], ts[i - 1])
  }

  /** Output `a` has a ttl and output `b` writes behind its back. */
  predicate Clashes(outs: seq<OutputConfig>, a: nat, b: nat, n: NodeId) {
    a < |outs| && b < |outs| && a != b && outs[a].ttl.Some? && n in outs[a].nodes && n in outs[b].nodes
  }

  ghost predicate HasClash(outs: seq<OutputConfig>) {
    exists a: nat, b: nat, n: NodeId :: Clashes(outs, a, b, n)
  }

  // ---------------------------------------------------------------- one worker

  /** Every entry is the value on the device, or the one the begun cycle is going to write. */
  ghost predicate Held(nodes: set<NodeId>, w: Worker, device: Values) {
    forall n :: n in w.entries ==>
      && n in nodes
      && if w.begun.Some? && n in w.begun.value.written then w.entries[n].value == w.begun.value.written[n]
         else n in device && device[n] == w.entries[n].value
  }

  /** What the begun cycle leaves out is on the device. */
  ghost predicate Spared(out: OutputConfig, w: Worker, device: Values) {
    w.begun.Some? ==>
      var c := w.begun.value;
      && c.ok && c.source.Keys == out.nodes && Submap(c.written, c.source)
      && (out.ttl == None ==> c.written == c.source)
      && forall n :: n in c.source && n !in c.written ==> n in device && Close(device[n], c.source[n])
  }

  lemma CollectHolds(d: nat, nodes: set<NodeId>, w: Worker, c: Cycle, w': Worker, device: Values)
    requires Prepares(Some(d), w.entries, w.now, c, w'.entries, w'.now) && c.active && c.source.Keys == nodes
    requires w.begun == None && w'.begun == Some(c) && Held(nodes, w, device)
    ensures Held(nodes, w', device)
  {
    forall n | n in w'.entries
      ensures n in nodes
      ensures if n in c.written then w'.entries[n].value == c.written[n]
              else n in device && device[n] == w'.entries[n].value
    {
      assert Origin(d, w.entries, c.start, c.written, n, w'.entries[n], w'.now);
    }
  }

  lemma CommitHolds(nodes: set<NodeId>, w: Worker, device: Values)
    requires w.begun.Some? && Held(nodes, w, device)
    ensures Held(nodes, w.(begun := None), device + w.begun.value.written)
  {
  }

  lemma OtherHolds(nodes: set<NodeId>, w: Worker, device: Values, m: Values)
    requires Held(nodes, w, device) && m.Keys !! nodes
    ensures Held(nodes, w, device + m)
  {
  }

  lemma CollectSpares(out: OutputConfig, w: Worker, c: Cycle, w': Worker, device: Values)
    requires Prepares(out.ttl, w.entries, w.now, c, w'.entries, w'.now) && c.ok && c.source.Keys == out.nodes
    requires w.begun == None && w'.begun == Some(c)
    requires out.ttl.Some? && c.active ==> Held(out.nodes, w, device)
    ensures Spared(out, w', device)
  {
    forall n | n in c.source && n !in c.written
      ensures n in device && Close(device[n], c.source[n])
    {
      assert MaySuppress(w.entries, n, c.source[n], c.start);
    }
  }

  lemma OtherSpares(out: OutputConfig, w: Worker, device: Values, m: Values)
    requires Spared(out, w, device) && (out.ttl.Some? ==> m.Keys !! out.nodes)
    ensures Spared(out, w, device + m)
  {
  }

  // ---------------------------------------------------------------- all interleavings

  /** Before its first Active cycle an output has nothing cached. */
  lemma {:induction false} ColdBefore(outs: seq<OutputConfig>, ss: seq<Plant>, ts: seq<Turn>, i: nat, k: nat)
    requires SharedRun(outs, ss, ts) && i <= |ts| && k < |outs|
    requires forall j :: 0 <= j < i ==> !ActiveTurn(ts[j], k)
    ensures k < |ss[i].workers| && ss[i].workers[k].entries == map[]
  {
    if i > 0 {
      ColdBefore(outs, ss, ts, i - 1, k);
      assert Moves(outs, ss[i - 1], ts[i - 1], ss[i]);
    }
  }

  /** What a turn writes stays among the nodes of its output. */
  lemma {:induction false} BegunIsOwn(outs: seq<OutputConfig>, ss: seq<Plant>, ts: seq<Turn>, i: nat, k: nat)
    requires SharedRun(outs, ss, ts) && TurnsOk(ts) && i <= |ts| && k < |outs|
    ensures |ss[i].workers| == |outs|
    ensures ss[i].workers[k].begun.Some? ==>
              var c := ss[i].workers[k].begun.value;
              c.ok && c.source.Keys == outs[k].nodes && c.written.Keys <= outs[k].nodes
  {
    if i > 0 {
      BegunIsOwn(outs, ss, ts, i - 1, k);
      assert Moves(outs, ss[i - 1], ts[i - 1], ss[i]);
      hide Filtered;
      if ts[i - 1].Collect? && ts[i - 1].who == k {
        WrittenIsAsked(outs[k].ttl, ss[i - 1].workers[k].entries, ss[i - 1].workers[k].now, ts[i - 1].c,
                       ss[i].workers[k].entries, ss[i].workers[k].now);
      }
    }
  }

  lemma WrittenIsAsked(ttl: Option<nat>, e: Entries, now: nat, c: Cycle, e': Entries, now': nat)
    requires Prepares(ttl, e, now, c, e', now')
    ensures c.written.Keys <= c.source.Keys
  {
  }

  lemma ApartWithoutClash(outs: seq<OutputConfig>, a: nat, b: nat)
    requires !HasClash(outs) && a < |outs| && b < |outs| && a != b && outs[a].ttl.Some?
    ensures outs[a].nodes !! outs[b].nodes
  {
    forall n | n in outs[a].nodes
      ensures n !in outs[b].nodes
    {
      assert !Clashes(outs, a, b, n);
    }
  }

  /** As long as output `k` can still consult its cache, the cache agrees with the device. */
  lemma {:induction false} ConsultedIsHeld(outs: seq<OutputConfig>, ss: seq<Plant>, ts: seq<Turn>,
                                           i: nat, k: nat, m: nat)
    requires SharedRun(outs, ss, ts) && TurnsOk(ts) && TurnsContiguous(ts) && !HasClash(outs)
    requires k < |outs| && outs[k].ttl.Some? && i <= m < |ts| && ActiveTurn(ts[m], k)
    ensures |ss[i].workers| == |outs| && Held(outs[k].nodes, ss[i].workers[k], ss[i].device)
  {
    hide Prepares, HasClash, Held;
    if i == 0 {
      NothingHeld(outs[k].nodes, ss[0].workers[k], ss[0].device);
    } else {
      ConsultedIsHeld(outs, ss, ts, i - 1, k, m);
      var s, t, s' := ss[i - 1], ts[i - 1], ss[i];
      assert Moves(outs, s, t, s');
      BegunIsOwn(outs, ss, ts, i - 1, t.who);
      if t.who != k {
        if t.Commit? {
          ApartWithoutClash(outs, k, t.who);
          OtherHolds(outs[k].nodes, s.workers[k], s.device, s.workers[t.who].begun.value.written);
        }
      } else if t.Commit? {
        CommitHolds(outs[k].nodes, s.workers[k], s.device);
      } else if t.c.active {
        CollectHolds(outs[k].ttl.value, outs[k].nodes, s.workers[k], t.c, s'.workers[k], s.device);
      } else {
        ColdBefore(outs, ss, ts, i, k);
        NothingHeld(outs[k].nodes, s'.workers[k], s'.device);
      }
    }
  }

  lemma NothingHeld(nodes: set<NodeId>, w: Worker, device: Values)
    requires w.entries == map[]
    ensures Held(nodes, w, device)
  {
  }

  lemma CommitAgrees(out: OutputConfig, w: Worker, device: Values, reference: Values)
    requires w.begun.Some? && Spared(out, w, device) && Agrees(device, reference)
    ensures Agrees(device + w.begun.value.written, reference + w.begun.value.source)
  {
    var c := w.begun.value;
    var device', reference' := device + c.written, reference + c.source;
    forall n | n in device'
      ensures n in reference' && Close(device'[n], reference'[n])
    {
    }
    assert forall n :: n in reference' ==> n in device';
  }

  /** Without a clash the outputs together agree with unfiltered ones, however they interleave. */
  lemma {:induction false} SharedAgrees(outs: seq<OutputConfig>, ss: seq<Plant>, ts: seq<Turn>, i: nat)
    requires SharedRun(outs, ss, ts) && TurnsOk(ts) && TurnsContiguous(ts) && !HasClash(outs) && i <= |ts|
    ensures Agrees(ss[i].device, UnfilteredTurns(ss, ts, i))
    ensures |ss[i].workers| == |outs|
    ensures forall k :: 0 <= k < |outs| ==> Spared(outs[k], ss[i].workers[k], ss[i].device)
  {
    hide Prepares, HasClash, Held, Spared, Agrees, TurnsContiguous;
    if i == 0 {
      AgreesWithItself(ss[0].device);
      forall k | 0 <= k < |outs|
        ensures Spared(outs[k], ss[0].workers[k], ss[0].device)
      {
        IdleSpares(outs[k], ss[0].workers[k], ss[0].device);
      }
    } else {
      SharedAgrees(outs, ss, ts, i - 1);
      var s, t, s' := ss[i - 1], ts[i - 1], ss[i];
      assert Moves(outs, s, t, s');
      TurnAgrees(outs, ss, ts, i - 1);
      forall k | 0 <= k < |outs|
        ensures Spared(outs[k], s'.workers[k], s'.device)
      {
        TurnSpares(outs, ss, ts, i - 1, k);
      }
    }
  }

  lemma AgreesWithItself(device: Values)
    ensures Agrees(device, device)
  {
  }

  lemma IdleSpares(out: OutputConfig, w: Worker, device: Values)
    requires w.begun == None
    ensures Spared(out, w, device)
  {
  }

  lemma TurnAgrees(outs: seq<OutputConfig>, ss: seq<Plant>, ts: seq<Turn>, i: nat)
    requires SharedRun(outs, ss, ts) && i < |ts| && Moves(outs, ss[i], ts[i], ss[i + 1])
    requires Agrees(ss[i].device, UnfilteredTurns(ss, ts, i))
    requires Spared(outs[ts[i].who], ss[i].workers[ts[i].who], ss[i].device)
    ensures Agrees(ss[i + 1].device, UnfilteredTurns(ss, ts, i + 1))
  {
    hide Prepares, Agrees, Submap;
    var s, t := ss[i], ts[i];
    if t.Commit? {
      CommitAgrees(outs[t.who], s.workers[t.who], s.device, UnfilteredTurns(ss, ts, i));
    } else {
      assert UnfilteredTurns(ss, ts, i) + map[] == UnfilteredTurns(ss, ts, i);
    }
  }

  lemma TurnSpares(outs: seq<OutputConfig>, ss: seq<Plant>, ts: seq<Turn>, i: nat, k: nat)
    requires SharedRun(outs, ss, ts) && TurnsOk(ts) && TurnsContiguous(ts) && !HasClash(outs)
    requires i < |ts| && k < |outs| && Moves(outs, ss[i], ts[i], ss[i + 1])
    requires Spared(outs[k], ss[i].workers[k], ss[i].device)
    ensures Spared(outs[k], ss[i + 1].workers[k], ss[i + 1].device)
  {
    var s, t, s' := ss[i], ts[i], ss[i + 1];
    BegunIsOwn(outs, ss, ts, i, t.who);
    hide Prepares, Held, Spared, HasClash, TurnsContiguous, SharedRun;
    if t.who != k {
      if t.Commit? {
        if outs[k].ttl.Some? {
          ApartWithoutClash(outs, k, t.who);
        }
        OtherSpares(outs[k], s.workers[k], s.device, s.workers[t.who].begun.value.written);
      }
    } else if t.Commit? {
      IdleSpares(outs[k], s'.workers[k], s'.device);
    } else {
      if outs[k].ttl.Some? && t.c.active {
        ConsultedIsHeld(outs, ss, ts, i, k, i);
      }
      CollectSpares(outs[k], s.workers[k], t.c, s'.workers[k], s.device);
    }
  }

  // ---------------------------------------------------------------- two outputs and one node

  function Constant(nodes: set<NodeId>, v: Variant): (m: Values)
    ensures m.Keys == nodes
  {
    map n | n in nodes :: v
  }

  lemma ConstantAt(nodes: set<NodeId>, v: Variant, n: NodeId)
    requires n in nodes
    ensures n in Constant(nodes, v) && Constant(nodes, v)[n] == v
  {
  }

  function StillEntries(out: OutputConfig, v: Variant): Entries {
    match out.ttl
    case None => map[]
    case Some(d) => map n | n in out.nodes :: Entry(v, d)
  }

  /** An undisturbed first cycle writes everything. */
  lemma FirstCycle(out: OutputConfig, v: Variant, c: Cycle)
    requires c == Cycle(0, Constant(out.nodes, v), true, {}, Constant(out.nodes, v), true)
    ensures Prepares(out.ttl, map[], 0, c, StillEntries(out, v), 0)
  {
    if out.ttl.Some? {
      UndisturbedExactly(out.ttl.value, map[], 0, c.source, c.written, StillEntries(out, v));
    }
  }

  /** The next one writes nothing if the values have not changed. */
  lemma SecondCycle(out: OutputConfig, v: Variant, c: Cycle)
    requires out.ttl.Some? && Eq(v, v)
    requires c == Cycle(0, Constant(out.nodes, v), true, {}, map[], true)
    ensures Prepares(out.ttl, StillEntries(out, v), 0, c, StillEntries(out, v), 0)
  {
    var e := StillEntries(out, v);
    UndisturbedExactly(out.ttl.value, e, 0, c.source, c.written, e);
  }

  function Collected(s: Plant, who: nat, c: Cycle, e: Entries): (s': Plant)
    requires who < |s.workers|
    ensures |s'.workers| == |s.workers| && s'.workers[who].begun == Some(c)
  {
    s.(workers := s.workers[who := Worker(e, 0, Some(c))])
  }

  function Committed(s: Plant, who: nat): Plant
    requires who < |s.workers| && s.workers[who].begun.Some?
  {
    var w := s.workers[who];
    s.(workers := s.workers[who := w.(begun := None)], device := s.device + w.begun.value.written)
  }

  /** A whole undisturbed cycle of one output. */
  lemma StillTurns(outs: seq<OutputConfig>, s: Plant, who: nat, c: Cycle, e: Entries)
    requires who < |outs| == |s.workers| && s.workers[who].begun == None && s.workers[who].now == 0
    requires c.ok && c.source.Keys == outs[who].nodes
    requires Prepares(outs[who].ttl, s.workers[who].entries, 0, c, e, 0)
    ensures Moves(outs, s, Collect(who, c), Collected(s, who, c, e))
    ensures Moves(outs, Collected(s, who, c, e), Commit(who), Committed(Collected(s, who, c, e), who))
    ensures var s' := Committed(Collected(s, who, c, e), who);
            && s' == Plant(s.workers[who := Worker(e, 0, None)], s.device + c.written)
            && Unsparing(Collected(s, who, c, e), Commit(who)) == c.source
  {
    hide Prepares;
  }

  /** Three undisturbed cycles in a row. */
  lemma StillThree(outs: seq<OutputConfig>, s: Plant, a: nat, c0: Cycle, e0: Entries,
                   b: nat, c1: Cycle, e1: Entries, c2: Cycle, e2: Entries) returns (ss: seq<Plant>, ts: seq<Turn>)
    requires a < |outs| == |s.workers| && b < |outs| && a != b
    requires s == Plant(seq(|outs|, k => COLD), map[])
    requires c0.ok && c0.source.Keys == outs[a].nodes && Prepares(outs[a].ttl, map[], 0, c0, e0, 0)
    requires c1.ok && c1.source.Keys == outs[b].nodes && Prepares(outs[b].ttl, map[], 0, c1, e1, 0)
    requires c2.ok && c2.source.Keys == outs[a].nodes && Prepares(outs[a].ttl, e0, 0, c2, e2, 0)
    ensures SharedRun(outs, ss, ts)
    ensures |ts| == 6 && forall i :: 0 <= i < 6 && ts[i].Collect? ==> ts[i].c in {c0, c1, c2}
    ensures ss[6].device == map[] + c0.written + c1.written + c2.written
    ensures UnfilteredTurns(ss, ts, 6) == map[] + c0.source + c1.source + c2.source
  {
    hide Prepares, Moves, Collected, Committed, Unsparing;
    StillTurns(outs, s, a, c0, e0);
    var s1 := Collected(s, a, c0, e0);
    var s2 := Committed(s1, a);
    StillTurns(outs, s2, b, c1, e1);
    var s3 := Collected(s2, b, c1, e1);
    var s4 := Committed(s3, b);
    StillTurns(outs, s4, a, c2, e2);
    var s5 := Collected(s4, a, c2, e2);
    ss := [s, s1, s2, s3, s4, s5, Committed(s5, a)];
    ts := [Collect(a, c0), Commit(a), Collect(b, c1), Commit(b), Collect(a, c2), Commit(a)];
    CollectSparesAll(s, a, c0);
    CollectSparesAll(s2, b, c1);
    CollectSparesAll(s4, a, c2);
    UnfilteredSix(ss, ts);
  }

  lemma CollectSparesAll(s: Plant, who: nat, c: Cycle)
    ensures Unsparing(s, Collect(who, c)) == map[]
  {
  }

  lemma UnfilteredSix(ss: seq<Plant>, ts: seq<Turn>)
    requires |ts| == 6 && |ss| == 7
    requires Unsparing(ss[0], ts[0]) == Unsparing(ss[2], ts[2]) == Unsparing(ss[4], ts[4]) == map[]
    ensures UnfilteredTurns(ss, ts, 6) ==
            ss[0].device + Unsparing(ss[1], ts[1]) + Unsparing(ss[3], ts[3]) + Unsparing(ss[5], ts[5])
  {
    hide Unsparing;
    assert UnfilteredTurns(ss, ts, 1) == ss[0].device + map[] == ss[0].device;
    assert UnfilteredTurns(ss, ts, 2) == ss[0].device + Unsparing(ss[1], ts[1]);
    assert UnfilteredTurns(ss, ts, 3) == UnfilteredTurns(ss, ts, 2) + map[] == UnfilteredTurns(ss, ts, 2);
    assert UnfilteredTurns(ss, ts, 4) == UnfilteredTurns(ss, ts, 2) + Unsparing(ss[3], ts[3]);
    assert UnfilteredTurns(ss, ts, 5) == UnfilteredTurns(ss, ts, 4) + map[] == UnfilteredTurns(ss, ts, 4);
  }

  lemma AllActive(ts: seq<Turn>)
    requires forall i :: 0 <= i < |ts| && ts[i].Collect? ==> ts[i].c.ok && ts[i].c.active
    ensures TurnsOk(ts) && TurnsContiguous(ts)
  {
  }

  /** Output `a` writes ON, output `b` writes OFF, and `a` suppresses ON: all Active, all writes
      successful, on a clock that stands still and without eviction. */
  lemma ClashRun(outs: seq<OutputConfig>, a: nat, b: nat, n: NodeId) returns (ss: seq<Plant>, ts: seq<Turn>)
    requires Clashes(outs, a, b, n)
    ensures SharedRun(outs, ss, ts) && TurnsOk(ts) && TurnsContiguous(ts)
    ensures |ts| == 6 && forall i :: 0 <= i < 6 && ts[i].Collect? ==> ts[i].c.active
    ensures n in ss[6].device && ss[6].device[n] == OFF
    ensures n in UnfilteredTurns(ss, ts, 6) && UnfilteredTurns(ss, ts, 6)[n] == ON
  {
    assert a != b && n in outs[a].nodes && n in outs[b].nodes && outs[a].ttl.Some?;
    var on, off := Constant(outs[a].nodes, ON), Constant(outs[b].nodes, OFF);
    var c0 := Cycle(0, on, true, {}, on, true);
    var c1 := Cycle(0, off, true, {}, off, true);
    var c2 := Cycle(0, on, true, {}, map[], true);
    var ea, eb := StillEntries(outs[a], ON), StillEntries(outs[b], OFF);
    FirstCycle(outs[a], ON, c0);
    FirstCycle(outs[b], OFF, c1);
    SecondCycle(outs[a], ON, c2);
    hide Prepares, StillEntries, SharedRun, UnfilteredTurns, Constant, Clashes, TurnsOk, TurnsContiguous;
    var s := Plant(seq(|outs|, k => COLD), map[]);
    ss, ts := StillThree(outs, s, a, c0, ea, b, c1, eb, c2, ea);
    ConstantAt(outs[a].nodes, ON, n);
    ConstantAt(outs[b].nodes, OFF, n);
    AllActive(ts);
  }

  // ---------------------------------------------------------------- exactly

  /** On every run with successful writes on which each output's Active cycles are one interval, the
      device agrees throughout with that of outputs without a filter. */
  ghost predicate AlwaysAgreesShared(outs: seq<OutputConfig>) {
    forall ss: seq<Plant>, ts: seq<Turn>, i: nat ::
      SharedRun(outs, ss, ts) && TurnsOk(ts) && TurnsContiguous(ts) && i <= |ts| ==>
        Agrees(ss[i].device, UnfilteredTurns(ss, ts, i))
  }

  /** Several outputs are transparent together, on all interleavings, if and only if no node is
      mapped by two of them of which one has a ttl. */
  lemma SharedAgreesExactly(outs: seq<OutputConfig>)
    ensures AlwaysAgreesShared(outs) <==> !HasClash(outs)
  {
    hide Moves, TurnsOk, TurnsContiguous, Agrees, UnfilteredTurns;
    if HasClash(outs) {
      hide Clashes;
      var a: nat, b: nat, n: NodeId :| Clashes(outs, a, b, n);
      var ss, ts := ClashRun(outs, a, b, n);
      OnIsNotOff(ss[6].device, UnfilteredTurns(ss, ts, 6), n);
    } else {
      hide HasClash;
      forall ss: seq<Plant>, ts: seq<Turn>, i: nat |
        SharedRun(outs, ss, ts) && TurnsOk(ts) && TurnsContiguous(ts) && i <= |ts|
        ensures Agrees(ss[i].device, UnfilteredTurns(ss, ts, i))
      {
        SharedAgrees(outs, ss, ts, i);
      }
    }
  }

  lemma OnIsNotOff(device: Values, reference: Values, n: NodeId)
    requires n in device && device[n] == OFF && n in reference && reference[n] == ON
    ensures !Agrees(device, reference)
  {
    assert !Close(OFF, ON);
  }

  /** On every run of the PLC outputs that do not clash agree: `at` are the states at which the
      turns are taken. */
  lemma {:induction false} PlcOutputsAgree(r: Run, at: seq<nat>, outs: seq<OutputConfig>,
                                           ss: seq<Plant>, ts: seq<Turn>, i: nat)
    requires ValidRun(r) && SharedRun(outs, ss, ts) && TurnsOk(ts) && i <= |ts| == |at|
    requires forall x, y :: 0 <= x <= y < |at| ==> at[x] <= at[y] < |r.states|
    requires forall x :: 0 <= x < |ts| && ts[x].Collect? ==> ts[x].c.active == (r.states[at[x]].status == Active)
    requires !HasClash(outs)
    ensures Agrees(ss[i].device, UnfilteredTurns(ss, ts, i))
  {
    hide ValidRun, SharedRun, TurnsOk, Agrees, UnfilteredTurns, HasClash;
    assert TurnsContiguous(ts) by {
      forall x, y, z | 0 <= x <= y <= z < |ts| && ts[y].Collect?
                       && ActiveTurn(ts[x], ts[y].who) && ActiveTurn(ts[z], ts[y].who)
        ensures ts[y].c.active
      {
        ActiveIsContiguous(r, at[x], at[y], at[z]);
      }
    }
    SharedAgrees(outs, ss, ts, i);
  }
}
