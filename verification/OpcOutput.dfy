/** The OPC-UA output worker, and what its filter guarantees over whole runs. */
module OpcOutput {
  import opened Basics
  import opened Variants
  import opened OpcCaches

  // ---------------------------------------------------------------- one cycle

  /** What one worker and the device hold between two cycles, as long as nobody else writes the nodes
      it maps; several workers are the subject of `OpcShared`. */
  datatype World = World(entries: Entries, now: nat, device: Values)

  /** One cycle: when it began, the mapped values, whether the status was Active, whose entries were
      evicted, what was passed to the write, and whether the write succeeded. */
  datatype Cycle = Cycle(
    start: nat,
    source: Values,
    active: bool,
    gone: set<NodeId>,
    written: Values,
    ok: bool)

  /** The part of a cycle before the write: collection and filter, on the worker's own cache. */
  ghost predicate Prepares(ttl: Option<nat>, entries: Entries, now: nat, c: Cycle, entries': Entries, now': nat) {
    && now <= c.start
    && if c.active then Filtered(ttl, entries, c.start, c.source, c.gone, c.written, entries', now')
       else c.written == c.source && entries' == entries - c.gone && now' == c.start
  }

  /** The write; an empty one is not made, and after a failed one nothing is known of the device. */
  ghost predicate Writes(device: Values, c: Cycle, device': Values) {
    && (c.ok ==> device' == device + c.written)
    && (c.written == map[] ==> c.ok)
  }

  ghost predicate Steps(ttl: Option<nat>, w: World, c: Cycle, w': World) {
    Prepares(ttl, w.entries, w.now, c, w'.entries, w'.now) && Writes(w.device, c, w'.device)
  }

  /** The map the worker collects: later mappings of one node win. */
  function Collected(nodes: seq<NodeId>, values: seq<Variant>): (m: Values)
    requires |nodes| == |values|
    ensures forall n :: n in m <==> n in nodes
  {
    if nodes == [] then map[]
    else Collected(nodes[..|nodes| - 1], values[..|nodes| - 1])[nodes[|nodes| - 1] := values[|nodes| - 1]]
  }

  lemma {:induction false} CollectedLast(nodes: seq<NodeId>, values: seq<Variant>, i: nat)
    requires |nodes| == |values| && i < |nodes|
    requires forall j :: i < j < |nodes| ==> nodes[j] != nodes[i]
    ensures nodes[i] in Collected(nodes, values) && Collected(nodes, values)[nodes[i]] == values[i]
  {
    var k := |nodes| - 1;
    if i < k {
      assert nodes[k] != nodes[i];
      CollectedLast(nodes[..k], values[..k], i);
    }
  }

  /** The server; a write either succeeds as a whole or leaves it in an unknown state. Which of the
      writes succeed is fixed beforehand. */
  class Device {
    const accepts: nat -> bool
    var writes: nat
    var values: Values

    constructor (accepts: nat -> bool)
      ensures this.accepts == accepts && writes == 0
    {
      this.accepts := accepts;
      writes, values := 0, map[];
    }

    method Write(m: Values) returns (ok: bool)
      modifies this
      ensures writes == old(writes) + 1 && ok == accepts(old(writes))
      ensures ok ==> values == old(values) + m
    {
      ok := accepts(writes);
      writes := writes + 1;
      if ok {
        values := values + m;
      } else {
        values := *;
      }
    }
  }

  /** The emitted worker: collect, filter if active, write unless nothing is left. */
  method OutputCycle(nodes: seq<NodeId>, context: seq<Variant>, active: bool, cache: OpcCache, device: Device)
    returns (ghost c: Cycle)
    requires |nodes| == |context|
    modifies cache.cache, device
    ensures c.source == Collected(nodes, context) && c.active == active
    ensures device.writes == old(device.writes) + if c.written == map[] then 0 else 1
    ensures c.ok == (c.written == map[] || device.accepts(old(device.writes)))
    ensures old(cache.cache.tick) <= cache.cache.tick
    ensures c.gone == Gone(cache.cache.env, old(cache.cache.tick), cache.cache.tick)
    ensures Steps(cache.ttl, World(old(cache.cache.entries), old(cache.cache.Now()), old(device.values)), c,
                  World(cache.cache.entries, cache.cache.Now(), device.values))
  {
    ghost var env, k0 := cache.cache.env, cache.cache.tick;
    cache.cache.Elapse(); // the time since the last cycle, up to DateTime::now()
    ghost var k1, e1 := cache.cache.tick, cache.cache.entries;
    TimePasses(env, k0, k1);
    var values := new ValueMap();
    var i := 0;
    while i < |nodes|
      invariant 0 <= i <= |nodes|
      invariant values.m == Collected(nodes[..i], context[..i])
      invariant cache.cache.entries == e1 && cache.cache.tick == k1
      invariant device.values == old(device.values) && device.writes == old(device.writes)
    {
      values.m := values.m[nodes[i] := context[i]];
      i := i + 1;
      assert nodes[..i][..i - 1] == nodes[..i - 1] && context[..i][..i - 1] == context[..i - 1];
    }
    assert nodes[..i] == nodes && context[..i] == context;
    ghost var source := values.m;
    if active {
      cache.RetainMapModified(values);
      FilteredFromMore(cache.ttl, old(cache.cache.entries), Gone(env, k0, k1), TimeAt(env, k1), source,
                       Gone(env, k1, cache.cache.tick), values.m, cache.cache.entries, cache.cache.Now());
    }
    GoneInTurn(env, k0, k1, cache.cache.tick);
    var ok := true;
    if values.m != map[] {
      ok := device.Write(values.m);
    }
    c := Cycle(TimeAt(env, k1), source, active, Gone(env, k0, cache.cache.tick), values.m, ok);
  }

  /** Evictions before the call can be counted as part of it. */
  lemma FilteredFromMore(ttl: Option<nat>, e: Entries, gone: set<NodeId>, t0: nat, asked: Values,
                         more: set<NodeId>, kept: Values, e1: Entries, t1: nat)
    requires Filtered(ttl, e - gone, t0, asked, more, kept, e1, t1)
    ensures Filtered(ttl, e, t0, asked, gone + more, kept, e1, t1)
  {
    if ttl.Some? {
      forall n | n in e1
        ensures Origin(ttl.value, e, t0, kept, n, e1[n], t1)
      {
        assert Origin(ttl.value, e - gone, t0, kept, n, e1[n], t1);
      }
    }
  }

  // ---------------------------------------------------------------- whole runs

  /** A run of the worker: worlds separated by cycles, starting with an empty cache. */
  ghost predicate OutputRun(ttl: Option<nat>, ws: seq<World>, cs: seq<Cycle>) {
    && |ws| == |cs| + 1
    && ws[0].entries == map[]
    && forall i :: 0 <= i < |cs| ==> Steps(ttl, ws[i], cs[i], ws[i + 1])
  }

  ghost predicate AllOk(cs: seq<Cycle>) {
    forall i :: 0 <= i < |cs| ==> cs[i].ok
  }

  /** Active cycles form one interval. */
  predicate Contiguous(cs: seq<Cycle>) {
    forall i, j, k :: 0 <= i <= j <= k < |cs| && cs[i].active && cs[k].active ==> cs[j].active
  }

  /** The device after `i` cycles of a worker that writes every mapped node every cycle. */
  function Unfiltered(device: Values, cs: seq<Cycle>, i: nat): Values
    requires i <= |cs|
  {
    if i == 0 then device else Unfiltered(device, cs, i - 1) + cs[i - 1].source
  }

  /** Every mapped node of the device holds what the unfiltered worker would have put there,
      up to the equality the filter uses. */
  ghost predicate Agrees(device: Values, reference: Values) {
    && device.Keys == reference.Keys
    && forall n :: n in device ==> Close(device[n], reference[n])
  }

  /** Every cached value is the value on the device. */
  ghost predicate Synced(w: World) {
    forall n :: n in w.entries ==> n in w.device && w.device[n] == w.entries[n].value
  }

  lemma SyncedStep(d: nat, w: World, c: Cycle, w': World)
    requires Steps(Some(d), w, c, w') && c.ok && c.active && Synced(w)
    ensures Synced(w')
  {
    forall n | n in w'.entries
      ensures n in w'.device && w'.device[n] == w'.entries[n].value
    {
      assert Origin(d, w.entries, c.start, c.written, n, w'.entries[n], w'.now);
    }
  }

  /** A successful cycle whose filter consulted a synced cache keeps the device in agreement. */
  lemma AgreesStep(ttl: Option<nat>, w: World, c: Cycle, w': World, reference: Values)
    requires Steps(ttl, w, c, w') && c.ok && Agrees(w.device, reference)
    requires c.active && ttl.Some? ==> Synced(w)
    ensures Agrees(w'.device, reference + c.source)
  {
    forall n | n in c.source
      ensures n in w'.device && Close(w'.device[n], c.source[n])
    {
      if n !in c.written {
        assert MaySuppress(w.entries, n, c.source[n], c.start);
      }
    }
    forall n | n in w'.device
      ensures n in reference + c.source && Close(w'.device[n], (reference + c.source)[n])
    {
    }
    assert forall n :: n in (reference + c.source) ==> n in w'.device;
  }

  /** Nothing is cached before the first Active cycle. */
  lemma {:induction false} EmptyBefore(ttl: Option<nat>, ws: seq<World>, cs: seq<Cycle>, i: nat)
    requires OutputRun(ttl, ws, cs) && i <= |cs|
    requires forall j :: 0 <= j < i ==> !cs[j].active
    ensures ws[i].entries == map[]
  {
    if i > 0 {
      EmptyBefore(ttl, ws, cs, i - 1);
      assert Steps(ttl, ws[i - 1], cs[i - 1], ws[i]);
    }
  }

  /** As long as the cache can still be consulted, it agrees with the device. */
  lemma {:induction false} ConsultedIsSynced(d: nat, ws: seq<World>, cs: seq<Cycle>, i: nat, k: nat)
    requires OutputRun(Some(d), ws, cs) && AllOk(cs) && Contiguous(cs)
    requires i <= k < |cs| && cs[k].active
    ensures Synced(ws[i])
    decreases i
  {
    if i > 0 {
      assert Steps(Some(d), ws[i - 1], cs[i - 1], ws[i]);
      if cs[i - 1].active {
        ConsultedIsSynced(d, ws, cs, i - 1, k);
        SyncedStep(d, ws[i - 1], cs[i - 1], ws[i]);
      } else {
        EmptyBefore(Some(d), ws, cs, i);
      }
    }
  }

  /** If every write succeeds and Active is one interval, the filtered worker keeps the device
      where the unfiltered one would, whatever expires or is evicted. */
  lemma {:induction false} FilterRefines(ttl: Option<nat>, ws: seq<World>, cs: seq<Cycle>, i: nat)
    requires OutputRun(ttl, ws, cs) && AllOk(cs) && Contiguous(cs) && i <= |cs|
    ensures Agrees(ws[i].device, Unfiltered(ws[0].device, cs, i))
  {
    hide Steps, Synced, Contiguous;
    if i > 0 {
      FilterRefines(ttl, ws, cs, i - 1);
      assert Steps(ttl, ws[i - 1], cs[i - 1], ws[i]);
      if ttl.Some? && cs[i - 1].active {
        ConsultedIsSynced(ttl.value, ws, cs, i - 1, i - 1);
      }
      AgreesStep(ttl, ws[i - 1], cs[i - 1], ws[i], Unfiltered(ws[0].device, cs, i - 1));
    }
  }

  // ---------------------------------------------------------------- bounded staleness

  /** The cached value of `n` was passed to a write in cycle `j` and not again since, and lives
      for one ttl from then. */
  ghost predicate CachedIn(d: nat, ws: seq<World>, cs: seq<Cycle>, n: NodeId, e: Entry, i: nat, j: nat)
    requires |ws| == |cs| + 1 && i <= |cs|
  {
    && j < i && cs[j].active && n in cs[j].written && cs[j].written[n] == e.value
    && cs[j].start + d <= e.expires <= ws[j + 1].now + d
    && forall m :: j < m < i && cs[m].active ==> n !in cs[m].written
  }

  lemma {:induction false} EntryHasOrigin(d: nat, ws: seq<World>, cs: seq<Cycle>, n: NodeId, i: nat) returns (j: nat)
    requires OutputRun(Some(d), ws, cs) && i <= |cs| && n in ws[i].entries
    ensures CachedIn(d, ws, cs, n, ws[i].entries[n], i, j)
  {
    hide MaySuppress, Submap;
    assert Steps(Some(d), ws[i - 1], cs[i - 1], ws[i]);
    if cs[i - 1].active && n in cs[i - 1].written {
      assert Origin(d, ws[i - 1].entries, cs[i - 1].start, cs[i - 1].written, n, ws[i].entries[n], ws[i].now);
      j := i - 1;
    } else {
      var w, c := ws[i - 1], cs[i - 1];
      assert c.active ==> Origin(d, w.entries, c.start, c.written, n, ws[i].entries[n], ws[i].now);
      j := EntryHasOrigin(d, ws, cs, n, i - 1);
    }
  }

  /** On any run, also with failed writes: a value is suppressed only if an equal one was passed
      to a write for that node within the last ttl, and nothing was written for it in an Active cycle
      since; if Active is one interval, nothing at all. */
  lemma SuppressedOnlyWithinTtl(d: nat, ws: seq<World>, cs: seq<Cycle>, n: NodeId, i: nat) returns (j: nat)
    requires OutputRun(Some(d), ws, cs) && i < |cs|
    requires n in cs[i].source && n !in cs[i].written
    ensures j < i && cs[j].active && n in cs[j].written && Eq(cs[j].written[n], cs[i].source[n])
    ensures cs[i].start <= ws[j + 1].now + d
    ensures forall m :: j < m < i && cs[m].active ==> n !in cs[m].written
    ensures Contiguous(cs) ==> forall m :: j < m <= i ==> n !in cs[m].written
  {
    assert Steps(Some(d), ws[i], cs[i], ws[i + 1]);
    assert MaySuppress(ws[i].entries, n, cs[i].source[n], cs[i].start);
    j := EntryHasOrigin(d, ws, cs, n, i);
  }

  /** An entry that is neither replaced nor evicted stays. */
  lemma {:induction false} EntryStays(d: nat, ws: seq<World>, cs: seq<Cycle>, n: NodeId, j: nat, i: nat)
    requires OutputRun(Some(d), ws, cs) && j < i <= |cs| && cs[j].active && n in cs[j].written
    requires forall m :: j <= m < i ==> n !in cs[m].gone
    requires forall m :: j < m < i && cs[m].active ==> n !in cs[m].written
    ensures n in ws[i].entries && ws[i].entries[n].value == cs[j].written[n]
    ensures cs[j].start + d <= ws[i].entries[n].expires
  {
    var w, c, w' := ws[i - 1], cs[i - 1], ws[i];
    assert Steps(Some(d), w, c, w');
    if i - 1 > j {
      EntryStays(d, ws, cs, n, j, i - 1);
    }
    assert n in w'.entries;
    assert c.active ==> Origin(d, w.entries, c.start, c.written, n, w'.entries[n], w'.now);
  }

  /** And the other way round: within the ttl of a write an equal value is suppressed, unless the
      entry was evicted. */
  lemma SuppressedThroughoutTtl(d: nat, ws: seq<World>, cs: seq<Cycle>, n: NodeId, j: nat, i: nat)
    requires OutputRun(Some(d), ws, cs) && j < i < |cs|
    requires cs[j].active && n in cs[j].written
    requires cs[i].active && n in cs[i].source && Eq(cs[j].written[n], cs[i].source[n])
    requires forall m :: j < m < i && cs[m].active ==> n !in cs[m].written
    requires forall m :: j <= m <= i ==> n !in cs[m].gone
    requires ws[i + 1].now <= cs[j].start + d
    ensures n !in cs[i].written
  {
    EntryStays(d, ws, cs, n, j, i);
    assert Steps(Some(d), ws[i], cs[i], ws[i + 1]);
    assert n in cs[i].written ==> !MaySuppress(ws[i].entries, n, cs[i].written[n], ws[i + 1].now);
  }

  /** A lost write is retried in the first Active cycle after the ttl at the latest. */
  lemma RetriedAfterTtl(d: nat, ws: seq<World>, cs: seq<Cycle>, n: NodeId, i: nat, j: nat)
    requires OutputRun(Some(d), ws, cs) && j < i < |cs| && n in cs[i].source
    requires forall m :: j < m < i && cs[m].active ==> n !in cs[m].written
    requires ws[j + 1].now + d < cs[i].start
    ensures n in cs[i].written
  {
    if n !in cs[i].written {
      var m := SuppressedOnlyWithinTtl(d, ws, cs, n, i);
      TimeMonotone(d, ws, cs, m + 1, j + 1);
    }
  }

  lemma {:induction false} TimeMonotone(d: nat, ws: seq<World>, cs: seq<Cycle>, i: nat, j: nat)
    requires OutputRun(Some(d), ws, cs) && i <= j <= |cs|
    ensures ws[i].now <= ws[j].now
    decreases j
  {
    if i < j {
      TimeMonotone(d, ws, cs, i, j - 1);
      assert Steps(Some(d), ws[j - 1], cs[j - 1], ws[j]);
    }
  }

  // ---------------------------------------------------------------- recovery

  /** No entry lives longer than one ttl from now. */
  lemma {:induction false} EntriesExpire(d: nat, ws: seq<World>, cs: seq<Cycle>, i: nat, n: NodeId)
    requires OutputRun(Some(d), ws, cs) && i <= |cs| && n in ws[i].entries
    ensures ws[i].entries[n].expires <= ws[i].now + d
  {
    var w, c, w' := ws[i - 1], cs[i - 1], ws[i];
    assert Steps(Some(d), w, c, w');
    assert c.active ==> Origin(d, w.entries, c.start, c.written, n, w'.entries[n], w'.now);
    if !(c.active && n in c.written) {
      EntriesExpire(d, ws, cs, i - 1, n);
    }
  }

  /** Every entry expires by `bound` or is the value on the device. */
  ghost predicate SyncedAfter(w: World, bound: int) {
    forall n :: n in w.entries ==>
      w.entries[n].expires <= bound || (n in w.device && w.device[n] == w.entries[n].value)
  }

  lemma SyncedAfterStep(d: nat, w: World, c: Cycle, w': World, bound: int)
    requires Steps(Some(d), w, c, w') && c.ok && c.active && SyncedAfter(w, bound)
    ensures SyncedAfter(w', bound)
  {
    forall n | n in w'.entries
      ensures w'.entries[n].expires <= bound || (n in w'.device && w'.device[n] == w'.entries[n].value)
    {
      assert Origin(d, w.entries, c.start, c.written, n, w'.entries[n], w'.now);
    }
  }

  /** From a cycle on whose writes succeed, new entries agree with the device as long as they can
      still be consulted. */
  lemma {:induction false} ConsultedAfter(d: nat, ws: seq<World>, cs: seq<Cycle>, i: nat, m: nat, q: nat, bound: int)
    requires OutputRun(Some(d), ws, cs) && Contiguous(cs) && i <= m <= q < |cs| && cs[q].active
    requires forall x :: i <= x < q ==> cs[x].ok
    requires SyncedAfter(ws[i], bound)
    ensures SyncedAfter(ws[m], bound)
    decreases m
  {
    if i < m {
      assert Steps(Some(d), ws[m - 1], cs[m - 1], ws[m]);
      if cs[m - 1].active {
        ConsultedAfter(d, ws, cs, i, m - 1, q, bound);
        SyncedAfterStep(d, ws[m - 1], cs[m - 1], ws[m], bound);
      } else {
        EmptyBefore(Some(d), ws, cs, m);
      }
    }
  }

  /** Failed writes are made good: if all writes from cycle `i` on succeed, then after a later cycle
      that is not Active, or begins more than one ttl later, the mapped nodes agree with the
      unfiltered worker from there on, whatever failed before. */
  lemma RecoversAfterTtl(d: nat, ws: seq<World>, cs: seq<Cycle>, i: nat, k: nat, p: nat)
    requires OutputRun(Some(d), ws, cs) && Contiguous(cs) && i <= k < p <= |cs|
    requires forall x :: i <= x < p ==> cs[x].ok
    requires cs[k].active ==> ws[i].now + d < cs[k].start
    ensures forall n :: n in cs[p - 1].source ==>
              && n in ws[p].device && n in Unfiltered(ws[0].device, cs, p)
              && Close(ws[p].device[n], Unfiltered(ws[0].device, cs, p)[n])
  {
    var q := p - 1;
    assert Steps(Some(d), ws[q], cs[q], ws[p]);
    forall n | n in cs[q].source
      ensures n in ws[p].device && Close(ws[p].device[n], cs[q].source[n])
    {
      if n !in cs[q].written {
        assert MaySuppress(ws[q].entries, n, cs[q].source[n], cs[q].start);
        if cs[k].active {
          AgedOut(d, ws, cs, i, k, q, n);
        } else {
          EmptyBefore(Some(d), ws, cs, k + 1);
          ConsultedAfter(d, ws, cs, k + 1, q, q, -1);
        }
      }
    }
  }

  /** What is still live after one ttl was cached after cycle `i`. */
  lemma AgedOut(d: nat, ws: seq<World>, cs: seq<Cycle>, i: nat, k: nat, q: nat, n: NodeId)
    requires OutputRun(Some(d), ws, cs) && Contiguous(cs) && i <= k <= q < |cs| && cs[q].active
    requires forall x :: i <= x < q ==> cs[x].ok
    requires ws[i].now + d < cs[k].start
    requires n in ws[q].entries && cs[q].start <= ws[q].entries[n].expires
    ensures n in ws[q].device && ws[q].device[n] == ws[q].entries[n].value
  {
    forall x | x in ws[i].entries
      ensures ws[i].entries[x].expires <= ws[i].now + d
    {
      EntriesExpire(d, ws, cs, i, x);
    }
    ConsultedAfter(d, ws, cs, i, q, q, ws[i].now + d);
    assert Steps(Some(d), ws[k], cs[k], ws[k + 1]);
    assert Steps(Some(d), ws[q], cs[q], ws[q + 1]);
    if k < q {
      TimeMonotone(d, ws, cs, k + 1, q);
    }
  }
}
