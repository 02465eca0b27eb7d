/** The output change filter of `src/io/opcua/cache.rs` over a TTL map whose entries may also be
    evicted at any time. */
module OpcCaches {
  import opened Basics
  import opened Variants

  datatype NodeId = NodeId(text: string)

  type Values = map<NodeId, Variant>

  /** A cached value is live up to and including `expires`. */
  datatype Entry = Entry(value: Variant, expires: nat)

  type Entries = map<NodeId, Entry>

  ghost predicate Submap<K, V>(a: map<K, V>, b: map<K, V>) {
    forall k :: k in a ==> k in b && a[k] == b[k]
  }

  /** `n` may be dropped from the write: some live entry is equal to the value to be written. */
  predicate MaySuppress(entries: Entries, n: NodeId, v: Variant, t0: nat) {
    n in entries && t0 <= entries[n].expires && Eq(entries[n].value, v)
  }

  /** Where an entry present after the filter comes from. */
  predicate Origin(ttl: nat, e0: Entries, t0: nat, kept: Values, n: NodeId, e: Entry, t1: nat) {
    if n in kept then e.value == kept[n] && t0 + ttl <= e.expires <= t1 + ttl
    else n in e0 && e == e0[n]
  }

  /** The loop that drops unchanged values, between the clock readings `t0` and `t1`: a value is
      dropped if, and unless its entry was evicted or expired meanwhile only if, an entry equals it. */
  ghost predicate Retained(e0: Entries, t0: nat, asked: Values, gone: set<NodeId>, kept: Values, t1: nat) {
    && t0 <= t1
    && Submap(kept, asked)
    && (forall n :: n in asked && n !in kept ==> MaySuppress(e0, n, asked[n], t0))
    && (forall n :: n in kept ==> n in gone || !MaySuppress(e0, n, kept[n], t1))
  }

  /** The loop that caches what is kept: every entry is accounted for, and every entry that should
      be there is, unless it was evicted. */
  ghost predicate Cached(ttl: nat, e0: Entries, t0: nat, kept: Values, gone: set<NodeId>, e1: Entries, t1: nat) {
    && t0 <= t1
    && (forall n :: n in e1 ==> Origin(ttl, e0, t0, kept, n, e1[n], t1))
    && (forall n :: n in e0 || n in kept ==> n in e1 || n in gone)
  }

  /** One call of `retain_map_modified` between the clock readings `t0` and `t1`, during which the
      entries of `gone` were evicted. */
  ghost predicate Filtered(ttl: Option<nat>, e0: Entries, t0: nat, asked: Values, gone: set<NodeId>,
                           kept: Values, e1: Entries, t1: nat) {
    match ttl
    case None => kept == asked && e1 == e0 - gone && t0 <= t1
    case Some(d) => Retained(e0, t0, asked, gone, kept, t1) && Cached(d, e0, t0, kept, gone, e1, t1)
  }

  /** Undisturbed, a call is determined: it drops exactly the values equal to a live entry, and
      renews exactly the entries of the others. */
  lemma UndisturbedExactly(ttl: nat, e0: Entries, t: nat, asked: Values, kept: Values, e1: Entries)
    ensures Filtered(Some(ttl), e0, t, asked, {}, kept, e1, t) <==>
            && kept == (map n | n in asked && !MaySuppress(e0, n, asked[n], t) :: asked[n])
            && e1 == e0 + (map n | n in kept :: Entry(kept[n], t + ttl))
  {
    var k0 := map n | n in asked && !MaySuppress(e0, n, asked[n], t) :: asked[n];
    var news := map n | n in kept :: Entry(kept[n], t + ttl);
    if Filtered(Some(ttl), e0, t, asked, {}, kept, e1, t) {
      assert kept == k0;
      forall n | n in e1
        ensures n in e0 + news && e1[n] == (e0 + news)[n]
      {
        assert Origin(ttl, e0, t, kept, n, e1[n], t);
      }
      assert e1.Keys == (e0 + news).Keys;
    }
  }

  /** The `HashMap` of the worker, filtered in place. */
  class ValueMap {
    var m: Values

    constructor ()
      ensures m == map[]
    {
      m := map[];
    }
  }

  /** What happens to a cache without its user: before access `k` the clock moves on by `delay(k)`
      and the entries of `evicts(k)` go. */
  datatype Environment = Environment(delay: nat -> nat, evicts: nat -> set<NodeId>)

  /** The clock after `k` accesses. */
  function TimeAt(env: Environment, k: nat): nat {
    if k == 0 then 0 else TimeAt(env, k - 1) + env.delay(k - 1)
  }

  /** The nodes evicted in the accesses from `a` on and before `b`. */
  function Gone(env: Environment, a: nat, b: nat): set<NodeId>
    requires a <= b
  {
    if a == b then {} else Gone(env, a, b - 1) + env.evicts(b - 1)
  }

  lemma {:induction false} TimePasses(env: Environment, a: nat, b: nat)
    requires a <= b
    ensures TimeAt(env, a) <= TimeAt(env, b)
  {
    if a < b {
      TimePasses(env, a, b - 1);
    }
  }

  lemma {:induction false} GoneInTurn(env: Environment, a: nat, b: nat, c: nat)
    requires a <= b <= c
    ensures Gone(env, a, c) == Gone(env, a, b) + Gone(env, b, c)
  {
    if b < c {
      GoneInTurn(env, a, b, c - 1);
    }
  }

  /** `TtlCache` with the clock it reads. The environment is fixed beforehand and `tick` counts the
      accesses, so that no user of the cache can say on its own that time passed or an entry was
      evicted. */
  class TtlCache {
    const env: Environment
    var entries: Entries
    var tick: nat

    constructor (env: Environment)
      ensures this.env == env && entries == map[] && tick == 0
    {
      this.env := env;
      entries, tick := map[], 0;
    }

    function Now(): nat
      reads this
    {
      TimeAt(env, tick)
    }

    /** Time passes and entries may go. */
    method Elapse()
      modifies this
      ensures tick == old(tick) + 1 && entries == old(entries) - Gone(env, old(tick), tick)
    {
      entries := entries - env.evicts(tick);
      tick := tick + 1;
      assert Gone(env, old(tick), tick) == Gone(env, old(tick), old(tick)) + env.evicts(old(tick));
    }

    method Get(n: NodeId) returns (r: Option<Variant>)
      modifies this
      ensures tick == old(tick) + 1 && entries == old(entries) - Gone(env, old(tick), tick)
      ensures r == if n in entries && Now() <= entries[n].expires then Some(entries[n].value) else None
    {
      Elapse();
      r := if n in entries && Now() <= entries[n].expires then Some(entries[n].value) else None;
    }

    method Insert(n: NodeId, v: Variant, ttl: nat)
      modifies this
      ensures tick == old(tick) + 1
      ensures entries == (old(entries) - Gone(env, old(tick), tick))[n := Entry(v, Now() + ttl)]
    {
      Elapse();
      entries := entries[n := Entry(v, Now() + ttl)];
    }
  }

  class OpcCache {
    const cache: TtlCache
    const ttl: Option<nat>

    constructor (ttl: Option<nat>, env: Environment)
      ensures this.ttl == ttl && fresh(cache) && cache.env == env && cache.entries == map[]
    {
      this.ttl := ttl;
      cache := new TtlCache(env);
    }

    method RetainMapModified(states: ValueMap)
      modifies cache, states
      ensures old(cache.tick) <= cache.tick
      ensures Filtered(ttl, old(cache.entries), old(cache.Now()), old(states.m),
                       Gone(cache.env, old(cache.tick), cache.tick), states.m, cache.entries, cache.Now())
    {
      if ttl == None {
        return;
      }
      ghost var e0, k0, asked := cache.entries, cache.tick, states.m;
      RetainChanged(states);
      ghost var k1 := cache.tick;
      CacheKept(states);
      GoneInTurn(cache.env, k0, k1, cache.tick);
      FilteredInTurn(ttl.value, e0, TimeAt(cache.env, k0), asked, Gone(cache.env, k0, k1), states.m,
                     TimeAt(cache.env, k1), Gone(cache.env, k1, cache.tick), cache.entries, cache.Now());
    }

    /** `states.retain(..)` */
    method RetainChanged(states: ValueMap)
      requires ttl.Some?
      modifies cache, states
      ensures old(cache.tick) <= cache.tick
      ensures cache.entries == old(cache.entries) - Gone(cache.env, old(cache.tick), cache.tick)
      ensures Retained(old(cache.entries), old(cache.Now()), old(states.m),
                       Gone(cache.env, old(cache.tick), cache.tick), states.m, cache.Now())
    {
      ghost var env, k0 := cache.env, cache.tick;
      var rest := states.m.Keys;
      while rest != {}
        invariant rest <= states.m.Keys && Submap(states.m, old(states.m))
        invariant k0 <= cache.tick && old(cache.Now()) <= cache.Now()
        invariant cache.entries == old(cache.entries) - Gone(env, k0, cache.tick)
        invariant forall n :: n in old(states.m) && n !in states.m ==>
                    MaySuppress(old(cache.entries), n, old(states.m)[n], old(cache.Now()))
        invariant forall n :: n in states.m && n !in rest ==>
                    n in Gone(env, k0, cache.tick) || !MaySuppress(old(cache.entries), n, states.m[n], cache.Now())
        decreases rest
      {
        var n :| n in rest;
        ghost var k := cache.tick;
        var cached := cache.Get(n);
        GoneInTurn(env, k0, k, cache.tick);
        TimePasses(env, k, cache.tick);
        if cached.Some? && Eq(cached.value, states.m[n]) {
          states.m := states.m - {n};
        }
        rest := rest - {n};
      }
    }

    /** The loop that caches what is going to be written. */
    method CacheKept(states: ValueMap)
      requires ttl.Some?
      modifies cache
      ensures old(cache.tick) <= cache.tick
      ensures Cached(ttl.value, old(cache.entries), old(cache.Now()), states.m,
                     Gone(cache.env, old(cache.tick), cache.tick), cache.entries, cache.Now())
    {
      ghost var env, e0, k0, t0 := cache.env, cache.entries, cache.tick, cache.Now();
      var rest := states.m.Keys;
      while rest != {}
        invariant rest <= states.m.Keys && k0 <= cache.tick && t0 <= cache.Now()
        invariant forall n :: n in cache.entries ==>
                    if n in states.m && n !in rest then
                      Origin(ttl.value, e0, t0, states.m, n, cache.entries[n], cache.Now())
                    else n in e0 && cache.entries[n] == e0[n]
        invariant forall n :: n in e0 || (n in states.m && n !in rest) ==>
                    n in cache.entries || n in Gone(env, k0, cache.tick)
        decreases rest
      {
        var n :| n in rest;
        ghost var k := cache.tick;
        cache.Insert(n, states.m[n], ttl.value);
        GoneInTurn(env, k0, k, cache.tick);
        TimePasses(env, k, cache.tick);
        rest := rest - {n};
      }
    }
  }

  /** The two loops one after the other. */
  lemma FilteredInTurn(ttl: nat, e0: Entries, t0: nat, asked: Values, gone: set<NodeId>, kept: Values,
                       t1: nat, more: set<NodeId>, e2: Entries, t2: nat)
    requires Retained(e0, t0, asked, gone, kept, t1)
    requires Cached(ttl, e0 - gone, t1, kept, more, e2, t2)
    ensures Filtered(Some(ttl), e0, t0, asked, gone + more, kept, e2, t2)
  {
    forall n | n in e2
      ensures Origin(ttl, e0, t0, kept, n, e2[n], t2)
    {
      assert Origin(ttl, e0 - gone, t1, kept, n, e2[n], t2);
    }
  }
}
