/** Inductive invariants of the life cycle: `Weak` holds on every run, `Strong` until the main
    thread takes the branch for a stop before Active. Both are kept group by group. */
module LifecycleInvariants {
  import opened Basics
  import opened Controller
  import opened Lifecycle

  // ---------------------------------------------------------------- every run

  predicate InMark(pc: Pc) {
    pc == Guard || pc == Insert || pc == StoreFirst || pc == StoreSecond || pc == Leave
  }

  /** The main thread has not stored Syncing yet, so no loop has passed its gate. */
  predicate BeforeSyncing(m: MainPc) {
    m == Boot || m == StoreStarting || m == Launch || m == StoreSyncing
  }

  predicate BeforePolling(m: MainPc) {
    BeforeSyncing(m) || m == CheckPreparing || m == StorePreparing || m == CheckActive || m == StoreActive
  }

  predicate WeakThread(kind: Kind, n: Name, t: Thread, up: bool, lock: Owner, before: bool) {
    && (InMark(t.pc) <==> lock == Held(kind, n))
    && (t.pc == Insert ==> !up)
    && (t.pc == StoreFirst || t.pc == StoreSecond ==> up)
    && (t.pc == StoreSecond ==> kind == Input)
    && (before ==> t.pc == Gate && !t.marked)
  }

  predicate WeakGroup(kind: Kind, g: Group, lock: Owner, before: bool) {
    && g.entries.Keys == g.threads.Keys
    && (g.up <==> AllTrue(g.entries))
    && (before && g.up ==> g.entries == map[])
    && (lock.Held? && lock.kind == kind ==> lock.name in g.threads)
    && forall n :: n in g.threads ==> WeakThread(kind, n, g.threads[n], g.up, lock, before)
  }

  /** The lock holder of this kind is about to store a status. */
  predicate Pending(kind: Kind, g: Group, lock: Owner) {
    && lock.Held? && lock.kind == kind && lock.name in g.threads
    && (g.threads[lock.name].pc == StoreFirst || g.threads[lock.name].pc == StoreSecond)
  }

  /** No store of Active can come any more: the one that was due has been made. */
  predicate Spent(s: State) {
    if s.program.entries != map[] then s.program.up && !Pending(Program, s.program, s.lock)
    else if s.input.entries != map[] then s.input.up && !Pending(Input, s.input, s.lock)
    else !BeforePolling(s.main)
  }

  predicate WeakMain(s: State) {
    && (s.lock == HeldByMain <==> s.main == StoreActive)
    && (match s.main
        case Boot => s.status == Inactive
        case StoreStarting => s.status == Inactive
        case Launch => s.status == Starting
        case StoreSyncing => s.status == Starting
        case StorePreparing => s.input.entries == map[]
        case StoreActive => s.input.entries == map[] && s.program.entries == map[]
        case _ => true)
    && (s.status == Active ==> Spent(s))
  }

  predicate Weak(s: State) {
    && WeakMain(s)
    && WeakGroup(Input, s.input, s.lock, BeforeSyncing(s.main))
    && WeakGroup(Program, s.program, s.lock, BeforeSyncing(s.main))
    && WeakGroup(Output, s.output, s.lock, BeforeSyncing(s.main))
  }

  lemma WeakGroups(s: State, kind: Kind)
    requires Weak(s)
    ensures WeakGroup(kind, GroupOf(s, kind), s.lock, BeforeSyncing(s.main))
    ensures s.lock == HeldByMain <==> s.main == StoreActive
  {
    hide WeakGroup;
  }

  lemma ThreadIsWeak(s: State, kind: Kind, n: Name)
    requires Weak(s) && n in GroupOf(s, kind).threads
    ensures n in GroupOf(s, kind).entries
    ensures WeakThread(kind, n, GroupOf(s, kind).threads[n], GroupOf(s, kind).up, s.lock, BeforeSyncing(s.main))
  {
    hide Weak, WeakThread;
    WeakGroups(s, kind);
  }

  /** With a flag up every entry is true. */
  lemma UpMeansAll(s: State, kind: Kind, n: Name)
    requires Weak(s) && n in GroupOf(s, kind).threads && GroupOf(s, kind).up
    ensures n in GroupOf(s, kind).entries && GroupOf(s, kind).entries[n]
  {
    hide Weak, WeakThread;
    WeakGroups(s, kind);
  }

  /** A group does not notice a lock that is taken or released by somebody outside it. */
  lemma WeakGroupFrame(kind: Kind, g: Group, lock: Owner, before: bool, lock': Owner, before': bool)
    requires WeakGroup(kind, g, lock, before)
    requires before' ==> before
    requires lock'.Held? && lock'.kind == kind ==> lock' == lock
    requires lock.Held? && lock.kind == kind ==> lock' == lock
    ensures WeakGroup(kind, g, lock', before')
  {
    forall n | n in g.threads
      ensures WeakThread(kind, n, g.threads[n], g.up, lock', before')
    {
      assert WeakThread(kind, n, g.threads[n], g.up, lock, before);
    }
  }

  lemma WeakGroupSpawn(kind: Kind, g: Group, lock: Owner, n: Name, guarded: bool)
    requires WeakGroup(kind, g, lock, true) && n !in g.threads && lock == Free
    ensures WeakGroup(kind,
              Group(g.threads[n := Thread(guarded, Gate, false, false)], g.entries[n := false], false),
              lock, true)
  {
    var g' := Group(g.threads[n := Thread(guarded, Gate, false, false)], g.entries[n := false], false);
    assert !g'.entries[n];
    forall m | m in g'.threads
      ensures WeakThread(kind, m, g'.threads[m], g'.up, lock, true)
    {
      assert m != n ==> WeakThread(kind, m, g.threads[m], g.up, lock, true);
    }
  }

  lemma WeakNext(kind: Kind, n: Name, t: Thread, up: bool, up': bool, lock: Owner, st: Status)
    requires WeakThread(kind, n, t, up, lock, false)
    requires t.pc != Insert ==> up' == up
    ensures WeakThread(kind, n, Next(kind, t, st, up'), up',
              if t.pc == Enter then Held(kind, n) else if t.pc == Leave then Free else lock, false)
  {
  }

  /** The step of a thread as seen by itself ... */
  lemma WeakOwnStep(s: State, kind: Kind, n: Name, before: bool)
    requires ThreadEnabled(s, kind, n)
    requires WeakGroup(kind, GroupOf(s, kind), s.lock, before)
    requires before ==> !CanRun(kind, s.status)
    ensures !before
    ensures var g' := GroupOf(StepThread(s, kind, n), kind);
            WeakThread(kind, n, g'.threads[n], g'.up, StepThread(s, kind, n).lock, before)
  {
    hide Next, StatusAfter, AllTrue, CanRun;
    var g := GroupOf(s, kind);
    assert WeakThread(kind, n, g.threads[n], g.up, s.lock, before);
    WeakNext(kind, n, g.threads[n], g.up, GroupOf(StepThread(s, kind, n), kind).up, s.lock, s.status);
  }

  /** ... and by another thread of its group. */
  lemma WeakOtherStep(s: State, kind: Kind, n: Name, m: Name, before: bool)
    requires ThreadEnabled(s, kind, n) && m in GroupOf(s, kind).threads && m != n
    requires WeakGroup(kind, GroupOf(s, kind), s.lock, before)
    ensures var g' := GroupOf(StepThread(s, kind, n), kind);
            && g'.threads[m] == GroupOf(s, kind).threads[m]
            && WeakThread(kind, m, g'.threads[m], g'.up, StepThread(s, kind, n).lock, before)
  {
    hide Next, StatusAfter;
    var g := GroupOf(s, kind);
    assert WeakThread(kind, n, g.threads[n], g.up, s.lock, before);
    assert WeakThread(kind, m, g.threads[m], g.up, s.lock, before);
  }

  lemma WeakGroupStep(s: State, kind: Kind, n: Name, before: bool)
    requires ThreadEnabled(s, kind, n)
    requires WeakGroup(kind, GroupOf(s, kind), s.lock, before)
    requires before ==> !CanRun(kind, s.status)
    ensures !before
    ensures WeakGroup(kind, GroupOf(StepThread(s, kind, n), kind), StepThread(s, kind, n).lock, before)
  {
    hide Next, StatusAfter, WeakThread;
    var g' := GroupOf(StepThread(s, kind, n), kind);
    WeakOwnStep(s, kind, n, before);
    forall m | m in g'.threads
      ensures WeakThread(kind, m, g'.threads[m], g'.up, StepThread(s, kind, n).lock, before)
    {
      if m != n {
        WeakOtherStep(s, kind, n, m, before);
      }
    }
  }

  /** The other groups, the main thread and the lock as left by a thread step. */
  lemma ThreadStepFrame(s: State, kind: Kind, n: Name)
    requires ThreadEnabled(s, kind, n)
    requires WeakGroup(kind, GroupOf(s, kind), s.lock, BeforeSyncing(s.main))
    ensures var s' := StepThread(s, kind, n);
            && s'.main == s.main && s'.shutdownFn == s.shutdownFn
            && (forall k: Kind :: k != kind ==> GroupOf(s', k) == GroupOf(s, k))
            && (GroupOf(s', kind).entries == map[] <==> GroupOf(s, kind).entries == map[])
            && (s'.lock == s.lock || (s.lock in {Free, Held(kind, n)} && s'.lock in {Free, Held(kind, n)}))
  {
    var g := GroupOf(s, kind);
    assert WeakThread(kind, n, g.threads[n], g.up, s.lock, BeforeSyncing(s.main));
    SameKeysEmpty(g.entries, GroupOf(StepThread(s, kind, n), kind).entries);
  }

  lemma SameKeysEmpty(a: map<Name, bool>, b: map<Name, bool>)
    requires a.Keys == b.Keys
    ensures a == map[] <==> b == map[]
  {
    assert a == map[] <==> a.Keys == {};
    assert b == map[] <==> b.Keys == {};
  }

  /** A store is pending after a thread step only if it was before, or has just come due. */
  lemma PendingBefore(s: State, kind: Kind, n: Name, k: Kind)
    requires ThreadEnabled(s, kind, n)
    requires WeakGroup(kind, GroupOf(s, kind), s.lock, BeforeSyncing(s.main))
    ensures var s' := StepThread(s, kind, n);
            Pending(k, GroupOf(s', k), s'.lock) ==>
              Pending(k, GroupOf(s, k), s.lock) || (k == kind && !GroupOf(s, k).up)
  {
    assert WeakThread(kind, n, GroupOf(s, kind).threads[n], GroupOf(s, kind).up, s.lock, BeforeSyncing(s.main));
    ThreadFrame(s, kind, n);
    hide StepThread, WeakGroup, StatusAfter, CanRun, BeforeSyncing;
  }

  /** A thread step never takes `Spent` back. */
  lemma SpentStays(s: State, kind: Kind, n: Name)
    requires ThreadEnabled(s, kind, n) && Spent(s)
    requires WeakGroup(kind, GroupOf(s, kind), s.lock, BeforeSyncing(s.main))
    ensures Spent(StepThread(s, kind, n))
  {
    var s' := StepThread(s, kind, n);
    PendingBefore(s, kind, n, Program);
    PendingBefore(s, kind, n, Input);
    ThreadStepFrame(s, kind, n);
    UpStays(s, kind, n);
    assert GroupOf(s', Input) == s'.input && GroupOf(s', Program) == s'.program;
    hide StepThread, Pending, WeakGroup;
  }

  lemma UpStays(s: State, kind: Kind, n: Name)
    requires ThreadEnabled(s, kind, n)
    ensures GroupOf(s, kind).up ==> GroupOf(StepThread(s, kind, n), kind).up
  {
    hide Next, StatusAfter, AllTrue;
  }

  /** Storing Active is what spends it. */
  lemma StoringActiveSpends(s: State, kind: Kind, n: Name)
    requires ThreadEnabled(s, kind, n) && Stores(s, ThreadStep(kind, n)) == Some(Active)
    requires WeakGroup(kind, GroupOf(s, kind), s.lock, BeforeSyncing(s.main))
    ensures !Spent(s) && Spent(StepThread(s, kind, n))
  {
    assert WeakThread(kind, n, GroupOf(s, kind).threads[n], GroupOf(s, kind).up, s.lock, BeforeSyncing(s.main));
    assert n in GroupOf(s, kind).entries;
    ThreadStepFrame(s, kind, n);
    ThreadFrame(s, kind, n);
    hide StepThread, WeakGroup, CanRun, BeforeSyncing, StatusAfter;
  }

  lemma SpentThreadStep(s: State, kind: Kind, n: Name)
    requires ThreadEnabled(s, kind, n)
    requires WeakGroup(kind, GroupOf(s, kind), s.lock, BeforeSyncing(s.main))
    ensures Spent(s) ==> Spent(StepThread(s, kind, n))
    ensures Stores(s, ThreadStep(kind, n)) == Some(Active) ==> !Spent(s) && Spent(StepThread(s, kind, n))
  {
    hide Spent, StepThread, Stores, WeakGroup;
    if Spent(s) {
      SpentStays(s, kind, n);
    }
    if Stores(s, ThreadStep(kind, n)) == Some(Active) {
      StoringActiveSpends(s, kind, n);
    }
  }

  lemma WeakThreadStep(s: State, kind: Kind, n: Name)
    requires Weak(s) && ThreadEnabled(s, kind, n)
    ensures Weak(StepThread(s, kind, n))
  {
    hide WeakGroup, Spent, StepThread, Stores, StatusAfter;
    var s' := StepThread(s, kind, n);
    WeakGroupStep(s, kind, n, BeforeSyncing(s.main));
    ThreadStepFrame(s, kind, n);
    forall k: Kind | k != kind
      ensures WeakGroup(k, GroupOf(s', k), s'.lock, BeforeSyncing(s'.main))
    {
      WeakGroupFrame(k, GroupOf(s, k), s.lock, BeforeSyncing(s.main), s'.lock, BeforeSyncing(s.main));
    }
    SpentThreadStep(s, kind, n);
    StoresIsExact(s, ThreadStep(kind, n));
    assert GroupOf(s', Input) == s'.input && GroupOf(s', Program) == s'.program && GroupOf(s', Output) == s'.output;
  }

  lemma WeakMainGroups(s: State, k: Kind)
    requires Weak(s) && MainEnabled(s)
    ensures WeakGroup(k, GroupOf(StepMain(s), k), StepMain(s).lock, BeforeSyncing(StepMain(s).main))
  {
    hide WeakGroup, Spent;
    var s' := StepMain(s);
    WeakGroupFrame(k, GroupOf(s, k), s.lock, BeforeSyncing(s.main), s'.lock, BeforeSyncing(s'.main));
  }

  lemma SpentMainStep(s: State)
    requires WeakMain(s) && MainEnabled(s)
    ensures Spent(s) ==> Spent(StepMain(s))
    ensures Stores(s, MainStep) == Some(Active) ==> !Spent(s) && Spent(StepMain(s))
  {
    hide Pending;
  }

  lemma WeakMainStep(s: State)
    requires Weak(s) && MainEnabled(s)
    ensures Weak(StepMain(s))
    ensures Spent(s) ==> Spent(StepMain(s))
    ensures Stores(s, MainStep) == Some(Active) ==> !Spent(s)
  {
    hide WeakGroup, Spent, Stores, Pending;
    WeakMainGroups(s, Input);
    WeakMainGroups(s, Program);
    WeakMainGroups(s, Output);
    SpentMainStep(s);
    MainStoresIsExact(s);
  }

  lemma WeakSpawn(s: State, kind: Kind, n: Name, guarded: bool)
    requires Weak(s) && Enabled(s, Spawn(kind, n, guarded))
    ensures Weak(StepSpawn(s, kind, n, guarded))
    ensures !Spent(s)
  {
    WeakGroupSpawn(kind, GroupOf(s, kind), s.lock, n, guarded);
  }
}
