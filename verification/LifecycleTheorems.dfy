/** Theorems about whole runs: order of statuses, startup barriers, the final output sync. */
module LifecycleTheorems {
  import opened Basics
  import opened Controller
  import opened Lifecycle
  import opened LifecycleInvariants
  import opened LifecycleStrong

  // ---------------------------------------------------------------- invariants along a run

  lemma WeakTerm(s: State)
    requires Weak(s) && s.main == Poll
    ensures Weak(s.(main := ReadStatus))
    ensures Spent(s) ==> Spent(s.(main := ReadStatus))
  {
    hide WeakGroup, Pending;
  }

  lemma WeakStep(s: State, a: Action)
    requires Weak(s) && Enabled(s, a)
    ensures Weak(Apply(s, a))
    ensures Spent(s) ==> Spent(Apply(s, a))
    ensures Stores(s, a) == Some(Active) ==> !Spent(s)
  {
    match a
    case Spawn(kind, n, guarded) => WeakSpawn(s, kind, n, guarded);
    case MainStep => WeakMainStep(s);
    case ThreadStep(kind, n) =>
      WeakThreadStep(s, kind, n);
      WeakGroups(s, kind);
      SpentThreadStep(s, kind, n);
    case Term => WeakTerm(s);
    case Idle =>
    hide Weak, Spent, StepMain, StepThread, StepSpawn, MainEnabled, ThreadEnabled;
  }

  lemma StrongTerm(s: State)
    requires Strong(s) && s.main == Poll
    ensures Strong(s.(main := ReadStatus))
  {
    hide Weak, GroupOk, Pending, PendingFirst, Joined;
    WeakTerm(s);
  }

  lemma StrongStep(s: State, a: Action)
    requires Strong(s) && Enabled(s, a) && !Early(Apply(s, a))
    ensures Strong(Apply(s, a))
    ensures Phase(s.status) <= Phase(Apply(s, a).status) <= Phase(s.status) + 1
  {
    hide Strong, StepMain, StepThread, StepSpawn, MainEnabled, ThreadEnabled;
    match a
    case Spawn(kind, n, guarded) => StrongSpawn(s, kind, n, guarded); SpawnStatus(s, kind, n, guarded);
    case MainStep => StrongMainStep(s);
    case ThreadStep(kind, n) => StrongThreadStep(s, kind, n);
    case Term => StrongTerm(s);
    case Idle =>
  }

  lemma SpawnStatus(s: State, kind: Kind, n: Name, guarded: bool)
    ensures StepSpawn(s, kind, n, guarded).status == s.status
  {
  }

  lemma {:induction false} WeakRun(r: Run, i: nat)
    requires ValidRun(r) && i < |r.states|
    ensures Weak(r.states[i])
  {
    hide Weak, Enabled, Apply;
    if i == 0 {
      StrongInit(r.states[0].shutdownFn);
      assert Strong(Init(r.states[0].shutdownFn));
    } else {
      WeakRun(r, i - 1);
      assert StepOk(r, i - 1);
      WeakStep(r.states[i - 1], r.actions[i - 1]);
    }
  }

  lemma EarlyStep(s: State, a: Action)
    requires Enabled(s, a)
    ensures Early(s) ==> Early(Apply(s, a))
    ensures Apply(s, a).shutdownFn == s.shutdownFn
  {
  }

  lemma {:induction false} StrongRun(r: Run, i: nat)
    requires ValidRun(r) && i < |r.states| && !Early(r.states[i])
    ensures Strong(r.states[i])
    ensures r.states[i].shutdownFn == r.states[0].shutdownFn
  {
    hide Strong, Enabled, Apply, Early;
    if i == 0 {
      StrongInit(r.states[0].shutdownFn);
    } else {
      assert StepOk(r, i - 1);
      EarlyStep(r.states[i - 1], r.actions[i - 1]);
      StrongRun(r, i - 1);
      StrongStep(r.states[i - 1], r.actions[i - 1]);
    }
  }

  lemma {:induction false} NotEarlyBefore(r: Run, i: nat, j: nat)
    requires ValidRun(r) && i <= j < |r.states| && !Early(r.states[j])
    ensures !Early(r.states[i])
    decreases j - i
  {
    hide Enabled, Apply, Early;
    if i < j {
      assert StepOk(r, j - 1);
      EarlyStep(r.states[j - 1], r.actions[j - 1]);
      NotEarlyBefore(r, i, j - 1);
    }
  }

  /** The last step before `k` at which `p` became true. */
  lemma {:induction false} LastEntry(r: Run, k: nat, p: State -> bool) returns (j: nat)
    requires |r.states| > k && p(r.states[k]) && !p(r.states[0])
    ensures j < k && !p(r.states[j]) && p(r.states[j + 1])
    ensures forall m :: j < m <= k ==> p(r.states[m])
  {
    j := k - 1;
    while p(r.states[j])
      invariant j < k
      invariant forall m :: j < m <= k ==> p(r.states[m])
      decreases j
    {
      j := j - 1;
    }
  }

  // ---------------------------------------------------------------- order of statuses

  /** On a run not stopped early, the status walks the life cycle one phase at a time and never
      turns back. */
  lemma {:induction false} StatusMonotone(r: Run, i: nat, j: nat)
    requires ValidRun(r) && i <= j < |r.states| && !Early(r.states[j])
    ensures Phase(r.states[i].status) <= Phase(r.states[j].status) <= Phase(r.states[i].status) + (j - i)
    ensures i == 0 ==> r.states[i].status == Inactive
    decreases j - i
  {
    hide Strong, Enabled, Apply, Early, Phase;
    if i < j {
      NotEarlyBefore(r, j - 1, j);
      StatusMonotone(r, i, j - 1);
      StrongRun(r, j - 1);
      assert StepOk(r, j - 1);
      StrongStep(r.states[j - 1], r.actions[j - 1]);
    }
  }

  lemma {:induction false} NoActiveAfter(r: Run, j: nat, k: nat)
    requires ValidRun(r) && j <= k < |r.states|
    requires Spent(r.states[j]) && r.states[j].status != Active
    ensures Spent(r.states[k]) && r.states[k].status != Active
    decreases k - j
  {
    hide Weak, Enabled, Apply, Spent, Stores;
    if j < k {
      NoActiveAfter(r, j, k - 1);
      WeakRun(r, k - 1);
      assert StepOk(r, k - 1);
      WeakStep(r.states[k - 1], r.actions[k - 1]);
      StoresIsExact(r.states[k - 1], r.actions[k - 1]);
    }
  }

  lemma {:induction false} SpentLater(r: Run, i: nat, j: nat)
    requires ValidRun(r) && i <= j < |r.states| && Spent(r.states[i])
    ensures Spent(r.states[j])
    decreases j - i
  {
    hide Weak, Enabled, Apply, Spent, Stores;
    if i < j {
      SpentLater(r, i, j - 1);
      WeakRun(r, j - 1);
      assert StepOk(r, j - 1);
      WeakStep(r.states[j - 1], r.actions[j - 1]);
    }
  }

  /** On every run, also one stopped early, Active is one contiguous interval. */
  lemma ActiveIsContiguous(r: Run, i: nat, j: nat, k: nat)
    requires ValidRun(r) && i <= j <= k < |r.states|
    requires r.states[i].status == Active && r.states[k].status == Active
    ensures r.states[j].status == Active
  {
    WeakRun(r, i);
    hide WeakGroup, Spent, StepOk;
    SpentLater(r, i, j);
    if r.states[j].status != Active {
      NoActiveAfter(r, j, k);
    }
  }

  /** A store either raises the phase by one or repeats Stopped. */
  lemma StoresAdvance(s: State, a: Action)
    requires Strong(s) && Enabled(s, a) && !Early(Apply(s, a)) && Stores(s, a).Some?
    ensures Phase(Stores(s, a).value) == Phase(s.status) + 1
            || (Stores(s, a).value == Stopped && s.status == Stopped)
  {
    match a
    case MainStep => MainStoresAdvance(s);
    case ThreadStep(kind, n) => ThreadStoresAdvance(s, kind, n);
    case _ =>
    hide Strong, Early;
  }

  lemma MainStoresAdvance(s: State)
    requires Strong(s) && MainEnabled(s) && !Early(StepMain(s)) && Stores(s, MainStep).Some?
    ensures Phase(Stores(s, MainStep).value) == Phase(s.status) + 1
            || (Stores(s, MainStep).value == Stopped && s.status == Stopped)
  {
    hide Weak, Barriers, Joined, GroupOk;
  }

  lemma ThreadStoresAdvance(s: State, kind: Kind, n: Name)
    requires Strong(s) && ThreadEnabled(s, kind, n) && Stores(s, ThreadStep(kind, n)).Some?
    ensures Phase(Stores(s, ThreadStep(kind, n)).value) == Phase(s.status) + 1
            || (kind == Output && s.status == Stopped && Stores(s, ThreadStep(kind, n)).value == Stopped)
    ensures kind != Output ==> Phase(s.status) < 4
  {
    hide Strong, LockAfter, StepThread, ThreadEnabled;
    ThreadIsOk(s, kind, n);
  }

  /** No status but Stopped is stored twice. */
  lemma StoredOnce(r: Run, i: nat, j: nat)
    requires ValidRun(r) && i < j < |r.actions| && !Early(r.states[j + 1])
    requires Stores(r.states[i], r.actions[i]).Some?
    requires Stores(r.states[i], r.actions[i]) == Stores(r.states[j], r.actions[j])
    ensures Stores(r.states[j], r.actions[j]) == Some(Stopped)
  {
    hide Strong, Apply, Stores, Early;
    assert StepOk(r, i) && StepOk(r, j);
    NotEarlyBefore(r, j, j + 1);
    NotEarlyBefore(r, i, j);
    NotEarlyBefore(r, i + 1, j);
    StrongRun(r, i);
    StrongRun(r, j);
    StoresIsExact(r.states[i], r.actions[i]);
    StoresAdvance(r.states[j], r.actions[j]);
    StatusMonotone(r, i + 1, j);
  }

  /** Once Active is reached, no input or program loop stores a status any more. */
  lemma LateMarksStoreNothing(r: Run, i: nat)
    requires ValidRun(r) && i < |r.actions| && !Early(r.states[i])
    requires Phase(r.states[i].status) >= Phase(Active)
    requires r.actions[i].ThreadStep? && r.actions[i].kind != Output
    ensures Stores(r.states[i], r.actions[i]) == None
  {
    hide Strong, Stores, Early;
    assert StepOk(r, i);
    StrongRun(r, i);
    if Stores(r.states[i], r.actions[i]).Some? {
      ThreadStoresAdvance(r.states[i], r.actions[i].kind, r.actions[i].name);
    }
  }

  // ---------------------------------------------------------------- startup barriers

  /** Step `j` is the end of a body execution of the loop. */
  predicate EndsBody(r: Run, kind: Kind, n: Name, j: nat)
    requires j < |r.actions| < |r.states|
  {
    && r.actions[j] == ThreadStep(kind, n)
    && n in GroupOf(r.states[j], kind).threads
    && GroupOf(r.states[j], kind).threads[n].pc == Body
  }

  predicate CompletedCycle(r: Run, kind: Kind, n: Name, k: nat)
    requires k <= |r.actions| < |r.states|
  {
    exists j :: 0 <= j < k && EndsBody(r, kind, n, j)
  }

  /** The positions an input or program loop can only be in after its first body. */
  predicate Cycled(t: Thread, ph: nat) {
    || t.marked || t.pc == Enter || InMark(t.pc) || t.pc == Sleep
    || (t.pc == CheckStop && ph < 5)
  }

  lemma CycledNext(kind: Kind, t: Thread, entry: bool, st: Status, up: bool, ph': nat)
    requires ThreadOk(kind, t, entry, Phase(st)) && kind != Output && Phase(st) <= ph'
    requires t.pc == Gate ==> CanRun(kind, st)
    requires Cycled(Next(kind, t, st, up), ph') && t.pc != Done
    ensures Cycled(t, Phase(st)) || t.pc == Body
  {
    GatesFollowPhases(st);
  }

  /** A thread changes only by its own steps. */
  lemma OthersLeaveAlone(s: State, a: Action, kind: Kind, n: Name)
    requires Enabled(s, a) && a != ThreadStep(kind, n)
    requires n in GroupOf(Apply(s, a), kind).threads
    ensures (n in GroupOf(s, kind).threads && GroupOf(Apply(s, a), kind).threads[n] == GroupOf(s, kind).threads[n])
            || (GroupOf(Apply(s, a), kind).threads[n].pc == Gate && !GroupOf(Apply(s, a), kind).threads[n].marked)
  {
    match a
    case ThreadStep(k, m) => ThreadFrame(s, k, m); hide StepThread;
    case MainStep =>
    case _ =>
  }

  lemma CycledOwnStep(s: State, kind: Kind, n: Name)
    requires Strong(s) && ThreadEnabled(s, kind, n) && kind != Output
    ensures var s' := StepThread(s, kind, n);
            n in GroupOf(s', kind).threads && Cycled(GroupOf(s', kind).threads[n], Phase(s'.status)) ==>
              Cycled(GroupOf(s, kind).threads[n], Phase(s.status)) || GroupOf(s, kind).threads[n].pc == Body
  {
    hide Strong;
    var t := GroupOf(s, kind).threads[n];
    StrongThreadStep(s, kind, n);
    ThreadFrame(s, kind, n);
    ThreadIsOk(s, kind, n);
    assert t.pc != Done && (t.pc == Gate ==> CanRun(kind, s.status));
    var s' := StepThread(s, kind, n);
    hide Strong, Next, ThreadOk, Cycled, CanRun, StepThread, ThreadEnabled, Phase, StatusAfter, LockAfter;
    if Cycled(GroupOf(s', kind).threads[n], Phase(s'.status)) {
      CycledNext(kind, t, GroupOf(s, kind).entries[n], s.status, GroupOf(s', kind).up, Phase(s'.status));
    }
  }

  lemma CycledStep(s: State, a: Action, kind: Kind, n: Name)
    requires Strong(s) && Enabled(s, a) && !Early(Apply(s, a)) && kind != Output
    requires n in GroupOf(Apply(s, a), kind).threads
    requires Cycled(GroupOf(Apply(s, a), kind).threads[n], Phase(Apply(s, a).status))
    ensures n in GroupOf(s, kind).threads
    ensures Cycled(GroupOf(s, kind).threads[n], Phase(s.status))
            || (a == ThreadStep(kind, n) && GroupOf(s, kind).threads[n].pc == Body)
  {
    hide Strong, StepThread, StepMain, ThreadEnabled, MainEnabled, Phase, GroupOf;
    StrongStep(s, a);
    if a == ThreadStep(kind, n) {
      ThreadFrame(s, kind, n);
      CycledOwnStep(s, kind, n);
      SteppingIsThere(s, kind, n);
    } else {
      hide Apply, Enabled;
      OthersLeaveAlone(s, a, kind, n);
    }
  }

  lemma SteppingIsThere(s: State, kind: Kind, n: Name)
    requires ThreadEnabled(s, kind, n)
    ensures n in GroupOf(s, kind).threads
  {
  }

  lemma {:induction false} CycledMeansCompleted(r: Run, kind: Kind, n: Name, k: nat)
    requires ValidRun(r) && k < |r.states| && !Early(r.states[k]) && kind != Output
    requires n in GroupOf(r.states[k], kind).threads
    requires Cycled(GroupOf(r.states[k], kind).threads[n], Phase(r.states[k].status))
    ensures CompletedCycle(r, kind, n, k)
  {
    hide Strong, Apply, Early, Enabled, Cycled;
    if k == 0 {
      assert false;
    } else {
      assert StepOk(r, k - 1);
      NotEarlyBefore(r, k - 1, k);
      StrongRun(r, k - 1);
      CycledStep(r.states[k - 1], r.actions[k - 1], kind, n);
      if r.actions[k - 1] == ThreadStep(kind, n) && GroupOf(r.states[k - 1], kind).threads[n].pc == Body {
        assert EndsBody(r, kind, n, k - 1);
      } else {
        CycledMeansCompleted(r, kind, n, k - 1);
        var j :| 0 <= j < k - 1 && EndsBody(r, kind, n, j);
      }
    }
  }

  /** From Preparing on every registered input has completed a cycle, from Active on every
      program too. */
  lemma BarrierMeansCycled(r: Run, k: nat, kind: Kind, n: Name)
    requires ValidRun(r) && k < |r.states| && !Early(r.states[k])
    requires (kind == Input && Phase(r.states[k].status) >= Phase(Preparing))
             || (kind == Program && Phase(r.states[k].status) >= Phase(Active))
    requires n in GroupOf(r.states[k], kind).threads
    ensures CompletedCycle(r, kind, n, k)
  {
    hide Strong, Weak, ValidRun, Early, CompletedCycle, MainOk, StoresBehind;
    var s := r.states[k];
    StrongRun(r, k);
    StrongParts(s);
    ThreadIsOk(s, kind, n);
    UpMeansAll(s, kind, n);
    CycledMeansCompleted(r, kind, n, k);
  }

  /** No program or output loop leaves its gate before every input is ready and has cycled. */
  lemma LoopsWaitForInputs(r: Run, k: nat, kind: Kind, n: Name, i: Name)
    requires ValidRun(r) && k < |r.states| && !Early(r.states[k]) && kind != Input
    requires n in GroupOf(r.states[k], kind).threads && GroupOf(r.states[k], kind).threads[n].pc != Gate
    requires i in r.states[k].input.threads
    ensures r.states[k].input.up && CompletedCycle(r, Input, i, k)
  {
    hide Strong, Weak, ValidRun, Early, CompletedCycle, MainOk, StoresBehind;
    var s := r.states[k];
    StrongRun(r, k);
    StrongParts(s);
    ThreadIsOk(s, kind, n);
    BarrierMeansCycled(r, k, Input, i);
  }

  predicate AllMarked(g: Group) {
    forall n :: n in g.threads ==> g.threads[n].marked
  }

  /** A barrier is not lost: once the last registered loop is done marking, the status is there. */
  lemma BarrierNotLost(r: Run, k: nat)
    requires ValidRun(r) && k < |r.states| && !Early(r.states[k])
    ensures var s := r.states[k]; var ph := Phase(s.status);
            && (s.input.threads != map[] && AllMarked(s.input) ==> ph >= 3)
            && (s.program.threads != map[] && AllMarked(s.program) ==> ph >= 4)
            && (s.input.threads != map[] && AllMarked(s.input) && s.program.threads == map[] ==> ph >= 4)
            && (s.input.threads == map[] && !BeforePolling(s.main) ==> ph >= 3)
            && (s.input.threads == map[] && s.program.threads == map[] && !BeforePolling(s.main) ==> ph >= 4)
  {
    hide Weak, GroupOk, AllMarked, Pending, ValidRun, Joined, Early;
    var s := r.states[k];
    StrongRun(r, k);
    MarkedIsUp(s, Input);
    MarkedIsUp(s, Program);
  }

  lemma MarkedIsUp(s: State, kind: Kind)
    requires Strong(s) && kind != Output
    ensures var g := GroupOf(s, kind);
            && (g.threads == map[] <==> g.entries == map[])
            && (g.threads != map[] && AllMarked(g) ==> g.up && !Pending(kind, g, s.lock))
  {
    var g := GroupOf(s, kind);
    assert WeakGroup(kind, g, s.lock, BeforeSyncing(s.main));
    assert g.threads == map[] <==> g.threads.Keys == {};
    assert g.entries == map[] <==> g.entries.Keys == {};
    if AllMarked(g) {
      hide Weak, Barriers, MainOk, Joined;
      forall n | n in g.threads
        ensures g.entries[n] && !InMark(g.threads[n].pc)
      {
        assert ThreadOk(kind, g.threads[n], g.entries[n], Phase(s.status));
      }
    }
  }

  // ---------------------------------------------------------------- the final output sync

  /** Steps `i` to `j` are one output cycle: the flag is read at `i`, the body ends at `j`. */
  predicate Sync(r: Run, n: Name, i: nat, j: nat)
    requires |r.actions| < |r.states|
  {
    && i < j < |r.actions|
    && r.actions[i] == ThreadStep(Output, n) && r.actions[j] == ThreadStep(Output, n)
    && n in r.states[i].output.threads && r.states[i].output.threads[n].pc == Begin
    && forall m :: i < m <= j ==> n in r.states[m].output.threads && r.states[m].output.threads[n].pc == Body
  }

  /** Step `f` is the return of the shutdown function, with every input and program finished. */
  predicate ShutdownReturns(r: Run, f: nat)
    requires f < |r.actions| < |r.states|
  {
    r.actions[f] == MainStep && r.states[f].main == ShutdownFn && Joined(r.states[f])
  }

  predicate SyncedAfterShutdown(r: Run, n: Name, k: nat)
    requires k <= |r.actions| < |r.states|
  {
    exists f, i, j :: 0 <= f < i < j < k && ShutdownReturns(r, f) && Sync(r, n, i, j)
  }

  predicate AfterLastBody(s: State, n: Name) {
    n in s.output.threads &&
    var pc := s.output.threads[n].pc;
    pc == Enter || InMark(pc) || pc == Done
  }

  predicate InLastBody(s: State, n: Name) {
    n in s.output.threads && s.output.threads[n].pc == Body && s.output.threads[n].last
  }

  predicate AfterShutdown(s: State) {
    PastJoin(s.main) && s.main != ShutdownFn
  }

  lemma LastBodyNext(t: Thread, entry: bool, st: Status, up: bool)
    requires ThreadOk(Output, t, entry, Phase(st)) && t.pc != Done
    ensures var t' := Next(Output, t, st, up);
            && (t'.pc == Enter || InMark(t'.pc) || t'.pc == Done ==>
                  t.pc == Enter || InMark(t.pc) || t.pc == Done || (t.pc == Body && t.last))
            && (t'.pc == Body && t'.last ==> t.pc == Begin && st == StopSyncing)
  {
  }

  lemma LastBodyOwnStep(s: State, n: Name)
    requires Strong(s) && ThreadEnabled(s, Output, n)
    ensures var s' := StepThread(s, Output, n);
            && (AfterLastBody(s', n) ==> AfterLastBody(s, n) || InLastBody(s, n))
            && (InLastBody(s', n) ==> s.output.threads[n].pc == Begin && s.status == StopSyncing)
  {
    hide Strong;
    var t := s.output.threads[n];
    ThreadIsOk(s, Output, n);
    assert t.pc != Done;
    ThreadFrame(s, Output, n);
    var s' := StepThread(s, Output, n);
    assert GroupOf(s', Output) == s'.output;
    hide Strong, Next, ThreadOk, ThreadEnabled, StepThread, Phase, StatusAfter, LockAfter, InMark;
    LastBodyNext(t, s.output.entries[n], s.status, s'.output.up);
  }

  lemma LastBodyStep(s: State, a: Action, n: Name)
    requires Strong(s) && Enabled(s, a)
    ensures !AfterLastBody(s, n) && AfterLastBody(Apply(s, a), n) ==>
              a == ThreadStep(Output, n) && InLastBody(s, n)
    ensures !InLastBody(s, n) && InLastBody(Apply(s, a), n) ==>
              a == ThreadStep(Output, n) && s.output.threads[n].pc == Begin && s.status == StopSyncing
  {
    hide Strong, StepThread, StepMain, ThreadEnabled, MainEnabled;
    if a == ThreadStep(Output, n) {
      hide InMark;
      LastBodyOwnStep(s, n);
    } else if n in Apply(s, a).output.threads {
      hide Apply, Enabled;
      var s' := Apply(s, a);
      assert GroupOf(s', Output) == s'.output;
      OthersLeaveAlone(s, a, Output, n);
    }
  }

  lemma AfterShutdownStep(s: State, a: Action)
    requires Strong(s) && Enabled(s, a) && !AfterShutdown(s) && AfterShutdown(Apply(s, a)) && s.shutdownFn
    ensures a == MainStep && s.main == ShutdownFn && Joined(s)
  {
    hide Weak, GroupOk, Barriers, MainOk, Joined;
  }

  /** The return of the shutdown function precedes any output that has seen StopSyncing. */
  lemma ShutdownBefore(r: Run, i: nat) returns (f: nat)
    requires ValidRun(r) && i < |r.states| && !Early(r.states[i]) && r.states[i].shutdownFn
    requires r.states[i].status == StopSyncing
    ensures f < i <= |r.actions| && ShutdownReturns(r, f)
  {
    StrongRun(r, i);
    assert AfterShutdown(r.states[i]) by { hide Weak, GroupOk, Barriers, Joined; }
    hide Strong, Apply, Enabled, Joined, Early;
    f := LastEntry(r, i, s => AfterShutdown(s));
    assert StepOk(r, f);
    NotEarlyBefore(r, f, i);
    StrongRun(r, f);
    AfterShutdownStep(r.states[f], r.actions[f]);
  }

  lemma NoThreadsAtStart(r: Run, n: Name)
    requires ValidRun(r)
    ensures !AfterLastBody(r.states[0], n) && !InLastBody(r.states[0], n)
  {
  }

  lemma LastSyncBefore(r: Run, n: Name, k: nat) returns (i: nat, j: nat)
    requires ValidRun(r) && k < |r.states| && !Early(r.states[k]) && AfterLastBody(r.states[k], n)
    ensures i < j < k && Sync(r, n, i, j) && r.states[i].status == StopSyncing
  {
    hide Strong, Apply, Enabled, Early, AfterLastBody, ThreadEnabled;
    NoThreadsAtStart(r, n);
    j := LastEntry(r, k, s => AfterLastBody(s, n));
    assert StepOk(r, j);
    NotEarlyBefore(r, j, k);
    StrongRun(r, j);
    LastBodyStep(r.states[j], r.actions[j], n);
    i := LastEntry(r, j, s => InLastBody(s, n));
    assert StepOk(r, i);
    NotEarlyBefore(r, i, j);
    StrongRun(r, i);
    LastBodyStep(r.states[i], r.actions[i], n);
    assert InLastBody(r.states[i + 1], n);
    InLastBodyBack(r.states[i], r.actions[i], n);
  }

  lemma InLastBodyBack(s: State, a: Action, n: Name)
    requires Enabled(s, a) && a == ThreadStep(Output, n)
    ensures n in s.output.threads
  {
  }

  /** With the flag of the outputs up, every output is past its last body. */
  lemma UpMeansLastBodies(s: State, n: Name)
    requires Strong(s) && s.output.up && n in s.output.threads
    ensures AfterLastBody(s, n)
  {
    hide Strong, Barriers, MainOk, Joined, Weak;
    StrongParts(s);
    UpMeansAll(s, Output, n);
    ThreadIsOk(s, Output, n);
  }

  /** Which thread can store Stopped when there is a shutdown function and an output. */
  lemma StoppedMeansLastBodies(s: State, a: Action, n: Name)
    requires Strong(s) && Enabled(s, a) && !Early(Apply(s, a)) && Stores(s, a) == Some(Stopped)
    requires s.shutdownFn && n in s.output.threads
    ensures AfterLastBody(s, n)
  {
    hide StepThread, StepMain, AfterLastBody;
    if a == MainStep {
      NoMainStopped(s, n);
    } else {
      StrongParts(s);
      hide Strong;
      LockEffect(s, a.kind, a.name);
      assert a.kind == Output && s.output.threads[a.name].pc == StoreFirst;
      UpMeansLastBodies(s, n);
    }
  }

  /** With both, the main thread leaves Stopped to the outputs. */
  lemma NoMainStopped(s: State, n: Name)
    requires Strong(s) && s.shutdownFn && n in s.output.threads
    ensures Stores(s, MainStep) != Some(Stopped)
  {
    hide Strong, Weak, Barriers, Joined;
    StrongParts(s);
    ThreadIsOk(s, Output, n);
  }

  /** Final-sync safety: with a shutdown function, Stopped is stored only after every output has
      completed a sync that began after that function returned, which it did after all inputs
      and programs had finished. */
  lemma FinalSync(r: Run, k: nat, n: Name)
    requires ValidRun(r) && k < |r.actions| && !Early(r.states[k + 1])
    requires r.states[k].shutdownFn && n in r.states[k].output.threads
    requires Stores(r.states[k], r.actions[k]) == Some(Stopped)
    ensures SyncedAfterShutdown(r, n, k)
  {
    hide Strong, Apply, Enabled, Stores, AfterLastBody, Early, ShutdownReturns, Sync;
    assert StepOk(r, k);
    NotEarlyBefore(r, k, k + 1);
    StrongRun(r, k);
    StoppedMeansLastBodies(r.states[k], r.actions[k], n);
    var i, j := LastSyncBefore(r, n, k);
    NotEarlyBefore(r, i, k);
    StrongRun(r, i);
    var f := ShutdownBefore(r, i);
  }
}
