/** A stop before Active: `run` stores Stopped while a `mark_*` may be in flight. The order of
    statuses is then lost in exactly the states described here. */
module LifecycleEarly {
  import opened Controller
  import opened Lifecycle
  import opened LifecycleInvariants
  import opened LifecycleStrong
  import opened LifecycleTheorems

  /** A position inside `mark_*` from which a status is still going to be stored: the scan has
      succeeded or is about to. */
  predicate Storing(pc: Pc, lastEntry: bool, noPrograms: bool) {
    match pc
    case Insert => lastEntry
    case StoreFirst => true
    case StoreSecond => noPrograms
    case _ => false
  }

  /** The lock holder has passed the guard of `mark_*` and will still store a status. */
  predicate InFlight(s: State) {
    && s.lock.Held? && s.lock.kind != Output
    && s.lock.name in GroupOf(s, s.lock.kind).threads
    && Storing(GroupOf(s, s.lock.kind).threads[s.lock.name].pc,
               AllTrue(GroupOf(s, s.lock.kind).entries[s.lock.name := true]),
               s.program.entries == map[])
  }

  /** The main thread has stored Stopped on the early branch and nothing overwrote it yet. */
  predicate StoppedEarly(s: State) {
    s.main == EarlyFinished && s.status == Stopped
  }

  predicate Can(s: State, acts: seq<Action>)
    decreases |acts|
  {
    acts == [] || (Enabled(s, acts[0]) && Can(Apply(s, acts[0]), acts[1..]))
  }

  function After(s: State, acts: seq<Action>): State
    requires Can(s, acts)
    decreases |acts|
  {
    if acts == [] then s else After(Apply(s, acts[0]), acts[1..])
  }

  ghost predicate StaysStopped(s: State) {
    forall acts: seq<Action> :: Can(s, acts) ==> After(s, acts).status == Stopped
  }

  lemma QuietNext(kind: Kind, t: Thread, up: bool, lastEntry: bool, lastEntry': bool, noPrograms: bool)
    requires InMark(t.pc) && (kind != Output ==> !Storing(t.pc, lastEntry, noPrograms))
    requires t.pc == Insert ==> up == lastEntry
    ensures kind != Output ==> !Storing(Next(kind, t, Stopped, up).pc, lastEntry', noPrograms)
    ensures kind != Output ==> t.pc != StoreFirst && (t.pc == StoreSecond ==> !noPrograms)
  {
  }

  /** The step of the lock holder. */
  lemma QuietHolderStep(s: State, kind: Kind, n: Name)
    requires Weak(s) && StoppedEarly(s) && !InFlight(s) && ThreadEnabled(s, kind, n)
    requires s.lock == Held(kind, n)
    ensures StepThread(s, kind, n).status == Stopped && !InFlight(StepThread(s, kind, n))
  {
    LockEffect(s, kind, n);
    ThreadFrame(s, kind, n);
    StoresIsExact(s, ThreadStep(kind, n));
    ThreadStepFrame(s, kind, n);
    if GroupOf(s, kind).threads[n].pc == Insert {
      ScanUp(s, kind, n);
    }
    assert WeakThread(kind, n, GroupOf(s, kind).threads[n], GroupOf(s, kind).up, s.lock, BeforeSyncing(s.main));
    var s' := StepThread(s, kind, n);
    assert GroupOf(s', Program) == s'.program && GroupOf(s, Program) == s.program;
    hide Weak, WeakGroup, AllTrue, ThreadEnabled, StepThread, Next, Storing;
    QuietNext(kind, GroupOf(s, kind).threads[n], GroupOf(s', kind).up,
              AllTrue(GroupOf(s, kind).entries[n := true]), AllTrue(GroupOf(s', kind).entries[n := true]),
              s.program.entries == map[]);
  }

  lemma ScanUp(s: State, kind: Kind, n: Name)
    requires Weak(s) && ThreadEnabled(s, kind, n) && GroupOf(s, kind).threads[n].pc == Insert
    ensures GroupOf(StepThread(s, kind, n), kind).up <==> AllTrue(GroupOf(s, kind).entries[n := true])
  {
    LockEffect(s, kind, n);
    hide Weak, AllTrue, StatusAfter, LockAfter, Next;
  }

  /** The step of any other thread: the holder, if any, does not notice. */
  lemma QuietOtherStep(s: State, kind: Kind, n: Name)
    requires Weak(s) && StoppedEarly(s) && !InFlight(s) && ThreadEnabled(s, kind, n)
    requires s.lock != Held(kind, n)
    ensures StepThread(s, kind, n).status == Stopped && !InFlight(StepThread(s, kind, n))
  {
    LockEffect(s, kind, n);
    ThreadFrame(s, kind, n);
    NotInsert(s, kind, n);
    var s' := StepThread(s, kind, n);
    hide Weak, AllTrue, StepThread;
    assert s'.lock == s.lock || s'.lock == Held(kind, n);
  }

  lemma NotInsert(s: State, kind: Kind, n: Name)
    requires Weak(s) && ThreadEnabled(s, kind, n) && s.lock != Held(kind, n)
    ensures GroupOf(StepThread(s, kind, n), kind).entries == GroupOf(s, kind).entries
    ensures StepThread(s, kind, n).program.entries == s.program.entries
    ensures var s' := StepThread(s, kind, n);
            s'.lock == s.lock || (s'.lock == Held(kind, n) && GroupOf(s', kind).threads[n].pc == Guard)
  {
    LockEffect(s, kind, n);
    hide Weak, StatusAfter, InsertInto;
  }

  lemma QuietThreadStep(s: State, kind: Kind, n: Name)
    requires Weak(s) && StoppedEarly(s) && !InFlight(s) && ThreadEnabled(s, kind, n)
    ensures StoppedEarly(StepThread(s, kind, n)) && !InFlight(StepThread(s, kind, n))
  {
    ThreadFrame(s, kind, n);
    if s.lock == Held(kind, n) {
      QuietHolderStep(s, kind, n);
    } else {
      QuietOtherStep(s, kind, n);
    }
    hide StepThread, Weak, InFlight;
  }

  lemma QuietStep(s: State, a: Action)
    requires Weak(s) && StoppedEarly(s) && !InFlight(s) && Enabled(s, a)
    ensures Weak(Apply(s, a)) && StoppedEarly(Apply(s, a)) && !InFlight(Apply(s, a))
  {
    hide Weak, InFlight, StepThread;
    WeakStep(s, a);
    if a.ThreadStep? {
      QuietThreadStep(s, a.kind, a.name);
    }
  }

  lemma {:induction false} QuietStays(s: State, acts: seq<Action>)
    requires Weak(s) && StoppedEarly(s) && !InFlight(s) && Can(s, acts)
    ensures After(s, acts).status == Stopped
    decreases |acts|
  {
    hide Weak, InFlight, Enabled, Apply;
    if acts != [] {
      QuietStep(s, acts[0]);
      QuietStays(Apply(s, acts[0]), acts[1..]);
    }
  }

  /** The pending store, made in one step from a store position ... */
  lemma StoreMade(s: State, kind: Kind, n: Name)
    requires s.lock == Held(kind, n) && InFlight(s) && GroupOf(s, kind).threads[n].pc != Insert
    requires GroupOf(s, kind).threads[n].pc == StoreSecond ==> kind == Input
    ensures Can(s, [ThreadStep(kind, n)])
    ensures After(s, [ThreadStep(kind, n)]).status in {Preparing, Active}
  {
    hide AllTrue, Next;
    var s1 := StepThread(s, kind, n);
    assert [ThreadStep(kind, n)][1..] == [];
    assert After(s, [ThreadStep(kind, n)]) == After(s1, []);
  }

  /** ... and in two from the scan. */
  lemma InsertLeadsToStore(s: State, kind: Kind, n: Name)
    requires s.lock == Held(kind, n) && InFlight(s) && GroupOf(s, kind).threads[n].pc == Insert
    ensures ThreadEnabled(s, kind, n)
    ensures var s1 := StepThread(s, kind, n);
            s1.lock == s.lock && InFlight(s1) && GroupOf(s1, kind).threads[n].pc == StoreFirst
  {
    hide AllTrue;
  }

  lemma InFlightStores(s: State) returns (acts: seq<Action>)
    requires Weak(s) && InFlight(s)
    ensures Can(s, acts) && After(s, acts).status in {Preparing, Active}
  {
    var kind, n := s.lock.kind, s.lock.name;
    var a := ThreadStep(kind, n);
    if GroupOf(s, kind).threads[n].pc == Insert {
      InsertLeadsToStore(s, kind, n);
      var s1 := StepThread(s, kind, n);
      hide InFlight, StepThread, Weak, ThreadEnabled;
      StoreMade(s1, kind, n);
      acts := [a, a];
      assert acts[1..] == [a];
      assert After(s, acts) == After(s1, [a]);
    } else {
      LockEffect(s, kind, n);
      hide InFlight, StepThread, Weak;
      StoreMade(s, kind, n);
      acts := [a];
    }
  }

  /** After an early stop the status stays Stopped, whatever the threads do from there, if and
      only if no `mark_*` was past its guard with a store still to make. */
  lemma EarlyStopHoldsExactly(r: Run, i: nat)
    requires ValidRun(r) && i < |r.states| && StoppedEarly(r.states[i])
    ensures StaysStopped(r.states[i]) <==> !InFlight(r.states[i])
  {
    hide ValidRun, Weak, InFlight;
    var s := r.states[i];
    WeakRun(r, i);
    if InFlight(s) {
      var acts := InFlightStores(s);
    } else {
      forall acts: seq<Action> | Can(s, acts)
        ensures After(s, acts).status == Stopped
      {
        QuietStays(s, acts);
      }
    }
  }

  // ---------------------------------------------------------------- the order of statuses

  /** The main thread's decision for the early branch taken back. */
  function Undecided(s: State): State {
    if s.main == EarlyStore then s.(main := ReadStatus) else s
  }

  lemma UndecidedThreadStep(s: State, kind: Kind, n: Name)
    requires ThreadEnabled(s, kind, n)
    ensures ThreadEnabled(Undecided(s), kind, n)
    ensures StepThread(Undecided(s), kind, n) == Undecided(StepThread(s, kind, n))
  {
    hide Next, StatusOf, InsertInto, CanRun;
  }

  /** Up to the early store itself the strong invariant goes on, for all but the main thread. */
  lemma UndecidedStep(s: State, a: Action)
    requires Strong(Undecided(s)) && Enabled(s, a)
    requires s.main != EarlyFinished && Apply(s, a).main != EarlyFinished
    ensures Strong(Undecided(Apply(s, a)))
    ensures Phase(s.status) <= Phase(Apply(s, a).status) <= Phase(s.status) + 1
  {
    hide Strong, Phase, StepThread;
    if s.main == EarlyStore {
      if a.ThreadStep? {
        UndecidedThreadStep(s, a.kind, a.name);
        StrongThreadStep(Undecided(s), a.kind, a.name);
      }
    } else if a == MainStep && s.main == ReadStatus && s.status != Active {
      assert Undecided(Apply(s, a)) == s;
    } else {
      if a.ThreadStep? {
        ThreadFrame(s, a.kind, a.name);
      }
      StrongStep(s, a);
    }
  }

  lemma {:induction false} UndecidedRun(r: Run, i: nat)
    requires ValidRun(r) && i < |r.states| && r.states[i].main != EarlyFinished
    ensures Strong(Undecided(r.states[i]))
    ensures i > 0 ==> r.states[i - 1].main != EarlyFinished
  {
    hide Strong, Enabled, Apply;
    if i == 0 {
      StrongInit(r.states[0].shutdownFn);
    } else {
      assert StepOk(r, i - 1);
      if r.states[i - 1].main == EarlyFinished {
        FinishedEarlyStays(r.states[i - 1], r.actions[i - 1]);
      }
      UndecidedRun(r, i - 1);
      UndecidedStep(r.states[i - 1], r.actions[i - 1]);
    }
  }

  lemma FinishedEarlyStays(s: State, a: Action)
    requires Enabled(s, a) && s.main == EarlyFinished
    ensures Apply(s, a).main == EarlyFinished
  {
    if a.ThreadStep? {
      ThreadFrame(s, a.kind, a.name);
      hide StepThread;
    }
  }

  /** Also on a run stopped early the status never turns back and skips no phase, up to the store of
      the early branch. */
  lemma {:induction false} MonotoneUntilEarlyStore(r: Run, i: nat, j: nat)
    requires ValidRun(r) && i <= j < |r.states| && r.states[j].main != EarlyFinished
    ensures Phase(r.states[i].status) <= Phase(r.states[j].status) <= Phase(r.states[i].status) + (j - i)
    decreases j - i
  {
    hide Strong, Enabled, Apply, Phase;
    if i < j {
      UndecidedRun(r, j);
      UndecidedRun(r, j - 1);
      MonotoneUntilEarlyStore(r, i, j - 1);
      assert StepOk(r, j - 1);
      UndecidedStep(r.states[j - 1], r.actions[j - 1]);
    }
  }

  predicate Monotone(r: Run) {
    forall i, j :: 0 <= i <= j < |r.states| ==> Phase(r.states[i].status) <= Phase(r.states[j].status)
  }

  predicate Continues(r: Run, r': Run) {
    && |r.states| <= |r'.states|
    && forall i :: 0 <= i < |r.states| ==> r'.states[i] == r.states[i]
  }

  /** The last step of the run is the store of the early branch. */
  predicate JustStoppedEarly(r: Run) {
    && |r.states| == |r.actions| + 1 > 1
    && r.states[|r.actions| - 1].main == EarlyStore && r.actions[|r.actions| - 1] == MainStep
  }

  function Last(r: Run): State
    requires |r.states| > 0
  {
    r.states[|r.states| - 1]
  }

  function Extend(r: Run, a: Action): (r': Run)
    requires ValidRun(r) && Enabled(Last(r), a)
    ensures ValidRun(r') && |r'.states| == |r.states| + 1 && Last(r') == Apply(Last(r), a)
    ensures forall i :: 0 <= i < |r.states| ==> r'.states[i] == r.states[i]
  {
    hide Enabled, Apply;
    var r' := Run(r.states + [Apply(Last(r), a)], r.actions + [a]);
    assert forall i :: 0 <= i < |r'.actions| ==> StepOk(r', i) by {
      forall i | 0 <= i < |r'.actions|
        ensures StepOk(r', i)
      {
        assert i < |r.actions| ==> StepOk(r, i);
      }
    }
    r'
  }

  function ExtendAll(r: Run, acts: seq<Action>): (r': Run)
    requires ValidRun(r) && Can(Last(r), acts)
    ensures ValidRun(r') && Continues(r, r') && Last(r') == After(Last(r), acts)
    decreases |acts|
  {
    hide ValidRun, Enabled, Apply;
    if acts == [] then r else ExtendAll(Extend(r, acts[0]), acts[1..])
  }

  lemma {:induction false} QuietAlong(r: Run, i: nat, j: nat)
    requires ValidRun(r) && i <= j < |r.states| && StoppedEarly(r.states[i]) && !InFlight(r.states[i])
    ensures StoppedEarly(r.states[j]) && !InFlight(r.states[j])
    decreases j
  {
    hide Weak, InFlight, Enabled, Apply, StoppedEarly;
    if i < j {
      QuietAlong(r, i, j - 1);
      WeakRun(r, j - 1);
      assert StepOk(r, j - 1);
      QuietStep(r.states[j - 1], r.actions[j - 1]);
    }
  }

  lemma EarlyStoreIsMade(r: Run)
    requires ValidRun(r) && JustStoppedEarly(r)
    ensures StoppedEarly(Last(r))
  {
    assert StepOk(r, |r.actions| - 1);
  }

  lemma AtMostStopped(st: Status)
    ensures Phase(st) <= Phase(Stopped)
    ensures st in {Preparing, Active} ==> Phase(st) < Phase(Stopped)
  {
  }

  lemma QuietIsMonotone(r: Run, r': Run)
    requires ValidRun(r) && JustStoppedEarly(r) && !InFlight(Last(r))
    requires ValidRun(r') && Continues(r, r')
    ensures Monotone(r')
  {
    hide ValidRun, InFlight, Phase;
    EarlyStoreIsMade(r);
    var e := |r.actions|;
    forall i, j | 0 <= i <= j < |r'.states|
      ensures Phase(r'.states[i].status) <= Phase(r'.states[j].status)
    {
      if j < e {
        assert r'.states[e - 1].main == EarlyStore;
        UndecidedRunBack(r', j, e - 1);
        MonotoneUntilEarlyStore(r', i, j);
      } else {
        QuietAlong(r', e, j);
        AtMostStopped(r'.states[i].status);
      }
    }
  }

  lemma {:induction false} UndecidedRunBack(r: Run, i: nat, j: nat)
    requires ValidRun(r) && i <= j < |r.states| && r.states[j].main != EarlyFinished
    ensures r.states[i].main != EarlyFinished
    decreases j
  {
    hide ValidRun, Strong;
    if i < j {
      UndecidedRun(r, j);
      UndecidedRunBack(r, i, j - 1);
    }
  }

  /** After an early stop the statuses keep their order on every continuation of the run if and only
      if no `mark_*` was past its guard with a store still to make. */
  lemma EarlyOrderExactly(r: Run)
    requires ValidRun(r) && JustStoppedEarly(r)
    ensures (forall r': Run :: ValidRun(r') && Continues(r, r') ==> Monotone(r')) <==> !InFlight(Last(r))
  {
    hide ValidRun, InFlight, Weak, Phase;
    if InFlight(Last(r)) {
      EarlyStoreIsMade(r);
      LastIsWeak(r);
      var acts := InFlightStores(Last(r));
      var r' := ExtendAll(r, acts);
      AtMostStopped(Last(r').status);
      assert r'.states[|r.states| - 1] == Last(r);
      assert !Monotone(r');
    } else {
      forall r': Run | ValidRun(r') && Continues(r, r')
        ensures Monotone(r')
      {
        QuietIsMonotone(r, r');
      }
    }
  }

  lemma LastIsWeak(r: Run)
    requires ValidRun(r)
    ensures Weak(Last(r))
  {
    WeakRun(r, |r.states| - 1);
  }

  // ---------------------------------------------------------------- a concrete run

  const LONE: Name := Name("Iplc")

  /** One input loop, about to store Preparing, and the main thread polling. */
  lemma ReachStoreFirst() returns (r: Run)
    ensures ValidRun(r) && Last(r).main == Poll && Last(r).status == Syncing
    ensures LONE in Last(r).input.threads && Last(r).input.threads[LONE].pc == StoreFirst
    ensures Last(r).input.entries != map[]
  {
    r := Run([Init(true)], []);
    r := Extend(r, Spawn(Input, LONE, false));
    r := Extend(r, MainStep);
    r := Extend(r, MainStep);
    r := Extend(r, MainStep);
    r := Extend(r, MainStep);
    assert Last(r).main == CheckPreparing && Last(r).lock == Free && Last(r).input.entries == map[LONE := false];
    assert LONE in Last(r).input.entries;
    r := Extend(r, MainStep);
    r := Extend(r, MainStep);
    assert Last(r).main == Poll && Last(r).input.threads[LONE].pc == Gate;
    r := WalkToStoreFirst(r);
  }

  lemma InsertLast(s: State)
    requires LONE in s.input.threads && s.input.threads[LONE].pc == Insert
    requires s.input.entries == map[LONE := false]
    ensures ThreadEnabled(s, Input, LONE)
    ensures var s' := StepThread(s, Input, LONE);
            && s'.main == s.main && s'.status == s.status && s'.input.entries != map[]
            && s'.input.threads[LONE].pc == StoreFirst
  {
    var entries := s.input.entries[LONE := true];
    assert LONE in entries;
    assert AllTrue(entries);
  }

  lemma WalkToStoreFirst(r0: Run) returns (r: Run)
    requires ValidRun(r0) && Last(r0).main == Poll && Last(r0).status == Syncing && Last(r0).lock == Free
    requires Last(r0).input.entries == map[LONE := false] && !Last(r0).input.up
    requires Last(r0).input.threads == map[LONE := Thread(false, Gate, false, false)]
    ensures ValidRun(r) && Last(r).main == Poll && Last(r).status == Syncing
    ensures LONE in Last(r).input.threads && Last(r).input.threads[LONE].pc == StoreFirst
    ensures Last(r).input.entries != map[]
  {
    hide ValidRun;
    var a := ThreadStep(Input, LONE);
    r := Extend(r0, a);
    r := Extend(r, a);
    r := Extend(r, a);
    assert Last(r).input.threads[LONE] == Thread(false, CheckStop, false, false);
    r := WalkThroughMark(r);
  }

  lemma WalkThroughMark(r0: Run) returns (r: Run)
    requires ValidRun(r0) && Last(r0).main == Poll && Last(r0).status == Syncing && Last(r0).lock == Free
    requires Last(r0).input.entries == map[LONE := false] && !Last(r0).input.up
    requires LONE in Last(r0).input.threads && Last(r0).input.threads[LONE] == Thread(false, CheckStop, false, false)
    ensures ValidRun(r) && Last(r).main == Poll && Last(r).status == Syncing
    ensures LONE in Last(r).input.threads && Last(r).input.threads[LONE].pc == StoreFirst
    ensures Last(r).input.entries != map[]
  {
    hide ValidRun;
    var a := ThreadStep(Input, LONE);
    r := Extend(r0, a);
    r := Extend(r, a);
    assert Last(r).input.threads[LONE].pc == Guard;
    r := Extend(r, a);
    InsertLast(Last(r));
    r := Extend(r, a);
  }

  /** Without the branch condition of `run` the order of statuses does fail: here Preparing is
      stored over Stopped. */
  lemma EarlyStopBreaksOrder() returns (r: Run, i: nat, j: nat)
    ensures ValidRun(r) && i < j < |r.states| && Early(r.states[j])
    ensures r.states[i].status == Stopped && r.states[j].status == Preparing
  {
    r := ReachStoreFirst();
    hide ValidRun;
    r := Extend(r, Term);
    r := Extend(r, MainStep);
    assert Last(r).main == EarlyStore;
    r := Extend(r, MainStep);
    i := |r.states| - 1;
    assert Last(r).input.threads[LONE].pc == StoreFirst;
    r := Extend(r, ThreadStep(Input, LONE));
    j := |r.states| - 1;
  }
}
