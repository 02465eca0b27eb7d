/** The shutdown handshake finishes: from the moment the main thread decides to stop from Active,
    every fair run reaches Stopped and the end of `run`. */
module LifecycleLive {
  import opened Controller
  import opened Lifecycle
  import opened LifecycleInvariants
  import opened LifecycleStrong
  import opened LifecycleTheorems

  // ---------------------------------------------------------------- gates and further cycles

  lemma PastGate(s: State, kind: Kind, n: Name)
    requires Strong(s) && Phase(s.status) >= Phase(Active) && kind != Output
    requires n in GroupOf(s, kind).threads
    ensures GroupOf(s, kind).threads[n].pc != Gate
  {
    hide Strong, Weak, MainOk, StoresBehind, Joined;
    StrongParts(s);
    UpMeansAll(s, kind, n);
    ThreadIsOk(s, kind, n);
  }

  /** In Active and later no registered input or program is still waiting at its gate. */
  lemma PastGates(r: Run, k: nat, kind: Kind, n: Name)
    requires ValidRun(r) && k < |r.states| && !Early(r.states[k]) && kind != Output
    requires Phase(r.states[k].status) >= Phase(Active) && n in GroupOf(r.states[k], kind).threads
    ensures GroupOf(r.states[k], kind).threads[n].pc != Gate
  {
    hide ValidRun, Strong, Early;
    StrongRun(r, k);
    PastGate(r.states[k], kind, n);
  }

  /** Steps a thread may still take once its stop condition is visible. */
  function Rank(kind: Kind, t: Thread): nat {
    match t.pc
    case Done => 0
    case CheckStop => 1
    case Leave => 5
    case StoreSecond => 6
    case StoreFirst => 7
    case Insert => 8
    case Guard => 9
    case Enter => 10
    case Body => if kind != Output then 2 else if t.last then 11 else 14
    case Begin => if kind != Output then 3 else 12
    case Sleep => if kind != Output then 4 else 13
    case Gate => 15
  }

  /** Whether the steps of this thread count towards the end of the shutdown. */
  predicate Counts(kind: Kind, t: Thread, ph: nat) {
    ph >= 5 && (kind != Output || ph == 6 || (ph == 7 && t.last))
  }

  /** Steps an input or program may still take before it is marked, as long as nothing stops. */
  function StartRank(t: Thread): nat {
    if t.marked then 0
    else
      match t.pc
      case Gate => 10
      case Begin => 9
      case Body => 8
      case CheckStop => 7
      case Enter => 6
      case Guard => 5
      case Insert => 4
      case StoreFirst => 3
      case StoreSecond => 2
      case Leave => 1
      case _ => 0
  }

  /** What a thread adds to the measure in a phase: before the stop the way to its mark, after it
      the way to its end. */
  function CountedRank(kind: Kind, t: Thread, ph: nat): nat {
    if ph < 5 then (if kind == Output then 0 else StartRank(t))
    else if Counts(kind, t, ph) then Rank(kind, t)
    else 0
  }

  lemma RankNext(kind: Kind, t: Thread, entry: bool, st: Status, up: bool, ph': nat)
    requires ThreadOk(kind, t, entry, Phase(st)) && t.pc != Done && Phase(st) >= 5
    requires t.pc == StoreSecond ==> kind == Input
    requires ph' == Phase(st) || (Phase(st) == 6 && ph' == 7)
    ensures Counts(kind, t, Phase(st)) ==>
              CountedRank(kind, Next(kind, t, st, up), ph') < CountedRank(kind, t, Phase(st))
    ensures !Counts(kind, t, Phase(st)) && ph' == Phase(st) ==>
              CountedRank(kind, Next(kind, t, st, up), ph') == 0
              && t.pc != Enter && !InMark(t.pc)
  {
    GatesFollowPhases(st);
  }

  // ---------------------------------------------------------------- sums over a group

  ghost function Total(kind: Kind, threads: map<Name, Thread>, ph: nat): nat
    decreases threads.Keys
  {
    if threads == map[] then 0
    else
      var n :| n in threads;
      CountedRank(kind, threads[n], ph) + Total(kind, threads - {n}, ph)
  }

  lemma {:induction false} TotalSplit(kind: Kind, threads: map<Name, Thread>, ph: nat, n: Name)
    requires n in threads
    ensures Total(kind, threads, ph) == CountedRank(kind, threads[n], ph) + Total(kind, threads - {n}, ph)
    decreases threads.Keys
  {
    hide CountedRank;
    var m :| m in threads &&
      Total(kind, threads, ph) == CountedRank(kind, threads[m], ph) + Total(kind, threads - {m}, ph);
    if m != n {
      TotalSplit(kind, threads - {m}, ph, n);
      TotalSplit(kind, threads - {n}, ph, m);
      assert threads - {m} - {n} == threads - {n} - {m};
    }
  }

  lemma TotalUpdate(kind: Kind, threads: map<Name, Thread>, ph: nat, n: Name, t: Thread)
    requires n in threads
    ensures Total(kind, threads[n := t], ph) + CountedRank(kind, threads[n], ph)
            == Total(kind, threads, ph) + CountedRank(kind, t, ph)
  {
    hide CountedRank;
    TotalSplit(kind, threads, ph, n);
    TotalSplit(kind, threads[n := t], ph, n);
    assert threads[n := t] - {n} == threads - {n};
  }

  /** Ranks only drop when the phase moves on from 6 to 7. */
  lemma {:induction false} TotalLater(kind: Kind, threads: map<Name, Thread>)
    ensures Total(kind, threads, 7) <= Total(kind, threads, 6)
    decreases threads.Keys
  {
    hide Rank;
    if threads != map[] {
      var n :| n in threads;
      TotalSplit(kind, threads, 6, n);
      TotalSplit(kind, threads, 7, n);
      TotalLater(kind, threads - {n});
    }
  }

  // ---------------------------------------------------------------- the measure

  function MainRank(m: MainPc): nat {
    match m
    case StoreStopping => 9
    case Join => 8
    case ShutdownFn => 7
    case StoreStopSyncing => 6
    case CheckStopped => 5
    case StopDatasync => 4
    case StoreStopped => 3
    case WaitStopped => 2
    case Finished => 1
    case _ => 0
  }

  ghost function GroupTotal(s: State, kind: Kind): nat {
    Total(kind, GroupOf(s, kind).threads, Phase(s.status))
  }

  ghost function TotalAll(s: State): nat {
    GroupTotal(s, Input) + GroupTotal(s, Program) + GroupTotal(s, Output)
  }

  /** The main thread is in the shutdown handshake and Stopping has been stored. */
  predicate InShutdown(s: State) {
    s.main == Join || PastJoin(s.main)
  }

  ghost predicate Less(s': State, s: State) {
    MainRank(s'.main) < MainRank(s.main) || (s'.main == s.main && TotalAll(s') < TotalAll(s))
  }

  lemma StoppingPhase(s: State)
    requires Strong(s) && InShutdown(s)
    ensures 5 <= Phase(s.status)
    ensures s.main == Join || s.main == ShutdownFn || s.main == StoreStopSyncing ==> Phase(s.status) == 5
    ensures s.main == CheckStopped || s.main == StopDatasync || s.main == StoreStopped || s.main == WaitStopped ==>
              6 <= Phase(s.status)
    ensures s.main == WaitStopped && Phase(s.status) == 6 ==> s.shutdownFn && s.output.entries != map[]
  {
    hide Weak, GroupOk, Barriers, Joined;
  }

  lemma MainStepLess(s: State)
    requires Strong(s) && InShutdown(s) && MainEnabled(s)
    ensures Less(StepMain(s), s) && InShutdown(StepMain(s)) && !Early(StepMain(s))
  {
    hide Strong, TotalAll, Joined;
  }

  /** The stepping thread's own group. */
  lemma OwnTotal(s: State, kind: Kind, n: Name)
    requires Strong(s) && InShutdown(s) && ThreadEnabled(s, kind, n)
    ensures var s' := StepThread(s, kind, n); var t := GroupOf(s, kind).threads[n];
            && (Counts(kind, t, Phase(s.status)) ==> GroupTotal(s', kind) < GroupTotal(s, kind))
            && (!Counts(kind, t, Phase(s.status)) ==>
                  && GroupTotal(s', kind) == GroupTotal(s, kind)
                  && s'.status == s.status && s'.lock == s.lock && kind == Output)
  {
    var g := GroupOf(s, kind);
    var t := g.threads[n];
    var s' := StepThread(s, kind, n);
    var ph := Phase(s.status);
    var ph' := Phase(s'.status);
    hide Strong, Weak, Barriers, MainOk, Joined, StepThread, Next, ThreadOk, CanRun, CountedRank, Total;
    StoppingPhase(s);
    StrongParts(s);
    LockEffect(s, kind, n);
    PhaseEffect(s, kind, n);
    ThreadFrame(s, kind, n);
    ThreadIsOk(s, kind, n);
    hide Phase, ThreadEnabled, InShutdown;
    var t' := Next(kind, t, s.status, GroupOf(s', kind).up);
    RankNext(kind, t, g.entries[n], s.status, GroupOf(s', kind).up, ph');
    TotalUpdate(kind, g.threads, ph, n, t');
    TotalUpdate(kind, g.threads, ph', n, t');
    TotalSplit(kind, g.threads, ph, n);
    if ph' != ph {
      TotalLater(kind, g.threads - {n});
      TotalSplit(kind, g.threads, ph', n);
    }
    assert !Counts(kind, t, ph) ==> CountedRank(kind, t, ph) == 0 by { UncountedIsZero(kind, t, ph); }
  }

  lemma UncountedIsZero(kind: Kind, t: Thread, ph: nat)
    requires ph >= 5
    ensures !Counts(kind, t, ph) ==> CountedRank(kind, t, ph) == 0
  {
  }

  /** Every step in the shutdown phase either counts and brings the end nearer, or is an output
      cycle that changes neither the status nor the lock. */
  lemma ThreadStepLess(s: State, kind: Kind, n: Name)
    requires Strong(s) && InShutdown(s) && ThreadEnabled(s, kind, n)
    ensures var s' := StepThread(s, kind, n); var t := GroupOf(s, kind).threads[n];
            && s'.main == s.main
            && (Counts(kind, t, Phase(s.status)) ==> Less(s', s))
            && (!Counts(kind, t, Phase(s.status)) ==>
                  && TotalAll(s') == TotalAll(s)
                  && s'.status == s.status && s'.lock == s.lock && kind == Output)
  {
    var s' := StepThread(s, kind, n);
    OwnTotal(s, kind, n);
    PhaseEffect(s, kind, n);
    ThreadFrame(s, kind, n);
    WeakGroups(s, kind);
    ThreadStepFrame(s, kind, n);
    hide Strong, StepThread, Phase, ThreadEnabled, CountedRank, Total, InShutdown, Counts;
    forall k: Kind | k != kind
      ensures GroupTotal(s', k) <= GroupTotal(s, k)
      ensures s'.status == s.status ==> GroupTotal(s', k) == GroupTotal(s, k)
    {
      TotalLater(k, GroupOf(s, k).threads);
    }
  }

  // ---------------------------------------------------------------- progress

  /** An enabled action that brings the end of the shutdown nearer. */
  predicate Pushes(s: State, a: Action) {
    Enabled(s, a) &&
    match a
    case MainStep => true
    case ThreadStep(kind, n) => Counts(kind, GroupOf(s, kind).threads[n], Phase(s.status))
    case _ => false
  }

  lemma PushIsLess(s: State, a: Action)
    requires Strong(s) && InShutdown(s) && Pushes(s, a)
    ensures Less(Apply(s, a), s) && Strong(Apply(s, a)) && InShutdown(Apply(s, a))
  {
    hide Strong, Less, StepMain, StepThread, Counts, MainEnabled, ThreadEnabled, Early;
    NotEarlyInShutdown(s, a);
    StrongStep(s, a);
    if a == MainStep {
      MainStepLess(s);
    } else {
      ThreadStepLess(s, a.kind, a.name);
    }
  }

  lemma NotEarlyInShutdown(s: State, a: Action)
    requires InShutdown(s) && Enabled(s, a)
    ensures !Early(Apply(s, a))
  {
    hide StepThread;
    if a.ThreadStep? {
      ThreadFrame(s, a.kind, a.name);
    }
  }

  /** The other actions change nothing that matters to the shutdown. */
  lemma OtherwiseSame(s: State, b: Action)
    requires Strong(s) && InShutdown(s) && Enabled(s, b) && !Pushes(s, b)
    ensures var s' := Apply(s, b);
            && Strong(s') && s'.main == s.main && TotalAll(s') == TotalAll(s)
            && s'.status == s.status && s'.lock == s.lock
            && s'.input == s.input && s'.program == s.program && s'.shutdownFn == s.shutdownFn
            && (b == Idle || (b.ThreadStep? && b.kind == Output))
  {
    hide Strong, Early;
    NotEarlyInShutdown(s, b);
    StrongStep(s, b);
    match b
    case ThreadStep(kind, n) =>
      hide Phase, InShutdown, TotalAll, Counts, Less, StatusAfter, LockAfter, Next, ThreadEnabled;
      ThreadStepLess(s, kind, n);
      ThreadFrame(s, kind, n);
      assert GroupOf(Apply(s, b), Input) == Apply(s, b).input && GroupOf(Apply(s, b), Program) == Apply(s, b).program;
      hide StepThread;
    case _ =>
  }

  /** The main thread's next step does not look at the outputs. */
  lemma MainStaysEnabled(s: State, s': State)
    requires MainEnabled(s) && s'.main == s.main && s'.status == s.status && s'.lock == s.lock
    requires s'.input == s.input && s'.program == s.program && s'.shutdownFn == s.shutdownFn
    ensures MainEnabled(s')
  {
    hide AllDone;
  }

  lemma ThreadStaysEnabled(s: State, s': State, kind: Kind, n: Name)
    requires ThreadEnabled(s, kind, n) && s'.status == s.status && s'.lock == s.lock
    requires n in GroupOf(s', kind).threads && GroupOf(s', kind).threads[n] == GroupOf(s, kind).threads[n]
    ensures ThreadEnabled(s', kind, n)
  {
    hide CanRun, GroupOf;
  }

  lemma PushStays(s: State, a: Action, b: Action)
    requires Strong(s) && InShutdown(s) && Pushes(s, a) && Enabled(s, b) && !Pushes(s, b)
    ensures Pushes(Apply(s, b), a)
  {
    OtherwiseSame(s, b);
    if b != Idle {
      ThreadFrame(s, b.kind, b.name);
      var s' := Apply(s, b);
      InputsAndPrograms(s, s');
      hide Strong, TotalAll, InShutdown, Counts, MainEnabled, ThreadEnabled;
      hide StepThread, StepMain, GroupOf, StatusAfter, LockAfter, Next;
      if a == MainStep {
        MainStaysEnabled(s, s');
      } else {
        assert a.kind == Output ==> a.name != b.name;
        ThreadStaysEnabled(s, s', a.kind, a.name);
      }
    }
  }

  lemma InputsAndPrograms(s: State, s': State)
    requires s'.input == s.input && s'.program == s.program
    ensures GroupOf(s', Input) == GroupOf(s, Input) && GroupOf(s', Program) == GroupOf(s, Program)
  {
  }

  /** Until the main thread is done, somebody can push. */
  lemma SomePush(s: State) returns (a: Action)
    requires Strong(s) && InShutdown(s) && s.main != Finished
    ensures Pushes(s, a)
  {
    hide Strong, Counts, InShutdown, GroupOf;
    if s.lock.Held? {
      a := ThreadStep(s.lock.kind, s.lock.name);
      HolderPushes(s);
    } else if MainEnabled(s) {
      a := MainStep;
    } else if s.main == Join {
      a := WaitingLoop(s);
    } else {
      a := WaitingOutput(s);
    }
  }

  lemma ActiveIsFour()
    ensures Phase(Active) == 4
  {
  }

  /** While the main thread is joining, some input or program has not finished. */
  lemma WaitingLoop(s: State) returns (a: Action)
    requires Strong(s) && !s.lock.Held? && s.main == Join && !MainEnabled(s)
    ensures Pushes(s, a)
  {
    hide Strong, Phase, InShutdown, GroupOf, CanRun;
    JoinIsStopping(s);
    FreeLock(s);
    StoppingPhase(s);
    var kind := if AllDone(s.input.threads) then Program else Input;
    assert !AllDone(GroupOf(s, kind).threads);
    hide MainEnabled, Joined;
    var n :| n in GroupOf(s, kind).threads && GroupOf(s, kind).threads[n].pc != Done;
    ActiveIsFour();
    PastGate(s, kind, n);
    a := ThreadStep(kind, n);
  }

  lemma JoinIsStopping(s: State)
    requires s.main == Join
    ensures InShutdown(s)
    ensures !MainEnabled(s) ==> !AllDone(GroupOf(s, if AllDone(s.input.threads) then Program else Input).threads)
  {
    hide AllDone;
  }

  lemma FreeLock(s: State)
    requires Strong(s) && InShutdown(s) && !s.lock.Held?
    ensures s.lock == Free
  {
    hide WeakGroup, GroupOk, Barriers, MainOk;
  }

  lemma HolderPushes(s: State)
    requires Strong(s) && InShutdown(s) && s.lock.Held?
    ensures Pushes(s, ThreadStep(s.lock.kind, s.lock.name))
  {
    hide Strong, Weak, Barriers, MainOk, Joined;
    StoppingPhase(s);
    StrongParts(s);
    var kind, n := s.lock.kind, s.lock.name;
    WeakGroups(s, kind);
    ThreadIsWeak(s, kind, n);
    ThreadIsOk(s, kind, n);
    hide WeakGroup;
  }

  /** While `run` waits for Stopped, some output has not finished its last sync. */
  lemma WaitingOutput(s: State) returns (a: Action)
    requires Strong(s) && InShutdown(s) && !s.lock.Held? && !MainEnabled(s)
    requires s.main != Join && s.main != Finished
    ensures Pushes(s, a)
  {
    hide Strong, Weak, MainOk, Joined, FlagsBehind;
    FreeLock(s);
    StoppingPhase(s);
    WaitsInStopSyncing(s);
    StrongParts(s);
    WeakGroups(s, Output);
    assert !s.output.up;
    var n :| n in s.output.entries && !s.output.entries[n];
    ThreadIsOk(s, Output, n);
    GatesFollowPhases(s.status);
    a := ThreadStep(Output, n);
  }

  lemma WaitsInStopSyncing(s: State)
    requires Strong(s) && InShutdown(s) && s.lock == Free && !MainEnabled(s)
    requires s.main != Join && s.main != Finished
    ensures s.main == WaitStopped && Phase(s.status) == 6
  {
    hide Weak, GroupOk, Barriers, Joined;
  }

  // ---------------------------------------------------------------- fair infinite runs

  ghost predicate Infinite(st: nat -> State, ac: nat -> Action) {
    && st(0) == Init(st(0).shutdownFn)
    && forall i: nat :: Follows(st, ac, i)
  }

  ghost predicate Follows(st: nat -> State, ac: nat -> Action, i: nat) {
    Enabled(st(i), ac(i)) && st(i + 1) == Apply(st(i), ac(i))
  }

  /** Nobody who can act is passed over for ever: bodies and the shutdown function end, and the
      scheduler is weakly fair to the main thread and to every loop. */
  ghost predicate Fair(st: nat -> State, ac: nat -> Action) {
    forall i: nat, a: Action :: a.MainStep? || a.ThreadStep? ==> Served(st, ac, i, a)
  }

  ghost predicate Served(st: nat -> State, ac: nat -> Action, i: nat, a: Action) {
    exists j: nat :: j >= i && (!Enabled(st(j), a) || ac(j) == a)
  }

  lemma {:induction false} StrongAt(st: nat -> State, ac: nat -> Action, i: nat)
    requires Infinite(st, ac) && !Early(st(i))
    ensures Strong(st(i))
  {
    hide Strong, Enabled, Apply, Early;
    if i == 0 {
      StrongInit(st(0).shutdownFn);
    } else {
      assert Follows(st, ac, i - 1);
      EarlyStep(st(i - 1), ac(i - 1));
      StrongAt(st, ac, i - 1);
      StrongStep(st(i - 1), ac(i - 1));
    }
  }

  /** Waiting for `a` to be served, somebody pushes at the latest when `a` is. */
  lemma {:induction false} UntilPush(st: nat -> State, ac: nat -> Action, i: nat, a: Action, last: nat) returns (j: nat)
    requires Infinite(st, ac) && i <= last && (!Enabled(st(last), a) || ac(last) == a)
    requires Strong(st(i)) && InShutdown(st(i)) && Pushes(st(i), a)
    ensures i <= j && Strong(st(j)) && InShutdown(st(j)) && Pushes(st(j), ac(j))
    ensures st(j).main == st(i).main && TotalAll(st(j)) == TotalAll(st(i))
    decreases last - i
  {
    hide Strong, Enabled, Apply, InShutdown, TotalAll, Pushes;
    PushIsEnabled(st(i), a);
    if Pushes(st(i), ac(i)) {
      j := i;
    } else {
      assert Follows(st, ac, i);
      OtherwiseSame(st(i), ac(i));
      PushStays(st(i), a, ac(i));
      StillStopping(st(i), st(i + 1));
      j := UntilPush(st, ac, i + 1, a, last);
    }
  }

  lemma PushIsEnabled(s: State, a: Action)
    ensures Pushes(s, a) ==> Enabled(s, a) && (a.MainStep? || a.ThreadStep?)
  {
  }

  lemma ServedAt(st: nat -> State, ac: nat -> Action, i: nat, a: Action) returns (last: nat)
    requires Fair(st, ac) && Pushes(st(i), a)
    ensures last >= i && (!Enabled(st(last), a) || ac(last) == a)
  {
    hide Enabled, Pushes;
    PushIsEnabled(st(i), a);
    assert Served(st, ac, i, a);
    last :| last >= i && (!Enabled(st(last), a) || ac(last) == a);
  }

  lemma FollowsAt(st: nat -> State, ac: nat -> Action, i: nat)
    requires Infinite(st, ac)
    ensures Follows(st, ac, i)
  {
  }

  lemma LessCarries(s': State, s: State, s0: State)
    requires Less(s', s) && s.main == s0.main && TotalAll(s) == TotalAll(s0)
    ensures Less(s', s0)
  {
    hide TotalAll, MainRank;
  }

  lemma PushAt(st: nat -> State, ac: nat -> Action, j: nat)
    requires Infinite(st, ac) && Strong(st(j)) && InShutdown(st(j)) && Pushes(st(j), ac(j))
    ensures Less(st(j + 1), st(j)) && Strong(st(j + 1)) && InShutdown(st(j + 1))
  {
    hide Strong, InShutdown, Less, Pushes, Enabled, Apply;
    FollowsAt(st, ac, j);
    PushIsLess(st(j), ac(j));
  }

  lemma {:induction false} Progress(st: nat -> State, ac: nat -> Action, i: nat) returns (j: nat)
    requires Infinite(st, ac) && Fair(st, ac)
    requires Strong(st(i)) && InShutdown(st(i)) && st(i).main != Finished
    ensures j > i && Less(st(j), st(i)) && Strong(st(j)) && InShutdown(st(j))
  {
    hide Strong, Enabled, InShutdown, TotalAll, Less, Pushes, Fair, Infinite;
    var a := SomePush(st(i));
    var last := ServedAt(st, ac, i, a);
    j := UntilPush(st, ac, i, a, last);
    PushAt(st, ac, j);
    LessCarries(st(j + 1), st(j), st(i));
    j := j + 1;
  }

  lemma StillStopping(s: State, s': State)
    requires InShutdown(s) && s'.main == s.main
    ensures InShutdown(s')
  {
  }

  lemma {:induction false} HandshakeFinishes(st: nat -> State, ac: nat -> Action, i: nat) returns (j: nat)
    requires Infinite(st, ac) && Fair(st, ac) && Strong(st(i)) && InShutdown(st(i))
    ensures j >= i && st(j).main == Finished && st(j).status == Stopped
    decreases MainRank(st(i).main), TotalAll(st(i))
  {
    if st(i).main == Finished {
      j := i;
      FinishedIsStopped(st(i));
    } else {
      hide Strong, Infinite, Fair, InShutdown, TotalAll, MainRank;
      var k := Progress(st, ac, i);
      j := HandshakeFinishes(st, ac, k);
    }
  }

  lemma FinishedIsStopped(s: State)
    requires Strong(s) && s.main == Finished
    ensures s.status == Stopped
  {
    hide Weak, GroupOk, Barriers, Joined;
  }

  /** Nobody but the main thread moves it out of `StoreStopping`. */
  lemma StaysAtStoreStopping(s: State, a: Action)
    requires s.main == StoreStopping && Enabled(s, a)
    ensures Apply(s, a).main == if a == MainStep then Join else StoreStopping
  {
    if a.ThreadStep? {
      ThreadFrame(s, a.kind, a.name);
      hide StepThread;
    }
  }

  /** A stop decided in Active always ends in Stopped, and `run` returns. */
  lemma ShutdownFinishes(st: nat -> State, ac: nat -> Action, i: nat) returns (j: nat)
    requires Infinite(st, ac) && Fair(st, ac) && st(i).main == StoreStopping
    ensures j >= i && st(j).main == Finished && st(j).status == Stopped
  {
    hide Strong, Enabled, Apply;
    assert Served(st, ac, i, MainStep);
    var last: nat :| last >= i && (!Enabled(st(last), MainStep) || ac(last) == MainStep);
    var k := i;
    while ac(k) != MainStep
      invariant i <= k <= last && st(k).main == StoreStopping
      decreases last - k
    {
      assert Follows(st, ac, k);
      StaysAtStoreStopping(st(k), ac(k));
      AlwaysEnabled(st(k));
      k := k + 1;
    }
    assert Follows(st, ac, k);
    StaysAtStoreStopping(st(k), ac(k));
    StrongAt(st, ac, k + 1);
    j := HandshakeFinishes(st, ac, k + 1);
  }

  lemma AlwaysEnabled(s: State)
    requires s.main == StoreStopping
    ensures Enabled(s, MainStep)
  {
  }

  // ---------------------------------------------------------------- at most one more cycle

  lemma RankFalls(s: State, a: Action, kind: Kind, n: Name)
    requires Strong(s) && Enabled(s, a) && !Early(Apply(s, a)) && kind != Output
    requires Phase(s.status) >= 5 && n in GroupOf(s, kind).threads
    ensures n in GroupOf(Apply(s, a), kind).threads
    ensures var t := GroupOf(s, kind).threads[n]; var t' := GroupOf(Apply(s, a), kind).threads[n];
            if a == ThreadStep(kind, n) then Rank(kind, t') < Rank(kind, t) else t' == t
  {
    StrongStep(s, a);
    if a == ThreadStep(kind, n) {
      ThreadFrame(s, kind, n);
      LockEffect(s, kind, n);
      StrongParts(s);
      ThreadIsOk(s, kind, n);
      hide Strong, Next, ThreadOk, StepThread, Rank, Phase;
      RankNext(kind, GroupOf(s, kind).threads[n], GroupOf(s, kind).entries[n], s.status,
               GroupOf(StepThread(s, kind, n), kind).up, Phase(s.status));
    } else {
      StaysThere(s, a, kind, n);
      hide Strong, Apply, Phase, Enabled;
    }
  }

  lemma StaysThere(s: State, a: Action, kind: Kind, n: Name)
    requires Enabled(s, a) && a != ThreadStep(kind, n) && n in GroupOf(s, kind).threads
    ensures n in GroupOf(Apply(s, a), kind).threads
    ensures GroupOf(Apply(s, a), kind).threads[n] == GroupOf(s, kind).threads[n]
  {
    match a
    case ThreadStep(k, m) => ThreadFrame(s, k, m); hide StepThread;
    case MainStep =>
    case _ =>
  }

  lemma {:induction false} RankFallsAlong(r: Run, i: nat, j: nat, kind: Kind, n: Name)
    requires ValidRun(r) && i <= j < |r.states| && !Early(r.states[j]) && kind != Output
    requires Phase(r.states[i].status) >= 5 && n in GroupOf(r.states[i], kind).threads
    ensures n in GroupOf(r.states[j], kind).threads
    ensures Rank(kind, GroupOf(r.states[j], kind).threads[n]) <= Rank(kind, GroupOf(r.states[i], kind).threads[n])
    decreases j - i
  {
    hide Strong, Apply, Enabled, Early, Phase, Rank;
    if i < j {
      NotEarlyBefore(r, j - 1, j);
      RankFallsAlong(r, i, j - 1, kind, n);
      StrongRun(r, j - 1);
      assert StepOk(r, j - 1);
      StatusMonotone(r, i, j - 1);
      RankFalls(r.states[j - 1], r.actions[j - 1], kind, n);
    }
  }

  /** After Stopping an input or program loop passes the top of its loop at most once. */
  lemma AtMostOneMoreCycle(r: Run, i: nat, j: nat, kind: Kind, n: Name)
    requires ValidRun(r) && i < j < |r.actions| && !Early(r.states[j]) && kind != Output
    requires Phase(r.states[i].status) >= Phase(Stopping)
    requires r.actions[i] == ThreadStep(kind, n) && r.actions[j] == ThreadStep(kind, n)
    requires n in GroupOf(r.states[i], kind).threads && GroupOf(r.states[i], kind).threads[n].pc == Begin
    ensures n in GroupOf(r.states[j], kind).threads && GroupOf(r.states[j], kind).threads[n].pc != Begin
  {
    hide Strong, Apply, Enabled, Early;
    assert StepOk(r, i);
    NotEarlyBefore(r, i, j);
    NotEarlyBefore(r, i + 1, j);
    StrongRun(r, i);
    StatusMonotone(r, i, i + 1);
    RankFalls(r.states[i], r.actions[i], kind, n);
    RankFallsAlong(r, i + 1, j, kind, n);
  }
}
