/** The startup finishes: every fair run that is not told to stop reaches Active. */
module LifecycleStartup {
  import opened Basics
  import opened Controller
  import opened Lifecycle
  import opened LifecycleInvariants
  import opened LifecycleStrong
  import opened LifecycleTheorems
  import opened LifecycleLive

  /** The main thread has stored Syncing and was not told to stop yet. */
  predicate InStartup(s: State) {
    s.main == CheckPreparing || s.main == StorePreparing || s.main == CheckActive
    || s.main == StoreActive || s.main == Poll
  }

  predicate Waits(s: State) {
    InStartup(s) && Phase(s.status) < 4
  }

  function StartMainRank(m: MainPc): nat {
    match m
    case Boot => 9
    case StoreStarting => 8
    case Launch => 7
    case StoreSyncing => 6
    case CheckPreparing => 5
    case StorePreparing => 4
    case CheckActive => 3
    case StoreActive => 2
    case Poll => 1
    case _ => 0
  }

  // ---------------------------------------------------------------- the measure

  ghost function StartGroup(s: State, kind: Kind): nat {
    Total(kind, GroupOf(s, kind).threads, 0)
  }

  ghost function StartTotal(s: State): nat {
    StartGroup(s, Input) + StartGroup(s, Program)
  }

  ghost predicate Nearer(s': State, s: State) {
    StartMainRank(s'.main) < StartMainRank(s.main) || (s'.main == s.main && StartTotal(s') < StartTotal(s))
  }

  /** An enabled action that brings Active nearer. */
  predicate Helps(s: State, a: Action) {
    Enabled(s, a) &&
    match a
    case MainStep => true
    case ThreadStep(kind, n) => kind != Output && !GroupOf(s, kind).threads[n].marked
    case _ => false
  }

  /** A thread that is not marked gets nearer to it by each step, a marked one stays marked and
      keeps off the lock and the status. */
  lemma StartNext(kind: Kind, t: Thread, entry: bool, st: Status, up: bool)
    requires ThreadOk(kind, t, entry, Phase(st)) && t.pc != Done && Phase(st) < 4 && kind != Output
    ensures !t.marked ==> StartRank(Next(kind, t, st, up)) < StartRank(t)
    ensures t.marked ==> Next(kind, t, st, up).marked && t.pc != Enter && !InMark(t.pc)
  {
    GatesFollowPhases(st);
  }

  lemma OutputKeepsOff(t: Thread, entry: bool, ph: nat)
    requires ThreadOk(Output, t, entry, ph) && ph < 4
    ensures t.pc != Enter && !InMark(t.pc)
  {
  }

  lemma StartRankCounts(kind: Kind, t: Thread)
    ensures CountedRank(kind, t, 0) == if kind == Output then 0 else StartRank(t)
    ensures t.marked ==> StartRank(t) == 0
  {
  }

  /** One step of a thread in the startup. */
  lemma StartThreadStep(s: State, kind: Kind, n: Name)
    requires Strong(s) && Waits(s) && ThreadEnabled(s, kind, n)
    ensures var s' := StepThread(s, kind, n); var t := GroupOf(s, kind).threads[n];
            && s'.main == s.main
            && (kind != Output && !t.marked ==> Nearer(s', s))
            && (kind == Output || t.marked ==>
                  StartTotal(s') == StartTotal(s) && s'.status == s.status && s'.lock == s.lock)
  {
    hide Strong, ThreadOk, Phase, StartRank, CountedRank, Total, InStartup;
    hide StepThread, Next, CanRun, StatusAfter, LockAfter;
    var t := GroupOf(s, kind).threads[n];
    var s' := StepThread(s, kind, n);
    ThreadFrame(s, kind, n);
    ThreadIsOk(s, kind, n);
    KeepsOff(s, kind, n);
    var t' := GroupOf(s', kind).threads[n];
    TotalUpdate(kind, GroupOf(s, kind).threads, 0, n, t');
    StartRankCounts(kind, t);
    StartRankCounts(kind, t');
    if kind == Output {
      OutputKeepsOff(t, GroupOf(s, kind).entries[n], Phase(s.status));
    } else {
      StartNext(kind, t, GroupOf(s, kind).entries[n], s.status, GroupOf(s', kind).up);
    }
  }

  /** Outside `mark_*` a thread touches neither the lock nor the status. */
  lemma KeepsOff(s: State, kind: Kind, n: Name)
    requires ThreadEnabled(s, kind, n)
    ensures var s' := StepThread(s, kind, n); var pc := GroupOf(s, kind).threads[n].pc;
            pc != Enter && !InMark(pc) ==> s'.status == s.status && s'.lock == s.lock
    ensures GroupOf(s, kind).threads[n].pc != Done
  {
    ThreadFrame(s, kind, n);
    hide Next, StepThread;
  }

  lemma StartMainStep(s: State)
    requires InStartup(s) && MainEnabled(s)
    ensures InStartup(StepMain(s)) && Nearer(StepMain(s), s) && !Early(StepMain(s))
  {
    hide StartTotal;
  }

  lemma HelpIsNearer(s: State, a: Action)
    requires Strong(s) && Waits(s) && Helps(s, a)
    ensures Nearer(Apply(s, a), s) && Strong(Apply(s, a)) && InStartup(Apply(s, a))
  {
    hide Strong, Nearer, StepMain, StepThread, MainEnabled, ThreadEnabled;
    if a == MainStep {
      StartMainStep(s);
      StrongStep(s, a);
    } else {
      StartThreadStep(s, a.kind, a.name);
      StrongThreadStep(s, a.kind, a.name);
    }
  }

  /** Any other action, except being told to stop, changes nothing that matters to the startup. */
  lemma OthersStill(s: State, b: Action)
    requires Strong(s) && Waits(s) && Enabled(s, b) && !Helps(s, b) && b != Term
    ensures var s' := Apply(s, b);
            && Strong(s') && Waits(s') && s'.main == s.main && s'.status == s.status && s'.lock == s.lock
            && StartTotal(s') == StartTotal(s)
            && (b == Idle || (b.ThreadStep? && (b.kind == Output || GroupOf(s, b.kind).threads[b.name].marked)))
  {
    hide Strong, StartTotal;
    match b
    case ThreadStep(kind, n) =>
      hide StepThread, ThreadEnabled, Phase;
      StartThreadStep(s, kind, n);
      StrongThreadStep(s, kind, n);
    case _ =>
  }

  lemma HelpStays(s: State, a: Action, b: Action)
    requires Strong(s) && Waits(s) && Helps(s, a) && Enabled(s, b) && !Helps(s, b) && b != Term
    ensures Helps(Apply(s, b), a)
  {
    hide Strong, StartTotal, Waits;
    OthersStill(s, b);
    if b != Idle {
      hide StepThread, StepMain, ThreadEnabled, GroupOf, StatusAfter, LockAfter, Next;
      var s' := Apply(s, b);
      if a == MainStep {
        StartMainEnabled(s, s');
      } else {
        ThreadEnabledIsThere(s, b.kind, b.name);
        ThreadEnabledIsThere(s, a.kind, a.name);
        ThreadFrame(s, b.kind, b.name);
        ThreadStaysEnabled(s, s', a.kind, a.name);
      }
    }
  }

  lemma ThreadEnabledIsThere(s: State, kind: Kind, n: Name)
    requires ThreadEnabled(s, kind, n)
    ensures n in GroupOf(s, kind).threads
  {
  }

  lemma StartMainEnabled(s: State, s': State)
    requires Waits(s) && MainEnabled(s) && s'.main == s.main && s'.lock == s.lock
    ensures MainEnabled(s')
  {
  }

  // ---------------------------------------------------------------- somebody helps

  /** A registered thread whose entry is still false can step, if the gate of its kind is open. */
  lemma UnmarkedHelps(s: State, kind: Kind) returns (a: Action)
    requires Strong(s) && s.lock == Free && kind != Output && !GroupOf(s, kind).up
    requires Opens(kind) <= Phase(s.status) < 4
    ensures Helps(s, a)
  {
    hide Strong, Weak;
    StrongParts(s);
    WeakGroups(s, kind);
    hide Barriers, MainOk;
    var n :| n in GroupOf(s, kind).entries && !GroupOf(s, kind).entries[n];
    ThreadIsOk(s, kind, n);
    GatesFollowPhases(s.status);
    a := ThreadStep(kind, n);
  }

  lemma HolderHelps(s: State)
    requires Strong(s) && Waits(s) && s.lock.Held?
    ensures Helps(s, ThreadStep(s.lock.kind, s.lock.name))
  {
    hide Strong, Weak, Barriers, MainOk;
    StrongParts(s);
    var kind, n := s.lock.kind, s.lock.name;
    WeakGroups(s, kind);
    ThreadIsWeak(s, kind, n);
    ThreadIsOk(s, kind, n);
    hide WeakGroup;
  }

  lemma MainHelps(s: State)
    requires Strong(s) && Waits(s) && !s.lock.Held? && s.main != Poll
    ensures Helps(s, MainStep)
  {
    StrongParts(s);
    WeakGroups(s, Input);
    hide Strong, Weak, WeakGroup, Barriers;
  }

  /** At which barrier the loops are while the main thread polls. */
  lemma PollsAtBarrier(s: State)
    requires Strong(s) && Waits(s) && s.main == Poll && !s.lock.Held?
    ensures s.lock == Free
    ensures (Phase(s.status) == 2 && !s.input.up) || (Phase(s.status) == 3 && !s.program.up)
  {
    hide Strong, Weak, WeakGroup, FlagsBehind;
    StrongParts(s);
    WeakGroups(s, Input);
    WeakGroups(s, Program);
    EmptyIsUp(Program, s.program, s.lock, BeforeSyncing(s.main));
    assert FlagsBehind(s, Phase(s.status));
    if Phase(s.status) == 3 {
      PreparedIsUp(s);
    }
  }

  lemma PreparedIsUp(s: State)
    requires FlagsBehind(s, Phase(s.status)) && Phase(s.status) >= 3
    ensures s.input.up
  {
  }

  /** Until Active is stored, somebody can help. */
  lemma SomeHelp(s: State) returns (a: Action)
    requires Strong(s) && Waits(s)
    ensures Helps(s, a)
  {
    hide Strong, Helps;
    if s.lock.Held? {
      HolderHelps(s);
      a := ThreadStep(s.lock.kind, s.lock.name);
    } else if s.main != Poll {
      MainHelps(s);
      a := MainStep;
    } else {
      PollsAtBarrier(s);
      a := UnmarkedHelps(s, if Phase(s.status) == 2 then Input else Program);
    }
  }

  // ---------------------------------------------------------------- fair infinite runs

  ghost predicate NeverTold(ac: nat -> Action) {
    forall i: nat :: ac(i) != Term
  }

  /** Without a termination signal the main thread stays in the startup or polls. */
  lemma {:induction false} NeverEarly(st: nat -> State, ac: nat -> Action, i: nat)
    requires Infinite(st, ac) && NeverTold(ac)
    ensures BeforeSyncing(st(i).main) || InStartup(st(i))
    ensures Strong(st(i))
  {
    hide Strong;
    if i > 0 {
      NeverEarly(st, ac, i - 1);
      assert Follows(st, ac, i - 1);
      StartupGoesOn(st(i - 1), ac(i - 1));
    }
    StrongAt(st, ac, i);
  }

  lemma StartupGoesOn(s: State, a: Action)
    requires Enabled(s, a) && a != Term && (BeforeSyncing(s.main) || InStartup(s))
    ensures BeforeSyncing(Apply(s, a).main) || InStartup(Apply(s, a))
    ensures a != MainStep ==> Apply(s, a).main == s.main
    ensures a == MainStep ==> StartMainRank(Apply(s, a).main) < StartMainRank(s.main)
  {
    if a.ThreadStep? {
      hide StepThread;
      ThreadFrame(s, a.kind, a.name);
    }
  }

  lemma BeforeSyncingIsEnabled(s: State)
    requires BeforeSyncing(s.main)
    ensures Enabled(s, MainStep)
  {
  }

  /** The main thread waits for nobody before Syncing. */
  lemma {:induction false} ReachesSyncing(st: nat -> State, ac: nat -> Action, i: nat) returns (j: nat)
    requires Infinite(st, ac) && Fair(st, ac) && NeverTold(ac)
    ensures j >= i && InStartup(st(j))
    decreases StartMainRank(st(i).main)
  {
    hide Strong, Enabled, Apply, StartMainRank, InStartup, BeforeSyncing;
    NeverEarly(st, ac, i);
    if InStartup(st(i)) {
      j := i;
    } else {
      assert Served(st, ac, i, MainStep);
      var last: nat :| last >= i && (!Enabled(st(last), MainStep) || ac(last) == MainStep);
      var k := i;
      BeforeSyncingIsEnabled(st(k));
      while ac(k) != MainStep
        invariant i <= k <= last && st(k).main == st(i).main && BeforeSyncing(st(k).main)
        invariant Enabled(st(k), MainStep)
        decreases last - k
      {
        assert Follows(st, ac, k);
        StartupGoesOn(st(k), ac(k));
        BeforeSyncingIsEnabled(st(k + 1));
        k := k + 1;
      }
      assert Follows(st, ac, k);
      StartupGoesOn(st(k), ac(k));
      j := ReachesSyncing(st, ac, k + 1);
    }
  }

  /** Waiting for `a` to be served, somebody helps at the latest when `a` does. */
  lemma {:induction false} UntilHelp(st: nat -> State, ac: nat -> Action, i: nat, a: Action, last: nat) returns (j: nat)
    requires Infinite(st, ac) && NeverTold(ac) && i <= last && (!Enabled(st(last), a) || ac(last) == a)
    requires Strong(st(i)) && Waits(st(i)) && Helps(st(i), a)
    ensures i <= j && Strong(st(j)) && Waits(st(j)) && Helps(st(j), ac(j))
    ensures st(j).main == st(i).main && StartTotal(st(j)) == StartTotal(st(i))
    decreases last - i
  {
    hide Strong, Enabled, Apply, Waits, StartTotal, Helps;
    HelpIsEnabled(st(i), a);
    if Helps(st(i), ac(i)) {
      j := i;
    } else {
      assert Follows(st, ac, i);
      OthersStill(st(i), ac(i));
      HelpStays(st(i), a, ac(i));
      j := UntilHelp(st, ac, i + 1, a, last);
    }
  }

  lemma HelpIsEnabled(s: State, a: Action)
    ensures Helps(s, a) ==> Enabled(s, a) && (a.MainStep? || a.ThreadStep?)
  {
  }

  /** Some later state is nearer to Active. */
  lemma StartupProgress(st: nat -> State, ac: nat -> Action, i: nat) returns (j: nat)
    requires Infinite(st, ac) && Fair(st, ac) && NeverTold(ac)
    requires Strong(st(i)) && Waits(st(i))
    ensures j > i && Nearer(st(j), st(i)) && Strong(st(j)) && InStartup(st(j))
  {
    hide Strong, Enabled, Apply, Waits, StartTotal, Helps, StartMainRank, InStartup;
    var a := SomeHelp(st(i));
    HelpIsEnabled(st(i), a);
    assert Served(st, ac, i, a);
    var last: nat :| last >= i && (!Enabled(st(last), a) || ac(last) == a);
    j := UntilHelp(st, ac, i, a, last);
    assert Follows(st, ac, j);
    HelpIsEnabled(st(j), ac(j));
    HelpIsNearer(st(j), ac(j));
    j := j + 1;
  }

  lemma AtMostActive(s: State)
    requires Strong(s) && InStartup(s) && Phase(s.status) >= 4
    ensures s.status == Active
  {
    hide Weak, GroupOk, Barriers, Joined;
  }

  lemma {:induction false} BarriersPass(st: nat -> State, ac: nat -> Action, i: nat) returns (j: nat)
    requires Infinite(st, ac) && Fair(st, ac) && NeverTold(ac) && Strong(st(i)) && InStartup(st(i))
    ensures j >= i && st(j).status == Active
    decreases StartMainRank(st(i).main), StartTotal(st(i))
  {
    if Phase(st(i).status) >= 4 {
      AtMostActive(st(i));
      j := i;
    } else {
      hide Strong, Infinite, Fair, NeverTold, InStartup, StartTotal, StartMainRank;
      var k := StartupProgress(st, ac, i);
      j := BarriersPass(st, ac, k);
    }
  }

  /** Every fair run without a termination signal reaches Active, however many loops there are. */
  lemma StartupFinishes(st: nat -> State, ac: nat -> Action) returns (j: nat)
    requires Infinite(st, ac) && Fair(st, ac) && NeverTold(ac)
    ensures st(j).status == Active
  {
    hide Strong, Infinite, Fair, NeverTold;
    var i := ReachesSyncing(st, ac, 0);
    NeverEarly(st, ac, i);
    j := BarriersPass(st, ac, i);
  }
}
