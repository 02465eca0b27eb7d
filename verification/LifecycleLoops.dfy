/** What the loop threads do on a run, step by step and pass by pass: when a body begins, when a loop
    ends, how often it marks itself, and what can hold anybody up. */
module LifecycleLoops {
  import opened Basics
  import opened Controller
  import opened Lifecycle
  import opened LifecycleInvariants
  import opened LifecycleStrong
  import opened LifecycleTheorems
  import opened LifecycleLive

  /** A loop of the run and its state before step `i`. */
  predicate LoopAt(r: Run, i: nat, kind: Kind, n: Name) {
    i < |r.states| && n in GroupOf(r.states[i], kind).threads
  }

  function Loop(r: Run, i: nat, kind: Kind, n: Name): Thread
    requires LoopAt(r, i, kind, n)
  {
    GroupOf(r.states[i], kind).threads[n]
  }

  predicate StepsAt(r: Run, i: nat, kind: Kind, n: Name, pc: Pc) {
    i < |r.actions| && r.actions[i] == ThreadStep(kind, n) && LoopAt(r, i, kind, n) && Loop(r, i, kind, n).pc == pc
  }

  // ---------------------------------------------------------------- what holds somebody up

  /** A loop waits at its gate for the phases of its kind, and for the lock; nothing else holds it up. */
  lemma LoopsWaitOnly(s: State, kind: Kind, n: Name)
    requires n in GroupOf(s, kind).threads
    ensures var pc := GroupOf(s, kind).threads[n].pc; var ph := Phase(s.status);
            ThreadEnabled(s, kind, n) <==>
              && pc != Done
              && (pc == Enter ==> s.lock == Free)
              && (pc == Gate ==> match kind
                                 case Input => 2 <= ph <= 4
                                 case Program => 3 <= ph <= 4
                                 case Output => 3 <= ph)
  {
    GatesFollowPhases(s.status);
    hide CanRun, Phase;
  }

  /** What the main thread can be waiting for; without a shutdown function it does not join. */
  lemma MainWaitsOnly(s: State)
    requires !MainEnabled(s)
    ensures match s.main
            case CheckPreparing => s.lock != Free
            case CheckActive => s.lock != Free
            case StopDatasync => s.lock != Free
            case Join => s.shutdownFn && exists kind: Kind, n: Name ::
              kind != Output && n in GroupOf(s, kind).threads && GroupOf(s, kind).threads[n].pc != Done
            case WaitStopped => s.status != Stopped
            case Poll => true
            case Finished => true
            case EarlyFinished => true
            case _ => false
  {
    if s.main == Join {
      assert GroupOf(s, Input) == s.input && GroupOf(s, Program) == s.program;
      if AllDone(s.input.threads) {
        var n :| n in s.program.threads && s.program.threads[n].pc != Done;
        assert n in GroupOf(s, Program).threads;
      } else {
        var n :| n in s.input.threads && s.input.threads[n].pc != Done;
        assert n in GroupOf(s, Input).threads;
      }
    }
  }

  /** Loops can be spawned before `run` and by its launcher, and then the status lets them. */
  lemma SpawnsExactly(r: Run, i: nat, kind: Kind, n: Name, guarded: bool)
    requires ValidRun(r) && i < |r.states|
    ensures var s := r.states[i];
            Enabled(s, Spawn(kind, n, guarded)) <==>
              && (s.main == Boot || s.main == Launch) && n !in GroupOf(s, kind).threads
              && (guarded ==> kind == Program)
    ensures Enabled(r.states[i], Spawn(kind, n, guarded)) ==> r.states[i].status in {Inactive, Starting}
  {
    WeakRun(r, i);
    hide ValidRun, Weak, Enabled;
    SpawnEnabled(r.states[i], kind, n, guarded);
  }

  lemma SpawnEnabled(s: State, kind: Kind, n: Name, guarded: bool)
    requires Weak(s)
    ensures Enabled(s, Spawn(kind, n, guarded)) <==>
              && (s.main == Boot || s.main == Launch) && n !in GroupOf(s, kind).threads
              && (guarded ==> kind == Program)
    ensures s.main == Boot || s.main == Launch ==> s.status in {Inactive, Starting}
  {
    hide WeakGroup, Spent, GroupOf;
    if BeforeSyncing(s.main) {
      NobodyMarks(s);
    }
  }

  lemma NobodyMarks(s: State)
    requires Weak(s) && BeforeSyncing(s.main)
    ensures s.lock == Free
  {
    if s.lock.Held? {
      WeakGroups(s, s.lock.kind);
      ThreadIsWeak(s, s.lock.kind, s.lock.name);
    }
    WeakGroups(s, Input);
    hide WeakGroup;
  }

  // ---------------------------------------------------------------- one step

  /** Only programs are guarded. */
  lemma {:induction false} GuardedIsProgram(r: Run, i: nat, kind: Kind, n: Name)
    requires ValidRun(r) && LoopAt(r, i, kind, n) && Loop(r, i, kind, n).guarded
    ensures kind == Program
  {
    hide Enabled, Apply;
    if i > 0 {
      assert StepOk(r, i - 1);
      GuardedBefore(r.states[i - 1], r.actions[i - 1], kind, n);
      if kind != Program {
        GuardedIsProgram(r, i - 1, kind, n);
      }
    }
  }

  lemma GuardedBefore(s: State, a: Action, kind: Kind, n: Name)
    requires Enabled(s, a) && n in GroupOf(Apply(s, a), kind).threads
    requires GroupOf(Apply(s, a), kind).threads[n].guarded
    ensures kind == Program || (n in GroupOf(s, kind).threads && GroupOf(s, kind).threads[n].guarded)
  {
    match a
    case ThreadStep(k, m) => ThreadFrame(s, k, m); hide StepThread;
    case MainStep =>
    case _ =>
  }

  /** Where a loop goes from each position, by the phase it sees: a body is skipped only by a guarded
      program outside Preparing and Active, an input or program ends exactly if it sees a stop, an
      output exactly if it read StopSyncing before its body, and `mark_*` comes with the first tick. */
  lemma StepOfLoop(r: Run, i: nat, kind: Kind, n: Name, pc: Pc)
    requires ValidRun(r) && StepsAt(r, i, kind, n, pc)
    ensures LoopAt(r, i + 1, kind, n)
    ensures var t, t' := Loop(r, i, kind, n), Loop(r, i + 1, kind, n); var ph := Phase(r.states[i].status);
            && t'.guarded == t.guarded
            && t'.marked == (t.marked || pc == Leave)
            && t'.last == (if kind == Output && pc == Begin then r.states[i].status == StopSyncing else t.last)
            && (match pc
                case Gate => t'.pc == Begin
                case Begin => t'.pc == if t.guarded && !(3 <= ph <= 4) then CheckStop else Body
                case Body => t'.pc == if kind != Output then CheckStop else if t.last then Enter else Sleep
                case CheckStop => t'.pc == if ph >= 5 then Done else if t.marked then Sleep else Enter
                case Enter => t'.pc == Guard
                case Guard => t'.pc == Insert || t'.pc == Leave
                case Insert => t'.pc == StoreFirst || t'.pc == Leave
                case StoreFirst => t'.pc == StoreSecond || t'.pc == Leave
                case StoreSecond => t'.pc == Leave
                case Leave => t'.pc == if kind == Output then Done else Sleep
                case Sleep => t'.pc == Begin
                case Done => false)
  {
    assert StepOk(r, i);
    ThreadFrame(r.states[i], kind, n);
    GatesFollowPhases(r.states[i].status);
    if Loop(r, i, kind, n).guarded {
      GuardedIsProgram(r, i, kind, n);
    }
    NotDone(r.states[i], kind, n);
    hide ValidRun, StepThread, StatusAfter, LockAfter, ThreadEnabled, CanRun, Phase;
    NextInPhases(kind, Loop(r, i, kind, n), r.states[i].status, GroupOf(r.states[i + 1], kind).up);
  }

  lemma NotDone(s: State, kind: Kind, n: Name)
    requires ThreadEnabled(s, kind, n)
    ensures GroupOf(s, kind).threads[n].pc != Done
  {
  }

  lemma NextInPhases(kind: Kind, t: Thread, st: Status, up: bool)
    requires t.guarded ==> kind == Program
    ensures var t' := Next(kind, t, st, up);
            && (t.pc == Begin ==> t'.pc == if t.guarded && !(3 <= Phase(st) <= 4) then CheckStop else Body)
            && (t.pc == CheckStop ==> t'.pc == if Phase(st) >= 5 then Done else if t.marked then Sleep else Enter)
            && (t.pc == Begin ==> t'.last == if kind == Output then st == StopSyncing else t.last)
  {
    GatesFollowPhases(st);
    hide Phase;
  }

  // ---------------------------------------------------------------- guarded bodies

  /** A guarded program begins its body exactly if it sees Preparing or Active; every other loop
      begins one whenever it passes the top. */
  lemma BodyBeginsExactly(r: Run, i: nat, kind: Kind, n: Name)
    requires ValidRun(r) && StepsAt(r, i, kind, n, Begin)
    ensures LoopAt(r, i + 1, kind, n)
    ensures var t := Loop(r, i, kind, n);
            Loop(r, i + 1, kind, n).pc == Body <==> !t.guarded || 3 <= Phase(r.states[i].status) <= 4
    ensures Loop(r, i + 1, kind, n).pc != Body ==> kind == Program && Loop(r, i + 1, kind, n).pc == CheckStop
  {
    StepOfLoop(r, i, kind, n, Begin);
    if Loop(r, i, kind, n).guarded {
      GuardedIsProgram(r, i, kind, n);
    }
    hide ValidRun, Phase;
  }

  /** Once Stopping has been stored no guarded body begins any more ... */
  lemma NoGuardedBodyAfterStopping(r: Run, i: nat, j: nat, n: Name)
    requires ValidRun(r) && i <= j && StepsAt(r, j, Program, n, Begin) && !Early(r.states[j])
    requires Phase(r.states[i].status) >= Phase(Stopping) && Loop(r, j, Program, n).guarded
    ensures LoopAt(r, j + 1, Program, n) && Loop(r, j + 1, Program, n).pc == CheckStop
  {
    StatusMonotone(r, i, j);
    BodyBeginsExactly(r, j, Program, n);
    hide ValidRun, Early;
  }

  /** ... and every input and program that comes to its stop test ends there. */
  lemma EndsAtStopTest(r: Run, i: nat, j: nat, kind: Kind, n: Name)
    requires ValidRun(r) && i <= j && StepsAt(r, j, kind, n, CheckStop) && !Early(r.states[j])
    requires Phase(r.states[i].status) >= Phase(Stopping)
    ensures LoopAt(r, j + 1, kind, n) && Loop(r, j + 1, kind, n).pc == Done
  {
    StatusMonotone(r, i, j);
    StepOfLoop(r, j, kind, n, CheckStop);
    hide ValidRun, Early;
  }

  // ---------------------------------------------------------------- passes

  lemma OthersStay(r: Run, i: nat, kind: Kind, n: Name)
    requires ValidRun(r) && i < |r.actions| && LoopAt(r, i, kind, n) && r.actions[i] != ThreadStep(kind, n)
    ensures LoopAt(r, i + 1, kind, n) && Loop(r, i + 1, kind, n) == Loop(r, i, kind, n)
  {
    assert StepOk(r, i);
    hide ValidRun;
    StaysThere(r.states[i], r.actions[i], kind, n);
  }

  /** Bodies that a loop ends in the steps from `i` on and before `j`. */
  function BodiesEnded(r: Run, kind: Kind, n: Name, i: nat, j: nat): nat
    requires i <= j <= |r.actions|
  {
    if i == j then 0
    else BodiesEnded(r, kind, n, i, j - 1) + if StepsAt(r, j - 1, kind, n, Body) then 1 else 0
  }

  /** From one pass of the top to the next a loop executes exactly one body, or none if it is a
      guarded program that saw neither Preparing nor Active. */
  lemma {:induction false} BodyPerPass(r: Run, i: nat, j: nat, kind: Kind, n: Name)
    requires ValidRun(r) && i < j <= |r.actions| && StepsAt(r, i, kind, n, Begin)
    requires forall m :: i < m < j ==> !StepsAt(r, m, kind, n, Begin)
    ensures LoopAt(r, j, kind, n) && Loop(r, j, kind, n).pc != Gate
    ensures BodiesEnded(r, kind, n, i, j) + (if Loop(r, j, kind, n).pc == Body then 1 else 0)
            == if Loop(r, i, kind, n).guarded && !(3 <= Phase(r.states[i].status) <= 4) then 0 else 1
  {
    hide ValidRun, Phase;
    if j == i + 1 {
      StepOfLoop(r, i, kind, n, Begin);
      assert BodiesEnded(r, kind, n, i, i) == 0;
    } else {
      BodyPerPass(r, i, j - 1, kind, n);
      if r.actions[j - 1] == ThreadStep(kind, n) {
        StepOfLoop(r, j - 1, kind, n, Loop(r, j - 1, kind, n).pc);
      } else {
        OthersStay(r, j - 1, kind, n);
      }
    }
  }

  /** A loop that has entered `mark_*` is in it, or has been marked, for ever. */
  lemma {:induction false} MarkingLasts(r: Run, i: nat, j: nat, kind: Kind, n: Name)
    requires ValidRun(r) && i < j <= |r.actions| && StepsAt(r, i, kind, n, Enter)
    ensures LoopAt(r, j, kind, n)
    ensures var t := Loop(r, j, kind, n);
            InMark(t.pc) || (t.marked && t.pc != Enter && (kind == Output ==> t.pc == Done))
  {
    hide ValidRun;
    if j == i + 1 {
      StepOfLoop(r, i, kind, n, Enter);
    } else {
      MarkingLasts(r, i, j - 1, kind, n);
      if r.actions[j - 1] == ThreadStep(kind, n) {
        StepOfLoop(r, j - 1, kind, n, Loop(r, j - 1, kind, n).pc);
      } else {
        OthersStay(r, j - 1, kind, n);
      }
    }
  }

  /** Every loop calls its `mark_*` at most once. */
  lemma MarksOnce(r: Run, i: nat, j: nat, kind: Kind, n: Name)
    requires ValidRun(r) && i < j < |r.actions| && StepsAt(r, i, kind, n, Enter)
    ensures !StepsAt(r, j, kind, n, Enter)
  {
    hide ValidRun;
    MarkingLasts(r, i, j, kind, n);
  }
}
