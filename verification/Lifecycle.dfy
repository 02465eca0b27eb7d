/** The PLC process as a transition system: `run` and `shutdown` on the main thread, and any
    number of input, program and output loops, interleaved at the granularity of single status
    loads, status stores and lock operations. */
module Lifecycle {
  import opened Basics
  import opened Controller

  /** Program counter of a loop thread. `Guard` .. `Leave` are the inside of `mark_*`, where the
      thread holds the `CONTROLLER_STATS` lock. */
  datatype Pc =
    | Gate        // wait_can_run_*
    | Begin       // top of the loop; outputs read output_last_sync here
    | Body        // f() or prog()
    | CheckStop   // need_stop
    | Enter       // CONTROLLER_STATS.lock()
    | Guard       // the flag and status test
    | Insert      // table insertion and scan
    | StoreFirst  // set_status of the barrier
    | StoreSecond // mark_input only: Active if there are no programs
    | Leave       // unlock
    | Sleep       // the rest of Loop::tick
    | Done

  /** `guarded` loops are those of `spawn_program_loop`, which test the status before the body.
      `last` is the local `last_sync` of an output loop. */
  datatype Thread = Thread(guarded: bool, pc: Pc, marked: bool, last: bool)

  /** The threads of one kind with their table and flag in `ControllerStats`. */
  datatype Group = Group(threads: map<Name, Thread>, entries: map<Name, bool>, up: bool)

  datatype MainPc =
    | Boot              // user code before run()
    | StoreStarting
    | Launch            // launch_datasync
    | StoreSyncing
    | CheckPreparing    // set_preparing_if_no_inputs: the test
    | StorePreparing
    | CheckActive       // set_active_if_no_inputs_and_programs: the test, lock kept
    | StoreActive
    | Poll              // while !sigterm_received()
    | ReadStatus        // status() == Active
    | StoreStopping
    | Join
    | ShutdownFn        // f() running
    | StoreStopSyncing
    | CheckStopped      // status() != Stopped
    | StopDatasync      // stop_if_no_output_or_sfn: the test
    | StoreStopped
    | WaitStopped
    | Finished
    | EarlyStore        // set_stopped() of the other branch
    | EarlyFinished

  datatype Owner = Free | HeldByMain | Held(kind: Kind, name: Name)

  /** `shutdownFn` says whether `on_shutdown` was called. */
  datatype State = State(
    status: Status,
    lock: Owner,
    input: Group,
    program: Group,
    output: Group,
    main: MainPc,
    shutdownFn: bool)

  datatype Action =
    | Spawn(kind: Kind, name: Name, guarded: bool)
    | MainStep
    | Term
    | ThreadStep(kind: Kind, name: Name)
    | Idle

  const NOBODY: Group := Group(map[], map[], true)

  function Init(shutdownFn: bool): State {
    State(Inactive, Free, NOBODY, NOBODY, NOBODY, Boot, shutdownFn)
  }

  function GroupOf(s: State, kind: Kind): Group {
    match kind
    case Input => s.input
    case Program => s.program
    case Output => s.output
  }

  function Put(s: State, kind: Kind, g: Group): State {
    match kind
    case Input => s.(input := g)
    case Program => s.(program := g)
    case Output => s.(output := g)
  }

  // ---------------------------------------------------------------- thread steps

  predicate ThreadEnabled(s: State, kind: Kind, n: Name) {
    n in GroupOf(s, kind).threads &&
    match GroupOf(s, kind).threads[n].pc
    case Gate => CanRun(kind, s.status)
    case Enter => s.lock == Free
    case Done => false
    case _ => true
  }

  /** Where a thread goes next, and its locals, given the status it sees and its flag. */
  function Next(kind: Kind, t: Thread, st: Status, up: bool): Thread {
    match t.pc
    case Gate => t.(pc := Begin)
    case Begin =>
      if kind == Output then t.(pc := Body, last := OutputLastSync(st))
      else t.(pc := if t.guarded && !AtLeast(st, Preparing) then CheckStop else Body)
    case Body => t.(pc := if kind != Output then CheckStop else if t.last then Enter else Sleep)
    case CheckStop => t.(pc := if NeedStop(st) then Done else if t.marked then Sleep else Enter)
    case Enter => t.(pc := Guard)
    case Guard => t.(pc := if GuardOpen(kind, up, st) then Insert else Leave)
    case Insert => t.(pc := if up then StoreFirst else Leave)
    case StoreFirst => t.(pc := if kind == Input then StoreSecond else Leave)
    case StoreSecond => t.(pc := Leave)
    case Leave => t.(pc := if kind == Output then Done else Sleep, marked := true)
    case Sleep => t.(pc := Begin)
    case Done => t
  }

  /** Insertion of the caller's entry and the scan over the table. */
  function InsertInto(g: Group, n: Name): Group {
    var entries := g.entries[n := true];
    g.(entries := entries, up := g.up || AllTrue(entries))
  }

  /** The status after a step of a thread at `pc`. */
  function StatusOf(kind: Kind, pc: Pc, st: Status, noPrograms: bool): Status {
    if pc == StoreFirst then FirstStatus(kind) else if pc == StoreSecond && noPrograms then Active else st
  }

  function StatusAfter(s: State, kind: Kind, pc: Pc): Status {
    StatusOf(kind, pc, s.status, s.program.entries == map[])
  }

  function LockAfter(s: State, kind: Kind, n: Name, pc: Pc): Owner {
    if pc == Enter then Held(kind, n) else if pc == Leave then Free else s.lock
  }

  function StepThread(s: State, kind: Kind, n: Name): State
    requires ThreadEnabled(s, kind, n)
  {
    var g := GroupOf(s, kind);
    var t := g.threads[n];
    var g1 := if t.pc == Insert then InsertInto(g, n) else g;
    var g2 := g1.(threads := g1.threads[n := Next(kind, t, s.status, g1.up)]);
    Put(s, kind, g2).(status := StatusAfter(s, kind, t.pc), lock := LockAfter(s, kind, n, t.pc))
  }

  /** A thread step field by field: what changes, and what does not. */
  lemma ThreadFrame(s: State, kind: Kind, n: Name)
    requires ThreadEnabled(s, kind, n)
    ensures var s' := StepThread(s, kind, n); var g := GroupOf(s, kind); var g' := GroupOf(s', kind);
            var t := g.threads[n];
            && n in g'.threads && g'.threads[n] == Next(kind, t, s.status, g'.up)
            && g'.threads == g.threads[n := g'.threads[n]]
            && (forall m :: m != n ==>
                  && (m in g'.threads <==> m in g.threads)
                  && (m in g.threads ==> g'.threads[m] == g.threads[m]))
            && (t.pc != Insert ==> g'.up == g.up && g'.entries == g.entries)
            && (forall k: Kind :: k != kind ==> GroupOf(s', k) == GroupOf(s, k))
            && s'.status == StatusAfter(s, kind, t.pc) && s'.lock == LockAfter(s, kind, n, t.pc)
            && s'.main == s.main && s'.shutdownFn == s.shutdownFn
  {
    hide Next, StatusAfter, LockAfter, AllTrue, CanRun;
  }

  // ---------------------------------------------------------------- main thread

  predicate AllDone(threads: map<Name, Thread>) {
    forall n :: n in threads ==> threads[n].pc == Done
  }

  predicate Joined(s: State) {
    AllDone(s.input.threads) && AllDone(s.program.threads)
  }

  predicate MainEnabled(s: State) {
    match s.main
    case CheckPreparing => s.lock == Free
    case CheckActive => s.lock == Free
    case Join => s.shutdownFn ==> Joined(s)
    case StopDatasync => s.lock == Free
    case WaitStopped => s.status == Stopped
    case Poll => false
    case Finished => false
    case EarlyFinished => false
    case _ => true
  }

  function StepMain(s: State): State
    requires MainEnabled(s)
  {
    match s.main
    case Boot => s.(main := if s.status != Stopping then StoreStarting else Launch)
    case StoreStarting => s.(status := Starting, main := Launch)
    case Launch => s.(main := if s.status != Stopping then StoreSyncing else CheckPreparing)
    case StoreSyncing => s.(status := Syncing, main := CheckPreparing)
    case CheckPreparing =>
      s.(main := if s.input.entries == map[] then StorePreparing else CheckActive)
    case StorePreparing => s.(status := Preparing, main := CheckActive)
    case CheckActive =>
      if s.program.entries == map[] && s.input.entries == map[] then
        s.(lock := HeldByMain, main := StoreActive)
      else s.(main := Poll)
    case StoreActive => s.(status := Active, lock := Free, main := Poll)
    case ReadStatus => s.(main := if s.status == Active then StoreStopping else EarlyStore)
    case StoreStopping => s.(status := Stopping, main := Join)
    case Join => s.(main := if s.shutdownFn then ShutdownFn else StoreStopSyncing)
    case ShutdownFn => s.(main := StoreStopSyncing)
    case StoreStopSyncing => s.(status := StopSyncing, main := CheckStopped)
    case CheckStopped => s.(main := if s.status != Stopped then StopDatasync else WaitStopped)
    case StopDatasync =>
      s.(main := if s.output.entries == map[] || !s.shutdownFn then StoreStopped else WaitStopped)
    case StoreStopped => s.(status := Stopped, main := WaitStopped)
    case WaitStopped => s.(main := Finished)
    case EarlyStore => s.(status := Stopped, main := EarlyFinished)
  }

  // ---------------------------------------------------------------- runs

  predicate CanSpawn(s: State) {
    s.main == Boot || s.main == Launch
  }

  /** A second registration under one name panics and ends the process, so it is no step. */
  predicate Enabled(s: State, a: Action) {
    match a
    case Spawn(kind, n, guarded) =>
      && CanSpawn(s) && s.lock == Free && n !in GroupOf(s, kind).threads
      && (guarded ==> kind == Program)
    case MainStep => MainEnabled(s)
    case Term => s.main == Poll
    case ThreadStep(kind, n) => ThreadEnabled(s, kind, n)
    case Idle => true
  }

  function StepSpawn(s: State, kind: Kind, n: Name, guarded: bool): State {
    var g := GroupOf(s, kind);
    Put(s, kind, Group(g.threads[n := Thread(guarded, Gate, false, false)], g.entries[n := false], false))
  }

  function Apply(s: State, a: Action): State
    requires Enabled(s, a)
  {
    match a
    case Spawn(kind, n, guarded) => StepSpawn(s, kind, n, guarded)
    case MainStep => StepMain(s)
    case Term => s.(main := ReadStatus)
    case ThreadStep(kind, n) => StepThread(s, kind, n)
    case Idle => s
  }

  /** A run: states separated by actions, from an initial state. */
  datatype Run = Run(states: seq<State>, actions: seq<Action>)

  predicate StepOk(r: Run, i: nat)
    requires i + 1 < |r.states| && i < |r.actions|
  {
    Enabled(r.states[i], r.actions[i]) && r.states[i + 1] == Apply(r.states[i], r.actions[i])
  }

  predicate ValidRun(r: Run) {
    && |r.states| == |r.actions| + 1
    && r.states[0] == Init(r.states[0].shutdownFn)
    && forall i :: 0 <= i < |r.actions| ==> StepOk(r, i)
  }

  /** The main thread took the branch for a stop before Active. */
  predicate Early(s: State) {
    s.main == EarlyStore || s.main == EarlyFinished
  }

  /** The status an enabled action stores, if it stores one. */
  function Stores(s: State, a: Action): Option<Status> {
    match a
    case MainStep =>
      (match s.main
       case StoreStarting => Some(Starting)
       case StoreSyncing => Some(Syncing)
       case StorePreparing => Some(Preparing)
       case StoreActive => Some(Active)
       case StoreStopping => Some(Stopping)
       case StoreStopSyncing => Some(StopSyncing)
       case StoreStopped => Some(Stopped)
       case EarlyStore => Some(Stopped)
       case _ => None)
    case ThreadStep(kind, n) =>
      if n !in GroupOf(s, kind).threads then None
      else if GroupOf(s, kind).threads[n].pc == StoreFirst then Some(FirstStatus(kind))
      else if GroupOf(s, kind).threads[n].pc == StoreSecond && s.program.entries == map[] then Some(Active)
      else None
    case _ => None
  }

  lemma MainStoresIsExact(s: State)
    requires MainEnabled(s)
    ensures StepMain(s).status ==
            (if Stores(s, MainStep).Some? then Stores(s, MainStep).value else s.status)
  {
  }

  lemma StoresIsExact(s: State, a: Action)
    requires Enabled(s, a)
    ensures Apply(s, a).status == (if Stores(s, a).Some? then Stores(s, a).value else s.status)
  {
    if a == MainStep {
      MainStoresIsExact(s);
    }
  }

  // ---------------------------------------------------------------- mark_* as micro-steps

  function SharedOf(s: State): Shared {
    Shared(s.status, s.input.entries, s.program.entries, s.output.entries,
           s.input.up, s.program.up, s.output.up)
  }

  /** Spawning a loop registers its thread. */
  lemma SpawnIsRegister(s: State, kind: Kind, n: Name, guarded: bool)
    ensures SharedOf(StepSpawn(s, kind, n, guarded)) == Register(SharedOf(s), kind, n)
    ensures GroupOf(StepSpawn(s, kind, n, guarded), kind).threads ==
            GroupOf(s, kind).threads[n := Thread(guarded, Gate, false, false)]
  {
  }

  /** The micro-steps of `mark_*` from a thread that has just taken the lock to its release. */
  function MarkAlone(s: State, kind: Kind, n: Name): (s': State)
    requires n in GroupOf(s, kind).threads
    requires GroupOf(s, kind).threads[n].pc in {Guard, Insert, StoreFirst, StoreSecond}
    ensures n in GroupOf(s', kind).threads && GroupOf(s', kind).threads[n].pc == Leave && s'.lock == s.lock
    decreases match GroupOf(s, kind).threads[n].pc
              case Guard => 4 case Insert => 3 case StoreFirst => 2 case _ => 1
  {
    var s1 := StepThread(s, kind, n);
    if GroupOf(s1, kind).threads[n].pc == Leave then s1 else MarkAlone(s1, kind, n)
  }

  lemma InsertIsScan(s: State, kind: Kind, n: Name)
    requires n in GroupOf(s, kind).threads && GroupOf(s, kind).threads[n].pc == Insert
    requires !GroupOf(s, kind).up
    ensures SharedOf(StepThread(s, kind, n)) == Scan(SharedOf(s), kind, n)
  {
  }

  lemma StoresAreMark(s: State, kind: Kind, n: Name)
    requires n in GroupOf(s, kind).threads && GroupOf(s, kind).threads[n].pc == StoreFirst
    ensures SharedOf(MarkAlone(s, kind, n)) == SharedOf(s).(status :=
              if kind == Input && s.program.entries == map[] then Active else FirstStatus(kind))
  {
    var s1 := StepThread(s, kind, n);
    if GroupOf(s1, kind).threads[n].pc == StoreSecond {
      assert MarkAlone(s, kind, n) == MarkAlone(s1, kind, n) == StepThread(s1, kind, n);
    }
  }

  lemma ScanIsMark(s: State, kind: Kind, n: Name)
    requires n in GroupOf(s, kind).threads && GroupOf(s, kind).threads[n].pc == Insert
    requires GuardPasses(SharedOf(s), kind)
    ensures SharedOf(MarkAlone(s, kind, n)) == Mark(SharedOf(s), kind, n)
  {
    hide Scan, StepThread, MarkAlone, CanRun, SharedOf;
    var s1 := StepThread(s, kind, n);
    assert !GroupOf(s, kind).up by { UpIsFlag(s, kind); }
    InsertIsScan(s, kind, n);
    UpIsFlag(s1, kind);
    AfterInsert(s, kind, n);
    SamePrograms(s1);
    if GroupOf(s1, kind).up {
      StoresAreMark(s1, kind, n);
    }
  }

  lemma UpIsFlag(s: State, kind: Kind)
    ensures GroupOf(s, kind).up == Flag(SharedOf(s), kind)
  {
  }

  lemma SamePrograms(s: State)
    ensures SharedOf(s).programs == s.program.entries
  {
  }

  /** After the scan the call either leaves at once or goes on to store. */
  lemma AfterInsert(s: State, kind: Kind, n: Name)
    requires n in GroupOf(s, kind).threads && GroupOf(s, kind).threads[n].pc == Insert
    ensures var s1 := StepThread(s, kind, n); var g1 := GroupOf(s1, kind);
            && n in g1.threads && g1.threads[n].pc == (if g1.up then StoreFirst else Leave)
            && MarkAlone(s, kind, n) == if g1.up then MarkAlone(s1, kind, n) else s1
  {
    hide AllTrue, StatusAfter, LockAfter;
  }

  /** Run without interleaved stores, the micro-steps compute what the method does in one go. */
  lemma MicroStepsAreMark(s: State, kind: Kind, n: Name)
    requires n in GroupOf(s, kind).threads && GroupOf(s, kind).threads[n].pc == Guard
    ensures SharedOf(MarkAlone(s, kind, n)) == Mark(SharedOf(s), kind, n)
  {
    var s1 := StepThread(s, kind, n);
    assert SharedOf(s1) == SharedOf(s);
    if GroupOf(s1, kind).threads[n].pc == Insert {
      ScanIsMark(s1, kind, n);
    }
  }
}
