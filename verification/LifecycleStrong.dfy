/** The invariant of runs that are not stopped before Active. */
module LifecycleStrong {
  import opened Controller
  import opened Lifecycle
  import opened LifecycleInvariants

  /** The phase from which a loop of this kind may run. */
  function Opens(kind: Kind): nat {
    if kind == Input then 2 else 3
  }

  /** What the position of one thread says about its table entry and about the phase. */
  predicate ThreadOk(kind: Kind, t: Thread, entry: bool, ph: nat) {
    && (t.guarded ==> kind == Program)
    && (t.pc != Gate ==> ph >= Opens(kind))
    && (if kind == Output then
          && t.pc != CheckStop && t.pc != StoreSecond
          && (entry <==> t.pc == StoreFirst || t.pc == Leave || t.pc == Done)
          && (t.pc == Enter || InMark(t.pc) || t.pc == Done ==> t.last)
          && (t.last && t.pc != Gate && t.pc != Begin ==> ph >= 6)
          && (t.last ==> t.pc != Gate && t.pc != Begin && t.pc != Sleep)
        else
          && (entry <==> t.marked || t.pc == StoreFirst || t.pc == StoreSecond || t.pc == Leave)
          && (t.pc == Gate || t.pc == Enter || InMark(t.pc) ==> !t.marked)
          && (t.pc == Sleep ==> t.marked)
          && (t.pc == Done ==> ph >= 5)
          && (t.pc == StoreFirst ==> ph == Opens(kind))
          && (t.pc == StoreSecond ==> ph == 3))
  }

  predicate GroupOk(kind: Kind, g: Group, ph: nat) {
    && g.entries.Keys == g.threads.Keys
    && forall n :: n in g.threads ==> ThreadOk(kind, g.threads[n], g.entries[n], ph)
  }

  predicate PendingFirst(kind: Kind, g: Group, lock: Owner) {
    Pending(kind, g, lock) && g.threads[lock.name].pc == StoreFirst
  }

  /** A barrier's status implies its ready flag ... */
  predicate FlagsBehind(s: State, ph: nat) {
    && (ph >= 3 ==> s.input.up)
    && (ph >= 4 ==> s.program.up)
    && (ph == 7 ==> s.output.entries == map[] || !s.shutdownFn || s.output.up)
  }

  /** ... and a ready flag the status, unless its store is still to come. */
  predicate StoresBehind(s: State, ph: nat) {
    && (s.input.entries != map[] && s.input.up ==> ph >= 3 || PendingFirst(Input, s.input, s.lock))
    && (s.program.entries != map[] && s.program.up ==> ph >= 4 || Pending(Program, s.program, s.lock))
    && (s.program.entries == map[] && s.input.entries != map[] && s.input.up ==>
          ph >= 4 || Pending(Input, s.input, s.lock))
    && (s.shutdownFn && s.output.entries != map[] && s.output.up ==>
          ph == 7 || Pending(Output, s.output, s.lock))
  }

  /** The barrier statuses against the ready flags. */
  predicate Barriers(s: State, ph: nat) {
    FlagsBehind(s, ph) && StoresBehind(s, ph)
  }

  predicate NoInputs(s: State) {
    s.input.entries == map[]
  }

  predicate NoLoops(s: State) {
    s.input.entries == map[] && s.program.entries == map[]
  }

  /** Which phases the main thread can be looking at. */
  predicate MainOk(s: State, ph: nat) {
    match s.main
    case Boot => ph == 0
    case StoreStarting => ph == 0
    case Launch => ph == 1
    case StoreSyncing => ph == 1
    case CheckPreparing => 2 <= ph <= 4 && (NoInputs(s) ==> ph == 2)
    case StorePreparing => ph == 2 && NoInputs(s)
    case CheckActive => 2 <= ph <= 4 && (NoInputs(s) ==> ph >= 3) && (NoLoops(s) ==> ph == 3)
    case StoreActive => ph == 3 && NoLoops(s)
    case Poll => 2 <= ph <= 4 && (NoInputs(s) ==> ph >= 3) && (NoLoops(s) ==> ph == 4)
    case ReadStatus => 2 <= ph <= 4 && (NoInputs(s) ==> ph >= 3) && (NoLoops(s) ==> ph == 4)
    case StoreStopping => ph == 4
    case Join => ph == 5
    case ShutdownFn => ph == 5 && s.shutdownFn
    case StoreStopSyncing => ph == 5
    case CheckStopped => 6 <= ph
    case StopDatasync => 6 <= ph
    case StoreStopped => 6 <= ph && (s.output.entries == map[] || !s.shutdownFn)
    case WaitStopped => 6 <= ph && (ph == 7 || (s.output.entries != map[] && s.shutdownFn))
    case Finished => ph == 7
    case EarlyStore => false
    case EarlyFinished => false
  }

  /** The main thread is past the joins. */
  predicate PastJoin(m: MainPc) {
    || m == ShutdownFn || m == StoreStopSyncing || m == CheckStopped || m == StopDatasync
    || m == StoreStopped || m == WaitStopped || m == Finished
  }

  predicate Strong(s: State) {
    var ph := Phase(s.status);
    && Weak(s)
    && GroupOk(Input, s.input, ph)
    && GroupOk(Program, s.program, ph)
    && GroupOk(Output, s.output, ph)
    && Barriers(s, ph)
    && MainOk(s, ph)
    && (PastJoin(s.main) && s.shutdownFn ==> Joined(s))
  }

  lemma StrongParts(s: State)
    requires Strong(s)
    ensures Weak(s) && Barriers(s, Phase(s.status)) && MainOk(s, Phase(s.status))
    ensures PastJoin(s.main) && s.shutdownFn ==> Joined(s)
  {
    hide Weak, Barriers, MainOk, GroupOk, Joined;
  }

  lemma StrongGroup(s: State, kind: Kind)
    requires Strong(s)
    ensures GroupOk(kind, GroupOf(s, kind), Phase(s.status))
  {
    hide Weak, Barriers, MainOk, GroupOk, Joined;
  }

  lemma ThreadIsOk(s: State, kind: Kind, n: Name)
    requires Strong(s) && n in GroupOf(s, kind).threads
    ensures n in GroupOf(s, kind).entries
    ensures ThreadOk(kind, GroupOf(s, kind).threads[n], GroupOf(s, kind).entries[n], Phase(s.status))
  {
    hide Weak, Barriers, MainOk, Joined, ThreadOk;
  }

  // ---------------------------------------------------------------- one thread

  lemma ThreadOkNext(kind: Kind, t: Thread, entry: bool, st: Status, up: bool, up': bool, noPrograms: bool)
    requires ThreadOk(kind, t, entry, Phase(st)) && t.pc != Done
    requires t.pc == Gate ==> CanRun(kind, st)
    requires t.pc != Insert ==> up' == up
    requires up ==> entry
    requires kind == Input && Phase(st) >= 3 ==> up
    requires kind == Program && Phase(st) >= 4 ==> up
    requires t.pc == Insert ==> !up
    requires t.pc == StoreSecond ==> kind == Input
    ensures var st' := StatusOf(kind, t.pc, st, noPrograms);
            && Phase(st) <= Phase(st') <= Phase(st) + 1
            && ThreadOk(kind, Next(kind, t, st, up'), entry || t.pc == Insert, Phase(st'))
  {
    hide ThreadOk, Next, CanRun;
    match kind
    case Input => InputOkNext(t, entry, st, up, up', noPrograms);
    case Program => ProgramOkNext(t, entry, st, up, up', noPrograms);
    case Output => OutputOkNext(t, entry, st, up, up', noPrograms);
  }

  lemma InputOkNext(t: Thread, entry: bool, st: Status, up: bool, up': bool, noPrograms: bool)
    requires ThreadOk(Input, t, entry, Phase(st)) && t.pc != Done
    requires t.pc == Gate ==> CanRun(Input, st)
    requires t.pc != Insert ==> up' == up
    requires up ==> entry
    requires Phase(st) >= 3 ==> up
    requires t.pc == Insert ==> !up
    ensures var st' := StatusOf(Input, t.pc, st, noPrograms);
            && Phase(st) <= Phase(st') <= Phase(st) + 1
            && ThreadOk(Input, Next(Input, t, st, up'), entry || t.pc == Insert, Phase(st'))
  {
    GatesFollowPhases(st);
  }

  lemma ProgramOkNext(t: Thread, entry: bool, st: Status, up: bool, up': bool, noPrograms: bool)
    requires ThreadOk(Program, t, entry, Phase(st)) && t.pc != Done && t.pc != StoreSecond
    requires t.pc == Gate ==> CanRun(Program, st)
    requires t.pc != Insert ==> up' == up
    requires up ==> entry
    requires Phase(st) >= 4 ==> up
    requires t.pc == Insert ==> !up
    ensures var st' := StatusOf(Program, t.pc, st, noPrograms);
            && Phase(st) <= Phase(st') <= Phase(st) + 1
            && ThreadOk(Program, Next(Program, t, st, up'), entry || t.pc == Insert, Phase(st'))
  {
    GatesFollowPhases(st);
  }

  lemma OutputOkNext(t: Thread, entry: bool, st: Status, up: bool, up': bool, noPrograms: bool)
    requires ThreadOk(Output, t, entry, Phase(st)) && t.pc != Done
    requires t.pc == Gate ==> CanRun(Output, st)
    requires t.pc != Insert ==> up' == up
    requires up ==> entry
    requires t.pc == Insert ==> !up
    ensures var st' := StatusOf(Output, t.pc, st, noPrograms);
            && Phase(st) <= Phase(st') <= Phase(st) + 1
            && ThreadOk(Output, Next(Output, t, st, up'), entry || t.pc == Insert, Phase(st'))
  {
    GatesFollowPhases(st);
  }

  /** A thread that is not about to store a status does not mind the phase moving on. */
  lemma ThreadOkAdvance(kind: Kind, t: Thread, entry: bool, ph: nat, ph': nat)
    requires ThreadOk(kind, t, entry, ph) && ph <= ph'
    requires kind == Output || (t.pc != StoreFirst && t.pc != StoreSecond)
    ensures ThreadOk(kind, t, entry, ph')
  {
  }

  // ---------------------------------------------------------------- one group

  /** The group of the stepping thread. */
  lemma GroupOkStep(s: State, kind: Kind, n: Name)
    requires ThreadEnabled(s, kind, n) && Weak(s)
    requires GroupOk(kind, GroupOf(s, kind), Phase(s.status)) && Barriers(s, Phase(s.status))
    ensures var s' := StepThread(s, kind, n);
            && Phase(s.status) <= Phase(s'.status) <= Phase(s.status) + 1
            && GroupOk(kind, GroupOf(s', kind), Phase(s'.status))
  {
    hide Next, ThreadOk, Weak, Barriers, AllTrue;
    OwnThreadOk(s, kind, n);
    var g := GroupOf(s, kind);
    var s' := StepThread(s, kind, n);
    var g' := GroupOf(s', kind);
    forall m | m in g'.threads
      ensures m in g'.entries && ThreadOk(kind, g'.threads[m], g'.entries[m], Phase(s'.status))
    {
      if m != n {
        OtherThreadOk(s, kind, n, kind, m);
      }
    }
  }

  lemma OwnThreadOk(s: State, kind: Kind, n: Name)
    requires ThreadEnabled(s, kind, n) && Weak(s)
    requires GroupOk(kind, GroupOf(s, kind), Phase(s.status)) && Barriers(s, Phase(s.status))
    ensures var s' := StepThread(s, kind, n); var g' := GroupOf(s', kind);
            && Phase(s.status) <= Phase(s'.status) <= Phase(s.status) + 1
            && n in g'.threads && n in g'.entries
            && ThreadOk(kind, g'.threads[n], g'.entries[n], Phase(s'.status))
  {
    hide Next, ThreadOk, GuardOpen, CanRun, Weak, WeakGroup, StoresBehind, AllTrue, LockAfter;
    var g := GroupOf(s, kind);
    ThreadIsWeak(s, kind, n);
    if g.up {
      UpMeansAll(s, kind, n);
    }
    ThreadOkNext(kind, g.threads[n], g.entries[n], s.status, g.up,
                 GroupOf(StepThread(s, kind, n), kind).up, s.program.entries == map[]);
  }

  /** Any other thread, of this group or another. */
  lemma OtherThreadOk(s: State, kind: Kind, n: Name, k: Kind, m: Name)
    requires ThreadEnabled(s, kind, n) && Weak(s)
    requires m in GroupOf(s, k).threads && (k != kind || m != n)
    requires GroupOk(k, GroupOf(s, k), Phase(s.status))
    requires Phase(s.status) <= Phase(StepThread(s, kind, n).status)
    ensures var g' := GroupOf(StepThread(s, kind, n), k);
            && m in g'.threads && g'.threads[m] == GroupOf(s, k).threads[m]
            && m in g'.entries && g'.entries[m] == GroupOf(s, k).entries[m]
            && ThreadOk(k, g'.threads[m], g'.entries[m], Phase(StepThread(s, kind, n).status))
  {
    hide Next, ThreadOk, CanRun, AllTrue;
    var t := GroupOf(s, kind).threads[n];
    assert WeakThread(kind, n, t, GroupOf(s, kind).up, s.lock, BeforeSyncing(s.main));
    assert WeakThread(k, m, GroupOf(s, k).threads[m], GroupOf(s, k).up, s.lock, BeforeSyncing(s.main));
    if t.pc == StoreFirst || t.pc == StoreSecond {
      ThreadOkAdvance(k, GroupOf(s, k).threads[m], GroupOf(s, k).entries[m], Phase(s.status),
                      Phase(StepThread(s, kind, n).status));
    }
  }

  /** The groups the stepping thread does not belong to. */
  lemma GroupOkFrame(s: State, kind: Kind, n: Name, k: Kind)
    requires ThreadEnabled(s, kind, n) && Weak(s) && k != kind
    requires GroupOk(k, GroupOf(s, k), Phase(s.status))
    requires Phase(s.status) <= Phase(StepThread(s, kind, n).status)
    ensures GroupOk(k, GroupOf(StepThread(s, kind, n), k), Phase(StepThread(s, kind, n).status))
  {
    hide Next, ThreadOk, Weak, StatusAfter, AllTrue;
    var g' := GroupOf(StepThread(s, kind, n), k);
    assert g' == GroupOf(s, k);
    forall m | m in g'.threads
      ensures ThreadOk(k, g'.threads[m], g'.entries[m], Phase(StepThread(s, kind, n).status))
    {
      OtherThreadOk(s, kind, n, k, m);
    }
  }

  // ---------------------------------------------------------------- the barriers and the main thread

  /** Who holds the lock around a thread step. */
  lemma LockEffect(s: State, kind: Kind, n: Name)
    requires ThreadEnabled(s, kind, n) && Weak(s)
    ensures var s' := StepThread(s, kind, n); var t := GroupOf(s, kind).threads[n];
            && (t.pc == Insert || t.pc == StoreFirst || t.pc == StoreSecond || t.pc == Leave ==>
                  s.lock == Held(kind, n))
            && (t.pc == Enter ==> s.lock == Free)
            && (t.pc != Enter && t.pc != Leave ==> s'.lock == s.lock)
            && (t.pc != StoreFirst && t.pc != StoreSecond ==> s'.status == s.status)
            && (t.pc == Insert ==> !GroupOf(s, kind).up)
            && (t.pc == StoreSecond ==> kind == Input)
            && (t.pc == StoreFirst || t.pc == StoreSecond ==> GroupOf(s, kind).up)
            && (s.program.entries == map[] ==> s.program.up)
  {
    hide Next, InsertInto, AllTrue, CanRun;
    var g := GroupOf(s, kind);
    EmptyIsUp(Program, s.program, s.lock, BeforeSyncing(s.main));
    assert WeakGroup(kind, g, s.lock, BeforeSyncing(s.main));
    assert WeakThread(kind, n, g.threads[n], g.up, s.lock, BeforeSyncing(s.main));
  }

  lemma EntriesStay(s: State, kind: Kind, n: Name)
    requires ThreadEnabled(s, kind, n) && GroupOf(s, kind).entries.Keys == GroupOf(s, kind).threads.Keys
    ensures GroupOf(s, kind).entries != map[] && GroupOf(StepThread(s, kind, n), kind).entries != map[]
  {
    hide Next, StatusAfter, LockAfter, AllTrue, CanRun;
    assert n in GroupOf(s, kind).entries && n in GroupOf(StepThread(s, kind, n), kind).entries;
  }

  /** What a thread step can do to the table and the flag of its kind. */
  lemma StepEffect(s: State, kind: Kind, n: Name)
    requires ThreadEnabled(s, kind, n) && Weak(s)
    ensures var s' := StepThread(s, kind, n); var t := GroupOf(s, kind).threads[n];
            var g := GroupOf(s, kind); var g' := GroupOf(s', kind);
            && g.entries != map[] && g'.entries != map[]
            && (t.pc != Insert ==> g'.up == g.up)
            && (t.pc == Insert && g'.up ==> PendingFirst(kind, g', s'.lock))
  {
    LockEffect(s, kind, n);
    ThreadFrame(s, kind, n);
    assert WeakGroup(kind, GroupOf(s, kind), s.lock, BeforeSyncing(s.main));
    EntriesStay(s, kind, n);
    hide StepThread, Weak, WeakGroup, LockAfter, StatusAfter, ThreadEnabled;
  }

  /** The phases between which a loop of each kind can move the status. */
  lemma PhaseEffect(s: State, kind: Kind, n: Name)
    requires ThreadEnabled(s, kind, n) && Strong(s)
    ensures var ph := Phase(s.status); var ph' := Phase(StepThread(s, kind, n).status);
            ph' == ph ||
            match kind
            case Input => (ph == 2 && ph' == 3) || (ph == 3 && ph' == 4 && NoPrograms(s))
            case Program => ph == 3 && ph' == 4
            case Output => ph == 6 && ph' == 7
  {
    hide Strong, Weak, AllTrue, CanRun, LockAfter, InsertInto, Next;
    StrongParts(s);
    ThreadIsOk(s, kind, n);
    hide MainOk, Barriers;
    LockEffect(s, kind, n);
    StepEffect(s, kind, n);
  }

  predicate NoPrograms(s: State) {
    s.program.entries == map[]
  }

  lemma MainOkKept(s: State, s': State)
    requires MainOk(s, Phase(s.status)) && s'.main == s.main && s'.shutdownFn == s.shutdownFn
    requires NoInputs(s) <==> NoInputs(s')
    requires NoPrograms(s) <==> NoPrograms(s')
    requires s.output.entries == map[] <==> s'.output.entries == map[]
    requires var ph := Phase(s.status); var ph' := Phase(s'.status);
             || ph' == ph
             || (ph == 2 && ph' == 3 && !NoInputs(s))
             || (ph == 3 && ph' == 4 && !NoLoops(s))
             || (ph == 6 && ph' == 7)
    ensures MainOk(s', Phase(s'.status))
  {
    hide Phase;
  }

  lemma MainOkThreadStep(s: State, kind: Kind, n: Name)
    requires ThreadEnabled(s, kind, n) && Strong(s)
    ensures MainOk(StepThread(s, kind, n), Phase(StepThread(s, kind, n).status))
  {
    PhaseEffect(s, kind, n);
    StepEffect(s, kind, n);
    ThreadStepFrame(s, kind, n);
    var s' := StepThread(s, kind, n);
    assert GroupOf(s', Input) == s'.input && GroupOf(s', Program) == s'.program && GroupOf(s', Output) == s'.output;
    hide StepThread, Weak, WeakGroup, GroupOk, Joined, ThreadEnabled, Barriers, Pending, PendingFirst, Phase, MainOk;
    MainOkKept(s, s');
  }

  lemma EmptyIsUp(kind: Kind, g: Group, lock: Owner, before: bool)
    requires WeakGroup(kind, g, lock, before)
    ensures g.entries == map[] ==> g.up
  {
  }

  /** A pending store stays pending, unless it is the stepping thread that makes it. */
  lemma PendingEffect(s: State, kind: Kind, n: Name, k: Kind)
    requires ThreadEnabled(s, kind, n) && Strong(s)
    requires !(k == kind && s.lock == Held(kind, n))
    ensures var s' := StepThread(s, kind, n);
            && (Pending(k, GroupOf(s, k), s.lock) ==> Pending(k, GroupOf(s', k), s'.lock))
            && (PendingFirst(k, GroupOf(s, k), s.lock) ==> PendingFirst(k, GroupOf(s', k), s'.lock))
  {
    hide Next, StatusAfter, Barriers, MainOk, GroupOk, AllTrue, Joined;
    LockEffect(s, kind, n);
    StepEffect(s, kind, n);
  }

  lemma BarriersStep(s: State, kind: Kind, n: Name)
    requires ThreadEnabled(s, kind, n) && Strong(s)
    ensures Barriers(StepThread(s, kind, n), Phase(StepThread(s, kind, n).status))
  {
    FlagsBehindStep(s, kind, n);
    StoresBehindStep(s, kind, n);
    hide Strong, StepThread, FlagsBehind, StoresBehind;
  }

  lemma FlagsBehindStep(s: State, kind: Kind, n: Name)
    requires ThreadEnabled(s, kind, n) && Strong(s)
    ensures FlagsBehind(StepThread(s, kind, n), Phase(StepThread(s, kind, n).status))
  {
    LockEffect(s, kind, n);
    StepEffect(s, kind, n);
    PhaseEffect(s, kind, n);
    ThreadStepFrame(s, kind, n);
    var s' := StepThread(s, kind, n);
    assert GroupOf(s', Input) == s'.input && GroupOf(s', Program) == s'.program && GroupOf(s', Output) == s'.output;
    hide StepThread, Weak, MainOk, GroupOk, Joined, ThreadEnabled, Phase, Pending, PendingFirst, StoresBehind;
  }

  lemma StoresBehindStep(s: State, kind: Kind, n: Name)
    requires ThreadEnabled(s, kind, n) && Strong(s)
    ensures StoresBehind(StepThread(s, kind, n), Phase(StepThread(s, kind, n).status))
  {
    hide Strong, Weak, GroupOk, Joined;
    StrongParts(s);
    WeakGroups(s, kind);
    LockEffect(s, kind, n);
    StepEffect(s, kind, n);
    PhaseEffect(s, kind, n);
    ThreadStepFrame(s, kind, n);
    StoreEffect(s, kind, n);
    var s' := StepThread(s, kind, n);
    assert GroupOf(s', Input) == s'.input && GroupOf(s', Program) == s'.program && GroupOf(s', Output) == s'.output;
    hide StepThread, Weak, MainOk, GroupOk, Joined, ThreadEnabled, Phase, Pending, PendingFirst, FlagsBehind;
    forall k: Kind | !(k == kind && s.lock == Held(kind, n))
      ensures Pending(k, GroupOf(s, k), s.lock) ==> Pending(k, GroupOf(s', k), s'.lock)
      ensures PendingFirst(k, GroupOf(s, k), s.lock) ==> PendingFirst(k, GroupOf(s', k), s'.lock)
    {
      PendingEffect(s, kind, n, k);
    }
  }

  /** What is pending around the step of the lock holder. */
  lemma StoreEffect(s: State, kind: Kind, n: Name)
    requires ThreadEnabled(s, kind, n) && Strong(s)
    ensures var s' := StepThread(s, kind, n); var t := GroupOf(s, kind).threads[n];
            && (PendingFirst(kind, GroupOf(s', kind), s'.lock) ==> Pending(kind, GroupOf(s', kind), s'.lock))
            && (s.lock == Held(kind, n) && Pending(kind, GroupOf(s, kind), s.lock) ==>
                  || (t.pc == StoreFirst && s'.status == FirstStatus(kind)
                      && (kind == Input ==> Pending(kind, GroupOf(s', kind), s'.lock)))
                  || (t.pc == StoreSecond && kind == Input && Phase(s.status) == 3
                      && (NoPrograms(s) ==> s'.status == Active)))
            && (PendingFirst(kind, GroupOf(s, kind), s.lock) && s.lock == Held(kind, n) ==> t.pc == StoreFirst)
  {
    hide Barriers, MainOk, AllTrue, Joined, Weak, Strong;
    StrongParts(s);
    ThreadIsOk(s, kind, n);
    ThreadFrame(s, kind, n);
    LockEffect(s, kind, n);
    hide StepThread, ThreadEnabled;
  }

  lemma JoinedThreadStep(s: State, kind: Kind, n: Name)
    requires ThreadEnabled(s, kind, n) && Joined(s)
    ensures kind == Output && Joined(StepThread(s, kind, n))
  {
  }

  lemma GroupsOkStep(s: State, kind: Kind, n: Name, k: Kind)
    requires Strong(s) && ThreadEnabled(s, kind, n)
    ensures GroupOk(k, GroupOf(StepThread(s, kind, n), k), Phase(StepThread(s, kind, n).status))
    ensures Phase(s.status) <= Phase(StepThread(s, kind, n).status) <= Phase(s.status) + 1
  {
    hide Strong, Weak, GroupOk, Barriers, ThreadEnabled, StepThread, Phase, GroupOf;
    StrongParts(s);
    StrongGroup(s, kind);
    StrongGroup(s, k);
    GroupOkStep(s, kind, n);
    if k != kind {
      GroupOkFrame(s, kind, n, k);
    }
  }

  lemma StrongFromParts(s: State)
    requires Weak(s) && Barriers(s, Phase(s.status)) && MainOk(s, Phase(s.status))
    requires forall k: Kind :: GroupOk(k, GroupOf(s, k), Phase(s.status))
    requires PastJoin(s.main) && s.shutdownFn ==> Joined(s)
    ensures Strong(s)
  {
    hide Weak, Barriers, MainOk, GroupOk, Joined;
    assert GroupOf(s, Input) == s.input && GroupOf(s, Program) == s.program && GroupOf(s, Output) == s.output;
  }

  lemma StrongThreadStep(s: State, kind: Kind, n: Name)
    requires Strong(s) && ThreadEnabled(s, kind, n)
    ensures Strong(StepThread(s, kind, n))
    ensures Phase(s.status) <= Phase(StepThread(s, kind, n).status) <= Phase(s.status) + 1
  {
    hide Strong, Weak, WeakGroup, GroupOk, Barriers, MainOk, Joined, ThreadEnabled, StepThread, Phase, GroupOf;
    StrongParts(s);
    WeakThreadStep(s, kind, n);
    WeakGroups(s, kind);
    ThreadStepFrame(s, kind, n);
    forall k: Kind
      ensures GroupOk(k, GroupOf(StepThread(s, kind, n), k), Phase(StepThread(s, kind, n).status))
      ensures Phase(s.status) <= Phase(StepThread(s, kind, n).status) <= Phase(s.status) + 1
    {
      GroupsOkStep(s, kind, n, k);
    }
    BarriersStep(s, kind, n);
    MainOkThreadStep(s, kind, n);
    if Joined(s) {
      JoinedThreadStep(s, kind, n);
    }
    StrongFromParts(StepThread(s, kind, n));
  }

  /** Where the main thread can be when it stores, and what that leaves to the loops. */
  lemma MainStorePhase(s: State)
    requires MainEnabled(s) && !Early(StepMain(s)) && MainOk(s, Phase(s.status))
    ensures var ph := Phase(s.status); var ph' := Phase(StepMain(s).status);
            || ph' == ph
            || (ph' == ph + 1 && (ph < 2 || ph >= 4))
            || (ph == 2 && ph' == 3 && NoInputs(s))
            || (ph == 3 && ph' == 4 && NoLoops(s))
  {
  }

  lemma GroupOkMain(s: State, k: Kind)
    requires Strong(s) && MainEnabled(s) && !Early(StepMain(s))
    ensures GroupOk(k, GroupOf(StepMain(s), k), Phase(StepMain(s).status))
  {
    MainStorePhase(s);
    var g := GroupOf(s, k);
    var ph := Phase(s.status);
    var ph' := Phase(StepMain(s).status);
    assert GroupOf(StepMain(s), k) == g;
    assert GroupOk(k, g, ph);
    hide ThreadOk, Strong, StepMain, Phase, MainEnabled, WeakGroup;
    forall n | n in g.threads
      ensures ThreadOk(k, g.threads[n], g.entries[n], ph')
    {
      assert ThreadOk(k, g.threads[n], g.entries[n], ph);
      assert n in g.entries;
      if ph' != ph {
        if k != Output {
          NotStoring(k, g.threads[n], g.entries[n], ph);
        }
        ThreadOkAdvance(k, g.threads[n], g.entries[n], ph, ph');
      }
    }
  }

  /** No input or program loop is about to store a status while the main thread is. */
  lemma NotStoring(k: Kind, t: Thread, entry: bool, ph: nat)
    requires ThreadOk(k, t, entry, ph) && k != Output
    requires ph < 2 || ph >= 4 || (ph == 2 && k == Program)
    ensures t.pc != StoreFirst && t.pc != StoreSecond
  {
  }

  lemma StrongMainStep(s: State)
    requires Strong(s) && MainEnabled(s) && !Early(StepMain(s))
    ensures Strong(StepMain(s))
    ensures Phase(s.status) <= Phase(StepMain(s).status) <= Phase(s.status) + 1
  {
    WeakMainStep(s);
    MainStorePhase(s);
    GroupOkMain(s, Input);
    GroupOkMain(s, Program);
    GroupOkMain(s, Output);
    MainOkMainStep(s);
    BarriersMainStep(s);
    JoinedMainStep(s);
    var s' := StepMain(s);
    assert GroupOf(s', Input) == s'.input && GroupOf(s', Program) == s'.program && GroupOf(s', Output) == s'.output;
    hide StepMain, GroupOk, Weak, MainOk, Barriers, Phase, Early, Joined;
  }

  lemma JoinedMainStep(s: State)
    requires Strong(s) && MainEnabled(s)
    ensures PastJoin(StepMain(s).main) && StepMain(s).shutdownFn ==> Joined(StepMain(s))
  {
    hide Weak, GroupOk, MainOk, Barriers, AllDone;
  }

  lemma MainOkMainStep(s: State)
    requires Strong(s) && MainEnabled(s) && !Early(StepMain(s))
    ensures MainOk(StepMain(s), Phase(StepMain(s).status))
  {
    hide Strong, Weak, Barriers, Joined;
    StrongParts(s);
  }

  lemma BarriersMainStep(s: State)
    requires Strong(s) && MainEnabled(s) && !Early(StepMain(s))
    ensures Barriers(StepMain(s), Phase(StepMain(s).status))
  {
    FlagsBehindMain(s);
    StoresBehindMain(s);
    hide FlagsBehind, StoresBehind, Strong;
  }

  lemma FlagsBehindMain(s: State)
    requires Strong(s) && MainEnabled(s) && !Early(StepMain(s))
    ensures FlagsBehind(StepMain(s), Phase(StepMain(s).status))
  {
    hide GroupOk, AllTrue, Joined, WeakGroup, Spent, StoresBehind;
    EmptyIsUp(Input, s.input, s.lock, BeforeSyncing(s.main));
    EmptyIsUp(Program, s.program, s.lock, BeforeSyncing(s.main));
  }

  lemma StoresBehindMain(s: State)
    requires Strong(s) && MainEnabled(s) && !Early(StepMain(s))
    ensures StoresBehind(StepMain(s), Phase(StepMain(s).status))
  {
    hide Strong, Weak, WeakGroup, FlagsBehind, Joined, MainOk, MainEnabled, StepMain, Phase;
    StrongParts(s);
    SameGroups(s);
    WeakGroups(s, Input);
    MainStorePhase(s);
    AtMostSeven(StepMain(s).status);
    PendingMain(s, Input);
    PendingMain(s, Program);
    PendingMain(s, Output);
    hide PendingFirst, Pending;
  }

  lemma AtMostSeven(st: Status)
    ensures Phase(st) <= 7
  {
  }

  lemma SameGroups(s: State)
    requires MainEnabled(s)
    ensures var s' := StepMain(s);
            s'.input == s.input && s'.program == s.program && s'.output == s.output && s'.shutdownFn == s.shutdownFn
  {
  }

  /** The main thread does not touch a lock held by a loop. */
  lemma PendingMain(s: State, k: Kind)
    requires MainEnabled(s) && (s.lock == HeldByMain <==> s.main == StoreActive)
    ensures var s' := StepMain(s);
            && (Pending(k, GroupOf(s, k), s.lock) ==> Pending(k, GroupOf(s, k), s'.lock))
            && (PendingFirst(k, GroupOf(s, k), s.lock) ==> PendingFirst(k, GroupOf(s, k), s'.lock))
  {
  }

  lemma StrongSpawn(s: State, kind: Kind, n: Name, guarded: bool)
    requires Strong(s) && Enabled(s, Spawn(kind, n, guarded))
    ensures Strong(StepSpawn(s, kind, n, guarded))
  {
    hide Weak, GroupOk, Phase, Barriers, MainOk, Joined, ThreadEnabled;
    WeakSpawn(s, kind, n, guarded);
    GroupOkSpawn(kind, GroupOf(s, kind), n, guarded, Phase(s.status));
    RestSpawn(s, kind, n, guarded);
  }

  lemma RestSpawn(s: State, kind: Kind, n: Name, guarded: bool)
    requires CanSpawn(s) && Barriers(s, Phase(s.status)) && MainOk(s, Phase(s.status))
    ensures var s' := StepSpawn(s, kind, n, guarded);
            Barriers(s', Phase(s'.status)) && MainOk(s', Phase(s'.status)) && !PastJoin(s'.main)
  {
    hide Pending, PendingFirst;
  }

  lemma GroupOkSpawn(kind: Kind, g: Group, n: Name, guarded: bool, ph: nat)
    requires GroupOk(kind, g, ph) && n !in g.threads && (guarded ==> kind == Program)
    ensures GroupOk(kind,
              Group(g.threads[n := Thread(guarded, Gate, false, false)], g.entries[n := false], false), ph)
  {
    var threads := g.threads[n := Thread(guarded, Gate, false, false)];
    var entries := g.entries[n := false];
    forall m | m in threads
      ensures ThreadOk(kind, threads[m], entries[m], ph)
    {
      assert m != n ==> ThreadOk(kind, g.threads[m], g.entries[m], ph);
    }
  }

  lemma StrongInit(shutdownFn: bool)
    ensures Strong(Init(shutdownFn))
  {
  }
}
