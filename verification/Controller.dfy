/** The status word, the registration tables and the ready flags of `src/tasks.rs`. */
module Controller {
  import opened Basics

  /** A thread name with its kind prefix, as `spawn` builds it. */
  datatype Name = Name(text: string)

  /** `Status::Unknown` is never stored, so it is not a value here. */
  datatype Status =
    | Inactive | Starting | Syncing | Preparing | Active | Stopping | StopSyncing | Stopped

  datatype Kind = Input | Program | Output

  /** The discriminants; the derived order on `Status` compares them. */
  function Code(st: Status): int {
    match st
    case Inactive => 0
    case Starting => 1
    case Syncing => 2
    case Preparing => 3
    case Active => 100
    case Stopping => -1
    case StopSyncing => -2
    case Stopped => -100
  }

  /** The status a stored number is loaded as; nothing for `Status::Unknown`. */
  function Loaded(code: int): Option<Status> {
    if code == 0 then Some(Inactive)
    else if code == 1 then Some(Starting)
    else if code == 2 then Some(Syncing)
    else if code == 3 then Some(Preparing)
    else if code == 100 then Some(Active)
    else if code == -1 then Some(Stopping)
    else if code == -2 then Some(StopSyncing)
    else if code == -100 then Some(Stopped)
    else None
  }

  /** A status is loaded as it was stored, in 16 bits, and no other number is one. */
  lemma StoredIsLoaded(st: Status, code: int)
    ensures Loaded(Code(st)) == Some(st) && -0x8000 <= Code(st) < 0x8000
    ensures Loaded(code).Some? ==> Code(Loaded(code).value) == code
  {
  }

  /** Position in the life cycle, as the comments on the enum describe it. */
  function Phase(st: Status): nat {
    match st
    case Inactive => 0
    case Starting => 1
    case Syncing => 2
    case Preparing => 3
    case Active => 4
    case Stopping => 5
    case StopSyncing => 6
    case Stopped => 7
  }

  predicate AtLeast(a: Status, b: Status) {
    Code(a) >= Code(b)
  }

  predicate AtMost(a: Status, b: Status) {
    Code(a) <= Code(b)
  }

  predicate CanRun(kind: Kind, st: Status) {
    match kind
    case Input => AtLeast(st, Syncing)
    case Program => AtLeast(st, Preparing)
    case Output => AtLeast(st, Preparing) || AtMost(st, Stopping)
  }

  predicate NeedStop(st: Status) {
    AtMost(st, Stopping)
  }

  predicate OutputLastSync(st: Status) {
    st == StopSyncing
  }

  /** The gates and stop tests, read through the numeric codes, follow the life cycle. */
  lemma GatesFollowPhases(st: Status)
    ensures CanRun(Input, st) <==> 2 <= Phase(st) <= 4
    ensures CanRun(Program, st) <==> 3 <= Phase(st) <= 4
    ensures CanRun(Output, st) <==> 3 <= Phase(st)
    ensures NeedStop(st) <==> 5 <= Phase(st)
  {
  }

  /** The part of the process state that `mark_*` and the status stores touch. */
  datatype Shared = Shared(
    status: Status,
    inputs: map<Name, bool>,
    programs: map<Name, bool>,
    outputs: map<Name, bool>,
    inputsReady: bool,
    programsReady: bool,
    outputsStopped: bool)

  const INITIAL: Shared := Shared(Inactive, map[], map[], map[], true, true, true)

  function Table(sh: Shared, kind: Kind): map<Name, bool> {
    match kind
    case Input => sh.inputs
    case Program => sh.programs
    case Output => sh.outputs
  }

  function Flag(sh: Shared, kind: Kind): bool {
    match kind
    case Input => sh.inputsReady
    case Program => sh.programsReady
    case Output => sh.outputsStopped
  }

  function WithTable(sh: Shared, kind: Kind, m: map<Name, bool>): Shared {
    match kind
    case Input => sh.(inputs := m)
    case Program => sh.(programs := m)
    case Output => sh.(outputs := m)
  }

  function WithFlag(sh: Shared, kind: Kind, b: bool): Shared {
    match kind
    case Input => sh.(inputsReady := b)
    case Program => sh.(programsReady := b)
    case Output => sh.(outputsStopped := b)
  }

  predicate AllTrue(m: map<Name, bool>) {
    forall n :: n in m ==> m[n]
  }

  function Register(sh: Shared, kind: Kind, n: Name): Shared {
    WithFlag(WithTable(sh, kind, Table(sh, kind)[n := false]), kind, false)
  }

  /** The test each `mark_*` makes first. */
  predicate GuardOpen(kind: Kind, up: bool, st: Status) {
    !up && (kind == Output || CanRun(kind, st))
  }

  predicate GuardPasses(sh: Shared, kind: Kind) {
    GuardOpen(kind, Flag(sh, kind), sh.status)
  }

  /** Insertion of the caller's entry and the scan over the table. */
  function Scan(sh: Shared, kind: Kind, n: Name): Shared {
    var sh' := WithTable(sh, kind, Table(sh, kind)[n := true]);
    if AllTrue(Table(sh', kind)) then WithFlag(sh', kind, true) else sh'
  }

  function FirstStatus(kind: Kind): Status {
    match kind
    case Input => Preparing
    case Program => Active
    case Output => Stopped
  }

  /** A whole `mark_*` call during which nobody else stores a status. */
  function Mark(sh: Shared, kind: Kind, n: Name): Shared {
    if !GuardPasses(sh, kind) then sh
    else
      var sh1 := Scan(sh, kind, n);
      if !Flag(sh1, kind) then sh1
      else
        var sh2 := sh1.(status := FirstStatus(kind));
        if kind == Input && sh2.programs == map[] then sh2.(status := Active) else sh2
  }

  /** What keeps the three flags meaningful: a flag is up exactly when its table is all true. */
  predicate FlagsExact(sh: Shared) {
    && (sh.inputsReady <==> AllTrue(sh.inputs))
    && (sh.programsReady <==> AllTrue(sh.programs))
    && (sh.outputsStopped <==> AllTrue(sh.outputs))
  }

  /** A registration adds a false entry to one table and takes that table's flag down; everybody who
      is registered already stays as he is. */
  lemma RegisterExactly(sh: Shared, kind: Kind, n: Name)
    ensures var sh' := Register(sh, kind, n); var m, m' := Table(sh, kind), Table(sh', kind);
            && m'.Keys == m.Keys + {n} && !m'[n] && !Flag(sh', kind)
            && (forall x :: x in m && x != n ==> m'[x] == m[x])
            && (forall k: Kind :: k != kind ==> Table(sh', k) == Table(sh, k) && Flag(sh', k) == Flag(sh, k))
            && sh'.status == sh.status
  {
  }

  /** A mark whose guard is open sets its caller's entry, and the flag if nobody else is missing; a
      mark whose guard is closed changes nothing. */
  lemma MarkExactly(sh: Shared, kind: Kind, n: Name)
    ensures var sh' := Mark(sh, kind, n); var m, m' := Table(sh, kind), Table(sh', kind);
            if Flag(sh, kind) || (kind == Input && !(2 <= Phase(sh.status) <= 4))
               || (kind == Program && !(3 <= Phase(sh.status) <= 4)) then sh' == sh
            else
              && m'.Keys == m.Keys + {n} && m'[n]
              && (forall x :: x in m && x != n ==> m'[x] == m[x])
              && (Flag(sh', kind) <==> forall x :: x in m && x != n ==> m[x])
              && (forall k: Kind :: k != kind ==> Table(sh', k) == Table(sh, k) && Flag(sh', k) == Flag(sh, k))
  {
    GuardInPhases(sh, kind);
    ScanExactly(sh, kind, n);
    MarkIsScan(sh, kind, n);
    hide Mark, Scan, GuardPasses, Phase, AllTrue;
  }

  lemma GuardInPhases(sh: Shared, kind: Kind)
    ensures GuardPasses(sh, kind) <==>
            && !Flag(sh, kind)
            && (kind == Input ==> 2 <= Phase(sh.status) <= 4)
            && (kind == Program ==> 3 <= Phase(sh.status) <= 4)
  {
    GatesFollowPhases(sh.status);
    hide CanRun, Phase;
  }

  lemma ScanExactly(sh: Shared, kind: Kind, n: Name)
    ensures var sh' := Scan(sh, kind, n); var m, m' := Table(sh, kind), Table(sh', kind);
            && m' == m[n := true]
            && (Flag(sh', kind) <==> Flag(sh, kind) || forall x :: x in m && x != n ==> m[x])
            && (forall k: Kind :: k != kind ==> Table(sh', k) == Table(sh, k) && Flag(sh', k) == Flag(sh, k))
  {
    LastMissing(Table(sh, kind), n);
    hide AllTrue;
  }

  /** Without its status a mark is the scan. */
  lemma MarkIsScan(sh: Shared, kind: Kind, n: Name)
    ensures Mark(sh, kind, n) ==
            if GuardPasses(sh, kind) then Scan(sh, kind, n).(status := Mark(sh, kind, n).status) else sh
    ensures var sh1 := if GuardPasses(sh, kind) then Scan(sh, kind, n) else sh; var sh' := Mark(sh, kind, n);
            forall k: Kind :: Table(sh', k) == Table(sh1, k) && Flag(sh', k) == Flag(sh1, k)
  {
    hide Scan, GuardPasses;
  }

  lemma LastMissing(m: map<Name, bool>, n: Name)
    ensures AllTrue(m[n := true]) <==> forall x :: x in m && x != n ==> m[x]
  {
    if AllTrue(m[n := true]) {
      forall x | x in m && x != n
        ensures m[x]
      {
        assert x in m[n := true] && m[n := true][x];
      }
    }
  }

  lemma RegisterKeepsFlagsExact(sh: Shared, kind: Kind, n: Name)
    requires FlagsExact(sh)
    ensures FlagsExact(Register(sh, kind, n))
    ensures !Flag(Register(sh, kind, n), kind)
  {
    assert !Table(Register(sh, kind, n), kind)[n];
  }

  /** A call of any thread, registered or not, keeps the flags exact. */
  lemma MarkKeepsFlagsExact(sh: Shared, kind: Kind, n: Name)
    requires FlagsExact(sh)
    ensures FlagsExact(Mark(sh, kind, n))
    ensures Flag(sh, kind) ==> Mark(sh, kind, n) == sh
  {
    if !Flag(sh, kind) {
      ScanKeepsFlagsExact(sh, kind, n);
    }
    hide Scan, AllTrue, AtLeast;
  }

  lemma ScanKeepsFlagsExact(sh: Shared, kind: Kind, n: Name)
    requires FlagsExact(sh) && !Flag(sh, kind)
    ensures FlagsExact(Scan(sh, kind, n)) && Scan(sh, kind, n).status == sh.status
  {
    hide AllTrue;
  }

  /** A call stores the barrier's status exactly when its guard is open and the caller is the last
      entry still missing, and otherwise leaves the status alone. */
  lemma MarkStoresOnLast(sh: Shared, kind: Kind, n: Name)
    ensures Mark(sh, kind, n).status ==
            if GuardPasses(sh, kind) && forall m :: m in Table(sh, kind) && m != n ==> Table(sh, kind)[m] then
              if kind == Input && sh.programs == map[] then Active else FirstStatus(kind)
            else sh.status
  {
    LastMissing(Table(sh, kind), n);
    hide AllTrue, AtLeast;
  }

  datatype Outcome = Registered | Busy

  /** `ControllerStats` with the status word it stores into. `statsOf` stands for the keys of
      `thread_stats`. */
  class ControllerStats {
    var status: Status
    var inputThreadsReady: map<Name, bool>
    var programThreadsReady: map<Name, bool>
    var outputThreadsStopped: map<Name, bool>
    var inputsReady: bool
    var programsReady: bool
    var outputsStopped: bool
    var statsOf: set<Name>

    ghost function View(): Shared
      reads this
    {
      Shared(status, inputThreadsReady, programThreadsReady, outputThreadsStopped,
             inputsReady, programsReady, outputsStopped)
    }

    constructor ()
      ensures View() == INITIAL && FlagsExact(View()) && statsOf == {}
    {
      status := Inactive;
      inputThreadsReady, programThreadsReady, outputThreadsStopped := map[], map[], map[];
      inputsReady, programsReady, outputsStopped := true, true, true;
      statsOf := {};
    }

    method SetStatus(st: Status)
      modifies this`status
      ensures View() == old(View()).(status := st)
    {
      status := st;
    }

    method RegisterThreadStats(name: Name) returns (r: Outcome)
      modifies this`statsOf
      ensures r == if name in old(statsOf) then Busy else Registered
      ensures statsOf == old(statsOf) + {name}
    {
      if name in statsOf {
        r := Busy;
      } else {
        statsOf := statsOf + {name};
        r := Registered;
      }
    }

    method RegisterInputThread(name: Name) returns (r: Outcome)
      modifies this
      ensures r == if name in old(statsOf) then Busy else Registered
      ensures statsOf == old(statsOf) + {name}
      ensures View() == if r == Busy then old(View()) else Register(old(View()), Input, name)
    {
      r := RegisterThreadStats(name);
      if r == Registered {
        inputThreadsReady := inputThreadsReady[name := false];
        inputsReady := false;
      }
    }

    method RegisterProgramThread(name: Name) returns (r: Outcome)
      modifies this
      ensures r == if name in old(statsOf) then Busy else Registered
      ensures statsOf == old(statsOf) + {name}
      ensures View() == if r == Busy then old(View()) else Register(old(View()), Program, name)
    {
      r := RegisterThreadStats(name);
      if r == Registered {
        programThreadsReady := programThreadsReady[name := false];
        programsReady := false;
      }
    }

    /** Unlike the other two, the table is changed even when the name turns out to be taken. */
    method RegisterOutputThread(name: Name) returns (r: Outcome)
      modifies this
      ensures r == if name in old(statsOf) then Busy else Registered
      ensures statsOf == old(statsOf) + {name}
      ensures View() == Register(old(View()), Output, name)
    {
      outputThreadsStopped := outputThreadsStopped[name := false];
      outputsStopped := false;
      r := RegisterThreadStats(name);
    }

    method MarkInputThreadReady(name: Name)
      modifies this
      ensures View() == Mark(old(View()), Input, name) && statsOf == old(statsOf)
    {
      if !inputsReady && AtLeast(status, Syncing) {
        inputThreadsReady := inputThreadsReady[name := true];
        var all := ScanTable(inputThreadsReady);
        if !all {
          return;
        }
        inputsReady := true;
        SetStatus(Preparing);
        if programThreadsReady == map[] {
          SetStatus(Active);
        }
      }
    }

    method MarkProgramThreadReady(name: Name)
      modifies this
      ensures View() == Mark(old(View()), Program, name) && statsOf == old(statsOf)
    {
      if !programsReady && AtLeast(status, Preparing) {
        programThreadsReady := programThreadsReady[name := true];
        var all := ScanTable(programThreadsReady);
        if !all {
          return;
        }
        programsReady := true;
        SetStatus(Active);
      }
    }

    method MarkOutputThreadStopped(name: Name)
      modifies this
      ensures View() == Mark(old(View()), Output, name) && statsOf == old(statsOf)
    {
      if !outputsStopped {
        outputThreadsStopped := outputThreadsStopped[name := true];
        var all := ScanTable(outputThreadsStopped);
        if !all {
          return;
        }
        outputsStopped := true;
        SetStatus(Stopped);
      }
    }
  }

  /** The loop over the values of a table, with its early return. */
  method ScanTable(m: map<Name, bool>) returns (all: bool)
    ensures all <==> AllTrue(m)
  {
    var rest := m.Keys;
    while rest != {}
      invariant rest <= m.Keys
      invariant forall n :: n in m && n !in rest ==> m[n]
      decreases rest
    {
      var n :| n in rest;
      if !m[n] {
        return false;
      }
      rest := rest - {n};
    }
    return true;
  }
}
