# rPLC runtime guarantees

rPLC is a PLC runtime for Linux: user programs, protocol inputs and protocol outputs are loop
threads that share one context, and the process walks through a fixed sequence of statuses from
Inactive to Stopped. This project models the parts of the runtime that make promises about whole
runs and about data crossing a boundary, and proves those promises.

**Life cycle** (`Controller.dfy`, `Lifecycle*.dfy`). `ControllerStats` is a class whose methods
are proved against functions on the status, the registration tables and the ready flags. The
process is a transition system: the main thread runs `run` and `shutdown`, any number of input,
program and output loops run beside it, and every status load, status store and lock operation is
a step of its own. `SpawnIsRegister` and `MicroStepsAreMark` tie the two views together, and
`LifecycleLoops.dfy` says what a loop does at each of its steps. `Weak` is an invariant of every
run; `Strong` holds until the main thread finds the PLC not Active when it is told to stop
(`Early`). The theorems are about all runs (`ValidRun`); that the startup reaches Active and that
the shutdown ends is proved of all infinite runs that are weakly fair to each thread. For a stop
before Active the order of statuses holds up to the store of Stopped (`MonotoneUntilEarlyStore`), and
after it exactly when no `mark_*` is in flight (`EarlyOrderExactly`); `EarlyStopBreaksOrder` is a run
on which Preparing is stored over Stopped.

**OPC-UA output filter** (`Variants.dfy`, `Opc*.dfy`). The TTL cache is a map with expiry times whose
entries may go at any time, on a clock that may advance at any time. When that happens is fixed
beforehand by an `Environment` that the code cannot influence; unless an entry is evicted or expires
during the call, the contracts leave the filter no choice (`UndisturbedExactly`). The filtered worker is compared with one that
writes every mapped node every cycle. Up to the equality of `Variant`, which the filter itself uses,
they agree if and only if Active is one interval (`TransparentExactly`), which the life cycle
provides. The devices are identical if and only if no node goes from one float zero to the other in
adjacent Active cycles (`IdenticalExactly`), because the two IEEE zeros are equal but different;
`ZeroRun` is a run on which the device keeps the wrong one. Several outputs on one server have
separate caches; their filters and writes interleave freely in `OpcShared.dfy`. They agree with
unfiltered outputs on all runs if and only if no node is mapped by two outputs of which one has a ttl
(`SharedAgreesExactly`); the code does not refuse such a configuration, and `ClashRun` is a run on
which it leaves a node with the wrong value. With a shutdown function the last cycle of an output
before Stopped is not filtered (`FinalDeviceIsExact`).

**Modbus register image** (`Words.dfy`, `RegisterImage.dfy`, `RegisterText.dfy`). Words are 16 bits,
high byte first, as in section 4.2 of the MODBUS Application Protocol Specification V1.1b3; the
order of several words is the code's own. Floats are bit patterns. The output block is described
cell by cell for any list of mappings, also overlapping ones, and the round trip follows for
every mapping that no later one overlaps.

**Loop timing and jitter** (`LoopTiming.dfy`, `JitterStatistics.dfy`). The clock never goes back and a
sleep may overshoot. The jitter accumulator is specified by the samples reported since the last
reset.

**Text and configuration** (`Text.dfy`, `IntervalText.dfy`, `EapiParams.dfy`, `ApiFraming.dfy`,
`ContextTypes.dfy`). Printers and parsers undo each other; arithmetic that the code leaves unchecked
gives the outcome `Overflow`. The float text of a timeout belongs to a library, so `EapiParams` says
what parsing a printed timeout gives in terms of that library's functions: the same timeout exactly
when they restore it. `StructArrayDefault` shows where a generated default does not have the declared
type: a struct array under a key that is itself the name of a scalar type.

Where the code and its comments differ the code is followed: the comment on `Status::Active` says
that outputs can run from there, but `can_run_outputs` lets them run from Preparing
(`src/tasks.rs:107`, `src/tasks.rs:505-508`).

## Model

| member | source | states |
|---|---|---|
| Controller.GatesFollowPhases | src/tasks.rs:494-508 | the numeric comparisons of the gates and of the stop test single out exactly the intended stretches of the life cycle, although stop statuses are negative |
| Controller.StoredIsLoaded | src/tasks.rs:444-457 | a status is loaded from the number it is stored as, in 16 bits, and no other number is loaded as one |
| Controller.ControllerStats.RegisterInputThread | src/tasks.rs:317-322 | a taken name is refused and nothing changes; otherwise the entry is false and the flag is down |
| Controller.ControllerStats.RegisterProgramThread | src/tasks.rs:328-333 | the same for programs |
| Controller.ControllerStats.RegisterOutputThread | src/tasks.rs:323-327 | for outputs the table and flag change even when the name is taken |
| Controller.ControllerStats.MarkInputThreadReady | src/tasks.rs:337-359 | guard, insertion, scan with early return and up to two stores leave exactly the state of `Mark` and nothing else changed |
| Controller.ControllerStats.MarkProgramThreadReady | src/tasks.rs:360-379 | the same for programs |
| Controller.ControllerStats.MarkOutputThreadStopped | src/tasks.rs:380-400 | the same for outputs |
| Controller.ScanTable | src/tasks.rs:347-351 | the scan with early return is true exactly when every entry is |
| Controller.RegisterExactly | src/tasks.rs:317-333 | a registration adds exactly one false entry to one table and takes its flag down; every other entry, table and flag and the status stay |
| Controller.MarkExactly | src/tasks.rs:337-400 | in which phases a mark does anything, the table it leaves entry by entry, when its flag goes up, and that the other tables and flags stay |
| Controller.RegisterKeepsFlagsExact | src/tasks.rs:317-333 | after a registration each flag is up exactly when its table is all true, and the flag of the new thread's kind is down |
| Controller.MarkKeepsFlagsExact | src/tasks.rs:337-400 | a call by any thread, registered or not, keeps the same invariant, and does nothing once the flag is up |
| Controller.MarkStoresOnLast | src/tasks.rs:337-400 | a call changes the status exactly when its guard is open and its caller was the last entry missing, and to which status |
| Lifecycle.MicroStepsAreMark | src/tasks.rs:337-400 | the lock-protected micro-steps, run without interleaved stores, have the effect of the method |
| Lifecycle.SpawnIsRegister | src/tasks.rs:571-590 | spawning a loop has the effect of the registration and puts its thread at the gate |
| Lifecycle.StoresIsExact | src/tasks.rs:417-423 | the status changes by the listed stores only |
| LifecycleTheorems.WeakStep | src/tasks.rs:337-400 | every step of every thread keeps lock discipline and exact flags; once no store of Active is due none becomes due again, and Active is stored only while one is due |
| LifecycleTheorems.StrongStep | src/lib.rs:216-255 | until an early stop every step keeps the invariant that ties each thread's position, the tables, the main thread and the status together, and moves the status by at most one phase forward |
| LifecycleTheorems.StatusMonotone | src/lib.rs:216-255 | on a run stopped from Active (or not yet stopped) the status never turns back and skips no phase |
| LifecycleTheorems.ActiveIsContiguous | src/tasks.rs:352-376 | on every run, also one stopped early, Active is one contiguous interval |
| LifecycleTheorems.StoredOnce | src/tasks.rs:163-174 | no status other than Stopped is stored twice, so no barrier is repeated |
| LifecycleTheorems.LateMarksStoreNothing | src/tasks.rs:337-379 | from Active on no input or program loop stores a status |
| LifecycleTheorems.BarrierMeansCycled | src/tasks.rs:337-379 | Preparing or later implies that every registered input has executed its body, Active or later the same for every program |
| LifecycleTheorems.LoopsWaitForInputs | src/tasks.rs:494-508 | no program or output loop leaves its gate before all inputs are ready and have cycled |
| LifecycleTheorems.BarrierNotLost | src/tasks.rs:163-174 | once all loops of a kind have finished marking, or the main thread has passed its own tests when there are none, the barrier's status has been stored |
| LifecycleTheorems.LastSyncBefore | src/tasks.rs:699-712 | an output that leaves its loop has completed a body whose `last_sync` was read, under StopSyncing, before that body began |
| LifecycleTheorems.ShutdownBefore | src/tasks.rs:62-75 | whoever sees StopSyncing, with a shutdown function set, sees it after that function returned, with all inputs and programs finished |
| LifecycleTheorems.FinalSync | src/tasks.rs:62-75 | with a shutdown function, Stopped is stored only after every registered output completed a sync that began after the function returned, which it did after all inputs and programs had finished |
| LifecycleLive.PastGates | src/tasks.rs:510-529 | from Active on no registered input or program still waits at its gate |
| LifecycleLive.AtMostOneMoreCycle | src/tasks.rs:714-746 | after Stopping an input or program loop passes the top of its loop at most once more |
| LifecycleLoops.StepOfLoop | src/tasks.rs:695-727 | on every run, where a loop goes from each position by the phase it sees: gate, guarded and unguarded body, stop test, the one mark with the first tick, last sync of an output, end |
| LifecycleLoops.BodyBeginsExactly | src/tasks.rs:782-797 | a guarded program begins its body exactly if it sees Preparing or Active and otherwise goes to the stop test; every other loop begins one whenever it passes the top |
| LifecycleLoops.NoGuardedBodyAfterStopping | src/tasks.rs:785-793 | once Stopping is stored no guarded program begins a body |
| LifecycleLoops.EndsAtStopTest | src/tasks.rs:719-722 | once Stopping is stored every input and program that comes to its stop test ends there |
| LifecycleLoops.BodyPerPass | src/tasks.rs:695-727 | from one pass of the top to the next a loop executes exactly one body, or none if it is a guarded program that saw neither Preparing nor Active |
| LifecycleLoops.MarksOnce | src/interval.rs:67-73 | every loop calls its `mark_*` at most once |
| LifecycleLoops.LoopsWaitOnly | src/tasks.rs:510-529 | a loop is held up exactly by its gate outside the phases of its kind and by the lock |
| LifecycleLoops.MainWaitsOnly | src/tasks.rs:62-75 | what the main thread can be waiting for; it joins only with a shutdown function and while an input or program has not finished |
| LifecycleLoops.SpawnsExactly | src/tasks.rs:560-564 | on every run loops can be spawned exactly before `run` and in the launcher, and then the status is Inactive or Starting |
| LifecycleLive.ThreadStepLess | src/tasks.rs:695-727 | during the shutdown every thread step either lowers the measure or is an output cycle that changes neither status nor lock |
| LifecycleLive.SomePush | src/lib.rs:246-255 | while `run` has not finished, some enabled step lowers the measure: no deadlock among gates, joins, lock and the wait for Stopped |
| LifecycleLive.ShutdownFinishes | src/lib.rs:246-255 | on every fair infinite run a stop decided in Active reaches Stopped and the end of `run` |
| LifecycleStartup.HelpIsNearer | src/tasks.rs:337-379 | before Active each step of the main thread and of an unmarked input or program lowers the measure |
| LifecycleStartup.SomeHelp | src/tasks.rs:494-529 | before Active some such step is enabled: no deadlock among gates, lock and barriers |
| LifecycleStartup.StartupFinishes | src/lib.rs:216-240 | every fair infinite run without a termination signal reaches Active, however many loops there are |
| LifecycleEarly.MonotoneUntilEarlyStore | src/lib.rs:246-257 | also on a run stopped early the status never turns back and skips no phase up to the store of the early branch |
| LifecycleEarly.EarlyOrderExactly | src/lib.rs:255-257 | once that store is made, every continuation of the run keeps the order of statuses if and only if no `mark_*` was past its guard with a store still to make |
| LifecycleEarly.EarlyStopHoldsExactly | src/lib.rs:255-257 | under the same condition, and only then, the status stays Stopped under all continuations |
| LifecycleEarly.EarlyStopBreaksOrder | src/lib.rs:255-257 | a run in which Preparing is stored after Stopped |
| OpcCaches.OpcCache.RetainMapModified | src/io/opcua/cache.rs:22-37 | the map loses nodes with a live cached value equal to theirs and, unless the entry was evicted or expired during the call, all of them; entries of kept nodes are there with the kept value and a fresh expiry, all others stay, except evicted ones |
| Variants.EqIsIeee32 | src/io/opcua/cache.rs:25-31 | the equality of 32-bit floats by sign, exponent and mantissa of the pattern as IEEE 754 lays them out |
| Variants.EqIsIeee64 | src/io/opcua/cache.rs:25-31 | the same for 64 bits |
| Variants.EqOfOthers | src/io/opcua/cache.rs:25-31 | scalars are equal if they are the same, arrays element by element, and values of different sorts never |
| OpcCaches.UndisturbedExactly | src/io/opcua/cache.rs:22-37 | without eviction and on a standing clock that determines the call: exactly the values equal to a live entry are dropped, and exactly the others' entries are renewed |
| OpcCaches.OpcCache.RetainChanged | src/io/opcua/cache.rs:25-31 | the in-place filter drops such nodes, all of them that stay live and unevicted, and changes no entry |
| OpcCaches.OpcCache.CacheKept | src/io/opcua/cache.rs:32-35 | the insertion loop accounts for every entry afterwards and misses none but evicted ones |
| OpcOutput.CollectedLast | src/io/opcua/mod.rs:216-230 | of several mappings of one node the last one decides the value collected |
| OpcOutput.OutputCycle | src/io/opcua/mod.rs:193-260 | one emitted cycle: collect, filter if active, write unless empty; related to the cache, the clock and the device before and after, with evictions and failed writes exactly those of the environment |
| OpcOutput.ConsultedIsSynced | src/io/opcua/cache.rs:22-37 | whenever the cache can still be consulted every entry equals the value on the device |
| OpcOutput.FilterRefines | src/io/opcua/mod.rs:216-252 | for one output: if writes succeed and Active is one interval, after each cycle the device holds the value the unfiltered worker would have written or one the filter takes for equal, whatever expires or is evicted |
| OpcTransparency.ZeroRun | src/io/opcua/cache.rs:25-31 | for every value with a zero float and no NaN, a run of two Active cycles after which the device holds the other zero |
| OpcTransparency.MissedExactly | src/io/opcua/cache.rs:25-31 | these are exactly the values that on some run the device fails to hold where the unfiltered worker would have put them |
| OpcTransparency.IdenticalExactly | src/io/opcua/cache.rs:22-37 | for given sources on fixed nodes the device is identical to that of the unfiltered worker on all runs if and only if there is no ttl or no node changes to a different but equal value in adjacent Active cycles |
| OpcTransparency.TransparentExactly | src/io/opcua/mod.rs:231-233 | a pattern of Active cycles keeps agreement for all sources, clocks and evictions if and only if it is one interval |
| OpcTransparency.PlcOutputAgrees | src/tasks.rs:466-468 | the flags an output loop reads on any run of the PLC are such a pattern, so the filtered worker agrees |
| OpcTransparency.PlcOutputIdenticalExactly | src/tasks.rs:466-468 | and it is identical to the unfiltered one under the condition of `IdenticalExactly` |
| OpcShared.SharedAgrees | src/io/opcua/mod.rs:369-385 | several outputs of which none with a ttl shares a node with another agree with unfiltered ones, however their filters and writes interleave, and what a begun cycle leaves out is on the device |
| OpcShared.ClashRun | src/io/opcua/mod.rs:369-385 | for any configuration with such a shared node, a run on which the device ends with OFF at it where the unfiltered outputs leave ON |
| OpcShared.SharedAgreesExactly | src/io/opcua/mod.rs:369-385 | a configuration keeps agreement on all runs with successful writes and contiguous Active cycles if and only if no node is mapped by two outputs of which one has a ttl |
| OpcShared.PlcOutputsAgree | src/tasks.rs:466-468 | on any run of the PLC the outputs of such a configuration agree |
| OpcFinalSync.FinalDeviceIsExact | src/tasks.rs:699-712 | when Stopped is stored, with a shutdown function, the last cycle of an output is over, it began after that function returned and was not filtered, so the server holds exactly what it collected |
| OpcOutput.SuppressedOnlyWithinTtl | src/io/opcua/cache.rs:24-35 | on any run, also with failed writes, a value is suppressed only if an equal one was passed to a write for that node within the last ttl and none in an Active cycle since; nothing at all since if Active is one interval |
| OpcOutput.SuppressedThroughoutTtl | src/io/opcua/cache.rs:24-35 | conversely, within the ttl of a write an equal value is suppressed unless the entry was evicted |
| OpcOutput.RetriedAfterTtl | src/io/opcua/cache.rs:24-35 | suppression does not extend an entry's life: the first Active cycle after the ttl writes again |
| OpcOutput.RecoversAfterTtl | src/io/opcua/cache.rs:24-35 | if writes succeed again, then after a cycle that is not Active or begins more than one ttl later the mapped nodes agree with the unfiltered worker from there on, whatever failed before |
| Words.WordOrder | src/io/modbus/types.rs:207-213 | integers are encoded high word first, floats low word first |
| Words.Be4Bytes | src/io/modbus/types.rs:207-213 | the bytes the words are joined from are those of the big-endian representation |
| Words.DecodeEncoded | src/io/modbus/types.rs:232-239 | decoding an encoded value of any of the eight types gives the value |
| Words.EncodeDecoded | src/io/modbus/types.rs:215-220 | encoding a decoded value gives back its words |
| Words.Ranges | src/io/modbus/types.rs:162-186 | the values of each of the eight types |
| Words.EncodedNumber | src/io/modbus/types.rs:171-180 | the encoded words read as one number, integers high word first and floats low word first, are the value or its two's complement |
| Words.DecodedNumber | src/io/modbus/types.rs:182-187 | the decoded value is the number of the words, from which signed types take off the modulus in its upper half |
| Words.ElementWords | src/io/modbus/types.rs:222-230 | where in an encoded array the words of an element are |
| Words.ArrayRoundTrip | src/io/modbus/types.rs:222-252 | for every length, decoding an encoded array followed by anything gives the array |
| Words.DecodeExactly | src/io/modbus/types.rs:241-252 | decoding an array fails exactly when fewer words remain than it needs, and re-encoding what was decoded gives the words consumed |
| Words.EncodeArray | src/io/modbus/types.rs:222-230 | the extending loop computes the concatenation of the encoded elements |
| Words.DecodeArray | src/io/modbus/types.rs:241-252 | the fetching loop with its early returns decodes the array or fails exactly for want of words |
| Words.FloatIsSwappedInt32 | src/io/modbus/types.rs:8-13 | the float encoding of a 32-bit pattern is the integer encoding of its swapped form, and swapping undoes itself |
| Words.FloatIsSwappedInt64 | src/io/modbus/types.rs:15-20 | the same for 64 bits |
| Words.FloatArrayIsSwappedIntArray | src/io/modbus/types.rs:413-421 | the same for arrays of every length |
| RegisterImage.BuildImage | src/io/modbus/mod.rs:275-307 | the nested loop yields a block exactly when every mapped cell fits, and then each cell holds what the last mapping covering it put there, or the default |
| RegisterImage.CellOfDisjoint | src/io/modbus/mod.rs:283-295 | a cell covered by a mapping that no later one overlaps holds that mapping's payload |
| RegisterImage.UnmappedIsDefault | src/io/modbus/mod.rs:275-280 | unmapped cells hold the default |
| RegisterImage.ReadTargetExactly | src/io/modbus/mod.rs:238-246 | reading a target fails exactly when a word is missing or the offset is not inside the block |
| RegisterImage.ImageRoundTrip | src/io/modbus/mod.rs:227-248 | decoding the block at the offset of a mapping that no later one overlaps gives back its source value, scalar or array of any type and length; only an empty array may fail, when its offset is outside the block |
| RegisterImage.ReadCoils | src/io/modbus/types.rs:114-136 | reading coils fails exactly when a bit is missing or the offset is not inside the block |
| RegisterImage.CoilRoundTrip | src/io/modbus/types.rs:101-136 | the same round trip for coils |
| RegisterImage.Context.Assign | src/io/modbus/mod.rs:227-248 | each target gets its decoded value or, if slicing or conversion fails, keeps its old one |
| RegisterImage.Transfer | src/io/modbus/mod.rs:275-307 | a block is sent exactly when every mapping fits by size, and an input with the same mappings then holds every source value that no later mapping overwrites; otherwise nothing changes |
| RegisterText.RangeText | src/io/modbus/regs.rs:101-139 | a printed range in either form parses to kind, start and length; backwards it is refused, and only 0-65535 overflows |
| RegisterText.KindLetters | src/io/modbus/regs.rs:84-95 | the letters of the four kinds |
| RegisterText.OnlyKindLetters | src/io/modbus/regs.rs:84-100 | nothing but one of these letters and a 16-bit number is a kind and an offset |
| RegisterText.MixedKindsRefused | src/io/modbus/regs.rs:110-117 | a range between two kinds is refused |
| RegisterText.SingleText | src/io/modbus/regs.rs:84-100 | a single register has length one |
| RegisterText.CalcOffset | src/io/modbus/regs.rs:161-167 | the accumulating loop evaluates the sum, or reports the first bad term or overflow |
| RegisterText.OffsetText | src/io/modbus/regs.rs:161-183 | a sum evaluates to its total exactly when it fits 16 bits; with `=` the base plus the result is the total, exactly when the total reaches the base |
| RegisterText.MapOffset.Normalize | src/io/modbus/regs.rs:185-191 | text is replaced by its value against the base, numbers and bad text stay |
| LoopTiming.Loop.DoTick | src/interval.rs:67-104 | one tick against the clock readings it makes: deadline, result, first-tick marking, measured jitter |
| LoopTiming.TickJitter | src/interval.rs:94-102 | every reporting tick of a run measures the distance, in whole microseconds cut at 16 bits, of the time since the one before from the interval |
| LoopTiming.TickAdvances | src/interval.rs:74-93 | every tick moves the deadline by at least one interval and does not return before the old one |
| LoopTiming.RateBound | src/interval.rs:67-93 | the n-th tick returns no earlier than n intervals after the start and every deadline lies at least as far ahead, however sleeps overshoot |
| LoopTiming.DriftFree | src/interval.rs:83-86 | the deadline is the last anchor plus the interval times the on-time ticks since, plus one |
| LoopTiming.NeverLate | src/interval.rs:83-84 | a loop that is never late stays on the grid of its start |
| LoopTiming.MeanPeriod | src/interval.rs:94-102 | the measured periods sum to the elapsed time and their mean is never below the interval |
| LoopTiming.PunctualMeansNoJitter | src/interval.rs:97-100 | waking and reporting at the deadline measures zero |
| JitterStatistics.ThreadStats.ReportJitter | src/tasks.rs:243-271 | the total is the sum of the last `iters` samples and fits 32 bits across both restart rules; the extremes are those of all samples since the reset; when the window restarts |
| JitterStatistics.ThreadStats.Info | src/tasks.rs:201-209 | a record exists exactly when there is a sample; the average is that of the window, lies between the extremes and is not cut off |
| JitterStatistics.ReportedDescribes | src/tasks.rs:243-271 | the accounting of one report, for every state and sample |
| JitterStatistics.RestartsExactly | src/tasks.rs:244-266 | the window is given up exactly if the counter or the total would leave its 32 bits |
| JitterStatistics.CutExactly | src/tasks.rs:82-90 | the cut to 16 bits |
| JitterStatistics.AverageInside | src/tasks.rs:201-209 | no division by zero and no saturation |
| JitterStatistics.Replay | src/tasks.rs:241-276 | after any sequence of reports and resets the statistics describe exactly the samples since the last reset |
| Text.DecimalNotation | src/eapi.rs:72-81 | numbers are printed in decimal, with the digits in their order |
| Text.ValueAppend | src/io/modbus/regs.rs:161-167 | one more digit multiplies the value read by ten and adds it |
| Text.ParseUintSyntax | src/io/modbus/regs.rs:84-95 | an unsigned number is digits with at most a plus sign in front, within the maximum of its type |
| Text.Widths | src/io/modbus/regs.rs:77-82 | the maxima are those of 16 and 64 bits |
| IntervalText.PrintParse | src/interval.rs:107-119 | a number with any unit parses to its nanoseconds, or overflows exactly when they do not fit 64 bits, despite the overlapping suffixes |
| IntervalText.UnitTexts | src/interval.rs:107-119 | the four suffixes and the bare number in nanoseconds, for both parsers |
| IntervalText.BareNumber | src/interval.rs:116-118 | a bare number is seconds for the runtime and refused by the macro |
| IntervalText.ParsersAgreeExactly | derive/src/lib.rs:75-87 | the macro's parser and the runtime's agree on a string if and only if it is not a bare number |
| EapiParams.FromText | src/eapi.rs:33-64 | the parsing loop computes the parameters, or fails at the first bad part |
| EapiParams.ToText | src/eapi.rs:66-83 | the piecewise writer produces the path and the set fields in order |
| EapiParams.ParameterTexts | src/eapi.rs:50-54 | what each of the four keys sets, and from which text |
| EapiParams.OthersRefused | src/eapi.rs:46-56 | a part without an equals sign or with another key is refused |
| EapiParams.RestIgnored | src/eapi.rs:43-48 | what follows a second equals sign is ignored |
| EapiParams.DisplayText | src/eapi.rs:66-83 | the printed text with all fields, key by key |
| EapiParams.DisplayNothing | src/eapi.rs:66-83 | fields that are not set leave no trace |
| EapiParams.PrintParse | src/eapi.rs:33-83 | parsing printed parameters restores every field, the ttl to the microsecond, exactly when the path has no comma, the timeout survives its own text and the microseconds of the ttl fit 64 bits; without a comma, what comes back otherwise |
| EapiParams.ParsePrintParse | src/eapi.rs:33-83 | printing what was parsed and parsing again changes nothing, exactly when the parsed timeout survives its own text |
| ApiFraming.HandleStream | src/api.rs:125-151 | the server loop computes `Serve`: frames read, answers written, and whether the connection ended cleanly, also when reading or writing fails |
| ApiFraming.FrameLayout | src/client/mod.rs:219-222 | the bytes of a frame: zero, the length in four bytes with the lowest first, the payload |
| ApiFraming.ReadExactly | src/api.rs:129-140 | when a byte string is too short, broken or a frame, and the payload of a frame |
| ApiFraming.AnsweredExactly | src/api.rs:141-147 | a payload is answered if the handler has an answer whose length fits 32 bits |
| ApiFraming.ReadFramed | src/client/mod.rs:220-232 | reading a written frame gives the payload and leaves the rest |
| ApiFraming.ServesAll | src/api.rs:125-151 | on any number of well-formed frames, with anything after them that is no frame, the server recovers exactly those payloads in order and emits one well-formed frame each |
| ApiFraming.ServesUntilFailure | src/api.rs:136-144 | the first payload that is not answered ends the connection after the answers to those before it |
| ApiFraming.WriteCutsOutput | src/api.rs:142-149 | a failing write only cuts the output short, and then the connection does not end cleanly |
| ApiFraming.Call | src/client/mod.rs:214-233 | a client call returns exactly the handler's answer, or nothing if there is none or it was cut off |
| ContextTypes.BuildType | src/builder/config.rs:269-302 | the loop nests the dimensions, the last one outermost, boxes included |
| ContextTypes.BuildDefault | src/builder/config.rs:304-353 | the loops build the default expression over the same dimensions |
| ContextTypes.IecTypes | src/builder/config.rs:241-256 | signed and unsigned integers and bit strings of the four widths, and the other three types, by their names |
| ContextTypes.OtherNames | src/builder/config.rs:241-256 | every other name stands for itself |
| ContextTypes.ZeroLiterals | src/builder/config.rs:258-267 | the zero literal of every scalar type |
| ContextTypes.OtherLiterals | src/builder/config.rs:258-267 | no other type has a literal |
| ContextTypes.TypeDimensions | src/builder/config.rs:269-302 | the declared type has the written dimensions, sizes and boxes, the last one outermost, over the named base |
| ContextTypes.DefaultHasType | src/builder/config.rs:269-353 | for any base and any number of plain or boxed dimensions the default has the declared type |
| ContextTypes.ParsedArrayHasDims | src/builder/config.rs:270-274 | a declaration text that parses as an array has dimensions exactly if it opens a bracket |
| ContextTypes.GenerateField | src/builder/config.rs:379-387 | from any declaration text type and default are built or missing together, and the default has the type |
| ContextTypes.DefaultFixesShape | src/builder/config.rs:304-353 | over a scalar base without empty dimensions it has no type of another shape |
| ContextTypes.DefaultFixesDimensions | src/builder/config.rs:304-353 | whatever type the default has, it has the written dimensions |
| ContextTypes.LeafCount | src/builder/config.rs:304-353 | the default initialises as many scalars as the dimensions multiply to |
| ContextTypes.StructArrayDefault | src/builder/config.rs:389-427 | the default of a struct array has its type if and only if the key is not the name of a type with a literal |
| ContextTypes.StructArrayNamedLikeAType | src/builder/config.rs:389-427 | a key for which it has not |
| ContextTypes.DeclText | src/builder/config.rs:270-285 | a written declaration is read back with its base and all dimensions |
| ContextTypes.LooseDim | src/builder/config.rs:275-285 | white space around a dimension and underscores in its size are ignored |

## Left out

- The main thread and the loops are steps of a transition system rather than methods, because their interleaving is the subject; loop bodies, datasync launching and the shutdown function are steps that end.
- How long a first cycle, a loop body or the shutdown function takes: the liveness results only assume that it ends.
- Spawning from other threads, services, a second registration under one name (the process panics), CPU affinity, signals and the force-stop thread; SIGTERM is an event that may come at any time once polling has begun.
- The relaxed memory order of the status word: its loads and stores are taken to be sequentially consistent.
- `Status::Unknown`, the log lines and the names of threads.
- The capacity of the TTL cache and its eviction order: any entry may be evicted at any time.
- The OPC-UA session and per-node write statuses, which are only logged; a write succeeds as a whole or leaves the device unknown.
- Modbus request and response framing, request size limits, and the server side: they belong to a library. Outputs of kinds that cannot be written have no generator.
- An explicit `number` beside a register range, which simply replaces its length.
- LoopTiming.Loop.DoTick: does not model the limits of `Instant` arithmetic or the 64-bit microsecond cast, which take centuries to reach.
- OpcOutput.FilterRefines: is about one output, because `OpcShared.SharedAgreesExactly` decides the case of several; agreement is up to the filter's own equality, because the code lets the device keep one float zero for the other; `OpcTransparency.IdenticalExactly` decides when the device is identical.
- EapiParams.PrintParse: does not model float text itself; its printing and reading are parameters.
- ApiFraming.HandleStream: unpacking, the version test and dispatch are the handler.
- ContextTypes.DefaultHasType: does not model which named types implement `Default`, because that is the user's code.
- The splitting of struct array keys at the last bracket, title casing, serde attributes and the characters of generated source.
