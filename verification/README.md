# Verilua: models and proofs

Verilua lets Lua coroutines drive and observe a Verilog design through VPI. This project models, in Dafny, the
parts of Verilua in which several callbacks, queues or files have to agree with each other, and proves what
they promise. `dafny verify dfyconfig.toml` checks all of it.

Code that updates fields step by step is modelled twice: as a step function on values, about which the lemmas
speak, and as a class whose methods run loops and assignments like the original and are proved to compute that
function.

## The parts

**Deferred writes and the ReadWrite callbacks** (`Put*.dfy`, `Sched*.dfy`). `set`, `force` and `release` do
not touch the simulator: each handle arbitrates, is queued once, and a flush from a `cbReadWriteSynch`
callback commits the queue (IEEE 1800-2023, 4.4.3 and 38.36.2). `PutModel` is the environment with its two
queues, flags and word buffers, `PutHistory` reads a log of writes and says which write of a handle counts,
`PutInvariant` and `PutFlush` prove that queues, flags and log agree, also when the simulator runs coroutines
inside `vpi_put_value`, and `PutReentry` says which of those writes a flush survives. `SchedModel` adds the
simulator: passes, evaluations, outstanding callbacks, and who calls NextSimTime: a registered callback, or
the main loop of the Verilator harness in builds with the feature `verilator_inner_step_callback`
(libverilua/xmake.lua:10, libverilua/src/verilator_helper.rs:66-75). `SchedProofs` and `SchedResults` are
about every run of either kind, `SchedCounts` says for every task how many of its `await_rw` calls have been
answered, and `SchedLimits` reaches the one fault that is left. `PutEnv` holds the classes `ComplexHandle` and
`VeriluaEnv`.

**Edge callbacks** (`Edge*.dfy`). Waiting tasks are counted, collected per signal, armed in chunks of at most
16 at NextSimTime, and a fired callback is kept instead of re-armed when all of its tasks wait again; slab ids
are reused. `EdgeRefinement` proves that this is a run of the simple scheme "wake every waiting task once per
edge, then forget it", for every order of every hash table and every choice of vacant slot; `EdgeOrder` says
in which order tasks are woken; `EdgeLimits`, `EdgeSlot` and `EdgeGlitch` say what an edge outside the
discipline does. `MergeModel.dfy` is the variant without chunking, where one callback serves counted waits.

**Condition-path coverage** (`Cov*.dfy`). A source-to-source rewriting of if / else-if / else nests that wraps
branches in counters, shared by guard text. `CovModel` has statements, rewriter and evaluator; the results are
that the rewritten statement means the same, that the counters are exact, and (`CovBranches`) that the
locations behind the guards that hold are the branches entered.

**Hierarchy listing and its cache file** (`Hier*.dfy`, `Cache*.dfy`, `Utf8.dfy`). The depth-limited walk with
duplicate merging, the level filter on a cached full snapshot, the wildcard filter that keeps scopes, and the
binary file that carries the snapshot to the next run. `HierDesign` reads off the design tree what has to be
listed. Names are byte strings.

**Framing of language-server messages** (`Lsp*.dfy`), after the base protocol of the Language Server Protocol
3.17: `encode`, the incremental parser and the reader thread. What `json.loads` makes of a body is a parameter
with five outcomes: it raises, null, a value that is not fit for the dispatch, an answer, or another object.

**Clocks** (`Clock*.dfy`, `MainLoop.dfy`). The native clock scheduled by one-shot callbacks, any number of
such clocks over one registry of driven signals (`ClockRuns`), and the time and clock arithmetic of the two
main loops of the Verilator harness.

**File wrapping** (`FileSplit.dfy`). Marker lines around source files, and splitting the joined text again.

## Assumptions

- One `ComplexHandle` per `vpi_handle`. A callback registered during a ReadWrite pass fires in a later pass,
  and the design is evaluated before every pass. No immediate value write is made while a put of the same
  handle is pending (they share the word buffer). Only VCS and Icarus run callbacks inside `vpi_put_value`.
- Edge callbacks: a task waits again for an edge only once it has been woken from it, and no callback is
  called again before it returns. No second matching edge hits a callback between two armings; what happens
  otherwise is stated below.
- Coverage: conditions are two-valued, their texts are not empty and have matched parentheses. Guard exactness
  needs bodies that do not change a condition before the next clock edge.
- Verilator timing mode: the next events of the model and of VPI lie strictly in the future.

## What turned out not to hold

- A second matching edge between two armings can make the count lookup of the chunked edge callback fail one
  edge later (`EdgeLimits.SecondEdgePanics`). A change keeps to the discipline exactly when every callback it
  hits is freshly armed (`EdgeLimits.HitsArmedOnlyIffDisciplined`). Whatever changes come between two armings
  and whichever kept callbacks they hit, the next arming finds counts and requests in order if and only if,
  each time a kept callback was called again, all of its tasks waited again before it settled
  (`EdgeGlitch.GlitchHarmlessIff`).
- A release does not have the priority over a set that libverilua/src/complex_handle.rs:254 gives it: a set
  after a pending release makes it vanish. A posted release is driven if and only if no write of its handle
  follows it before the flush (`PutHistory.ReleaseCountsIff`, `PutFlush.ReleaseDrivenIff`).
- The deferred 32-bit `set` and the multi-beat setters assign only part of the word buffer, so the value
  driven is the value set exactly when the other words and planes were already zero
  (`PutHistory.WriteIsExactIff`, `PutHistory.SetAfterReleaseOfX`).
- From inside a put, a write can change the vector being applied under its own iterator: to a handle that
  still waits in it (`SchedLimits.BatchFaultReached`), the second one to a handle already committed from it,
  or any immediate release of one of its handles (`SchedLimits.OwnHandleFaultReached`). A flush completes if
  and only if no action inside it does such a thing (`PutReentry.FlushOkIff`).
- The await epoch wraps at 2^64 flushes (`SchedProofs.ResumesIff`).
- Blocking assignments break counter exactness (`CovResults.BlockingBreaksExactness`); counters are exact for
  all straight statements if and only if no assignment changes a condition (`CovResults.ExactIffNonBlocking`).
- Cached and pruned hierarchy listings differ for some designs with dotted object names
  (`HierResults.DottedNamesDisagree`); `HierResults.CachedIsPrunedIff` gives the exact condition.
- A cache file keeps the entry count in 32 bits, so from 2^32 entries on not all come back
  (`CacheResults.AllEntriesComeBackIff`) and the remains of a failed save can load
  (`CacheResults.FailedSaveLoadsIff`).
- What the language-server reader delivers can depend on how the stream is cut into reads: a negative
  Content-Length is cut from the end, as Python slices do (`LspResults.NegativeLengthDependsOnChunks`), and a
  null message ends the round of parsing (`LspResults.NullDependsOnChunks`). `LspResults.ChunkingsAgreeIff`
  says for exactly which streams it does not.
- The harness documents that the clock period must be a multiple of the step
  (src/verilator/verilator_main.cpp:60). That is not enough in normal mode: every clock boundary is visited
  exactly when the step divides the half period (`MainLoop.NormalModeVisitsAllIff`), and the clock follows the
  time exactly for that and two other kinds of step (`MainLoop.NormalModeKeepsTheClockIff`).
- After a refused re-registration the native clock has stopped but its signal stays marked as driven until
  somebody stops it (`ClockRuns.MarkedIff`, `ClockRuns.RefusedStartIff`). And `stop` clears the mark of a
  signal that another clock is driving, after which two clocks can drive it (`ClockRuns.TwoDriversReached`);
  `ClockRuns.StartSucceedsIff` says exactly when. `ClockRuns.RefusalReached` is a run to the refused state.
- A content line that starts with a marker does not survive splitting (`FileSplit.SurvivesIff`).

## Model

| member | source | states |
|---|---|---|
| SchedResults.SingleHeartbeat | libverilua/src/vpi_callback.rs:617-702 | in every run, where libverilua drives itself there is never a second outstanding cbNextSimTime, when there is none a flush is outstanding, and when a pass ends there is exactly one; with `verilator_inner_step_callback` none is ever registered, and after a step of the main loop the flush of the slot is outstanding until it has run |
| SchedResults.NoStrandedWrite | libverilua/src/verilua_env.rs:481-502 | in every reachable state of either build a non-empty queue has a flush callback outstanding, or no NextSimTime has come yet; `verilator_has_pending_put_values` implies that the flush comes in the next pass, and if it says no after the flush of the slot, nothing is queued; the backup queue is empty between callbacks |
| SchedResults.PendingIsDrained | libverilua/src/verilator_helper.rs:77-102 | in either build, whenever the bridge reports pending writes, and in every pass after the first NextSimTime, each handle that was queued when the pass began has been committed or released at once by its end, so the evaluation loop makes progress |
| SchedResults.ReRegisteredMeansOutstanding | libverilua/src/verilua_env.rs:494-502 | `rw_cb_re_registered` is only ever set after the flush of the slot and while the flush it stands for is outstanding |
| SchedResults.PassesGoOn | libverilua/src/vpi_callback.rs:477-702 | no reachable state is stuck: a pass goes on, whatever the coroutines do in it, until it can end, and after an evaluation the next one can begin |
| SchedResults.AwaitResumesSettled | libverilua/src/vpi_callback.rs:477-509 | in every run a task resumes from `await_rw` only on an empty queue and, short of 2^64 flushes since its registration, only if no flush committed since, with the design evaluated after the last commit; and after the last immediate release, unless one was put in the same pass |
| SchedResults.AwaitDeferredPerFlush | libverilua/src/vpi_callback.rs:494-499 | an awaiting task has been deferred at most once for each committing flush since it first waited |
| SchedCounts.AwaitsAreServed | libverilua/src/vpi_callback.rs:477-547 | conservation: in every run, for each task, the calls of `await_rw` so far, those inside puts included, are as many as its wakeups and the callbacks of it that still wait |
| SchedCounts.WakesItsOwn | libverilua/src/vpi_callback.rs:494-509 | in every run a wakeup goes to the task whose await callback it was |
| SchedCounts.StepWakes | libverilua/src/vpi_callback.rs:477-509 | only an await callback wakes a task, once, and what is recorded of the wakeup is the state in which it happened |
| SchedCounts.FlushesBounded | libverilua/src/verilua_env.rs:494-502 | in every run no more flush callbacks are outstanding than NextSimTimes have come: re-registrations do not pile up |
| SchedResults.CommitsAreWinners | libverilua/src/verilua_env.rs:506-565 | each value ever committed is the winner of the log of its handle: the last force or release if that is a force, else the last write |
| SchedResults.OnlyFault | libverilua/src/complex_handle.rs:261-287 | no run hits the stale-entry assertion or takes an empty flag; the one fault left is a write from inside a put that changes the vector being applied |
| SchedLimits.BatchFaultReached | libverilua/src/verilua_env.rs:506-595 | from every initial state with two handles on a simulator that runs coroutines inside a put, a run of two sets and one re-entrant set of the handle still to come ends in that fault |
| SchedLimits.OwnHandleFaultReached | libverilua/src/complex_handle.rs:261-287 | with one handle too: a task woken by the put of a signal that sets it twice, or releases it at once, runs into that fault |
| SchedProofs.StepKeeps | libverilua/src/vpi_callback.rs:477-702 | each step of the simulator, of the main loop and of Lua keeps the protocol invariant (one heartbeat of the kind the build has, attended queue, queue and flag agreement, await bookkeeping) |
| SchedProofs.RunKeeps | libverilua/src/vpi_callback.rs:477-786 | the protocol invariant holds in every reachable state of either build |
| SchedProofs.ResumesIff | libverilua/src/vpi_callback.rs:494-509 | an await callback resumes its task if and only if the number of committing flushes since its latest registration is 0 modulo 2^64; otherwise the task waits again under the new epoch |
| SchedProofs.FlushInPass | libverilua/src/verilua_env.rs:568-595 | inside a pass a flush ends with both queues empty and the await and commit bookkeeping intact, or with the modified-batch fault |
| PutFlush.FlushFits | libverilua/src/verilua_env.rs:568-595 | `apply_pending_put_values`, with any re-entrant writes, ends with both queues empty, all flags clear and every posted write committed or superseded, or faults because a write hit the vector being applied |
| PutFlush.FlushOrder | libverilua/src/verilua_env.rs:506-565 | without re-entrancy a flush issues exactly one put for each queued handle, in queue order, each with the value and flag the handle holds |
| PutFlush.QueueIsCompactedLog | libverilua/src/complex_handle.rs:250-298 | the queue lists every handle with an outstanding write once, ordered by last accepted write, and each holds the winning write of its log: a flush is log compaction |
| PutFlush.ReleaseDrivenIff | libverilua/src/complex_handle.rs:250-298 | a flush drives a release for a queued handle if and only if the last write posted to it is a release: a set after it makes it vanish |
| PutFlush.ActIdle | libverilua/src/complex_handle.rs:261-287 | between flushes no set, force, release, immediate release or await can fault, and each keeps flags, queues and buffers in agreement |
| PutFlush.ActApplying | libverilua/src/verilua_env.rs:482-492 | inside a put, an action leaves the vector under the iterator alone if and only if it is allowed: of the handles in that vector, committed or not, only one that was committed and not written since takes a write, and none takes an immediate release |
| PutReentry.FlushOkIff | libverilua/src/verilua_env.rs:568-595 | a whole flush completes if and only if every action run inside its puts is allowed in that sense where it runs; otherwise it ends in the modified-vector fault and no other |
| PutFlush.RoundsFit | libverilua/src/verilua_env.rs:580-594 | the loop over both queues ends with both empty and everything committed |
| PutHistory.WriteIsExactIff | libverilua/src/vpi_access/value_setters.rs:27-60 | a deferred setter leaves exactly the value it stands for in the buffer if and only if the words and X/Z planes it does not assign were already zero |
| PutHistory.SetAfterReleaseOfX | libverilua/src/vpi_access/value_setters.rs:596-629 | concrete run: releasing a one-word signal that reads X and then setting it to 1 drives X |
| PutHistory.WinnerSnoc | libverilua/src/complex_handle.rs:250-298 | one more write takes over from the winner unless it is a plain set against a pending force |
| PutHistory.ReleaseCountsIff | libverilua/src/complex_handle.rs:250-260 | a posted release is the write that counts if and only if no write of its handle follows it |
| PutInvariant.AcceptedFit | libverilua/src/complex_handle.rs:261-298 | after an accepted write the handle waits exactly once, at the end, and its buffers deliver that write |
| PutInvariant.RejectedFit | libverilua/src/complex_handle.rs:250-260 | a set against a pending force changes neither queue nor buffers |
| PutInvariant.QueueTakeover | libverilua/src/complex_handle.rs:261-287 | removing the stale entry and queueing again moves the handle to the end and keeps the order of all others |
| PutEnv.ComplexHandle.TryPutValue | libverilua/src/complex_handle.rs:250-298 | arbitration as it runs: rejects a set against a force, otherwise takes the stale entry out of the queue that holds it and sets flag and format |
| PutEnv.ComplexHandle.WriteBuffers | libverilua/src/vpi_access/value_setters.rs:19-322 | the word loops of the setters compute `WriteVectors`: only the words and planes a setter assigns change |
| PutEnv.VeriluaEnv.PostWrite | libverilua/src/vpi_access/value_setters.rs:27-60 | a deferred set, force or release does to the whole environment what the step function `Post` does |
| PutEnv.VeriluaEnv.DoPush | libverilua/src/verilua_env.rs:481-502 | queues into the list in use and registers a flush exactly when the phase has passed and none is registered |
| PutEnv.VeriluaEnv.ReleaseImmediate | libverilua/src/vpi_access/value_setters.rs:631-665 | cancels the pending entry of the handle in whichever queue and logs the release, which is put at once and needs an evaluation |
| PutEnv.VeriluaEnv.ApplyQueue | libverilua/src/verilua_env.rs:506-565 | the loop over the vector commits each handle in order, flag taken first, with what the simulator runs inside each put |
| PutEnv.VeriluaEnv.ApplyPendingPutValues | libverilua/src/verilua_env.rs:568-600 | the flush as it runs, including queue swapping, equals `ApplyPending` |
| PutEnv.VeriluaEnv.FlushPutValues | libverilua/src/vpi_callback.rs:617-667 | flush, register the next cbNextSimTime on the first flush of the slot unless the main loop does the steps, set and clear the flags |
| PutEnv.VeriluaEnv.RwSynchCallback | libverilua/src/vpi_callback.rs:477-509 | flush first, then resume or defer; true if the task is resumed |
| PutEnv.VeriluaEnv.NextSimTimeCallback | libverilua/src/vpi_callback.rs:696-702 | clears the phase flags and registers the flush of the new slot |
| EdgeRefinement.RunRefines | libverilua/src/vpi_callback.rs:704-771 | every disciplined run of the counting, chunking, slab-reusing scheme is free of panics and is a run of "wake every waiting task once per edge, then forget it" |
| EdgeRefinement.StepRefines | libverilua/src/gen/gen_register_callback_func.rs:132-241 | one registration, value change, firing, settling or arming: no panic, invariant kept, matched by the simple scheme |
| EdgeRefinement.RunConserves | libverilua/src/vpi_callback.rs:704-771 | in every disciplined run each posted wait has been woken exactly once or is still outstanding |
| EdgeRefinement.DeliveryWakesDue | libverilua/src/gen/gen_register_callback_func.rs:164-241 | while one change is delivered, the wakeups are exactly the waits that stop being due, once each |
| EdgeRefinement.EdgeWakesArmedOnce | libverilua/src/gen/gen_register_callback_func.rs:164-241 | an edge wakes exactly the tasks that were waiting for it at the last arming, each once |
| EdgeOrder.ArmedInOrder | libverilua/src/vpi_callback.rs:704-771 | from one arming to the next, the new callbacks of a signal and edge hold, one after the other, exactly the tasks that asked for it since, in the order in which they asked, less those that a kept callback serves |
| EdgeOrder.WokenInOrder | libverilua/src/gen/gen_register_callback_func.rs:164-186 | a callback wakes its tasks in the order in which it holds them |
| EdgeRefinement.InitGood | libverilua/src/vpi_callback.rs:704-771 | the empty environment satisfies the invariant and matches the empty simple scheme |
| EdgeInvariant.RegisterInv | libverilua/src/vpi_callback.rs:960-1009 | posting a wait keeps counts, pending lists, slab and parked entries coherent |
| EdgeInvariant.EndInv | libverilua/src/gen/gen_register_callback_func.rs:164-241 | settling a fired chunk finds a positive count for every task and keeps the invariant, whether the callback is kept or released |
| EdgeInvariant.DecrementEffect | libverilua/src/gen/gen_register_callback_func.rs:192-209 | the decrement loop fails only on a task without a positive count, and otherwise takes one off each and reports those that reach zero |
| EdgeInvariant.FiringCounts | libverilua/src/gen/gen_register_callback_func.rs:192-209 | when a chunk settles, each of its tasks has count 1, or 2 if it waits again |
| EdgeArming.ArmInv | libverilua/src/vpi_callback.rs:704-771 | arming keeps the invariant for every hash order and every choice of vacant slab slots |
| EdgeArming.CountsAfterArm | libverilua/src/vpi_callback.rs:704-771 | right after arming the count map equals the multiset of tasks in live chunks, all ones |
| EdgeArming.UnparkEffect | libverilua/src/vpi_callback.rs:708-733 | whatever order the chunk map is walked in, exactly the waits of kept callbacks leave the pending lists |
| EdgeArming.ChunksEffect | libverilua/src/gen/gen_callback_policy.rs:1-37 | cutting into groups of at most 16 loses no task, repeats none, and makes no empty group |
| EdgeArming.InstallEffect | libverilua/src/gen/gen_callback_policy.rs:5-36 | new chunks occupy slots that were vacant, and no live callback changes |
| EdgeArming.ArmEffect | libverilua/src/vpi_callback.rs:704-771 | after arming, the tasks in the slab are those that were there and those that were pending |
| EdgeLimits.HitsArmedOnlyIffDisciplined | libverilua/src/vpi_callback.rs:704-771 | a change keeps to the discipline if and only if every callback it hits is freshly armed |
| EdgeGlitch.GlitchHarmlessIff | libverilua/src/vpi_callback.rs:704-771 | between two armings any changes may hit any callbacks that are done with earlier ones, kept ones included, in any order: nothing fails then, the next arming restores the invariant if and only if each time a kept callback was called again all of its tasks waited again before it settled, and if not, calling what was armed with nobody waiting again panics |
| EdgeSlot.SlotRunKeeps | libverilua/src/gen/gen_register_callback_func.rs:132-241 | in every such run counts, requests and slab stay in step, and no request outlives its count exactly as long as kept callbacks find their tasks waiting again |
| EdgeGlitch.UnparkCounts | libverilua/src/vpi_callback.rs:708-733 | whatever order the chunk map is walked in, all requests of kept callbacks go away, repeated ones included, and no other |
| EdgeSlot.EndPanicsIff | libverilua/src/gen/gen_register_callback_func.rs:192-209 | settling a callback fails if and only if one of its tasks has no positive count |
| EdgeLimits.MatchesExactly | libverilua/src/vpi_callback.rs:258-281 | a value counts as the edge exactly for the low byte 1 (posedge), 0 (negedge), or 0, 1 and 2 (any edge) |
| EdgeLimits.KeptAfterFirstEdge | libverilua/src/gen/gen_register_callback_func.rs:164-241 | concrete run: a task that waits again while its callback runs leaves the callback kept and parked |
| EdgeLimits.SecondEdgePanics | libverilua/src/gen/gen_register_callback_func.rs:192-209 | concrete run: a second matching edge before the next arming makes the count lookup fail at the edge after that |
| EdgeEnv.EdgeCallbackEnv.Register | libverilua/src/vpi_callback.rs:960-1009 | counts the wait and appends the task to the pending list of its signal |
| EdgeEnv.EdgeCallbackEnv.EndFire | libverilua/src/gen/gen_register_callback_func.rs:186-231 | count decrement, keep-or-remove and slab release, as the step function `AfterEnd` |
| EdgeEnv.EdgeCallbackEnv.ProcessCbChunk | libverilua/src/vpi_callback.rs:708-733 | walks the parked chunks of one edge type in any order and takes fully covered ones out of the pending lists |
| EdgeEnv.EdgeCallbackEnv.ArmSignal | libverilua/src/gen/gen_callback_policy.rs:1-37 | the chunking loop: vacant slots, at most 16 tasks each, exactly the chunks of the list |
| EdgeEnv.EdgeCallbackEnv.NextSimTime | libverilua/src/vpi_callback.rs:704-771 | drops what kept callbacks cover, arms the rest and forgets the requests, as the step function `AfterArm` for some order |
| MergeModel.MergeRunKeeps | libverilua/src/vpi_callback.rs:748-774 | merged callbacks without chunking: in every run a count is positive if and only if exactly one callback of that task is armed or pending, equals its unsettled waits, and no lookup or subtraction goes wrong |
| MergeModel.MergeStepKeeps | libverilua/src/vpi_callback.rs:851-914 | the same for each registration, edge, settling and arming |
| MergeModel.WaitsAreServed | libverilua/src/vpi_callback.rs:851-894 | k waits give one wakeup on each of the next k matching edges; then the callback is gone |
| MergeModel.CallSettles | libverilua/src/vpi_callback.rs:851-894 | a callback that was called can settle whatever is posted, called, settled or armed in between, for the same task, and is not called again before |
| MergeModel.MergedCallbackEnv.RegisterEdgeCallback | libverilua/src/vpi_callback.rs:969-997 | counts the wait and asks for a callback only if it is the first |
| MergeModel.MergedCallbackEnv.SettleEdge | libverilua/src/vpi_callback.rs:851-894 | takes one off the count and releases the callback at zero |
| CovMeaning.InstrumentationPreservesMeaning | src/cov_exporter/include/cov_info_getter.h:459-482 | running the rewritten statement gives the state of the original, for every statement, prefix and table, with counting enabled or not; the original raises no counter |
| CovMeaning.ChainKeepsState | src/cov_exporter/include/cov_info_getter.h:640-738 | chains that stop at an unsupported branch, nested chains and dropped empty else bodies keep the effect of the chain |
| CovResults.CounterExactness | src/cov_exporter/include/cov_info_getter.h:640-738 | for conditionals, blocks and lists with non-blocking bodies, one execution raises the counter of each guard by its number of recorded locations if the guard holds in the state before, and by 0 otherwise |
| CovResults.ExactIffNonBlocking | src/cov_exporter/include/cov_info_getter.h:640-738 | counters are exact for every conditional, block and list in every state if and only if no assignment changes the truth of a usable condition text |
| CovBranches.CoverageTellsBranches | src/cov_exporter/include/cov_info_getter.h:640-738 | for a straight statement with non-blocking bodies, the locations of the points whose guards hold are those of the branches that its execution enters, in the same order |
| CovBranches.TableLocations | src/cov_exporter/include/cov_info_getter.h:387-402 | the table gives each guard the locations of exactly its points, in order, and has no other guards |
| CovBranches.SkippedAre | src/cov_exporter/include/cov_info_getter.h:640-738 | the report lists what is not counted, in order and with the reason: conditionals that are not supported and blank branches; it is empty if and only if every conditional that is reached is supported and has no blank branch |
| CovResults.BumpImpliesGuard | src/cov_exporter/include/cov_info_getter.h:585-738 | with case statements and loops added, a raised counter still implies that its guard holds |
| CovResults.ProcessTable | src/cov_exporter/include/cov_info_getter.h:387-402 | ids are dense, and the index is a bijection between guards and ids |
| CovResults.BlockingBreaksExactness | src/cov_exporter/include/cov_info_getter.h:640-738 | concrete process: a blocking assignment before a condition breaks exactness |
| CovExact.RewriteRight | src/cov_exporter/include/cov_info_getter.h:459-482 | the exactness claim for every rewritten statement under any prefix and table |
| CovExact.ChainRight | src/cov_exporter/include/cov_info_getter.h:640-738 | the exactness claim for a chain whose earlier conditions are all false |
| CovExact.GuardHolds | src/cov_exporter/include/cov_info_getter.h:664-669 | the guard of a branch holds exactly when the branch is entered |
| CovExact.DeadChain | src/cov_exporter/include/cov_info_getter.h:640-738 | behind a false outer condition no guard of a chain holds |
| CovPoints.RewriteRecords | src/cov_exporter/include/cov_info_getter.h:640-738 | the rewriter records exactly the coverage points of the statement, in order |
| CovPoints.RecordAllTable | src/cov_exporter/include/cov_info_getter.h:387-402 | recording points keeps the table a bijection and adds one location per point to its guard |
| CovText.BuildGuardJoins | src/cov_exporter/include/cov_info_getter.h:371-382 | a guard is the conjunction of its prefix and its own condition, each in parentheses |
| CovText.AddNegationJoins | src/cov_exporter/include/cov_info_getter.h:705-711 | the negation carried along a chain is the conjunction of the negated earlier conditions |
| CovText.JoinedUnique | src/cov_exporter/include/cov_info_getter.h:371-382 | equal conjunction texts of balanced parts have equal parts |
| CovText.HoldsParts | src/cov_exporter/include/cov_info_getter.h:387-402 | merging points by guard text is sound: a guard text holds exactly if all its parts do |
| CovText.TruthOfNegation | src/cov_exporter/include/cov_info_getter.h:705-711 | a chain negation is true exactly if all its conditions are false |
| CovGetter.CoverageInfoGetter.RecordPath | src/cov_exporter/include/cov_info_getter.h:387-402 | find or append, then add the location, as the specification |
| CovGetter.CoverageInfoGetter.RewriteStatement | src/cov_exporter/include/cov_info_getter.h:459-540 | statement dispatch and recursion compute the specified rewriting and table |
| CovGetter.CoverageInfoGetter.RewriteConditional | src/cov_exporter/include/cov_info_getter.h:640-738 | the loop along if / else-if / else computes the specified chain |
| CacheProofs.LoadsExactlyWhatWasSaved | libverilua/src/vpi_access/hierarchy_collect.rs:88-273 | any byte string loads to a result if and only if saving that result, with its own header fields, gives the consumed prefix, and source and mtime are accepted |
| CacheProofs.ReadEntryInverse | libverilua/src/vpi_access/hierarchy_collect.rs:211-235 | reading at any position gives an entry exactly when the bytes written for it stand there, and stops right behind them |
| CacheProofs.ReadEntriesInverse | libverilua/src/vpi_access/hierarchy_collect.rs:208-236 | the same for the whole entry loop |
| CacheProofs.EntriesTakeSpace | libverilua/src/vpi_access/hierarchy_collect.rs:193-206 | a written entry takes at least 14 bytes, so the bound on the entry count never rejects a written file |
| CacheResults.RoundTrip | libverilua/src/vpi_access/hierarchy_collect.rs:88-244 | a successfully saved file loads exactly when source and mtime agree, to the saved entries in order with empty optional strings absent and, from 2^32 entries on, only the first n mod 2^32 of them |
| CacheResults.AllEntriesComeBackIff | libverilua/src/vpi_access/hierarchy_collect.rs:98-113 | with its own identity a saved file always loads, and gives all entries if and only if there are fewer than 2^32 |
| CacheResults.CutFile | libverilua/src/vpi_access/hierarchy_collect.rs:138-244 | bytes behind the consumed prefix are ignored; a file cut anywhere inside it is rejected |
| CacheResults.FailedSaveLoadsIff | libverilua/src/vpi_access/hierarchy_collect.rs:118-127 | what a save that failed on an overlong string leaves behind loads if and only if the entries its 32-bit count tells of alone could have been saved; below 2^32 entries it never loads |
| CacheResults.SavedLoads | libverilua/src/vpi_access/hierarchy_collect.rs:162-191 | a saved file is rejected exactly on a source mismatch or a stale mtime |
| CacheResults.StaleIff | libverilua/src/vpi_access/hierarchy_collect.rs:162-191 | a saved file is refused if and only if both modification times are known and differ, or both sources are named and differ |
| CacheResults.FileLayout | libverilua/src/vpi_access/hierarchy_collect.rs:88-105 | a file is the magic number, the time, the count modulo 2^32, the source and the entries, numbers with their low byte first |
| CacheResults.EntryLayout | libverilua/src/vpi_access/hierarchy_collect.rs:106-135 | an entry is its path, module name and type, each behind its two-byte length, then level and width as signed 32-bit numbers |
| Utf8.ValidIff | libverilua/src/vpi_access/hierarchy_collect.rs:246-273 | a string read from the file is accepted if and only if it encodes a sequence of Unicode scalar values |
| CacheFile.CacheWriter.SaveCache | libverilua/src/vpi_access/hierarchy_collect.rs:88-115 | the writer appends exactly the bytes of `Save` and fails where it fails |
| CacheFile.CacheWriter.WriteLenPrefixedStr | libverilua/src/vpi_access/hierarchy_collect.rs:118-127 | refuses strings above 65535 bytes, else writes length and bytes |
| CacheFile.CacheCursor.ReadEach | libverilua/src/vpi_access/hierarchy_collect.rs:208-236 | the entry loop with a moving position reads what `ReadEntries` reads |
| CacheFile.TryLoadCache | libverilua/src/vpi_access/hierarchy_collect.rs:138-244 | the loader with its early returns gives the entries of `Load`, or nothing |
| HierResults.CachedIsPrunedIff | libverilua/src/vpi_access/hierarchy_collect.rs:577-593 | for any design, filtering the full snapshot by level equals the depth-limited traversal at every limit, if and only if no path shows up again nearer the root than its first push nor becomes a reg only deeper down |
| HierResults.CachedIsPruned | libverilua/src/vpi_access/hierarchy_collect.rs:468-486 | for designs with plain names that agreement holds at every depth limit, and filtering again changes nothing |
| HierResults.DottedNamesDisagree | libverilua/src/vpi_access/hierarchy_collect.rs:424-428 | concrete design: a net named by a full path and a reg at that path make cached and pruned listings differ |
| HierDepth.PruningIsFiltering | libverilua/src/vpi_access/hierarchy_collect.rs:360-466 | the depth-limited traversal pushes exactly what filtering the unlimited one keeps, in order, for negative limits too |
| HierDesign.ListsTheDesign | libverilua/src/vpi_access/hierarchy_collect.rs:352-486 | for designs with plain names in which neighbouring modules and objects have different names: the listing holds exactly the named modules with definition name, depth and width -1, and the named nets, regs and memories of each, one level deeper, with type and width, the first of each name, down to the depth limit, once each and ordered by path |
| HierDesign.TreePushesAre | libverilua/src/vpi_access/hierarchy_collect.rs:352-466 | for any design with plain names the unlimited traversal pushes exactly these entries, read off the design tree |
| HierMerge.BytesLeIff | libverilua/src/vpi_access/hierarchy_collect.rs:480-484 | paths are ordered lexicographically by bytes |
| HierDepth.AgreesAtEveryDepthIff | libverilua/src/vpi_access/hierarchy_collect.rs:321-350 | merging and filtering commute at every limit exactly for push lists that settle every path |
| HierMerge.MergeResolves | libverilua/src/vpi_access/hierarchy_collect.rs:321-350 | the merged list holds, once each, the first push of every path, as a reg if any push of that path is one |
| HierMerge.SnapshotResolves | libverilua/src/vpi_access/hierarchy_collect.rs:468-486 | the snapshot lists every resolved path once, in strictly increasing byte order |
| HierMerge.OrderedUnique | libverilua/src/vpi_access/hierarchy_collect.rs:480-484 | an ordered listing is determined by its entries |
| HierListing.PrefixesAreScopes | libverilua/src/vpi_access/hierarchy_collect.rs:613-621 | the prefixes built up by the segment loop are the path itself and the scopes around it |
| HierListing.SelfVisibleIff | libverilua/src/vpi_access/hierarchy_collect.rs:613-621 | a matching path is among its own prefixes if and only if it does not start with a dot |
| HierListing.TreeListsScopes | libverilua/src/vpi_access/hierarchy_collect.rs:605-628 | tree mode lists an entry if and only if it matches or is a scope around a match |
| HierListing.VisibleInOrder | libverilua/src/vpi_access/hierarchy_collect.rs:624-628 | tree mode keeps the order of the snapshot |
| HierListing.MatchingInOrder | libverilua/src/vpi_access/hierarchy_collect.rs:629-635 | flat mode keeps the order of the snapshot |
| HierListing.FlatListsMatches | libverilua/src/vpi_access/hierarchy_collect.rs:629-635 | flat mode lists an entry if and only if it is within the level limit, one of the wildcards accepts its path (or none is given), and its module name is the one asked for (or none is) |
| HierListing.TreeListsAround | libverilua/src/vpi_access/hierarchy_collect.rs:605-628 | tree mode lists, for plain paths, exactly the entries within the level limit that match in that sense or are scopes around one that does |
| HierListing.RefusedIff | libverilua/src/vpi_access/hierarchy_collect.rs:566-603 | which error is returned, if any: DPI build, null callback, or module names asked for where no entry within the limit has one |
| HierListing.ListHierarchy | libverilua/src/vpi_access/hierarchy_collect.rs:555-638 | the exported query, with its DPI, null-callback and missing-module-name returns in order, and its loops, gives the specified answer |
| HierRuns.CachedQuery | libverilua/src/vpi_access/hierarchy_collect.rs:577-635 | for designs with plain names (no dots, none empty), every query, errors included, is answered the same from the cached snapshot and from a pruned traversal |
| HierRuns.TreeListingIsConnected | libverilua/src/vpi_access/hierarchy_collect.rs:605-628 | for designs with plain names, for each entry of a tree listing every scope around it is listed as well |
| HierRuns.NextRunAnswersTheSame | libverilua/src/vpi_access/hierarchy_collect.rs:276-319 | for designs with plain names and fewer than 2^32 entries, a later run that finds the file of an earlier one answers every query as a fresh traversal would |
| HierRuns.ScopesCollected | libverilua/src/vpi_access/hierarchy_collect.rs:352-466 | for designs with plain names, every scope around a collected entry is collected with it at every depth limit |
| HierEnv.HierarchyCollector.PushEntry | libverilua/src/vpi_access/hierarchy_collect.rs:321-350 | set insertion, duplicate merge and upgrade compute `Push` |
| HierEnv.HierarchyCollector.CollectLeaves | libverilua/src/vpi_access/hierarchy_collect.rs:400-455 | the object loop with its per-module name set pushes the specified leaves |
| HierEnv.HierarchyCollector.CollectRecursive | libverilua/src/vpi_access/hierarchy_collect.rs:352-466 | the recursive walk with its depth check pushes the specified entries in order |
| HierEnv.CollectHierarchyEntries | libverilua/src/vpi_access/hierarchy_collect.rs:468-486 | walk and sort give the specified snapshot |
| LspResults.ChunkInvariance | scripts/emmylua_ls_check.py:268-313 | a stream in which a null message comes last and a negative length yields only failures is read alike however it is cut: the same messages, buffer and failure |
| LspResults.ChunkingsAgreeIff | scripts/emmylua_ls_check.py:268-313 | for a decoder that refuses the empty body, all ways to cut a stream agree if and only if it is of that kind |
| LspResults.DeliversCompleteMessages | scripts/emmylua_ls_check.py:268-313 | for bodies that decode to objects: after any reads that make up the first part of an encoded message list, exactly the messages complete so far are delivered, in order, and the buffer holds exactly the rest |
| LspResults.DeliversAll | scripts/emmylua_ls_check.py:75-77 | for bodies that decode to objects: once all of the encoding has been read, all messages are out and the buffer is empty |
| LspResults.ParseEncoded | scripts/emmylua_ls_check.py:300-313 | an encoded message is parsed back, whatever follows it |
| LspResults.ParseCutShort | scripts/emmylua_ls_check.py:300-313 | an encoded message that is cut short is not parsed yet |
| LspResults.ParseExtends | scripts/emmylua_ls_check.py:300-313 | a decided parse stays decided under more input, and more input only lengthens the rest, if the length is not negative |
| LspResults.LengthOfLines | scripts/emmylua_ls_check.py:303-310 | of several header lines any unreadable content length raises, otherwise the last one counts, otherwise there is none |
| LspResults.ContentLengthIff | scripts/emmylua_ls_check.py:303-310 | a content-length line is told by its name, in any case of its letters |
| LspResults.PyIntIff | scripts/emmylua_ls_check.py:306-308 | a text is read as a number if and only if it is one with blanks around it and perhaps a sign, and as that number |
| LspResults.DigitsCount | scripts/emmylua_ls_check.py:306-308 | digits count as in decimal notation, underscores not at all |
| LspResults.DigitsRefuse | scripts/emmylua_ls_check.py:306-308 | digits may be separated by single underscores and by nothing else |
| LspResults.NegativeLengthDependsOnChunks | scripts/emmylua_ls_check.py:303-312 | concrete stream: with a negative length, two reads fail where one read delivers `{}` |
| LspResults.NullDependsOnChunks | scripts/emmylua_ls_check.py:274-278 | concrete stream: a null message and an object in one read leave the object in the buffer; in two reads it is delivered |
| LspReader.RequestGetsItsAnswer | scripts/emmylua_ls_check.py:279-283 | a waiting request gets the last answer to it, and is woken exactly if there was one |
| LspReader.NotificationsAre | scripts/emmylua_ls_check.py:279-287 | the notification queue gets, in order, everything nobody waits for |
| LspReader.ReceivedIs | scripts/emmylua_ls_check.py:268-275 | the reads of all turns are parsed up to the first turn that finds the client closed or the stream ended |
| LspReader.LspClient.TryParseNext | scripts/emmylua_ls_check.py:300-313 | one parse: a complete message leaves the buffer even if it is null, too few bytes leave it alone, an exception fails the reader |
| LspReader.LspClient.ParseAvailable | scripts/emmylua_ls_check.py:274-287 | the inner loop delivers exactly what draining the buffer gives, up to the first null message |
| LspReader.LspClient.ReaderLoop | scripts/emmylua_ls_check.py:268-293 | the thread delivers what feeding the reads one by one gives, until it is told to stop, and wakes every waiter when it ends |
| ClockModel.ClockWaveform | libverilua/src/native_clock.rs:215-271 | closed form: from the start to the pending edge the value in force is 1 exactly when (t - t0) mod period < high, or >= period - high if started low |
| ClockModel.RunFollowsWave | libverilua/src/native_clock.rs:284-313 | each callback posts the next edge of the wave at its time and schedules the one after it |
| ClockModel.LevelIsClosedForm | libverilua/src/native_clock.rs:215-230 | between two edges the level is the closed form |
| ClockModel.HalvesLoseNothing | libverilua/src/native_clock.rs:237-242 | the two 32-bit halves give back the delay if and only if it fits 64 bits |
| ClockModel.StartReports | libverilua/src/native_clock.rs:159-184 | a running clock is reported first, then a driven signal, then bad timing, then a refused registration |
| ClockModel.RefusedEdgeIsPosted | libverilua/src/native_clock.rs:215-271 | an edge is posted and the level flipped also where the next registration is refused |
| ClockModel.FreedIff | libverilua/src/native_clock.rs:284-408 | a clock is freed exactly when it is destroyed, or in the callback during or before which that was asked for; it then has no callback and drives nothing |
| ClockRuns.MarkedIff | libverilua/src/native_clock.rs:159-313 | in every run of any number of clocks, a signal is marked as driven if and only if exactly one clock marked it and nobody stopped it since; a clock that is not running holds its signal if and only if its last edge was refused and the signal was not stopped since |
| ClockRuns.RefusedStartIff | libverilua/src/native_clock.rs:159-184 | in every run, starting a clock that is alone on its signal reports a conflict if and only if it is not running, its last edge was refused and it was not stopped since |
| ClockRuns.RefusalReached | libverilua/src/native_clock.rs:258-271 | concrete run: a refused second edge, after which starting reports a conflict |
| ClockRuns.StartSucceedsIff | libverilua/src/native_clock.rs:159-208 | in every run, with valid timing, starting a clock succeeds if and only if it is not running and no clock of its signal holds it: each was stopped since, or is not running and was not refused |
| ClockRuns.TwoDriversReached | libverilua/src/native_clock.rs:186-208 | concrete run: start one clock, stop another on the same signal, start that one: both run |
| ClockRuns.StepKeeps | libverilua/src/native_clock.rs:159-313 | each event of each clock keeps the registry in agreement with who started, was refused and was stopped, with clocks sharing signals; no callback outlives its clock, a running clock has valid timing, and its next edge lies in the future |
| ClockEnv.NativeClock.Start | libverilua/src/native_clock.rs:159-184 | the three error returns in order, then registration and the first edge |
| ClockEnv.NativeClock.Toggle | libverilua/src/native_clock.rs:215-271 | posts the level, flips it and registers the next edge |
| ClockEnv.NativeClock.ToggleCallback | libverilua/src/native_clock.rs:284-313 | the callback with deferred destruction before and after the edge |
| MainLoop.TimingModeKeepsTheClock | src/verilator/verilator_main.cpp:490-589 | timing mode with future deadlines: time strictly increases and the clock is (time / half period) mod 2 at every step |
| MainLoop.TimingModeVisitsAll | src/verilator/verilator_main.cpp:557-567 | every multiple of the half period up to the last step is a time step |
| MainLoop.TimingModeMeetsDeadlines | src/verilator/verilator_main.cpp:545-567 | timing mode passes over no event: each time step is the next event, or a clock boundary before it |
| MainLoop.NormalModeKeepsTheClock | src/verilator/verilator_main.cpp:404-470 | normal mode with a step that divides the half period, is an odd multiple of it, or exceeds an even multiple by a divisor of it: until 64-bit time wraps, the clock is (time / half period) mod 2 at every step |
| MainLoop.NormalModeKeepsTheClockIff | src/verilator/verilator_main.cpp:404-470 | if step times half period is below 2^64, the clock is (time / half period) mod 2 at every step before the wrap if and only if the step is one of those |
| MainLoop.NormalModeVisitsAllIff | src/verilator/verilator_main.cpp:416-458 | until 64-bit time wraps, normal mode visits every multiple of the half period if and only if the step divides the half period |
| MainLoop.Emulator.TimingModeMain | src/verilator/verilator_main.cpp:503-567 | the loop of timing mode evaluates exactly the specified time steps |
| MainLoop.Emulator.NormalModeMain | src/verilator/verilator_main.cpp:404-470 | the loop of normal mode reaches the specified time and clock, the time being a 64-bit counter |
| FileSplit.SplitUndoesBackupIff | src/slang_common/SlangCommon.cpp:81-167 | for files with no content line starting with a marker, splitting the joined backups gives each file back with one newline added if and only if files that go to the same path have the same content; no other file is written |
| FileSplit.SurvivesIff | src/slang_common/SlangCommon.cpp:111-167 | a single file survives the round trip if and only if none of its lines starts with a marker |
| FileSplit.NestedBeginIsLost | src/slang_common/SlangCommon.cpp:134-150 | behind a second begin marker without an end in between nothing is written until the file is closed |
| FileSplit.OutsideIsDropped | src/slang_common/SlangCommon.cpp:151-158 | lines outside of every file go nowhere |
| FileSplit.LastLine | src/slang_common/SlangCommon.cpp:133 | a last line without a newline is taken as well |
| FileSplit.TargetIs | src/slang_common/SlangCommon.cpp:137-142 | without an output directory a file goes where its path says, otherwise into that directory under the last component of its path |
| FileSplit.Splitter.GenerateNewFile | src/slang_common/SlangCommon.cpp:111-167 | the buffered loop writes what the line-by-line specification writes, to the original paths or into the new directory: where the buffer is flushed makes no difference |
| FileSplit.Splitter.FlushBuffer | src/slang_common/SlangCommon.cpp:124-131 | writes the buffered lines in order to the open file |
| FileSplit.Splitter.TakeLine | src/slang_common/SlangCommon.cpp:133-160 | one line: open, close or buffer, with the flush at 10000 lines |

## Left out

- The `inertial_put`, `dpi` and `wave_vpi` variants, which bypass the deferred queue or the flush.
- The value formats integer, scalar and suppress of a put, random and shuffled setters, and the read-only phase guard, which only panics.
- Edge callbacks of the `_always` kind, which are never released, and the feature set with chunking but without merging, in which each callback serves one edge.
- Overflow of the 32-bit wait counts.
- What Lua coroutines do: they appear as arbitrary sequences of writes, releases, waits and awaits.
- PutEnv.ComplexHandle.WriteBuffers: covers the deferred word setters; the immediate ones, which write the simulator directly, are not modelled.
- Text splicing of loops and case statements, locations, and stripping of begin and end: loops and cases are rewritten structurally. The wait statement, fork blocks, timed statements inside branches, pattern case and randcase are left out.
- VPI iteration, file mapping, locking and the in-memory cache behind the read-write lock; files are byte sequences and the simulator's object tree is a datatype.
- Parsing of the wildcard list and matching of one wildcard: matchers are arbitrary predicates on paths. Strings with an embedded zero byte, which the listing skips, are not modelled.
- HierRuns.NextRunAnswersTheSame: is stated for entries that are valid UTF-8 with 32-bit levels and widths, which the original's types guarantee.
- Decoding of JSON: the decoder is any function from bodies to the five outcomes.
- LspReader.LspClient.ReaderLoop: does not model requests registered by another thread while the reader runs.
- MainLoop.NormalModeKeepsTheClock: says nothing about the clock after 64-bit time has wrapped.
- Files that the splitter cannot open, and paths that name one file in different ways.
- The LightSSS checkpoint protocol, `bundle_crypto`, the slang-based generators, string getters, random pools and statistics.
