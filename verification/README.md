# The plugin kernel, verified in Dafny

This project models the parts of the extensions kernel whose behaviour is
hardest to see from one function: the Rust daemon that admits, runs, meters and
audits plugins, the TypeScript client at the other end of its pipe, and the
codecs and caches around them. Each part is modelled in the form the program
has (classes whose methods update their fields, loops over buffers, pure
functions where the program is pure) and proved against independent
definitions over histories, streams and runs.

| file | what it models |
|---|---|
| `AsyncInvoke.dfy` | the async invoke protocol: client, main loop, worker pools, both writers of standard output, as one state machine over every interleaving |
| `PoolShapes.dfy`, `InvokeOrder.dfy` | exactly which pool states each policy can reach; the order in which requests are handled and jobs started |
| `InvokeScheduler.dfy` | `dispatch_invoke_async` as the sequential code the main loop runs |
| `ClientRequests.dfy`, `EventDesk.dfy`, `EventPromises.dfy`, `Transport.dfy` | `CommandKernelTransport`: the table of pending requests, the session and audit queues and waiters, and the promises of those who wait |
| `Sessions.dfy`, `Tombstones.dfy` | sessions: quota'd queues, stream grammar, closing, the bounded store of closed ids |
| `Reservations.dfy` | load-time admission: tier caps, consent, memory reserved by residents |
| `Accounting.dfy`, `AccountingHistory.dfy`, `AccountingEntries.dfy` | per-plugin counters, the fused and the separate accounting passes, and what counters and audit entries say about the whole history |
| `AuditLog.dfy` | the bounded audit ring and its cursors |
| `WasmTelemetry.dfy` | the two-tier memory limiter, fuel, and the drains that carry both into the accounting |
| `ByteTransport.dfy` | the packed reply word and the copies between host and guest memory |
| `CanonicalJson.dfy`, `CanonicalText.dfy`, `Decimal.dfy` | the canonical JSON text that manifests are signed over, with a parser, and what that text looks like |
| `WasmModuleLimits.dfy` | LEB128, the section walk and the memory quota guard |
| `HttpHead.dfy`, `HttpFields.dfy`, `HttpReader.dfy` | the HTTP response head, what every head comes to, and the reader over a stream of chunks |
| `ModuleCache.dfy` | the cache of compiled modules |
| `Wrappers.dfy`, `Numbers.dfy`, `Sequences.dfy`, `Sums.dfy`, `Bytes.dfy`, `Envelopes.dfy` | shared types, and the tools for sequences and for the counting of the conservation laws |

`dafny verify dfyconfig.toml` checks the whole project.

## How the main claims are stated

* **Async invoke.** `AsyncInvoke.System` holds the client, the unread input, the
  phase of the main loop inside a dispatch, every worker pool (the current one
  and those a policy change replaced), the two output buffers and standard
  output. A run is any sequence of enabled steps, so every theorem about runs is
  about every interleaving. Request ids are unique (a step issues only fresh
  ids). What a request is resolved with also needs that no real reply to that
  request says both `accepted` and `async`, whatever other requests are answered
  with; `EnvelopeOvertakesMarker` shows a run in which this cannot be dropped.
  The branch of `dispatch_invoke_async` that refuses an inactive extension is
  modelled, but its only caller has just checked for it
  (`rust/extensions-kernel/src/lib.rs:1509-1519`), so the runs that count as
  reaching a pool state never take it.
* **Inputs by their fields.** What decides a branch is said in the terms of the
  input itself: the members of a reply, the fields of a policy or a budget, the
  encoded bounds of a memory, the bytes of a head. A predicate of the program
  stands in a main claim only where a lemma says what it means.
* **Histories.** Bounded or incremental state (the audit ring, the tombstones,
  the module cache, streaks, high-water records, drained counters) is compared
  with an unbounded history through a definition that does not mention the
  state: maximal runs, strict running maxima, last uses, requests beyond a cap.
* **False as stated, so characterised exactly.** "A closed id stays closed",
  "every loaded resident has a reservation", "paging with `lastSeq` skips
  nothing", "an unpacked reply is the packed one", "a load stays within the
  budget", "the job queue never exceeds the cap minus the threads", "the guard
  accepts only modules without memory or within the quota" and "the JSON path
  never runs out of buffer" do not hold of the code for all inputs. Each has a
  lemma giving the condition under which it holds, in both directions.

## Where code and comments differ

The model follows the code.

* The comment that the job queue never exceeds `queueCap - threads`
  (`rust/extensions-kernel/src/lib.rs:619-621`) holds, under every policy,
  exactly while all workers run a job or more run than the cap allows
  (`QueueBoundIsExact`); one worker that is idle or delivers its envelope is
  enough to break it (`QueueFillsWhileWorkerIsIdle`,
  `QueueFillsWhileWorkerDelivers`).
* The module cache is called a bounded FIFO
  (`src/runtimes/wasm/WasmRuntime.ts:10-16`); it evicts the least recently used.
* `call_bytes` sizes its buffer by the guest memory before the call
  (`rust/extensions-kernel/src/wasm_runtime.rs:424-437`); a guest that grows its
  memory during the call can reply with more (`JsonPathFitsUnlessGrown`).
* A JSON invoke that fails returns before draining telemetry
  (`rust/extensions-kernel/src/lib.rs:1546`), unlike a byte invoke.
* The memory section's count is read past the end of an empty section
  (`src/security/wasmModuleLimits.ts:77-90`; `EmptyMemorySectionReadsOn`).

## Model

| member | source | states |
|---|---|---|
| `AsyncInvoke.KeepsInv` | `rust/extensions-kernel/src/lib.rs:572-646` | every atomic step of client, main loop, workers and writers, in any order, keeps the conservation laws of a request's jobs, replies, markers and settlements |
| `AsyncInvoke.SettlesAtMostOnce` | `src/kernel/CommandKernelBridge.ts:504-540` | in every run, whatever is replied, of all resolve and reject calls for one request at most one is not a write-callback rejection |
| `AsyncInvoke.SettlesWithRealReply` | `src/kernel/CommandKernelBridge.ts:504-540` | a request none of whose real replies says `accepted` and `async` is never resolved with such a reply, only with its one real reply, which for an accepted invoke is its worker's envelope |
| `AsyncInvoke.OneRealReply` | `rust/extensions-kernel/src/lib.rs:1557-1645` | there is never more than one real reply to a request, and an accepted invoke is answered by a worker and not by the main loop |
| `AsyncInvoke.QuiescentMeansSettled` | `rust/extensionsd/src/main.rs:10-60` | without a timeout or write error of its own and without a close, a request none of whose real replies says `accepted` and `async` has settled exactly once, with its real reply, when the system comes to rest, whichever of its two lines was read first |
| `AsyncInvoke.InternalRunsEnd` | `rust/extensions-kernel/src/lib.rs:627-646` | however workers and writers are scheduled, they stop after a number of steps known from the state |
| `AsyncInvoke.RestMeansQuiescent` | `rust/extensions-kernel/src/lib.rs:627-646` | the system is out of internal steps if and only if no line is unread and no worker holds a job: nothing can be stuck half way |
| `AsyncInvoke.CanComeToRest` | `rust/extensionsd/src/main.rs:10-60` | from every reachable state some run of internal steps reaches that rest |
| `AsyncInvoke.InFlightIsConserved` | `rust/extensions-kernel/src/lib.rs:1574-1644` | the in-flight counter always equals jobs queued plus running, over the current and all replaced pools, plus the slot being filled, and never exceeds the `queueCap`, by default 64, that the policies with threads ask for |
| `AsyncInvoke.QueueBoundWhileRunning` | `rust/extensions-kernel/src/lib.rs:617-646` | a pool whose workers all run jobs queues at most cap minus threads |
| `PoolShapes.ReachableShapes` | `rust/extensions-kernel/src/lib.rs:1574-1644` | under `asyncPoolThreads` t and `queueCap` c, by default 64, a pool with q queued, r running and d delivering jobs is reached by some run of the program if and only if t and c are positive, q + r is at most c and r + d at most t |
| `PoolShapes.QueueBoundIsExact` | `rust/extensions-kernel/src/lib.rs:617-646` | under t threads and a cap of c, the queue is at most c minus t in every reachable state with r running workers if and only if r is t or exceeds c, however many others deliver |
| `PoolShapes.QueueFillsWhileWorkerIsIdle` | `rust/extensions-kernel/src/lib.rs:617-621` | for every policy and every number of running workers below the threads, a run to a queue longer than cap minus threads with nothing in delivery |
| `PoolShapes.QueueFillsWhileWorkerDelivers` | `rust/extensions-kernel/src/lib.rs:572-613` | for every policy, the same with every worker busy and any number of them delivering, because a worker releases its slot before it delivers |
| `PoolShapes.NoPoolWithoutCap` | `rust/extensions-kernel/src/lib.rs:1574-1603` | a policy that names no threads, or none, or a cap of zero, never has a pool |
| `PoolShapes.PoolsHaveTheThreads` | `rust/extensions-kernel/src/lib.rs:1574-1603` | in every run under t threads and a cap of c, every pool has t threads and at most c invokes are in flight |
| `PoolShapes.BusyExactlyWhenFull` | `rust/extensions-kernel/src/lib.rs:1570-1587` | so in every such run a dispatch is refused for a full queue if and only if c invokes are in flight |
| `InvokeOrder.RequestsAreHandledInOrder` | `rust/extensionsd/src/main.rs:10-60` | in every run the main loop handles the requests in the order they were written and skips none |
| `InvokeOrder.JobsStartInOrder` | `rust/extensions-kernel/src/lib.rs:572-646` | in every run each pool, the current one or a replaced one, starts its jobs in the order they were accepted into it |
| `AsyncInvoke.OneEnvelopePerJob` | `rust/extensions-kernel/src/lib.rs:572-615` | an accepted job is held by exactly one pool or has put exactly one envelope in the sink |
| `AsyncInvoke.EnvelopeOvertakesMarker` | `src/kernel/CommandKernelBridge.ts:504-540` | a run in which the envelope is read before the marker: the caller gets the envelope, except one that says `accepted` and `async`, when it gets the marker |
| `InvokeScheduler.KernelDaemon.DispatchInvokeAsync` | `rust/extensions-kernel/src/lib.rs:1557-1645` | the reply, the new pools and counter and the audit lines of one dispatch, over all its branches |
| `InvokeScheduler.DispatchObeysPolicy` | `rust/extensions-kernel/src/lib.rs:1562-1645` | under t threads and a cap of c, by default 64: with c or more in flight the reply is KERNEL_BUSY and nothing but the audit log changes; below that an active extension's job goes to the end of the queue of a pool of t threads, a new one unless the last has t, and counts as in flight; a job that is not accepted leaves queue and counter alone |
| `InvokeScheduler.DispatchIsItsSteps` | `rust/extensions-kernel/src/lib.rs:1557-1645` | a dispatch nothing interrupts is exactly a run of the protocol's atomic steps |
| `ClientRequests.JoinsInEitherOrder` | `src/kernel/CommandKernelBridge.ts:504-540` | marker then envelope, and envelope then marker, leave the client in the same state, unless the envelope says `accepted` and `async` too |
| `Envelopes.MarkerByMembers` | `src/kernel/CommandKernelBridge.ts:615-627` | the marker is any successful reply whose first member `accepted` and whose first member `async` are `true`, whatever else it holds and in whatever order |
| `ClientRequests.OnlyMarkerIsKept` | `src/kernel/CommandKernelBridge.ts:504-540` | every line for a pending request settles it with exactly what it says, an error always; only the first line of an invoke that says both keeps it pending, now awaiting the async result |
| `ClientRequests.MembersDecide` | `src/kernel/CommandKernelBridge.ts:533-540` | for an object with distinct keys: kept if and only if both members are `true`; `{"accepted": true}` alone settles the invoke |
| `ClientRequests.TimerKnowsTheMarker` | `src/kernel/CommandKernelBridge.ts:305-318` | before the marker the timer of the request runs, after it the timer of the async result |
| `Transport.CommandKernelTransport.Request` | `src/kernel/CommandKernelBridge.ts:292-332` | an open transport registers the request, a closed one refuses it and changes nothing |
| `Transport.CommandKernelTransport.HandleResponse` | `src/kernel/CommandKernelBridge.ts:504-540` | the new table and settlements are the client machine's step for a response line |
| `Transport.CommandKernelTransport.FireTimer` | `src/kernel/CommandKernelBridge.ts:305-318` | the timer of a request, or of its async result once accepted, rejects it once and forgets it |
| `Transport.CommandKernelTransport.WriteError` | `src/kernel/CommandKernelBridge.ts:320-331` | a failed write rejects the request and forgets it |
| `Transport.CommandKernelTransport.NextSessionEvent` | `src/kernel/CommandKernelBridge.ts:334-346` | one call for a session event is the desk's step: the oldest queued event, or a place among the waiters |
| `Transport.CommandKernelTransport.HandleEvent` | `src/kernel/CommandKernelBridge.ts:542-556` | one session event is the desk's step: the oldest waiter, or the queue |
| `Transport.CommandKernelTransport.ClearSessionState` | `src/kernel/CommandKernelBridge.ts:379-389` | exactly that session's queue goes and exactly its waiters are rejected |
| `Transport.CommandKernelTransport.NextAuditEvent` | `src/kernel/CommandKernelBridge.ts:348-357` | one call for an audit entry is the desk's step |
| `Transport.CommandKernelTransport.HandleAuditEvent` | `src/kernel/CommandKernelBridge.ts:359-370` | one audit entry is the desk's step, and the backlog stays within 256 |
| `Transport.CommandKernelTransport.FailAll` | `src/kernel/CommandKernelBridge.ts:585-602` | every pending request and every waiter is rejected exactly once, in the order the tables are walked, and the transport is closed |
| `EventDesk.SessionEventsAreDeliveredInOrder` | `src/kernel/CommandKernelBridge.ts:334-346` | in every run, since a session was last cleared or failed, the i-th call gets the i-th event that arrived, and never do both events and callers wait |
| `EventDesk.AuditEntriesAreDeliveredInOrder` | `src/kernel/CommandKernelBridge.ts:348-377` | in every run each audit entry is queued, went to one call, or was dropped with 256 newer ones waiting; deliveries follow the order of arrival and of the calls; and each call waits, was rejected, or was resolved with the entry handed to it |
| `EventPromises.EveryCallSettlesOrWaits` | `src/kernel/CommandKernelBridge.ts:334-357` | in every run each call for an event has settled or waits in a list, and never both: none is lost |
| `EventPromises.SettledStaysSettled` | `src/kernel/CommandKernelBridge.ts:542-602` | what a call has settled with never changes, whatever comes later |
| `EventPromises.WaitingCallsAreRejected` | `src/kernel/CommandKernelBridge.ts:379-389` | clearing a session rejects the calls that wait for it, and a failure of the transport (585-602) every waiting call |
| `Sessions.AppendSessionEvents` | `rust/extensions-kernel/src/lib.rs:2455-2497` | a batch is appended up to its first terminal event, an error being followed by an end, or overflows and leaves the queue empty and the session closed |
| `Sessions.FlushSessionEvents` | `rust/extensions-kernel/src/lib.rs:1830-1851` | everything queued is sent in order, and the session closes if an end was among it |
| `Sessions.SessionKernel.HandleOpenSession` | `rust/extensions-kernel/src/lib.rs:1647-1708` | reply, events sent and new store of an open |
| `Sessions.OpenAnswersItsSession` | `rust/extensions-kernel/src/lib.rs:1677-1706` | over every run, an open answers with an id that counts the sessions opened, was not issued before and is now, names the one session it added, and is the one the events sent with the answer belong to; no other session's stream changes |
| `Sessions.SessionKernel.HandleSessionOperation` | `rust/extensions-kernel/src/lib.rs:1710-1762` | reply, events sent and new store of a send; a cancel (1787-1828) differs only in the call it makes |
| `Sessions.SessionKernel.HandleSessionClose` | `rust/extensions-kernel/src/lib.rs:1764-1785` | a close forgets the session and tombstones the id, issued or not; a second close changes nothing |
| `Sessions.StreamOverRuns` | `rust/extensions-kernel/src/lib.rs:1647-1851` | over every run, the events sent for a session are the plugin's in order: all of them, or all up to the first end, or all up to the first error followed by an end; queues are empty between requests |
| `Sessions.SendIsServedUntilTheEnd` | `rust/extensions-kernel/src/lib.rs:1710-1762` | over every run, a send on an id an open answered with and the host never closed is refused if and only if the plugin has ended the session or it overflowed; any other send is served, or overflows if and only if its batch holds more than 4096 events up to its first terminal one |
| `Sessions.NothingAfterEnd` | `rust/extensions-kernel/src/lib.rs:1647-1851` | after an end nothing more is ever sent for the session, whatever the host asks |
| `Sessions.NothingAfterOverflowOrClose` | `rust/extensions-kernel/src/lib.rs:1764-1851` | nor after a quota overflow or a close of an issued id, although no end was sent; except for a session still open under an id tombstoned before it was issued, which a close does not touch |
| `Sessions.OverflowAndCloseShut` | `rust/extensions-kernel/src/lib.rs:1764-1785` | a quota overflow, and such a close, leave the session closed or gone and its id not still to be issued |
| `Sessions.ClosedStaysClosed` | `rust/extensions-kernel/src/lib.rs:1764-1785` | after a close no later send or cancel on that id succeeds in any run, eviction of its tombstone included, if and only if the id is not still to be issued and was not tombstoned before it was issued |
| `Sessions.HonestHostsKeepClosed` | `rust/extensions-kernel/src/lib.rs:1859-1866` | so a host that closes only issued ids never gets a closed id to work again |
| `Tombstones.ClosedSessionTombstones.Insert` | `rust/extensions-kernel/src/lib.rs:536-545` | the set equals the elements of its duplicate-free ring, which holds the last 65,536 accepted insertions of the whole history |
| `Tombstones.ClosedSessionTombstones.Contains` | `rust/extensions-kernel/src/lib.rs:547-549` | the answer is membership among the last 65,536 accepted insertions |
| `Reservations.TierIsStrictest` | `rust/extensions-kernel/src/lib.rs:1158-1167` | the fold over capability classes is the strictest class declared; unknown classes count for nothing |
| `Reservations.DeclaredByFields` | `rust/extensions-kernel/src/lib.rs:1169-1177` | the declared peak and per-tick slice (2772-2782) are exactly the largest `memoryMb` and `fuelPerTick` that any capability's budget names, and absent if none names one |
| `Reservations.AdmittedIsBacked` | `rust/extensions-kernel/src/lib.rs:1369-1416` | an admitted resident reserves the largest `memoryMb` and `fuelPerTick` its budgets name and is capped by the former; an override grants it as both caps |
| `Reservations.OrdinaryCaps` | `rust/extensions-kernel/src/lib.rs:1148-1218` | 16 pages for each declared megabyte as the soft cap under the tier's hard cap; the tier's cap for both without a declaration; the declared peak for both, and consent asked, if it exceeds the tier |
| `Reservations.TierPagesAreTheCap` | `rust/extensions-kernel/src/lib.rs:503-519` | a tier's pages: 16 for each megabyte of the realtime budget if any capability is realtime, else of the interactive one if any is interactive, else of the batch one, and 256 where the policy names none |
| `Reservations.ResidentCaps` | `rust/extensions-kernel/src/lib.rs:1169-1192` | a resident's caps are its declared peak, at least one page, whatever its tier; without a policy 256 pages |
| `Reservations.ResidentLoad` | `rust/extensions-kernel/src/lib.rs:1326-1425` | a resident that declares a peak, under a total budget: it needs consent if and only if its peak and the others' reservations exceed the budget, and once admitted has its peak reserved and as both caps, an override being audited |
| `Reservations.ResidentRefused` | `rust/extensions-kernel/src/lib.rs:1326-1348` | without a declared peak or a total budget a resident is refused and only the audit log changes |
| `Reservations.OrdinaryLoad` | `rust/extensions-kernel/src/lib.rs:1369-1425` | an ordinary extension needs consent if and only if it declares more than its tier has; it reserves nothing |
| `Reservations.OnlyTrustedIsLoaded` | `rust/extensions-kernel/src/lib.rs:1262-1425` | over every run, whatever is loaded was loaded by a trusted request that the runtime accepted |
| `Reservations.KernelDaemon.OtherReserved` | `rust/extensions-kernel/src/lib.rs:1349-1354` | the loop sums the reservations of all other extensions |
| `Reservations.KernelDaemon.HandleLoad` | `rust/extensions-kernel/src/lib.rs:1262-1425` | reply, reservations, loaded extensions and audit entries of a load, over all refusals, consent requests, overrides and failures |
| `Reservations.KernelDaemon.HandlePolicySet` | `rust/extensions-kernel/src/lib.rs:1119-1145` | a new policy replaces the old one and leaves every reservation in place |
| `Reservations.ReservationsAreBacked` | `rust/extensions-kernel/src/lib.rs:1395-1416` | in every run, policy changes included, each reservation belongs to a loaded resident whose page caps are the reserved memory, and every loaded pair has soft at most hard |
| `Reservations.LoadCountsOnce` | `rust/extensions-kernel/src/lib.rs:1393-1402` | after a load the reserved sum is the others' plus this one's, so a re-load never counts twice |
| `Reservations.LoadStaysWithinUnlessOverspent` | `rust/extensions-kernel/src/lib.rs:1349-1392` | a load takes the kernel out of its budget if and only if it is an override that reserves more than is left |
| `Reservations.OverspendingIsAudited` | `rust/extensions-kernel/src/lib.rs:1369-1392` | such a load appends a consent override to the audit log |
| `Reservations.BudgetHolds` | `rust/extensions-kernel/src/lib.rs:1262-1425` | while the budget does not shrink and no override is audited, reservations never sum to more than the total, over every run of loads, re-loads, class changes, rejections and policy changes |
| `Reservations.FixedPolicyBudgetHolds` | `rust/extensions-kernel/src/lib.rs:1262-1425` | under one policy and with no override audited, reservations never sum to more than its total, over every run of loads |
| `Reservations.ResidentLosesReservation` | `rust/extensions-kernel/src/lib.rs:1393-1402` | a loaded resident is left without a reservation exactly when a re-load of it is admitted and its runtime contract then fails |
| `Reservations.UnreservedResidentIsReachable` | `rust/extensions-kernel/src/lib.rs:1395-1396` | two loads that lead there |
| `Accounting.PluginAccounting.MeterFuel` | `rust/extensions-kernel/src/lib.rs:1005-1024` | streak, violations and fuel total after one metered call |
| `Accounting.PluginAccounting.ObserveMemoryUsage` | `rust/extensions-kernel/src/lib.rs:366-379` | high water, record count and latch after one observation |
| `Accounting.FusedRefinesSeparate` | `rust/extensions-kernel/src/lib.rs:862-954` | for every state, outcome and telemetry the fused pass leaves the same counters of every plugin and the same audit entries in the same order as the separate passes |
| `Accounting.KernelDaemon.SettleInvoke` | `rust/extensions-kernel/src/lib.rs:865-954` | the in-place fused pass ends in the books of the separate passes |
| `Accounting.KernelDaemon.ObserveWasmMemoryPass` | `rust/extensions-kernel/src/lib.rs:728-759` | the separate memory pass: counters, then pressure or denial, then leak entries |
| `Accounting.KernelDaemon.AccountFuelTrapPass` | `rust/extensions-kernel/src/lib.rs:715-726` | the separate fuel-trap pass |
| `Accounting.KernelDaemon.AccountFuelConsumedPass` | `rust/extensions-kernel/src/lib.rs:995-1038` | the separate fuel pass; without a declared slice nothing happens |
| `AccountingHistory.FusedIsRun` | `rust/extensions-kernel/src/lib.rs:862-954` | a fused call is a run of separate passes, so what holds of every run of passes holds of it |
| `AccountingHistory.PassesAreIsolated` | `rust/extensions-kernel/src/lib.rs:697-759` | a pass about one plugin leaves the counters and entries of every other alone |
| `AccountingHistory.TotalsAreHistory` | `rust/extensions-kernel/src/lib.rs:331-364` | for every history, call count, latency total and peak, trap count, fuel total, breaches and denials are those of the passes about the plugin, the totals stopping at the largest 64-bit number |
| `Accounting.FuelTrapSaysSo` | `rust/extensions-kernel/src/lib.rs:715-726` | an error counts as a fuel trap if and only if the text `fuel budget` occurs in it |
| `AccountingEntries.AlarmsAreHistory` | `rust/extensions-kernel/src/lib.rs:715-759` | for every history, the trap, denial and pressure entries of a plugin are, in order, one per failed call that says `fuel budget` and one per drain with denials, or with breaches and no denials |
| `AccountingEntries.EveryEntryIsAccountedFor` | `rust/extensions-kernel/src/lib.rs:697-759` | every audit entry about a plugin is one of those, a violation or a leak report |
| `AccountingEntries.CallFilesInOrder` | `rust/extensions-kernel/src/lib.rs:917-954` | a fused call adds entries about its own plugin only, at most one of each kind: trap, then denial or pressure, then leak, then violation |
| `AccountingHistory.ViolationsCountLongRuns` | `rust/extensions-kernel/src/lib.rs:990-1038` | for every history, violations count the maximal runs of at least 8 consecutive over-slice calls, the streak is the length of the current run, and the audit entries are exactly the eighth call of each such run, in order |
| `AccountingHistory.LeakIsReportedOnceAtThreshold` | `rust/extensions-kernel/src/lib.rs:366-379` | for every history, the high-water mark is the largest usage, the record count is the number of strict running maxima, and the leak is reported once, at the 32nd |
| `AuditLogs.AuditLog.Push` | `rust/extensions-kernel/src/lib.rs:282-305` | the ring is the last 1024 entries of the unbounded log, numbered consecutively from 1, and the sink gets every entry |
| `AuditLogs.AuditLog.HandleAuditQuery` | `rust/extensions-kernel/src/lib.rs:1222-1260` | entries and `lastSeq` of a host's query, with its defaults, as a stretch and the length of the unbounded log |
| `AuditLogs.AnswerIsStretch` | `rust/extensions-kernel/src/lib.rs:307-316` | a query returns a contiguous stretch of the log, from the cursor or the oldest entry kept, of at most the limit |
| `AuditLogs.PagingSkipsOnlyEvicted` | `rust/extensions-kernel/src/lib.rs:1222-1238` | paging with the last returned sequence, with any pushes in between, reads each entry at most once, in strictly ascending order, and misses only entries already evicted |
| `AuditLogs.PageSkipsOnlyEvicted` | `rust/extensions-kernel/src/lib.rs:1222-1238` | between two cursors one page misses only entries evicted when it was asked for |
| `AuditLogs.NewestAsCursorSkips` | `rust/extensions-kernel/src/lib.rs:1235-1238` | paging with the reported `lastSeq` passes over entries the ring still holds if and only if the page was cut short by its limit |
| `WasmTelemetries.MemoryLimiter.MemoryGrowing` | `rust/extensions-kernel/src/wasm_runtime.rs:129-147` | granted unless beyond the hard cap; each request counts as nothing, a breach or a denial |
| `WasmTelemetries.GrantedWithinCap` | `rust/extensions-kernel/src/wasm_runtime.rs:129-147` | a granted size is within the cap's bytes if and only if it is whole pages or needs fewer pages than the cap |
| `WasmTelemetries.WasmPlugin.RunGuest` | `rust/extensions-kernel/src/wasm_runtime.rs:289-300` | memory, limiter and fuel after one armed run with any sequence of growth requests |
| `WasmTelemetries.WasmPlugin.Drain` | `rust/extensions-kernel/src/wasm_runtime.rs:302-319` | one drain takes the fuel consumed, the events since the last drain and the current usage |
| `WasmTelemetries.DataPlane.Invoke` | `rust/extensions-kernel/src/lib.rs:820-860` | a byte invoke always drains into the books |
| `WasmTelemetries.DataPlane.InvokeAsJson` | `rust/extensions-kernel/src/lib.rs:1517-1549` | a JSON invoke drains only when it succeeds |
| `WasmTelemetries.DataPlane.TickBytes` | `rust/extensions-kernel/src/lib.rs:784-809` | a tick never drains |
| `WasmTelemetries.MemoryEventsAreConserved` | `rust/extensions-kernel/src/wasm_runtime.rs:311-319` | over any interleaving of invokes, ticks, lifecycle calls and failures, breaches and denials in the accounting plus those undrained are exactly the growth requests of the history beyond the caps |
| `WasmTelemetries.MemoryStaysUnderCap` | `rust/extensions-kernel/src/wasm_runtime.rs:129-147` | with sizes in whole pages, memory is at most the hard cap in every reachable state |
| `WasmTelemetries.MemoryIsLastProvided` | `rust/extensions-kernel/src/wasm_runtime.rs:129-147` | memory is as large as the last request of the whole history that was within the hard cap and provided, and empty if there was none |
| `WasmTelemetries.HighWaterIsLargestDrained` | `rust/extensions-kernel/src/lib.rs:956-985` | after any run the high-water mark in the accounting is the largest memory size any drain found |
| `WasmTelemetries.WhatEachCallDrains` | `rust/extensions-kernel/src/lib.rs:1517-1549` | a byte invoke (820-860) and a JSON invoke that succeeds leave nothing undrained; a JSON invoke that fails books no memory and no fuel, and a tick (784-809) books nothing |
| `WasmTelemetries.FuelReportsAreLastArmed` | `rust/extensions-kernel/src/wasm_runtime.rs:289-309` | over any run each drain reports the consumption of the call armed last since the drain before, or nothing |
| `WasmTelemetries.TickFuelIsLostOrMisplaced` | `rust/extensions-kernel/src/lib.rs:784-809` | in any run, a tick's fuel appears in the reports only if the next thing to touch the budget is a drain, and then as that drain's; otherwise all later reports are the same without it |
| `WasmTelemetries.FirstEventIsDrain` | `rust/extensions-kernel/src/lib.rs:820-860` | that next thing is a drain exactly when it is a draining invoke that failed before arming |
| `ByteTransport.UnpackInvertsPack` | `examples/rust-wasm-dataplane-template/src/lib.rs:50-53` | unpacking gives pointer and length back exactly for pointers below 2^31; above, the word reads as a failure |
| `ByteTransport.PackInvertsUnpack` | `rust/extensions-kernel/src/wasm_runtime.rs:477-483` | every word that is not a failure packs what the host reads from it |
| `ByteTransport.WasmPlugin.CallBytesInto` | `rust/extensions-kernel/src/wasm_runtime.rs:442-504` | on success the first bytes of the buffer are the reply and the rest is unchanged; on any error the buffer is unchanged; the guest's memory is as its run left it |
| `ByteTransport.WasmPlugin.TickBytesInto` | `rust/extensions-kernel/src/wasm_runtime.rs:506-566` | the same for a tick |
| `ByteTransport.WasmPlugin.CallBytes` | `rust/extensions-kernel/src/wasm_runtime.rs:424-437` | the JSON path's fresh buffer holds exactly the reply |
| `ByteTransport.GuestFindsRequest` | `rust/extensions-kernel/src/wasm_runtime.rs:442-490` | the guest finds the request at offset 0 and the rest of its memory as it was; its trap, its negative word and a range outside its memory are the three failures reported as such |
| `ByteTransport.RefusedWithoutRunning` | `rust/extensions-kernel/src/wasm_runtime.rs:442-467` | without export or memory, or with a request beyond 1,048,576 bytes or beyond the memory, the guest does not run and keeps its memory |
| `ByteTransport.PackedReplyArrives` | `rust/extensions-kernel/src/wasm_runtime.rs:477-503` | a reply the guest packs arrives byte for byte if and only if it lies below 2^31 and fits the buffer |
| `ByteTransport.ReplyIsGuestMemory` | `rust/extensions-kernel/src/wasm_runtime.rs:477-503` | whatever is delivered is a slice inside guest memory at the place the word names, and fits the buffer |
| `ByteTransport.JsonPathFitsUnlessGrown` | `rust/extensions-kernel/src/wasm_runtime.rs:424-437` | the JSON path runs out of buffer exactly when the guest replies, from inside its memory, with more than it had before the call, so only if it grew |
| `CanonicalJson.ParseCanonical` | `rust/extensions-security-core/src/canonicalize.rs:18-46` | a parser undoes the printer, up to the order of members |
| `CanonicalJson.CanonicalDecidesSameValue` | `rust/extensions-security-core/src/canonicalize.rs:18-46` | two values print alike if and only if they are the same value, whatever the key order at any depth |
| `CanonicalJson.ManifestTextIgnoresOnlySignature` | `rust/extensions-security-core/src/canonicalize.rs:4-16` | two manifests have the same signed text if and only if they agree on everything but `signature` |
| `CanonicalText.CanonicalKeysAscend` | `rust/extensions-security-core/src/canonicalize.rs:30-45` | in what the canonical text reads back as, at every depth, each earlier key is a proper prefix of each later one or has the smaller character where they first differ |
| `CanonicalText.ManifestText` | `rust/extensions-security-core/src/canonicalize.rs:4-16` | only an object has a signed text; it reads as that object's members but `signature` |
| `CanonicalText.WordTexts` | `rust/extensions-security-core/src/canonicalize.rs:18-46` | the words, and the empty array and object |
| `CanonicalText.ItemText` | `rust/extensions-security-core/src/canonicalize.rs:25-29` | one more item of an array: a comma, unless it is the first, and its own text |
| `CanonicalText.MemberText` | `rust/extensions-security-core/src/canonicalize.rs:30-45` | one more member of an object, with the greatest key: a comma, unless it is the first, its key as a string, a colon and its own text |
| `CanonicalText.StringTextIsShortest` | `rust/extensions-security-core/src/canonicalize.rs:18-46` | a string is printed in the shortest text that reads as it: nothing is escaped that need not be |
| `CanonicalText.ShortEscapes` | `rust/extensions-security-core/src/canonicalize.rs:18-46` | the two-character escapes by code point (section 7 of RFC 8259) |
| `CanonicalText.ControlText` | `rust/extensions-security-core/src/canonicalize.rs:18-46` | any other control character is written by its code point in two lower-case digits |
| `CanonicalText.DigitTexts` | `rust/extensions-security-core/src/canonicalize.rs:18-46` | the ten digits, and every longer number by its last digit |
| `CanonicalText.NumberText` | `rust/extensions-security-core/src/canonicalize.rs:18-46` | a number is a minus sign if negative and digits without a leading zero that denote it |
| `WasmModuleLimits.ReadLeb128` | `src/security/wasmModuleLimits.ts:119-144` | the loop computes the group-by-group reading and its length, or fails for the stated reason |
| `WasmModuleLimits.Leb128RoundTrip` | `src/security/wasmModuleLimits.ts:119-144` | decoding inverts encoding for every value below 2^42, in at most six bytes, whatever follows |
| `WasmModuleLimits.LebReadIsEncoded` | `src/security/wasmModuleLimits.ts:119-144` | whatever is read is a well-formed encoding of at most six bytes (section 5.2.2 of the WebAssembly Core Specification) and a number below 2^42 |
| `WasmModuleLimits.ParseWasmMemoryLimits` | `src/security/wasmModuleLimits.ts:22-52` | header check and section loop compute the walk over the sections, in range and terminating on all inputs |
| `WasmModuleLimits.ParseMemorySection` | `src/security/wasmModuleLimits.ts:77-116` | the first memory type, or the stated error |
| `WasmModuleLimits.WalkFindsLimits` | `src/security/wasmModuleLimits.ts:22-52` | for every well-formed section list whose first memory section declares a memory, the walk returns exactly the limits of its first memory |
| `WasmModuleLimits.WalkFindsNone` | `src/security/wasmModuleLimits.ts:22-52` | without a memory section the walk finds none |
| `WasmModuleLimits.WalkIsSound` | `src/security/wasmModuleLimits.ts:22-52` | limits are never made up: the bytes before them are well-formed sections and they stand in the first memory section |
| `WasmModuleLimits.WalkNoneIsSound` | `src/security/wasmModuleLimits.ts:22-52` | no limits means no memory section, or a first one whose count reads as zero |
| `WasmModuleLimits.ZeroCountIsNoMemory` | `src/security/wasmModuleLimits.ts:77-90` | a first memory section means no memory if and only if the count read at its start, past its end if need be, is zero |
| `WasmModuleLimits.ZeroMemoriesFindNone` | `src/security/wasmModuleLimits.ts:77-90` | a memory section that holds zero memories (section 5.5.8) is read as no memory |
| `WasmModuleLimits.EmptyMemorySectionReadsOn` | `src/security/wasmModuleLimits.ts:77-90` | for every empty memory section and whatever follows it: the next number is taken for its count, and decides between no memory and a truncated section |
| `WasmModuleLimits.AssertWasmMemoryWithinQuota` | `src/security/wasmModuleLimits.ts:54-75` | the guard's verdict and error for every byte string, accepted if and only if `Acceptable`, which `GuardAcceptsExactly` spells out by the encoded bounds |
| `WasmModuleLimits.GuardDecidesQuota` | `src/security/wasmModuleLimits.ts:54-75` | a module with memory is accepted if and only if its first memory declares a maximum and both encoded bounds are at most the quota; it is refused as unbounded if and only if there is no maximum |
| `WasmModuleLimits.GuardAcceptsNoMemory` | `src/security/wasmModuleLimits.ts:54-75` | a module without a memory section is accepted |
| `WasmModuleLimits.GuardAcceptsZeroMemories` | `src/security/wasmModuleLimits.ts:54-75` | so is one whose first memory section counts zero |
| `WasmModuleLimits.GuardAcceptsExactly` | `src/security/wasmModuleLimits.ts:54-75` | for every byte string: accepted if and only if it is a header, well-formed sections without memory, and then nothing, or a memory section that counts zero, or one whose first memory declares a maximum and has both encoded bounds at most the quota |
| `WasmModuleLimits.GuardConstants` | `src/security/wasmModuleLimits.ts:1-52` | the header bytes, the memory section's number and the default quota of 256 pages |
| `HttpHead.ParseHttpResponseHead` | `rust/extensions-kernel/src/lib.rs:2622-2653` | status and declared length: the last content-length line counts, and every one has to be a number |
| `HttpHead.HeadParses` | `rust/extensions-kernel/src/lib.rs:2622-2653` | a head as a server sends it reads back as its status and the length its header lines declare |
| `HttpHead.LengthLineDeclares` | `rust/extensions-kernel/src/lib.rs:2640-2650` | a content-length line declares its number, up to the largest 64-bit one, in any case of its name |
| `HttpFields.LengthLineIsNamed` | `rust/extensions-kernel/src/lib.rs:2640-2650` | a line declares a length if and only if the text before its first colon is content-length, in any case and with any white space around it |
| `HttpFields.NumeralsAreRead` | `rust/extensions-kernel/src/lib.rs:2632-2650` | a text reads as a number if and only if it is its decimal numeral, after zeros and perhaps a plus sign, and within the bound |
| `HttpFields.EveryLengthIsANumber` | `rust/extensions-kernel/src/lib.rs:2640-2650` | a head is refused for its lengths if and only if some content-length line does not hold a number |
| `HttpFields.LastLengthCounts` | `rust/extensions-kernel/src/lib.rs:2640-2650` | otherwise the last content-length line counts, and without one there is no length |
| `HttpFields.StatusIsSecondWord` | `rust/extensions-kernel/src/lib.rs:2622-2637` | the status is the second word of the status line, whatever white space lies around, and the first has to begin with `HTTP/` |
| `HttpFields.StatusNeedsTwoWords` | `rust/extensions-kernel/src/lib.rs:2622-2637` | the errors of a status line with fewer than two words |
| `HttpFields.LinesEndAtLineFeeds` | `rust/extensions-kernel/src/lib.rs:2622-2626` | a line ends at a line feed, a carriage return before it not included |
| `HttpReader.TcpStream.ReadHttpResponse` | `rust/extensions-kernel/src/lib.rs:2655-2704` | however the bytes are split into reads, status, body or failure are those of one definition on the whole stream |
| `HttpReader.FindsFirst` | `rust/extensions-kernel/src/lib.rs:2720-2722` | the search finds the first match, and fails only if there is none |
| `HttpReader.DeclaredBodyIsDelivered` | `rust/extensions-kernel/src/lib.rs:2676-2690` | a head that declares a length is followed by exactly that body, or its failure to decode, whatever comes after and however the stream ends |
| `HttpReader.CutBodyIsRefused` | `rust/extensions-kernel/src/lib.rs:2676-2690` | a response cut anywhere before its declared end never passes for a shorter one |
| `HttpReader.UndeclaredBodyRunsToEnd` | `rust/extensions-kernel/src/lib.rs:2690-2704` | without a declared length the body is everything to the end of the stream, and a failing end is a failure |
| `HttpReader.NoHeadNoResponse` | `rust/extensions-kernel/src/lib.rs:2655-2668` | a stream without an empty line (the bytes 13, 10, 13, 10) fails by the way it ends |
| `HttpReader.BadHeadIsRefused` | `rust/extensions-kernel/src/lib.rs:2670-2673` | a head that does not decode, or that is not a head, is refused whatever follows |
| `ModuleCaches.ModuleCache.GetOrCompile` | `src/runtimes/wasm/WasmRuntime.ts:24-45` | every lookup returns a module of those exact bytes; the cache is exactly the 64 most recently used distinct keys that compiled, in recency order; a failed compilation changes nothing |
| `ModuleCaches.UseMovesToEnd` | `src/runtimes/wasm/WasmRuntime.ts:26-32` | using a key moves it to the end of the recency order |
| `ModuleCaches.RecentAfterHit` | `src/runtimes/wasm/WasmRuntime.ts:26-32` | deleting and re-inserting a hit gives the recency order of the longer history |
| `ModuleCaches.RecentAfterMiss` | `src/runtimes/wasm/WasmRuntime.ts:37-43` | inserting a miss and evicting the first key gives the recency order of the longer history, for keys evicted earlier too |
| `ModuleCaches.HitIffFewUsedSince` | `src/runtimes/wasm/WasmRuntime.ts:17-45` | a module is found again if and only if fewer than 64 different ones were used since its own last use |

## Left out

- AsyncInvoke.QuiescentMeansSettled: time and fairness are not modelled, so progress is stated as "at rest, settled", "rest is reached after finitely many internal steps" and "nothing stops before rest"; a plugin that never returns is a run that stops early.
- AsyncInvoke.SettlesAtMostOnce: a failed write calls `reject` even after the request has settled; such a second call has no effect on a promise and is excepted by name.
- AsyncInvoke: session event lines do not appear in the protocol's output; they are the subject of `Sessions` and `EventDesk`.
- InvokeScheduler.KernelDaemon.DispatchInvokeAsync: a dispatch is one sequential method here; the steps other threads can come between are those of `AsyncInvoke`, where reserving a slot and sending the job are separate.
- CanonicalJson.CanonicalDecidesSameValue: numbers are integers; floating-point numbers, and agreement with the TypeScript canonicalizer, whose key order differs for integer-like keys, are not modelled.
- Reservations.BudgetHolds: megabytes, pages and their sums are unbounded naturals where the program has `u64`.
- Accounting.FusedRefinesSeparate: time stamps are left out, and counters that go up by one are unbounded; totals saturate as in the program.
- WasmTelemetries.MemoryEventsAreConserved: the engine is a sequence of growth requests, each of which it may still fail to provide, and an amount of fuel burned.
- ByteTransport.WasmPlugin.CallBytesInto: a guest is any function from the memory it finds to the memory it leaves and a word or trap.
- WasmModuleLimits.GuardDecidesQuota: only the first memory type of the first memory section is looked at, as in the program.
- HttpReader.TcpStream.ReadHttpResponse: UTF-8 decoding is a parameter, and an operating-system error is only timed out or not.
- ModuleCaches.ModuleCache.GetOrCompile: the hash is an injective function and compilation a function of the bytes and a serial number.
- Malformed lines and protocol errors at the client: they end in the same `FailAll` as a close.
- Message texts are replaced by the values they show, except where the program inspects them.
- Liveness of the managed process's own request table: it writes before it registers, so a fast reply can be lost.
- Process spawning, sockets, files, pipes and the C and N-API shims: foreign or I/O.
- Signature verification, trust, revocation, dates and hashing: library calls, entering as the outcome of a check.
- The calibration of fuel against wall-clock time: measured, floating point.
- Deactivation, handles, status probes, the extension manager, the plugin store and the configuration loaders: short branch chains that would add easy members.
