# A model of the model-hosting platform's concurrent core

This project models, in Dafny, the parts of the platform where several things happen at once or where a loop
over bytes, rows or files decides what is kept, and proves what those parts promise. Every theorem is about
every input, every schedule or every reachable state; nothing is bounded except where the code bounds it.

## What is modelled

| Module | Part of the system |
|---|---|
| `Billing` | wallets with three running totals, the append-only ledger, and the debit, refund and deposit transactions, in units of 0.0001 credit |
| `RowLocks` | any number of those transactions taking row locks one at a time: no deadlock, serialisability |
| `Settlement` | paid requests that reserve first and settle in a second transaction, interleaved with other requests and deposits |
| `Replay` | the wallets of every run against the replayed ledger, exactly: where replay, the floor under a balance and conservation hold, and where they do not |
| `PaidEndpoint` | the paid endpoint as one call, with every way out of it |
| `Streams` | the byte loops of the runner: read one line, write one request, keep the stderr tail, pump a whole command |
| `PipeProtocol` | one warm runtime and its child, byte by byte, with crashes, deadlines and stops at any point |
| `WarmRuntimes`, `WarmTable` | the table of warm runtimes, its eviction and its restarts; process accounting and the recency list |
| `Deployments` | deployment rows: the transition table, the handlers, the builder's two transactions, the reaper, the readiness poll |
| `BuildTasks`, `BuildRetries` | many build attempts with the expiring lock, retries and redelivered messages, against stops, deletes and the reaper |
| `BuildCourses` | one attempt of such a run that is left alone, and what its transactions meet when it is not |
| `BuildAttempt` | one build attempt as the worker runs it |
| `Gateway` | both prediction endpoints in any number of gateway processes that share the cache, each with its own single-flight locks, one cache call, lock call or runner call at a time |
| `SingleFlights` | one call of `SingleFlight.execute` with its waiter's loop, and the lock registry |
| `EntryPaths`, `Archive` | archive entry names, the declared-size checks, and extraction into a fresh directory |
| `Versions`, `ArtifactStore` | version allocation, prefix deletion in batches, and the deletion of one version |

Objects whose methods update their fields are classes here (`Billing.Accounts`, `WarmRuntimes.WarmRuntime`,
`WarmRuntimes.WarmRuntimeManager`, `Deployments.Table`, `Archive.Target`, `ArtifactStore.Bucket`, ...), and
loops are loops. Each such method is proved to do what a function on values says; the state machines, where
events of many threads interleave, are built from those functions, and the theorems are about their runs.
A run is a sequence of events; `Play`, `Exec` and `Run` give the state it leads to, or none when some event
was not possible when its turn came.

A law that every run keeps says nothing of a machine that does nothing. So each machine also has theorems that say
what must happen: which runs exist (`RowLocks.EveryOrderRuns`, `Settlement.EveryOutcomeComes`,
`PipeProtocol.BootCompletes`, `PipeProtocol.RestartCompletes`, `Gateway.SecondHits`, `BuildCourses.LeftAlone`), and
exactly when a step succeeds (`RowLocks.CommittedIff`, `PipeProtocol.CallEndsIff`, `Gateway.LookServesIff`,
`WarmTable.RequestServedIff`, ...).

What the operating system, the clock, the database engine, the cache server, the runner and the broker decide
is a parameter: how many bytes a read moves, when a deadline passes, whether a child starts or dies, whether a
cache call fails, which message is delivered again.

## Where the code does not do what it says

* Conservation of credits. A cache hit gives back half the price. When the price is an odd number of 0.0001
  units the half has five decimals, and storing two wallets rounds twice. `Billing.HalfRefundLeaks` gives
  wallets for which 0.0001 credit disappears (ties to even) or appears (ties away from zero);
  `Billing.RefundConserves` says exactly when a refund conserves, `Replay.ConservationIsExact` gives the sum of
  all balances after any run, `Settlement.ConservationHolds` bounds its drift by the number of such hits, and
  `Replay.EveryOddDiscountMints` shows that the bound is met.
* Ledger replay. The same hits store four columns and one ledger row that round on their own, so a wallet is not
  its opening value plus its ledger rows. `Replay.ReplayFails` is a run of one request that shows it under
  either rounding rule, and `Billing.RefundReplays` says exactly when one refund replays, column by column. For
  whole runs, under both rules and for every user, `Replay.ReplayHoldsIff` says that a wallet replays throughout if
  and only if no half-refund that touches it meets a tie that its column takes one way and its ledger row the other;
  with ties away from zero `Replay.LifetimeTotalsReplayIff` and `Replay.BalanceReplayIff` also count the difference.
* The floor under a balance. A balance should not fall below minus what its user has refunded. With ties to even
  it can: `Replay.FloorFails`. `Billing.RefundKeepsFloor` says exactly which refund does it, and
  `Replay.FloorHoldsIff` that nothing else does, and that with ties away from zero nothing can.
* Refunds of failed requests. A caller who is charged and told of a failure is refunded in full, except in exactly
  three cases: no runner could be had (the whole price is kept), the runner succeeded and the prediction log could
  not be written (the whole price), or the body came from the cache and the log could not be written (half of it):
  `PaidEndpoint.RefundedOnFailureIff`.
* `_run_bounded` promises that output is capped to a fixed budget. The kept data is, but one marker is appended
  for every chunk dropped after that, without being counted, so that for every cap there is no bound:
  `Streams.NoFixedBudget`. `Streams.KeptWholeIff` says when anything is dropped, and how long exactly what is kept
  then is.
* The stderr tail is trimmed with `del tail[:-cap]`, which trims nothing when the cap is 0:
  `Streams.TailBoundedIffPositive`. The inner length check of `_readline_bounded` can never fire.
* `SingleFlight` says that waiters of a successful leader receive the cached result. The leader's caller stores
  it after the lock is released, so a waiter can find neither and call the runner too: `Gateway.WaiterCallsToo`.
  `Gateway.WaitersAreServedIff` says over every run which waiters are served: exactly those whose time does not run
  out and whose probes, each after a look that missed, never find the lock free. The locks are those of one gateway
  process, and the cache is shared by all of them, so that requests of two processes never wait for each other.
* A retry that is delivered while its predecessor still holds the build lock is dropped, and the row stays
  BUILDING with nobody building it, until the reaper: `BuildRetries.EarlyRetryIsLost`. `BuildRetries.PursuedIff`
  says exactly which runs lose a build, and `BuildRetries.NoBuildIsForgotten` that none does when every attempt to
  be retried releases its lock before the retry is due.
* An attempt whose row is stopped between its first read and its first transaction reports `running`:
  `BuildRetries.StoppedRowReportedRunning`. `BuildRetries.RunningReportsAreTrueIff` says that every other report of
  a running deployment is true when it is made.
* A file that an archive must contain may be a directory of that name: `Archive.DirectoryMeetsRequirement`;
  `Archive.ExtractedNames` says which names are really extracted. Normalising an entry path twice is not always
  normalising it once: `EntryPaths.NormalisedTwice` says exactly when, and `EntryPaths.DriveUncovered` which
  names show it.
* `safe_extract_zip` says that the target is removed on any failure. A file that is no archive at all is refused
  before that, and leaves an existing target as it was: `Archive.SafeExtract`.

## Model

| member | source | states |
|---|---|---|
| `Billing.Stored` | billing/models.py:13-15 | an amount computed with five decimals is stored as a nearest amount of four: at a tie the even one, or the one away from zero, as the database rounds |
| `Billing.Accounts.DebitCredits` | prediction_gateway/views.py:46-91 | the debit transaction, for any accounts: wallets that do not exist yet are created with the starting credits, and stay; refused, with nothing else changed, exactly when the consumer's balance is below the price; otherwise both wallets move by the price and one INFERENCE row is appended; also when consumer and creator are the same account |
| `Billing.Accounts.RefundCredits` | prediction_gateway/views.py:94-135 | the refund transaction, with the rounding of each stored column, and the REFUND row with its reference |
| `Billing.Accounts.PostDeposit` | billing/views.py:91-144 | a deposit is accepted exactly for enabled, authorised, positive and bounded amounts, and each refusal has its own case; it creates the wallet if there is none, adds the amount to its balance and appends one DEPOSIT row; otherwise nothing changes |
| `Billing.ChargeConserves` | prediction_gateway/views.py:71-81 | a charge leaves the sum of all balances as it is |
| `Billing.RefundConserves` | prediction_gateway/views.py:115-125 | a refund moves the sum of all balances by at most 0.0001, and conserves it if and only if its two roundings cancel |
| `Billing.HalfRefundLeaks` | prediction_gateway/views.py:467-477 | conservation is false for half-refunds of odd prices: a concrete loss and a concrete gain |
| `Billing.RefundReplays` | prediction_gateway/views.py:115-135 | a refund moves every column of both wallets by what its ledger row records if and only if, for each column, no half unit is involved or the tie rule takes the column the way it takes the amount |
| `Billing.RefundKeepsFloor` | prediction_gateway/views.py:121-133 | a refund takes a creator's balance below minus what it has refunded if and only if ties go to even, the price is one more than a multiple of four, and the balance is odd and at that bound |
| `RowLocks.CommitIsAtomic` | prediction_gateway/views.py:58-81 | a transaction that computes its writes from the copies read under its row locks commits exactly what it would have done in one atomic step |
| `RowLocks.DebitIff` | prediction_gateway/views.py:66-91 | a debit changes nothing if and only if the stored balance of its consumer is below its amount; otherwise every column of every wallet is as the charge demands, and one INFERENCE row is appended |
| `RowLocks.CommittedIff` | prediction_gateway/views.py:66-91 | no double spending: over every interleaving, a debit that commits charges if and only if the balance stored just before its commit covers it, and else changes nothing; a refund and a deposit always leave their row |
| `RowLocks.NoOverdraft` | prediction_gateway/views.py:68-69 | over every interleaving in which no refund commits, no balance goes below zero |
| `RowLocks.StepKeepsInvariant` | prediction_gateway/views.py:58-64 | no row is ever held by two transactions, and a copy read under a lock stays what is stored |
| `RowLocks.SomeoneProceeds` | prediction_gateway/views.py:106-111 | from any unfinished transaction, following who waits for whom leads to one that can take its next lock or commit: locks in ascending key order admit no cycle |
| `RowLocks.NoDeadlock` | prediction_gateway/views.py:58-64 | after every run of debits, refunds and deposits, if some transaction is unfinished then one of them can lock or commit |
| `RowLocks.RunsEnd` | prediction_gateway/views.py:58-91 | a run has at most four steps per transaction, so with no new arrivals every transaction ends |
| `RowLocks.RunsAreSerial` | prediction_gateway/views.py:48-135 | every interleaving leaves the wallets and the ledger of the committed transactions run one after the other |
| `RowLocks.EveryOrderRuns` | prediction_gateway/views.py:48-135 | and for any jobs in any order there is a run that commits exactly them in that order |
| `Settlement.RunsAreInOrder` | prediction_gateway/views.py:46-135 | in every run each request is linked to its own INFERENCE row and to the one refund its outcome calls for, and every wallet agrees with the ledger |
| `Settlement.SettlementHolds` | prediction_gateway/views.py:426-577 | in every run, a request is finished exactly when its runner call succeeded or it was settled; its outcome is a failure, a cold success or a cache hit exactly if the run has that event for it; it is charged exactly if billing is on, it has a price and its consumer is not the creator; and then its net charge is 0 if its runner call failed, the full price if it succeeded, half (nearest unit) if the answer was cached, whatever runs in between |
| `Settlement.RunsAreTold` | prediction_gateway/views.py:426-577 | in every run the requests are those that arrived, as they arrived, and each stands exactly where its own events put it |
| `Settlement.ReservesIff` | prediction_gateway/views.py:426-453 | in every run, a reservation lets through what is not charged, refuses with nothing changed exactly when the balance is below the price, and else moves the price |
| `Settlement.EveryOutcomeComes` | prediction_gateway/views.py:455-577 | for every request that can pay, or need not, there is a run to each of the three outcomes |
| `Settlement.RefundsAreBacked` | prediction_gateway/views.py:465-536 | every REFUND names an earlier INFERENCE of the same parties, is no larger, and is the only one to name it |
| `Settlement.ReplayHolds` | prediction_gateway/views.py:68-135 | in every run the drift of `Replay.ReplayIsExact` is at most one unit for each odd half-refund that involves the user, and none without one; lifetime totals stay >= 0 |
| `Replay.ReplayHoldsIff` | prediction_gateway/views.py:68-135 | under both rounding rules and for every user, the wallet is its opening value plus the replayed ledger in every state of a run if and only if, at each settlement that touches it, no half unit is involved or the tie rule takes each of its columns the way it takes the amount of the ledger row |
| `Replay.ReplayIsExact` | prediction_gateway/views.py:68-135 | in every run and under both rounding rules, each column of each wallet is its opening value, plus the ledger replayed over that user, plus the sum of what the roundings of its settlements added |
| `Replay.ReplayFails` | prediction_gateway/views.py:467-477 | replay and conservation are false of the code: one cache hit on a price of 0.0001 breaks both, under either rule |
| `Replay.LifetimeTotalsReplayIff` | billing/models.py:13-15 | with ties away from zero, lifetime_spent and lifetime_earned are above their ledger rows by exactly the odd half-refunds got and given, and replay if and only if there is none |
| `Replay.BalanceReplayIff` | billing/models.py:13-15 | with ties away from zero, a balance is above its ledger rows by the odd half-refunds its user gave as creator less the odd half-refunds that left it below zero, and replays if and only if these are as many |
| `Replay.FloorHoldsIff` | prediction_gateway/views.py:121-135 | in every run a balance stays at or above minus the refunds its user has paid out if and only if no event is the one refund that breaks it; with ties away from zero none is |
| `Replay.FloorFails` | prediction_gateway/views.py:467-477 | with ties to even, a run after which a balance is below that floor |
| `Replay.ConservationIsExact` | prediction_gateway/views.py:68-135 | in every run the balances sum to openings plus deposits plus what the roundings of its settlements leaked, and are conserved if and only if those cancel |
| `Replay.EveryOddDiscountMints` | prediction_gateway/views.py:467-477 | with ties away from zero and no balance below zero, every odd half-refund makes 0.0001 credit |
| `Settlement.ConservationHolds` | prediction_gateway/views.py:115-135 | in every run the balances sum to openings plus deposits, off by at most one unit per odd half-refund, and exactly when there is none |
| `Settlement.SettledForGood` | prediction_gateway/views.py:465-577 | no later event changes the outcome or the net charge of a finished request |
| `PaidEndpoint.Infer` | prediction_gateway/views.py:426-577 | the paid endpoint as one call, for any accounts: its reply, ledger rows and wallets for every cache result, every runner result, a runner that cannot be had and a log that cannot be written; who is not charged leaves no trace |
| `PaidEndpoint.ReplyIff` | prediction_gateway/views.py:463-577 | what the caller is told, read from the answer: exactly when it is served, and what; when a runner's error is passed on; when a raise is reported; and when the request is left unhandled |
| `PaidEndpoint.RefundedOnFailureIff` | prediction_gateway/views.py:366-577 | the promised refund on error, for every caller who is charged and whose lifetime total is not negative: one who is told of a failure gets both wallets back as they were and a net charge of 0, if and only if it is not a cached body that could not be logged, a runner that could not be had, or a success that could not be logged; the net charge of each of these |
| `Settlement.FullRefundRestores` | prediction_gateway/views.py:510-537 | a full refund undoes the debit exactly, for every wallet column and both rounding rules |
| `Streams.ReadlineBounded` | runners/worker.py:961-985 | for every way the stream is split into reads: a timeout exactly when every read found something and all they got is within the limit and holds no newline; otherwise exactly the bytes before the first newline, overflow if and only if the first max_bytes + 1 bytes hold none, or the end of the stream; the inner check at line 980 never fires |
| `Streams.WriteBounded` | runners/worker.py:987-1002 | what was sent is the start of the payload, as much as the writes before the deadline move, and the call succeeds exactly when that is all of it; as many writes as bytes are enough |
| `Streams.DrainStderr` | runners/worker.py:946-959 | the tail is the last min(cap, total) bytes read, for a positive cap; everything, for a cap of 0 |
| `Streams.TailBoundedIffPositive` | runners/worker.py:957-959 | the tail is bounded by the cap, whatever the child writes, if and only if the cap is positive |
| `Streams.RunBounded` | runners/worker.py:395-503 | for every select schedule: the child is fed exactly what its writable rounds take, bytes sent and bytes pending make up the input until the pipe breaks, stdin is closed exactly when nothing is pending, the loop ends with the child or the deadline, and each output is what `Capture` keeps of it |
| `Streams.BrokenForGood` | runners/worker.py:449-457 | once the pipe to the child breaks, what was not sent is dropped and never sent |
| `Streams.CaptureSplits` | runners/worker.py:466-479 | what is kept is a prefix of the child's output of at most max_output_bytes, cut before the first chunk that does not fit, then one marker per later chunk |
| `Streams.KeptWholeIff` | runners/worker.py:466-479 | nothing is dropped if and only if the output fits the cap; otherwise what is kept is the chunks before the first that does not fit and one marker per later non-empty chunk, of exactly that length, and is the output itself only if the dropped chunks read like those markers |
| `Streams.NoFixedBudget` | runners/worker.py:373-378 | the promised fixed budget is false for every cap: each byte written after it is reached adds a whole marker, while the count stays at the cap |
| `PipeProtocol.StepKeepsSound` | runners/worker.py:1004-1091 | every step of the parent, the child, a crash, a deadline or another thread's stop keeps the pipes what the protocol allows at that point of the call |
| `PipeProtocol.RunsAreSound` | runners/worker.py:1004-1091 | so every run, of any length, keeps them so |
| `PipeProtocol.ReplyIntegrity` | runners/worker.py:1036-1066 | in every run, a returned result is the child's reply to the line of that very call, and the child served nothing else since the call began |
| `PipeProtocol.IdlePipesAreEmpty` | runners/worker.py:1063-1091 | between calls the child's pipes are empty, a live child means READY, and after a failed call there is no live child |
| `PipeProtocol.FewSpawns` | runners/worker.py:1039-1047 | a runtime object spawns at most 1 + 3 children in its life |
| `PipeProtocol.OnlyTheRequest` | runners/worker_bridge.py:61-82 | the only complete line the child's loop can ever find is the request of the call in progress, not answered yet |
| `PipeProtocol.ServingTheRequest` | runners/pytorch_bridge.py:197-212 | the child's loop strips a request to itself, never takes it for PING, and answers it with one line |
| `PipeProtocol.ServingALine` | runners/pytorch_bridge.py:197-212 | the child's loop takes one line at a time: it skips a blank one, answers PING with PONG, and serves any other, whatever comes after it |
| `PipeProtocol.ExchangeCompletes` | runners/worker.py:1049-1062 | on an idle runtime with a live child, every request and reply within the limit has a schedule on which the call returns that reply and leaves the runtime as it was |
| `PipeProtocol.BootCompletes` | runners/worker.py:1004-1034 | from the very start, every readiness frame within the limit has a schedule that makes the runtime READY and idle, with its child alive and its pipes empty |
| `PipeProtocol.RestartCompletes` | runners/worker.py:1039-1062 | on an idle runtime without a live child, as long as fewer than three restarts were made, every request and reply within the limit has a schedule on which the call kills what is left of the old child, starts a new one and returns that reply; after three restarts the call fails at once and starts nothing |
| `PipeProtocol.CallEndsIff` | runners/worker.py:1049-1066 | at every step of every run, the call fails, without a live child, exactly for a fault, a request or a frame over the limit, a malformed frame, or no restart left; and it returns exactly when a well-formed reply within the limit is complete |
| `PipeProtocol.EveryChildIsKilled` | runners/worker.py:1068-1091 | in every run all children started but the present one were killed, and a stop from another thread, possible at any point, leaves none |
| `WarmRuntimes.WarmRuntime.Start` | runners/worker.py:1004-1034 | a start ends READY with a new live child, or STOPPED with none |
| `WarmRuntimes.WarmRuntime.Predict` | runners/worker.py:1036-1066 | restart of an unhealthy runtime up to three times, then one exchange; a failure leaves no child |
| `WarmRuntimes.PredictedIff` | runners/worker.py:1039-1066 | a prediction succeeds if and only if the exchange goes well on a healthy child, or on the one that replaces it while fewer than three restarts were made; which child there is afterwards, in every case |
| `WarmRuntimes.WarmRuntime.Stop` | runners/worker.py:1068-1091 | the child is dead and forgotten |
| `WarmRuntimes.WarmRuntimeManager.FindLru` | runners/worker.py:1111 | the victim was last used no later than any other resident |
| `WarmRuntimes.WarmRuntimeManager.GetOrCreate` | runners/worker.py:1100-1119 | a healthy resident is returned as it is; otherwise it is dropped, the oldest is evicted if the table is full, and a new runtime is resident exactly if it started |
| `WarmRuntimes.WarmRuntimeManager.Request` | runners/worker.py:1213-1218 | one complete prediction request against the table |
| `WarmRuntimes.WarmRuntimeManager.StopRuntime` | runners/worker.py:1121-1125 | teardown of one model |
| `WarmRuntimes.WarmRuntimeManager.Clear` | runners/worker.py:1127-1131 | every child is stopped and the table is empty |
| `WarmTable.ChildrenAreAccountedFor` | runners/worker.py:1094-1131 | after every trace of complete requests, teardowns, clears and child deaths: the table is within capacity, every live child belongs to exactly one resident and READY runtime, and each runtime object has spawned at most four |
| `WarmTable.FailedRequestLeavesNoChild` | runners/worker.py:1031-1066 | after every trace, a request that fails, at its start or later, leaves no child of its model: whoever is alive was alive before and belongs to another resident model |
| `WarmTable.RequestServedIff` | runners/worker.py:1036-1119 | after every trace, a request is served if and only if there is room for a model at all, its model is healthy or can be started, a child that dies under it can be restarted, and the exchange goes well; then the model is resident and healthy |
| `WarmTable.DeadChildIsReplaced` | runners/worker.py:1100-1119 | a child that died stays dead, its model is no longer healthy, and the next request that is served has another child |
| `WarmTable.TableIsRecencyList` | runners/worker.py:1100-1119 | over every trace, with starts that succeed or fail, the resident ids are exactly the recency list truncated to max_models, in its order of last use |
| `WarmTable.ListedIsRecency` | runners/worker.py:1100-1119 | where every start succeeds, that list depends on the trace alone |
| `WarmTable.LruIsLast` | runners/worker.py:1110-1114 | the evicted runtime is the end of the recency list |
| `WarmTable.MoreCapacityKeepsMore` | runners/worker.py:1095-1114 | where every start succeeds, the table for capacity k is contained in the table for capacity k + 1 |
| `WarmTable.MoreCapacityKeepsLess` | runners/worker.py:1100-1119 | with failing starts it need not be: a trace after which the table for capacity 2 holds a model that the table for capacity 3 has evicted, since a request that is a hit in the larger table, and renews its model there, is a failed start in the smaller |
| `Deployments.Deployment.TransitionTo` | deployments/models.py:68-72 | succeeds exactly for the arcs of the table, and otherwise leaves the status |
| `Deployments.ArcsInto` | deployments/models.py:14-20 | the table read from its targets: PENDING is never entered, a build starts from PENDING or FAILED, a run from BUILDING only, what is PENDING or BUILDING can fail, and what is active can be stopped |
| `Deployments.Table.Create` | deployments/views.py:41-82 | inserts a PENDING row exactly when no active row of the version exists |
| `Deployments.Table.FindActive` | deployments/views.py:42-49 | finds an active row of the version if and only if there is one |
| `Deployments.Table.Stop` | deployments/views.py:153-174 | a PENDING, BUILDING or RUNNING row becomes STOPPED with its time, a STOPPED one stays, a FAILED one is refused and stays, a missing one is not found; nothing else of the row, and no other row, changes |
| `Deployments.Table.Retire` | deployments/views.py:114-135 | the delete handler up to its teardown, status by status: what is PENDING, BUILDING or RUNNING is stopped first, and that transition is never refused |
| `Deployments.Table.MarkFailed` | deployments/tasks.py:74-87 | status by status: only PENDING and BUILDING rows fail; the error is recorded on any row |
| `Deployments.Table.Reap` | deployments/management/commands/reap_stale_builds.py:31-63 | exactly the rows BUILDING since before the threshold fail, none in a dry run; the count is theirs |
| `Deployments.ReapedIff` | deployments/management/commands/reap_stale_builds.py:31-63 | row by row: the reaper fails a row, with its error code, if and only if it is BUILDING and was last touched before the cutoff, and leaves any other as it is |
| `Deployments.Table.Claim` | deployments/services.py:41-55 | the builder's first transaction, status by status, and for a missing row |
| `Deployments.Table.Finish` | deployments/services.py:106-136 | the builder's second transaction, status by status: RUNNING only from BUILDING |
| `Deployments.StepIsLawful` | deployments/models.py:14-20 | every status change any handler, transaction or reaper commits is in the table and does not start from FAILED or STOPPED; no step adds a row |
| `Deployments.LawfulKeepsOneActive` | deployments/models.py:59-66 | no such step can violate the unique-active constraint |
| `Deployments.InsertKeepsOneActive` | deployments/views.py:41-66 | the insert violates it if and only if its own check finds an active row |
| `Deployments.AwaitReady` | deployments/services.py:91-104 | the poll succeeds exactly when some probe begun before the deadline answers 200, and is bounded |
| `BuildTasks.EventIsLawful` | deployments/models.py:14-20 | every event of every run commits only lawful changes, and removed ids do not come back |
| `BuildTasks.OneActivePerVersion` | deployments/models.py:59-66 | in every run at most one row per version is PENDING, BUILDING or RUNNING |
| `BuildTasks.TerminalStays` | deployments/services.py:106-115 | a row that is FAILED, STOPPED or gone stays so whatever follows; so a stop that commits before the builder's second transaction wins |
| `BuildTasks.AttemptsSettleTheirRow` | deployments/tasks.py:35-67 | in every run, an attempt that held the lock and scheduled no retry has left its row RUNNING, FAILED, STOPPED or gone |
| `BuildTasks.BuildsExclude` | deployments/tasks.py:28-33 | if every holder finishes within the lock's timeout, at most one attempt per deployment is inside, and a release only removes its own lock |
| `BuildCourses.LeftAlone` | deployments/tasks.py:27-71 | from every world in which a message is due and its lock free, an attempt that is left alone goes through: it leaves its row RUNNING if the runner gets ready, BUILDING with exactly one retry on its way if there is one to come, else FAILED with the error; the lock is free again and nothing else has changed |
| `BuildCourses.ClaimedByIff` | deployments/services.py:40-55 | the first transaction of an attempt, whatever happened since it read the row: when it goes on, when it reports a running deployment, and when it fails |
| `BuildCourses.FinishedByIff` | deployments/services.py:106-136 | the second transaction, whatever happened since the first: the row runs if and only if it is still BUILDING, and a stop is reported as such |
| `BuildCourses.GivesBackIff` | deployments/tasks.py:68-71 | made in one go, the two calls that give back the lock remove it if and only if the entry still counts and is the attempt's own |
| `BuildCourses.HandlersAct` | deployments/views.py:114-174 | what a stop, a delete and the reaper do to the rows at any point of a run |
| `BuildRetries.LateReleaseAdmitsTwo` | deployments/tasks.py:68-71 | without that timing, a late get-then-delete removes another holder's lock and two attempts are inside |
| `BuildRetries.BackoffAddsUp` | deployments/tasks.py:59-62 | in every run, an attempt with r retries comes at least 15 (3^r - 1) seconds after its deployment was created, the sum of the countdowns before it, and r is at most 3 |
| `BuildRetries.AttemptsAreBounded` | deployments/tasks.py:59-62 | at most max_retries + 1 attempts per deployment, for its creation and for each redelivered message |
| `BuildRetries.TurnedAwayIff` | deployments/tasks.py:31-32 | a message turned away by the lock leaves its deployment pursued if and only if another message of it is on its way or an attempt is at work |
| `BuildRetries.PursuedIff` | deployments/tasks.py:27-71 | throughout a run every PENDING or BUILDING row has a message on its way or an attempt at work, if and only if no event delivers a deployment's last message to a lock held by an attempt no longer at work |
| `BuildRetries.OverdueRetryOrphans` | deployments/tasks.py:59-71 | an attempt that still holds the lock when its retry is due, with nothing else pending, orphans the row |
| `BuildRetries.NoBuildIsForgotten` | deployments/tasks.py:31-71 | as long as each attempt to be retried releases its lock before the retry is due, every PENDING or BUILDING row has a message on its way or an attempt at work |
| `BuildRetries.EarlyRetryIsLost` | deployments/tasks.py:31-32 | a run in which a retry is lost, and the row stays BUILDING with nothing to build it |
| `BuildRetries.RunningReportsAreTrueIff` | deployments/services.py:45-46 | in every run, an attempt that reports a running deployment has a row, RUNNING if and only if it was not STOPPED before; and a STOPPED one was stopped between the attempt's own read and its first transaction |
| `BuildRetries.StoppedRowReportedRunning` | deployments/services.py:45-46 | a run in which a row stopped before the first transaction is reported as running |
| `BuildAttempt.BuildAndRun` | deployments/services.py:40-136 | what the builder raises and leaves, for every row and every outcome of initialising and polling, also with a stop between its transactions |
| `BuildAttempt.ClassifiedIff` | deployments/services.py:72-104 | an attempt is worth another if and only if the runner did not get ready in time, or its start failed with an error flagged as retryable that is none of the deterministic ones |
| `BuildAttempt.BuildDeployment` | deployments/tasks.py:27-71 | one whole attempt, also with a stop before either transaction: its report, its row, and its lock given back unless it expired; a busy lock changes nothing, and no other row changes |
| `BuildAttempt.LockCache.GiveBack` | deployments/tasks.py:68-71 | the lock is removed exactly if the entry still counts and is the attempt's own |
| `Gateway.HitsComeFromTheRunner` | prediction_gateway/views.py:184-277 | over every run of both endpoints, with failing and vanishing cache entries: a body served as a hit, or stored, came from an earlier runner call with status < 400 for the same model, version and instances; a miss serves its own call's answer |
| `Gateway.EventKeepsHonest` | prediction_gateway/views.py:455-562 | every event of either endpoint keeps that |
| `Gateway.CacheIsLastStored` | prediction_gateway/views.py:268-277 | over every run of both endpoints, the cache holds under each key the body last stored there by a call that works, unless the entry vanished since |
| `Gateway.LookServesIff` | prediction_gateway/views.py:455-489 | in every run and either endpoint, a look serves a hit if and only if it works and finds such a body, and serves that body; a leader that finds it gives the lock back first |
| `Gateway.StoresIff` | prediction_gateway/views.py:555-562 | in every run, a request stores exactly right after its answer was judged with a status below 400, serves that answer, and what it stored is what the next look for the key finds |
| `Gateway.JudgedIff` | prediction_gateway/views.py:251-277 | in every run, an answer below 400 goes on to be stored, a worse one is served as it is, but for the free endpoint's server errors, which become a 502 without their content, and a raise is an error |
| `Gateway.SecondHits` | prediction_gateway/views.py:184-277 | for every key, body and pair of endpoints and processes, a run in which a first request calls the runner and a second is a hit without a call |
| `Gateway.OneLeaderPerKey` | prediction_gateway/singleflight.py:54-66 | in every run and in each gateway process at most one request per key is between acquire and release, and the process's lock of the key is free exactly when none leads or probes there, also after exceptions |
| `Gateway.OneCallEach` | prediction_gateway/singleflight.py:36-82 | in every run each request calls the runner at most once, and reports a hit exactly when it did not |
| `Gateway.FallsBackIff` | prediction_gateway/singleflight.py:70-82 | a request turns to the fallback call exactly when its time is up, or when it gives back a lock it only probed |
| `Gateway.WaitersAreServedIff` | prediction_gateway/singleflight.py:68-82 | in every run, a waiter that is done was served a body that the runner produced for its key if and only if its time did not run out and no probe of it found the lock free; otherwise it called the runner once; and a probe that finds the lock free comes after a look that missed |
| `Gateway.WaiterCallsToo` | prediction_gateway/singleflight.py:75-82 | a run in which a waiter of a successful leader calls the runner too, though every cache call works: two calls for one key |
| `SingleFlights.LockRegistry.GetLocalLock` | prediction_gateway/singleflight.py:16-20 | one lock per key, made once and never replaced; different keys never share one |
| `SingleFlights.Wait` | prediction_gateway/singleflight.py:68-78 | the waiter's loop ends, begins no round at its deadline or later, and returns a value if and only if a round finds one before any probe finds the lock free |
| `SingleFlights.RoundsTakePauses` | prediction_gateway/singleflight.py:70-71 | rounds are at least a pause apart, so no more begin than pauses fit before the deadline |
| `SingleFlights.Execute` | prediction_gateway/singleflight.py:36-82 | the function runs at most once and exactly when the result is not cached; a cached result is one some look found; the lock is not held afterwards, also when the function raises |
| `EntryPaths.NormalisedGoesDown` | core/archive.py:64-83 | an accepted path splits again into the name's own usable parts, none empty, "." or ".."; from any directory it leads where the name leads, which is below |
| `EntryPaths.NormalisedIff` | core/archive.py:64-83 | a name is accepted if and only if it is not blank, not too long, starts with no slash, backslash or drive letter, and has some part that leads somewhere and none that climbs |
| `EntryPaths.PlainIsAccepted` | core/archive.py:64-83 | an ordinary relative name within the limit is accepted as it is |
| `EntryPaths.NormalisedIsNoLonger` | core/archive.py:69-83 | an accepted path is no longer than its name, and within the limit |
| `EntryPaths.NormalisedTwice` | core/archive.py:64-83 | normalising again changes nothing if and only if the path is neither blank nor drive-like |
| `EntryPaths.DriveUncovered` | core/archive.py:74-83 | every drive-like name behind "./" is accepted, as a path that is refused by itself |
| `EntryPaths.TextBelow` | core/archive.py:217-222 | the text of a directory is a prefix of that of anything below it, so the second check never refuses a normalised path |
| `Archive.ValidateEntries` | core/archive.py:95-152 | succeeds exactly when every entry passes and the required names occur, and returns the files; otherwise the error is the first one met |
| `Archive.AcceptableIff` | core/archive.py:112-144 | an archive is accepted if and only if it has no more entries than allowed, every entry has a usable name and an ordinary type, every file a size, a density and a running total within the limits, and every required name is that of some entry |
| `Archive.FaultIff` | core/archive.py:86-144 | which error an entry is refused with: that of the first check it fails |
| `Archive.DeclaredIsExtracted` | core/archive.py:122-129 | the declared total that is checked is that of the files to extract, and within the limit; directories do not count |
| `Archive.TooDenseIff` | core/archive.py:131-142 | an entry looks like a bomb exactly if it declares more than the ratio times its compressed size, and never without a ratio |
| `Archive.SpecialIff` | core/archive.py:86-92 | the modes refused are exactly those of pipes, devices, links and sockets |
| `Archive.ExtractedNames` | core/archive.py:114-144 | a name is extracted if and only if it is that of a file entry |
| `Archive.DirectoryMeetsRequirement` | core/archive.py:146-150 | a required file can be met by a directory, and then nothing is extracted |
| `Archive.CopyChunks` | core/archive.py:166-181 | every chunk is counted before it is written, so that the caps hold at every write; the loop ends well if and only if the whole actual content fits |
| `Archive.ExtractEntry` | core/archive.py:155-184 | whatever was declared, the file is written in full if and only if it opens, reads well and fits both caps |
| `Archive.GoesMeans` | core/archive.py:215-233 | extraction goes through if and only if each file reads well within what the caps leave, no file's path leads through another file, and nothing in an existing target is in the way |
| `Archive.SafeExtract` | core/archive.py:187-236 | all or nothing, for every archive and every target: success exactly under those conditions, with every file in full and below the target, over what was there; after a failure the target is absent, or as it was if the file is no archive |
| `Versions.GetNextVersion` | model_registry/views.py:53-65 | the allocated version differs from every existing string, and is one above the highest number, or above the count if there is none |
| `Versions.HigherIsFresh` | model_registry/views.py:53-65 | a number above all parsed ones gives a string that no existing version equals, for any set of strings and any notion of digit |
| `Versions.NumberOfIff` | model_registry/views.py:53-65 | a version has a number if and only if it is "v" and a numeral, with or without a newline behind |
| `ArtifactStore.PrefixIsolates` | model_registry/views.py:477-483 | the prefix of a version covers exactly the keys of that version of that model; v1 none of v10 |
| `ArtifactStore.DeletePrefixPaginated` | core/storage.py:9-62 | however the listing is paged: its keys are deleted in its order, in batches that are full but perhaps the last, and counted; a dry run deletes none; it fails if and only if the store does not serve as many calls as there are batches, and then what is gone is a prefix, in as many full batches as it served |
| `ArtifactStore.Registry.DeleteVersion` | model_registry/views.py:438-487 | which refusal answers which case; otherwise exactly the version's keys go, the record only after all of them; a storage error, which there is exactly when the store does not serve a call for each batch of them, keeps the record |
| `ArtifactStore.OtherVersionsSurvive` | model_registry/views.py:477-483 | whatever the outcome, the files of every other version survive |

## Left out

- Settlement.SettlementHolds: says nothing of requests that leave between reservation and settlement without a refund (`get_runner` raising, a failed log write, a process crash); they are the phase `Lost`, which replay and conservation cover, and `PaidEndpoint.Infer` has the first two as ways out.
- Settlement.ReplayHolds: a bound on the drift only; exact equality is false, and `Replay.ReplayIsExact` and `Replay.ReplayHoldsIff` say what holds instead.
- WarmTable.TableIsRecencyList: complete requests one at a time, with room for at least one model and a clock that moves at every reading; a request that still holds a runtime evicted by another thread can restart it outside the table.
- BuildTasks.BuildsExclude: under the assumption that holders finish within the lock's timeout; `BuildRetries.LateReleaseAdmitsTwo` shows it is needed.
- BuildRetries.PursuedIff: the broker accepts every message, and a worker does not die inside an attempt.
- BuildRetries.AttemptsAreBounded: a message redelivered because its worker was lost or slow counts as another start, since late acknowledgement allows any number of them.
- Archive.SafeExtract: an existing target holds no links, and the removal after a failure is taken to succeed.
- Gateway.OneLeaderPerKey: at most one runner call per key is not claimed, because it is false (`Gateway.WaiterCallsToo`).
- PipeProtocol.ReplyIntegrity: the child follows the bridge loop and model code does not print to stdout; the reuse of a closed file descriptor's number by another child, while a thread still reads it, is not modelled.
- Finer interleavings than the code protects: the stop, delete, mark-failed and reaper steps read a row and save it without a lock, and are one step each here.
- Wallets created while other transactions run (`Billing.Accounts` creates them, the runs of `RowLocks` and `Settlement` start with all of theirs), deleted users and models, and the overflow of the column widths.
- SingleFlights.Wait: the clock goes on, as `SingleFlights.PausesGoOn` shows it does for every positive poll interval; with an interval of 0 that is up to the clock.
- Requests that overlap on the table of warm runtimes: `PipeProtocol` has one runtime with stops from other threads at any point, `WarmTable` has complete requests in sequence.
- The marker texts, the timeout text appended to stderr, and the decoding of output in `_run_bounded`; process groups and signals.
- SHA-256 and JSON: the cache key is the triple itself, a request is one line in braces, a body is opaque.
- Text of error messages, logging, prediction logs, metrics, HTTP status plumbing, serializers, throttling, authentication.
- Artifact download, environment creation and dependency installation in the runner: outcomes are parameters of a build.
- Ratios in the archive check are exact, without floating-point rounding; `max_digits` of the integer parser is not modelled.
- Per-key errors in the reply of a delete call, which the code ignores.
- Cleanup of uploaded objects after a rolled-back upload, and deletion of a whole model.
