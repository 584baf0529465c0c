# A verified model of the deposit listener

The listener polls blocks of several chains, extracts deposits to watched accounts, stores them in a
Postgres buffer and hands them to an Adapter over a WebSocket. Its first requirement is that no deposit is
ever lost: the cursor moves only after the events of a block are durable, and a buffer row is deleted only
after the Adapter has acknowledged it. This project models the parts that requirement rests on and proves
it, together with what the other components promise.

`dafny verify dfyconfig.toml` checks everything.

| file | what it holds |
|---|---|
| `Decimal.dfy`, `Deposits.dfy` | integer text, fixed-point amounts, message ids, event conversion |
| `BufferStore.dfy` | the buffer table, the cursors, and their transactions |
| `Pipeline.dfy` | the whole listener as one transition system: any number of scan loops, the store, the ACK-mode publisher, its reader goroutine, the connection, the Adapter, crashes |
| `NoLoss.dfy`, `InitGuard.dfy`, `Contiguity.dfy`, `ConfirmationGate.dfy`, `AckWindow.dfy` | invariants of that system and theorems about all of its runs |
| `ScanLoop.dfy`, `Publisher.dfy` | the polling loop, the publisher's methods and the fire-and-forget flush as code, proved to take only steps of the system |
| `Accounts.dfy`, `LogScanner.dfy`, `TraceScanner.dfy` | the two scanners as code, refining "look at each candidate by itself" |
| `KeySpace.dfy`, `EndToEnd.dfy` | the log_index encoding, and the end-to-end theorem over scanners, store, publisher and Adapter |
| `Auditor.dfy` | the auditor as code, exactness of its counts in every reachable state |
| `Supervisor.dfy`, `Reconcile.dfy`, `SupervisorLoop.dfy` | the supervisor as a transition system, what a reconcile achieves, and its methods as code |
| `Supervised.dfy` | supervisor and pipeline as one system |
| `Fingerprint.dfy` | the text whose hash decides about reloads |

## How to read it

A run is a sequence of states in which each step is one indivisible action: a database transaction that is
applied or not, a WebSocket write, a channel operation, a step of the Adapter, a crash. Every theorem named
below as holding "in every state of every run" quantifies over all such sequences. Histories (the first
cursor a scanner was initialised to, the blocks committed, what was written on a connection) are part of the
state so that theorems can speak of them; no step reads them.

What a block holds is a parameter of the system. `EndToEnd` fills it in with the specifications that the two
`ScanBlock` methods are proved to meet, and shows that over blocks of at most 99,999 transactions a key
names one event only, so that ON CONFLICT DO NOTHING never drops a different deposit.

Where the code does not keep a property without a condition, the condition is stated and inputs or runs that
break the property without it are given:

- A zero cursor means "not initialised". A loop that read zero before another loop initialised the cursor
  can overwrite it with a later head and skip blocks, or reset it to zero. `InitGuard` states the guard that
  the stored cursor decides and proves it exact (`GuardIsExact`). With one loop per scanner no guard is needed
  (`SingleLoopLosesNothing`), and the supervisor provides that (`SupervisedListenerLosesNothing`) as long as no
  chain is reactivated before the loops of its deactivated pair have returned.
- A chain that is reactivated earlier gets a second pair while the first still runs (`ReactivationOverlaps`);
  this is the only way to overlap (`ReplacedPairIsOver`), and guarded runs allow it.
- The trace scanner gives up for good, without an error, at the first call that its node refuses to trace, and
  `isMethodNotFound` takes several error texts for a refusal. It misses nothing if and only if the node is
  steady (`SteadyIsExact`).
- The key spaces of the scanners meet in blocks of 100,000 transactions and more (`KeyBoundIsExact`).
- The comment at internal/audit/auditor.go:265 gives native indices as -1 to -10000, the one at line 282 and
  the code exclude -10000. The code is followed: in blocks of 10,000 transactions and more a lost row can go
  unreported (`AuditBoundIsExact`).
- The drop branch of the ACK reader is unreachable if the Adapter acknowledges each message at most once, on
  the connection it came on, and reachable for every channel size if it repeats itself (`RepeatedAcksOverflow`).
- A top-up fills the window as far as the rows allow if and only if the batch limit does not stand in the way
  (`EmptyWindowFills`).
- With separators neither in addresses nor, for bars, in the native symbol, fingerprint texts are canonical as long
  as no token symbol contains both; any two tokens share their text with one whose symbol does
  (`GluedCollides`). They depend on how the sort breaks ties if and only if two tokens
  share an address (`TiesShow`).
- The comment at internal/publisher/publisher.go:314-315 says that a row whose DELETE failed is sent again after
  the next reconnect; in the code, and in the model, the next topUp of the same connection sends it.

## Model

| member | source | states |
|---|---|---|
| `EndToEnd.EveryDepositIsSafe` | internal/scanner/loop.go:85-173 | End to end: in every state of every run over orderly chains, with overlapping loops, failures, reconnects and crashes, each convertible event of each block between a scanner's first initialisation and its cursor is a buffer row or was received by the Adapter, with its own key, parties, symbol, exact amount and status TXCF, provided initialising writes are guarded or each scanner has one loop at a time; nodes are steady and account lookups never fail |
| `EndToEnd.NativeTransferIsSafe` | internal/scanner/log_scanner.go:107-193 | The same said of the chain itself: every transaction of a covered block without data that pays an account of the chain, whatever the case of its address, is in the buffer or at the Adapter with its hash, position, sender, recipient and exact amount |
| `EndToEnd.TokenTransferIsSafe` | internal/scanner/log_scanner.go:197-280 | The same for every transfer logged by a configured contract to an account of the chain, written out: the log's hash and index, its parties and amount, the contract's decimals, and the contract's symbol without its 'W' on the KCP chain |
| `EndToEnd.InternalTransferIsSafe` | internal/scanner/trace_scanner.go:192-239 | The same for every CALL frame that a traced contract call reaches through frames that did not revert, within 1,025 levels, whose value is any hexadecimal writing of n > 0 and whose recipient is an account of the chain: the transaction's hash, an index from -100,000 down, the frame's parties, amount n; for a steady node and account lookups that never fail |
| `EndToEnd.ScanLog` | internal/scanner/log_scanner.go:64-96 | The log scanner's code returns exactly the events that the theorems speak of, in some order, and fails if and only if one of the calls it needs fails or a decoder rejects a log |
| `EndToEnd.ScanTrace` | internal/scanner/trace_scanner.go:81-132 | So does the trace scanner's code on a steady node, whatever its cache holds and whether or not it has stopped tracing; it fails only when the block cannot be fetched or a code query goes unanswered |
| `EndToEnd.OrderlyIsCoherent` | internal/database/buffer_repo.go:47-51 | Across all blocks of a chain and both scanners a key names one event, so ignoring an insert conflict never drops a different deposit |
| `NoLoss.NoDepositLost` | internal/scanner/loop.go:136-150 | For any scan oracle in which a key names one event: in every state of every run whose initialising writes pass no uncommitted block nothing between first initialisation and cursor is lost, although several loops may move one cursor back and forth |
| `NoLoss.StepKeepsInv` | internal/database/buffer_repo.go:27-80 | Every step of loops, publisher, Adapter, connection and crash keeps the invariant: a loop commits a block only after all earlier ones are covered, and coverage never shrinks |
| `InitGuard.GuardedRunsLoseNothing` | internal/scanner/loop.go:107-122 | However loops overlap: if every initialising write finds a stored cursor that is zero, or writes a non-zero one not beyond it, nothing is lost in any state of the run |
| `InitGuard.GuardIsExact` | internal/scanner/loop.go:114-122 | That guard is exact: allowing also the writes that take a cursor from one given value to another, no run of any world loses a deposit if and only if the guard holds of the two values |
| `InitGuard.LaterHeadLoses` | internal/scanner/loop.go:107-122 | For every initialised cursor and every later head: a run in which a second loop, having read zero before, writes that head, and the deposit of the next block is neither stored nor delivered |
| `InitGuard.ResetLoses` | internal/scanner/loop.go:107-122 | For every initialised cursor: a run in which such a loop writes zero and the next poll initialises the cursor again past an unscanned block |
| `InitGuard.UnscannedBlockIsLost` | internal/scanner/loop.go:114-122 | Every run that ends with an initialising write past a block no loop has scanned would, had that block held a deposit, have lost it: the same run is a run of the world that differs in that block only |
| `NoLoss.SingleLoopLosesNothing` | internal/scanner/loop.go:107-122 | With at most one loop per scanner no condition on initialising writes is needed |
| `NoLoss.CommitRows` | internal/database/buffer_repo.go:40-63 | Saving a scanned block, part of which may be stored already, leaves unique keys, every earlier row, and a row for everything the block owes |
| `NoLoss.DeleteKeepsHeld` | internal/publisher/publisher.go:307-321 | Deleting a row whose key the Adapter has received loses nothing |
| `NoLoss.TakeConn` | internal/publisher/publisher.go:307-311 | The entry an ACK takes out of the window is the one the Adapter has received, because ids are injective |
| `ConfirmationGate.OnlyFinalDepositsAreStored` | internal/scanner/loop.go:100-150 | In every state of every run, whatever heads are read and in whatever order, each row and each delivery has status TXCF and at least the minimum confirmations, each row records an event of the block it is filed under, and keys are unique; no condition on initialising writes |
| `ConfirmationGate.StepKeepsGate` | internal/model/deposit.go:57-60 | Every step keeps the gate, including steps that lose or repeat messages |
| `AckWindow.AckChannelNeverOverflows` | internal/publisher/publisher.go:378-404 | With an Adapter that acknowledges each message at most once, on the connection it came on, the reader's drop branch is unreachable and queued ACKs fit the window, over every interleaving of writer, reader and handler, including the gap between WriteMessage and add and resends after a failed DELETE |
| `AckWindow.NeverFull` | internal/publisher/publisher.go:189-189 | Messages and ACKs under way number exactly the outstanding entries plus the one written and not yet recorded, hence at most MaxInFlight |
| `AckWindow.RepeatedAcksOverflow` | internal/publisher/publisher.go:394-400 | Every run with a connection and something received extends to one that drops an ACK if the Adapter repeats itself, whatever the channel size |
| `AckWindow.StepKeepsWindow` | internal/publisher/publisher.go:266-321 | Every step keeps: outstanding ids are ids of buffer rows written on this connection, each under its own key, and never exceed MaxInFlight |
| `AckWindow.RowsVanishOnlyWhenDelivered` | internal/publisher/publisher.go:307-321 | Between any two states of a run a row disappears only at a DELETE that follows the write of its own message and the arrival of an ACK with its id on the current connection |
| `AckWindow.VanishingStep` | internal/publisher/publisher.go:477-485 | The only step that removes a row is that DELETE; unknown, stale and repeated ACKs remove nothing |
| `AckWindow.SmoothStep` | internal/publisher/publisher.go:206-242 | The work left falls by one with each send, receipt, ACK, hand-over and deletion and stays the same on every other failure-free step |
| `AckWindow.StretchDrainsIff` | internal/publisher/publisher.go:266-321 | However steps are scheduled, a failure-free stretch has at most as many productive steps as there was work, and ends with an empty buffer if and only if it has that many |
| `AckWindow.EveryScheduleDrains` | internal/publisher/publisher.go:206-242 | However steps are scheduled, while rows remain the steps of a failure-free stretch number at most a bound given by rows, fetch limit and an allowance for each top-up begun while messages or ACKs were under way |
| `AckWindow.DrainExists` | internal/publisher/publisher.go:206-242 | No state with rows left is stuck: a failure-free stretch to the empty buffer exists, with exactly as many productive steps as there is work, for windows and batches of at least one |
| `AckWindow.EveryRunCanDrain` | internal/publisher/publisher.go:187-242 | So in every connected state of every run with a well-behaved Adapter |
| `Publisher.TopUp` | internal/publisher/publisher.go:266-304 | Takes only steps of the system; of a prefix of the fetched rows it sends exactly those not outstanding, oldest first; on success the window is full or everything fetched is outstanding, outstanding ids stay ids of buffer rows, and the window has the size the pigeonhole gives; an error means that the query failed or that the next row to send could not be written |
| `Publisher.WindowSize` | internal/publisher/publisher.go:272-277 | Pigeonhole: a filled window holds at least min(fetch limit, rows) and at most min(MaxInFlight, rows) entries, exactly the latter when the batch limit is at least the window |
| `Publisher.EmptyWindowFills` | internal/publisher/publisher.go:272-277 | Every successful top-up of an empty window leaves min(fetch limit, rows) messages outstanding, so it fills the window as far as the rows allow if and only if the batch limit does not stand in the way |
| `Publisher.SendPending` | internal/publisher/publisher.go:282-302 | The send loop: the messages sent are the new ones among the rows considered, in order, and it ends with a full window, all fetched rows outstanding, or at a new row whose write failed |
| `Publisher.Consider` | internal/publisher/publisher.go:286-301 | One row: skipped if outstanding, otherwise written and recorded; an error if and only if it is new and the write fails, and then nothing changes |
| `Publisher.HandleAck` | internal/publisher/publisher.go:307-321 | Takes only steps of the system; an id that is not outstanding changes nothing but the queue; an outstanding one leaves the window, and its row, and no other, is deleted if and only if the DELETE executes; an error if and only if an outstanding id's DELETE fails or does not report |
| `Publisher.Outstanding.Add` | internal/publisher/publisher.go:459-468 | The window grows by one exactly when the id is new, which the counter of free slots relies on; other entries keep their keys |
| `Publisher.Outstanding.Take` | internal/publisher/publisher.go:477-485 | The entry is returned and removed, if there is one |
| `Publisher.SendBatch` | internal/publisher/publisher.go:345-364 | Under any pattern of failures: the messages written are those before the first failing write, the buffer loses exactly the keys among them whose DELETE executes, and an error is reported if and only if a write failed |
| `Publisher.FlushUntilEmpty` | internal/publisher/publisher.go:324-343 | Under any pattern of failures the books balance, it fails only if a query or a write fails, gives up only when its rounds are used up, and otherwise leaves less than one batch; without failures each row is sent exactly once in id order and the buffer ends empty; it ends within as many rounds as there were rows if every batch removes at least one |
| `Publisher.AccountRound` | internal/publisher/publisher.go:324-364 | One round keeps the books: remaining rows are the original without the removed keys, only written messages were removed, and while nothing failed written plus remaining is the original in order |
| `Publisher.WithoutConserves` | internal/publisher/publisher.go:345-364 | Removed and remaining rows together are the original rows, none lost or doubled |
| `ScanLoop.PollOnce` | internal/scanner/loop.go:85-173 | Takes only steps of the system; does nothing below the confirmation gate; a zero cursor is only initialised, to the confirmed head; otherwise the cursor rises by one per committed block, by at most MaxBlocksPerPoll, behind the confirmed head, never over a block whose scan fails, by exactly the allowed number when no error is reported, and the buffer gains the converted deposits of exactly those blocks; an error has a cause among the calls of the cycle, at the last committed block or the one after it |
| `ScanLoop.FaultlessCycle` | internal/scanner/loop.go:85-173 | A cycle in which no call fails reports no error and commits every block it may |
| `ScanLoop.BatchRenders` | internal/scanner/loop.go:137-144 | What is stored for a block, said of its events: every deposit renders one of them with latest minus block confirmations, and every event whose time parses is rendered |
| `Contiguity.CommitsAreContiguous` | internal/scanner/loop.go:136-150 | Over every run with one loop per scanner, whatever heads are read: every committed block is the one after the cursor and becomes the cursor |
| `Contiguity.CursorNeverSkips` | internal/scanner/loop.go:113-150 | Between any two states of such a run an initialised cursor does not move back, and every block it has passed was committed in between |
| `ScanLoop.CatchUp` | internal/scanner/loop.go:113-133 | The block range of a cycle, computed in uint64, is min(MaxBlocksPerPoll, blocks confirmed past the cursor) |
| `ScanLoop.WalkBlocks` | internal/scanner/loop.go:136-170 | Stops at the first failure or cancellation, with the cursor at the last committed block and the deposits of all blocks up to it inserted block by block; an error means trouble at that block or the next |
| `ScanLoop.WalkBlock` | internal/scanner/loop.go:136-170 | One block is committed if and only if its scan succeeds and its transaction takes effect, with everything its scan returns converted; the cycle goes on if and only if moreover the COMMIT reports and the context is not cancelled before the next block |
| `BufferStore.BufferRepo.SaveAndAdvance` | internal/database/buffer_repo.go:27-80 | All or nothing: rows and cursor change together if and only if every statement and the COMMIT take effect, and no error is reported if and only if the COMMIT also says so |
| `BufferStore.InsertAllAppends` | internal/database/buffer_repo.go:40-54 | The rows added are the deposits of the batch whose key is new to the table and to the batch, in the order of the batch, filed under the block |
| `BufferStore.InsertAllKeepsAndAdds` | internal/database/buffer_repo.go:47-51 | ON CONFLICT DO NOTHING keeps every row and its order, keeps keys unique, adds nothing foreign, and every key of the batch is present afterwards |
| `BufferStore.BufferRepo.Ack` | internal/database/buffer_repo.go:144-155 | The rows of that key are deleted if and only if the DELETE executes; success is reported if and only if it also reports |
| `BufferStore.DeleteRemovesOnlyKey` | internal/database/buffer_repo.go:144-155 | Deleting a key removes exactly the rows with that key and keeps keys unique |
| `BufferStore.BufferRepo.PendingAll` | internal/database/buffer_repo.go:113-141 | As many rows as there are up to the limit, the i-th answer being the payload of the i-th oldest row |
| `BufferStore.BufferRepo.PendingInBlock` | internal/database/buffer_repo.go:98-110 | A payload is returned if and only if a row of that chain and block has it, in id order |
| `BufferStore.InBlockMembers` | internal/database/buffer_repo.go:98-110 | That query returns exactly the matching rows |
| `Accounts.HasMany` | internal/database/account_repo.go:46-86 | Answers every deduplicated, lower-cased input exactly as the single lookup would, that is whether some row of the chain has the address up to the case of ASCII letters, and nothing else; an error if and only if a query is needed and fails |
| `Accounts.HasIsCaseBlind` | internal/database/account_repo.go:25-42 | The lookup finds an address if and only if a row of the chain has the same text up to the case of ASCII letters, by their places in the alphabet |
| `Accounts.LowerIsCaseBlind` | internal/database/account_repo.go:54-55 | Lower-casing identifies exactly the texts that differ in the case of ASCII letters only |
| `LogScanner.MatchRecipients` | internal/scanner/log_scanner.go:226-279 | Prefetching all recipients in one query keeps exactly the candidates the single lookup would keep, in order; an error if and only if there are candidates and the query fails |
| `LogScanner.ResolveSenders` | internal/scanner/log_scanner.go:138-172 | For every order in which the sender queries finish, the results are the jobs, each once; an error if and only if one of the queries fails |
| `LogScanner.ParseNativeTransfers` | internal/scanner/log_scanner.go:107-193 | For every goroutine schedule the multiset of native events is that of filtering the transactions one by one with the single lookup; an error if and only if there are candidates and the lookup or the sender query of a deposit fails |
| `LogScanner.NativesInOrder` | internal/scanner/log_scanner.go:116-190 | That filter lists exactly the transactions without data that pay an account of the chain, each once and in order, every field written out |
| `LogScanner.ParseTokenTransfers` | internal/scanner/log_scanner.go:197-280 | The token events describe exactly the logs of configured contracts that pay an account of the chain, each once and in order, every field written out from the log and the contract's settings; an error if and only if the log query fails, a decoder rejects a log, or there are candidates and the lookup fails |
| `LogScanner.SymbolIsShown` | internal/scanner/event_parser.go:4-9 | On the KCP chain 'W' followed by a non-empty name is shown as that name; every other symbol, and every symbol of another chain, stays |
| `LogScanner.ScanBlock` | internal/scanner/log_scanner.go:64-96 | A successful scan returns, in some order, exactly the deposits of the block, each once; it succeeds if and only if the calls it needs do and no decoder rejects a log |
| `TraceScanner.TraceScanner.Collect` | internal/scanner/trace_scanner.go:192-239 | The recursive walk appends exactly the frames that the filtered preorder listing of the call trees, cut below depth 1024, contains, numbered on from the counter |
| `TraceScanner.TraceScanner.Emit` | internal/scanner/trace_scanner.go:211-233 | A frame is appended under the next index if it is a CALL with positive value to a watched account |
| `TraceScanner.HexValueReads` | internal/scanner/trace_scanner.go:213-213 | Every hexadecimal writing of a number, with any leading zeros and any mix of cases, is read as that number |
| `TraceScanner.HexValueRejects` | internal/scanner/trace_scanner.go:213-213 | A value is read if and only if, after the prefix and a sign, it is a non-empty text of hexadecimal digits |
| `TraceScanner.ReachedIsHit` | internal/scanner/trace_scanner.go:202-238 | Every frame that a path of frames without error reaches within the depth limit and that pays a watched account is a hit of the block |
| `TraceScanner.AddingLast` | internal/scanner/trace_scanner.go:206-238 | In the preorder listing a reverted frame contributes nothing, any other itself if it is a CALL whose value reads as a positive number and whose recipient is watched, and then its subtree |
| `TraceScanner.DeadPaysNothing` | internal/scanner/trace_scanner.go:207-209 | Nothing below a reverted frame is collected |
| `TraceScanner.NothingCut` | internal/scanner/trace_scanner.go:202-206 | Call trees within the EVM's depth limit are collected whole |
| `TraceScanner.TraceScanner.ScanTx` | internal/scanner/trace_scanner.go:103-129 | A transaction contributes its hits in order if it calls a contract and is traced, nothing otherwise |
| `TraceScanner.TraceScanner.ScanBlock` | internal/scanner/trace_scanner.go:81-132 | The output is the payments of the transactions before the first call that the node refuses to trace, numbered -100000, -100001, ... across the block; such a call stops the scanner for good, and a stopped scanner returns nothing; for a steady node nothing is missing either way |
| `TraceScanner.TraceScanner.ScanTxs` | internal/scanner/trace_scanner.go:103-129 | The transaction loop covers exactly the transactions before the first stop; it fails only when a code query goes unanswered |
| `TraceScanner.SteadyIsExact` | internal/scanner/trace_scanner.go:124-126 | Stopping at the first unsupported trace drops no payment, for any block and any accounts, if and only if the node never returns a trace with a payment once it calls some trace unsupported |
| `TraceScanner.UnsteadyDrops` | internal/scanner/trace_scanner.go:162-188 | For every other node, a block of two contract calls whose second payment is dropped without an error |
| `TraceScanner.TraceScanner.IsContract` | internal/scanner/trace_scanner.go:136-159 | The bounded cache never changes an answer and never exceeds its limit |
| `KeySpace.KeysNeverMeet` | internal/scanner/trace_scanner.go:22-22 | Native, token and internal events of a block of at most 99,999 transactions with unique log indices have pairwise distinct keys |
| `KeySpace.KeyBoundIsExact` | internal/scanner/log_scanner.go:182-182 | Blocks of n transactions always have distinct keys if and only if n is at most 99,999 |
| `KeySpace.KeysMeetBeyondBound` | internal/scanner/trace_scanner.go:224-224 | For every larger block size a block in which a native and an internal transfer of different amounts share a key |
| `KeySpace.NativesShape` | internal/scanner/log_scanner.go:23-23 | A native event's index encodes the position of its transaction, and its hash is that transaction's |
| `KeySpace.TokensShape` | internal/scanner/log_scanner.go:226-262 | A token event carries the hash and index of one of the logs, each used once |
| `Auditor.AuditBlock` | internal/audit/auditor.go:225-279 | The count is the number of pending rows of the block that the scanner owns and the rescan lacks; there is one if and only if rescan and query succeed |
| `Auditor.AuditScanner` | internal/audit/auditor.go:191-222 | Reported blocks are distinct, at most SamplesPerCycle, within the window behind the safety margin, each with its exact count; none when the history is too short; unless cancelled, exactly the sampled blocks whose rescan and query succeed are reported |
| `Auditor.SampleCovers` | internal/audit/auditor.go:198-214 | The blocks that can be sampled are exactly those of the window |
| `Auditor.RescannedIds` | internal/audit/auditor.go:249-252 | Membership of the id text in the rescanned set is membership of the key |
| `Auditor.NoFalseAlarm` | internal/audit/auditor.go:254-273 | With a deterministic rescan and fixed accounts no audit of any orderly block reports a row in any state of any run |
| `Auditor.AuditIsExact` | internal/audit/auditor.go:284-293 | Whatever the rescan returns, the rows reported are exactly the scanner's own pending rows that it lacks: always for the trace scanner, for the log scanner in blocks of at most 9,999 transactions |
| `Auditor.AuditBoundIsExact` | internal/audit/auditor.go:284-293 | Over orderly blocks of n transactions the counts are always exact if and only if n is at most 9,999 |
| `Auditor.LargeBlockHidesLoss` | internal/audit/auditor.go:287-287 | For every larger n a run and a rescan in which a lost row of the log scanner is not reported |
| `Supervisor.NoOrphan` | internal/supervisor/supervisor.go:174-252 | In every state of every run each pair ever started is in the running map or has its context cancelled, save the one startChain is about to record; its deferred calls ran in order |
| `Supervisor.ReplacedPairIsOver` | internal/supervisor/supervisor.go:122-153 | When a pair replaces a reloaded or dead one the old pair has fully finished; an older pair of the same chain can be alive only if the chain was deactivated in between, and is then cancelled |
| `Supervisor.ReactivationOverlaps` | internal/supervisor/supervisor.go:113-119 | A concrete run with two live pairs of one chain after deactivation and reactivation |
| `Supervised.SupervisedListenerLosesNothing` | internal/supervisor/supervisor.go:97-252 | Supervisor and pipeline as one system: over all reconciles, reloads, deaths, panics, crashes and restarts, if no chain is reactivated before the loops of its deactivated pair have returned, each scanner has one loop at a time and no deposit is lost |
| `Supervised.SupervisedDepositIsSafe` | internal/scanner/loop.go:85-173 | End to end for the supervised listener: each convertible event of a covered block is in the buffer or at the Adapter |
| `Supervised.StepKeepsAttached` | internal/supervisor/supervisor.go:174-235 | In every joint step each scan loop remains the goroutine of a started pair that has not returned |
| `Supervisor.ShutdownIsComplete` | internal/supervisor/supervisor.go:238-252 | After stopAll every pair is cancelled and all but formerly deactivated ones have finished |
| `Supervisor.StepKeepsInv` | internal/supervisor/supervisor.go:97-252 | Every step of reconcile, loop exits, panics, cancellation and shutdown keeps the lifecycle invariant |
| `Supervisor.RunnerStepKeeps` | internal/supervisor/supervisor.go:208-235 | Each deferred call keeps the pair's invariant and undoes nothing |
| `Supervisor.RunnerOkIsOrderly` | cmd/listener/main.go:283-300 | A pair is done only after both loops ended, the sibling was cancelled and the shared client was closed once; the client is never closed twice and never while a loop runs |
| `Supervisor.LaunchKeeps` | internal/supervisor/supervisor.go:174-205 | A new pair starts only when every earlier pair of the chain is over or was deactivated |
| `Reconcile.ReconcileConverges` | internal/supervisor/supervisor.go:97-170 | For every iteration order and whatever the loops do meanwhile: afterwards exactly the active chains minus failed starts run, with current fingerprints; pairs that neither died nor changed keep their identity; everything else was started by this cycle |
| `Reconcile.RepeatedReconcileIsQuiet` | internal/supervisor/supervisor.go:97-170 | After a cycle without failed starts, a cycle that reads the same chains starts, stops and reloads nothing while no pair dies |
| `Reconcile.StepKeepsJob` | internal/supervisor/supervisor.go:122-161 | Every step keeps what the cycle has achieved so far |
| `SupervisorLoop.ChainSupervisor.ReconcileOnce` | internal/supervisor/supervisor.go:97-170 | The method, interleaved with the loops at every statement, passes only through states of runs and ends converged; a failed read changes nothing, and only chains whose pair cannot be built fail to start |
| `SupervisorLoop.ChainSupervisor.Visit` | internal/supervisor/supervisor.go:122-160 | One active chain: a live pair with the fingerprint read is kept untouched; otherwise the old pair, if any, has finished and the entry is a new pair with that fingerprint, or gone if the start failed; other entries stay |
| `SupervisorLoop.ChainSupervisor.StopInactive` | internal/supervisor/supervisor.go:113-119 | In any order, the map is restricted to the active chains, and every pair that lost its entry is cancelled |
| `SupervisorLoop.ChainSupervisor.StartChain` | internal/supervisor/supervisor.go:174-205 | A pair with the fingerprint is started and recorded under the chain, or the failure leaves map and pairs as they were |
| `SupervisorLoop.ChainSupervisor.StopAll` | internal/supervisor/supervisor.go:238-252 | Ends with an empty map, every pair cancelled, and every pair finished except those of formerly deactivated chains |
| `SupervisorLoop.ChainSupervisor.AwaitDone` | internal/supervisor/supervisor.go:150-150 | The wait for `done` ends, because every pair has a next step and each step uses one up |
| `Deposits.FormatUnitsRoundTrip` | internal/model/deposit.go:78-96 | An independent reader, which rejects redundant leading zeros and missing digits, recovers amount and number of decimals from every printed amount |
| `Deposits.FormatUnitsInjective` | internal/model/deposit.go:78-96 | Different amounts or precisions are never printed alike |
| `Deposits.AckIdInjective` | internal/publisher/protocol.go:27-29 | Different keys have different ids, whatever characters the hash contains |
| `Deposits.AckIdReadsBack` | internal/publisher/protocol.go:27-29 | The id reads as the decimal chain before the first colon, the decimal index after the last, and the hash between |
| `Deposits.ConvertEvents` | internal/scanner/loop.go:181-192 | The deposits are those of exactly the events whose time parses, each once and in order, every field written out: key, parties, exact amount, confirmations, symbol, status, both times |
| `Deposits.ConvertedFrom` | internal/model/deposit.go:51-75 | Each deposit comes from an event of the scan with its key, confirmations, parties, amount and time |
| `Deposits.ConvertedKeeps` | internal/scanner/loop.go:181-192 | Each convertible event yields a deposit |
| `Fingerprint.Fingerprint` | internal/database/config_repo.go:198-213 | The hashed text lists the native symbol and every token once, by address; for distinct addresses it is the text every admissible sort would give |
| `Fingerprint.SortIndices` | internal/database/config_repo.go:199-203 | Every index once, addresses in byte order |
| `Fingerprint.LessMeans` | internal/database/config_repo.go:203-203 | One text is smaller than another if and only if, where they first differ, it ends or has the smaller character |
| `Fingerprint.TextShape` | internal/database/config_repo.go:205-210 | The text is the native symbol and, for each token, a bar and its address, symbol and decimals with colons between |
| `Fingerprint.OrderDoesNotShow` | internal/database/config_repo.go:203-203 | For distinct addresses the text depends neither on the order of the rows nor on the sort |
| `Fingerprint.TextIsCanonical` | internal/database/config_repo.go:205-210 | Two configurations with distinct addresses, bar-free native symbols, addresses free of bars and colons, and token symbols that do not contain both have the same text if and only if they have the same native symbol and the same tokens |
| `Fingerprint.GluedCollides` | internal/database/config_repo.go:208-210 | Any two tokens share their text with a single one whose symbol spells the separators between them |
| `Fingerprint.NativeCollides` | internal/database/config_repo.go:206-207 | Any listing shares its text with a shorter one whose native symbol spells the first entries |
| `Fingerprint.TiesShow` | internal/database/config_repo.go:203-203 | For clean tokens that are pairwise different the text is independent of how the sort breaks ties if and only if no two share an address |

## Left out

- Retries (internal/common/retry): whether a call succeeds is an input of the method that makes it; the number of attempts behind a failure does not show.
- LISTEN/NOTIFY wake-ups (internal/notify), reconnect backoff, pings and ACK timeouts: they decide when a step is taken, never which; a timeout is one of the ways to lose a connection.
- Postgres, WebSocket, JSON-RPC, JSON and hashing: transactions are atomic, but the error of a COMMIT leaves open whether it was applied; SHA-256 is left out, its pre-image is modelled. The branches that skip a deposit whose JSON encoding fails are left out, since encoding these records cannot fail.
- Id allocation across concurrent transactions: rows become visible in commit order, which is taken as id order.
- eERC decryption: always an error in the source; it appears as a log its decoder rejects, which stops the cursor at that block.
- Completeness of detection: native sends with calldata, failed traces and failed account lookups are skipped as the code does; theorems are about what ScanBlock returns. A missing block that the client reports without an error is left out.
- Changes of the accounts table or of contract code between scans: the numbering of internal transfers and the code cache assume them fixed.
- HexToAddress and EIP-55 formatting: addresses are texts compared after ASCII lower-casing.
- The KST calendar and the wall clock: parameters; an unparsable block time makes an event unconvertible.
- Rows without a block number, stored before the second migration: every row has one.
- Configuration, metrics, HTTP server, logging, decoder registry: single-branch code.
- ScanLoop.PollOnce: block numbers, confirmations and the poll limit are at most 2^63 - 1, the range of the columns they are stored in; the uint64 expressions are modelled and shown not to wrap below that.
- LogScanner.ParseNativeTransfers: the sender of a transaction is a field of it; the candidate record and the event built from it are one value. The limit of eight concurrent queries is left out: any order may occur.
- TraceScanner.TraceScanner.ScanBlock: code sizes and traces are functions of address and hash.
- Auditor.AuditScanner: runs against one store state; the theorems about counts hold in each state, so scanners and publisher may run meanwhile.
- AckWindow.EveryScheduleDrains: a scheduler that begins top-ups for ever while an ACK is under way is not excluded; each such top-up extends the bound.
- Fingerprint.TextIsCanonical: the condition on symbols is sufficient; some symbols with both separators cannot be misread either.
- Fingerprint.SortIndices: an insertion sort on an index sequence stands for the library sort; the theorems hold for every result that sort.Slice allows.
- SupervisorLoop.ChainSupervisor.AwaitDone: a blocked receive is modelled by letting the goroutines run until `done` is closed; that a cancelled loop ends at all is assumed.
- Supervisor.StepKeepsInv: cancelling and dropping an inactive chain is one step.
