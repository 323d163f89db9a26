# Settla verification

A Dafny model of the parts of Settla where money can be lost, duplicated or stranded, with proofs of what those
parts guarantee over every input, every run and every interleaving. `dafny verify dfyconfig.toml` checks all of it.

What is modelled:

- **Treasury.** `Idempotency.dfy` is the sharded idempotency map and its refinement of one flat map. `Treasury.dfy`
  is the manager as a class: six mutators, `UpdateBalance`, the flusher, with every failure of the log, its queue and
  the store as a parameter. `TreasuryRuns.dfy` proves what holds over every sequential run. `TreasuryInterleaving.dfy`
  runs Reserve and Release in any number of goroutines at the granularity of single loads, compare-and-swaps and
  rollbacks. `TreasuryFlusher.dfy` interleaves operations that mutate, mark and may roll back with the flusher and with
  synchronous flushes. `ReserveOps.dfy` is the write-ahead log, its query and its cleanup; `Recovery.dfy` loads
  positions and replays the log. `Micro.dfy` holds the micro-units.
- **Ledger.** `Journal.dfy` is entry validation and the mirrored entry of a reversal, `Decomposition.dfy` the greedy
  splitting into linked transfers and what reversal does to balances, `BatchPosting.dfy` the batched call and the
  distribution of its results, `Batcher.dfy` the life of a batch under racing timers and Stop, `SyncQueue.dfy` the
  queue from TigerBeetle to Postgres.
- **Transfers.** `Saga.dfy` is the engine's handlers racing over a versioned row, `Settlement.dfy` the amounts of a
  transfer from admission to its completion entry.
- **Infrastructure.** `CircuitBreaker.dfy`, `LocalCache.dfy`, `TenantCache.dfy`.
- **Fees.** `Fees.dfy` over the decimal arithmetic of `Money.dfy`.
- **Shared.** `Words.dfy` holds 64-bit integers, `Wrappers.dfy` an optional value.

Conventions. Decimals are `real`; the lossy operations (division, rounding, truncation) are written out. int64 and
uint64 arithmetic is written out with its wrap-around. The outside world (Postgres, Redis, TigerBeetle, NATS, clocks)
enters as parameters: which call fails, what time it is, what a store answers. A concurrent component is a total step
function `Next` and a run is a sequence of actions, so a theorem about `Run(s, acts)` for all `acts` covers every
interleaving; an action that is not possible changes nothing.

What the proofs found. Each is a theorem that says exactly when the code does what it promises, with a run or an input
where it does not.

- An accepted journal entry can be reversed iff every line is a debit or a credit (`ReversalAcceptedIff`,
  `NonStandardReversalRefused`).
- The caller of an accepted entry in a batch hears nothing iff the entry has neither a debit nor a credit and the call
  to TigerBeetle was answered or, with nothing to post, never made (`FlushBatch`, `AnsweredIff`, `UnansweredEntry`).
- `Batcher.Stop` leaves everything posted, whatever happens after the call, iff at the call nothing is pending, no
  `Submit` is past its check of the done channel, and no flush sits between giving up the lock and `wg.Add`
  (`StopCompleteIff`, `StopCanReturnEarly`).
- The sync consumer leaves an entry behind, neither synced nor counted, iff one is enqueued after its last drain or given
  back by its last flush (`LeftBehindIff`, `EntryLeftBehind`).
- The circuit breaker survives p panicking probes iff it has p slots more than it needs successes; with p = 0, it never
  wedges without a panic iff it has as many slots as it needs successes. A wedge is for good (`NeverWedgesIff`,
  `Wedging`, `WedgeIsPermanent`). A circuit that is not wedged can be lost all the same: a healthy backend brings it
  back iff the calls under way and the free slots suffice (`RecoversIff`).
- An invalidation takes effect iff no Get is holding an older value (`InvalidationEffectiveIff`, `LateFillReturnsOld`).
- A collection is charged at least its minimum fee iff that does not exceed its maximum, which validation does not check
  (`ClampsHold`, `CollectionFeeCanFallBelowMinimum`); splitting an amount saves at most one unit iff the maximum is not
  negative by more than one (`SplittingSavesAtMostOneUnit`).
- A decomposition is exact iff no piece exceeds 64 bits (`DecompositionExactIff`); a reversal restores a balance iff both
  totals of the account pass the ends of the signed range equally often (`ReversalRestoresBalances`).
- A refunded transfer has asked for as many reversals as on-ramp postings iff it never failed or was failed explicitly
  after settlement began; otherwise for one too many (`RefundNetsOutIff`, `RefundCanReverseTwice`). A transfer that
  ended has asked the treasury to end exactly what it reserved iff it never failed; otherwise the failure and the refund
  each release, under different references (`TreasuryNetsOutIff`).
- Treasury positions stay sound iff no credit pushes a balance past int64 (`RunSound`, `CreditCanOverflow`);
  `CommitReservation` has no range check and panics with its idempotency key taken (`PanicKeepsKey`); a stored balance
  above 9 x 10^18 micro-units makes loading panic (`MicroRoundTrip`, `LoadPositions`).
- Locked and reserved funds stay within the balance under every interleaving of reserves and releases iff no release that
  cannot be logged is added back after another reservation has taken its funds; otherwise more than the balance is
  reserved (`ReservationsSafeIff`, `RollbackCanOverdraw`).
- No change of a position is forgotten by the flusher iff no rollback of a credit, debit, commit or consume comes after
  the flusher has loaded the counter, and no synchronous flush writes values that memory has left behind or removes a
  mark put there for a change it did not write. The store then keeps what was rolled back, or loses a credit
  (`NothingForgottenIff`, `RolledBackCreditIsKept`, `SyncFlushLosesCredit`).
- A counted flush failure keeps a dirty position that will reset it, except iff a synchronous flush takes the last mark;
  reserves, credits and debits are then refused until some other operation marks a position (`PendingIff`,
  `SyncFlushCanStrand`, `StrandedUntilMarked`, `FailuresTrackedIff`).
- Memory and log agree on what is reserved iff every step does the same to both (`RunLogged`). Some do not. A call that
  fails after its log record was written is counted by crash recovery although it was refused
  (`RefusedReserveIsLogged`). A release with a reason, which is how the treasury worker sends every release of the saga,
  is logged under a reference of its own, so it ends no reserve in the log and every restart takes the released funds
  again (`WorkerReleaseBreaks`, `ReleasedReserveComesBack`). A cleanup reopens a reserve younger than the cutoff whose
  ends are all older (`CleanupKeepsUncommittedIff`).
- After a crash with memory and log in agreement, a restart is exact iff every open reserve of at least a micro-unit is
  replayed without its synchronous flush being refused and shares its reference with no earlier one; a refused one is
  dropped without an error (`CrashRecoversIff`, `RecoveryExactIff`, `EveryRestartExactIff`, `RefusedReplayIsDropped`).
- Reserve's answer is right about the moment of its last load, for every amount, iff no credit landed since its first;
  otherwise it can report insufficient funds although at no moment were they insufficient (`RefusalExactIff`,
  `RefusalCanBeSpurious`).

Where code and comments disagree the model follows the code:

- treasury/manager.go:332-335 says an operation whose log write fails is still queued; the code rejects it.
- treasury/flush.go:83-84 says drained operations are inserted again; the code discards them.
- treasury/manager.go:277-281 limits the size of the whole idempotency map; the code limits each shard.
- cache/tenant_cache.go:86-87 says Invalidate leaves local caches to expire; the code deletes the caller's local copy.
- domain/tenant.go:107-110 lists three fee types; the code also knows bank collections.

## Model

| member | source | states |
|---|---|---|
| Idempotency.IdempotencyMap.constructor | treasury/manager.go:146-148 | starts well sharded and empty |
| Idempotency.IdempotencyMap.Clear | treasury/loader.go:31-36 | the flat map the shards represent becomes empty |
| Idempotency.IdempotencyMap.TryAcquire | treasury/manager.go:240-263 | for any hash, with both clock readings, one step of a flat map: duplicate iff the key is there; otherwise it is there now, nothing leaves a shard below its limit, and a full one loses exactly what is older than two minutes |
| Idempotency.IdempotencyMap.RollbackKey | treasury/manager.go:267-275 | for any hash, exactly this key leaves the flat map |
| Idempotency.IdempotencyMap.DeleteBefore | treasury/manager.go:297-302 | the deletion loop leaves exactly the entries not older than the cutoff |
| Idempotency.IdempotencyMap.CleanupShard | treasury/manager.go:296-319 | exactly what is older than maxAge goes and, if the shard is still over its limit, exactly what is older than two minutes by a new clock reading; other shards are untouched |
| Idempotency.IdempotencyMap.CleanupIdempotencyMap | treasury/manager.go:291-321 | all shards together, each with a clock reading of its own, are one cleanup of the flat map |
| Idempotency.FlatLookup | treasury/manager.go:225-229 | looking a key up in its own shard is looking it up in the flat map |
| Idempotency.KeySurvives | treasury/manager.go:240-321 | over every run: a key acquired at t and not rolled back survives forced and periodic cleanups while the clock is at most t + 2 min, and every further acquire of it is a duplicate |
| Idempotency.CleanupForgets | treasury/manager.go:291-321 | a cleanup forgets every key older than its age limit, and none that is younger than the limit and two minutes |
| Micro.MicroRoundTrip | treasury/manager.go:1040-1061 | toMicro undoes fromMicro; it panics exactly beyond 9 x 10^18 |
| Micro.MicroTruncates | treasury/manager.go:1040-1061 | conversion drops what is less than a micro-unit, towards zero |
| Words.WrapUndo | treasury/manager.go:484-500 | adding and then subtracting an int64 amount is the identity, overflow or not |
| Treasury.Manager.constructor | treasury/manager.go:122-153 | an empty manager |
| Treasury.Manager.LogOp | treasury/manager.go:337-393 | succeeds iff replaying or queued; a full queue fails with the record already written |
| Treasury.Manager.SyncFlushPosition | treasury/manager.go:399-419 | on success the row equals memory and the dirty mark is gone; on failure nothing changes |
| Treasury.Manager.Enter | treasury/manager.go:432-461 | the checks before any counter, in order, and their effect on the idempotency key, for any lag between the two clock readings |
| Treasury.Manager.TakeReserved | treasury/manager.go:468-481 | the CAS loop ends, takes the amount iff available covers it, and touches nothing else |
| Treasury.Manager.DropReserved | treasury/manager.go:542-551 | the CAS loop ends and gives the amount back iff reserved covers it |
| Treasury.Manager.TakeBalance | treasury/manager.go:829-843 | the CAS loop ends and debits iff available covers it |
| Treasury.Manager.MoveToLocked | treasury/manager.go:589-606 | the amount moves from reserved to locked iff reserved covers it |
| Treasury.Manager.ConsumeReserved | treasury/manager.go:902-924 | the amount leaves reserved and balance iff both cover it |
| Treasury.Manager.Record | treasury/manager.go:483-502 | dirty mark, log and synchronous flush, with what each failure leaves behind |
| Treasury.UndoRestores | treasury/manager.go:609-617 | every rollback restores the counters, wrap-around included |
| Treasury.Manager.ReserveFunds | treasury/manager.go:429-516 | outcome and whole new state for every failure pattern; an error restores counters and key |
| Treasury.Manager.ReleaseFunds | treasury/manager.go:520-561 | the same for Release |
| Treasury.Manager.CommitReservation | treasury/manager.go:568-619 | the same for CommitReservation, including its panic on an amount out of range |
| Treasury.Manager.ConsumeReservation | treasury/manager.go:879-952 | the same for ConsumeReservation; a failed synchronous flush does not undo it |
| Treasury.Manager.CreditBalance | treasury/manager.go:744-796 | the same for CreditBalance, which has no guard |
| Treasury.Manager.DebitBalance | treasury/manager.go:803-868 | the same for DebitBalance |
| Treasury.Manager.UpdateBalance | treasury/manager.go:676-706 | accepted iff in range and at least locked + reserved; only the balance and the dirty mark change |
| Treasury.Manager.FlushIndividual | treasury/flush.go:209-252 | exactly the positions whose write succeeded have their row equal to memory, exactly the others are dirty again |
| Treasury.Manager.FlushBatch | treasury/flush.go:161-206 | all rows or none |
| Treasury.Manager.FlushOnce | treasury/flush.go:92-148 | one cycle of either kind, and the failure counter; an empty dirty set leaves the counter alone |
| Treasury.Manager.CleanupKeys | treasury/flush.go:49-52 | the periodic cleanup removes no key younger than two minutes and every key older than ten, and changes nothing else |
| TreasuryRuns.AppliedSound | treasury/manager.go:468-924 | on a sound position no operation but a credit wraps around or breaks 0 <= locked, 0 <= reserved, locked + reserved <= balance |
| TreasuryRuns.GuardIff | treasury/manager.go:468-924 | on a sound position each operation but a credit is granted iff completing it leaves the position sound |
| TreasuryRuns.AvailableUnchanged | treasury/manager.go:589-606 | commit and consume leave available unchanged |
| TreasuryRuns.ConsumeNeedsOnlyReserved | treasury/manager.go:904-918 | the balance check of consume never decides |
| TreasuryRuns.ErrorLeavesNoTrace | treasury/manager.go:429-619 | an error other than the panic leaves every counter and the call's key as they were |
| TreasuryRuns.PanicKeepsKey | treasury/manager.go:568-583 | exactly when commit panics, and that its key then stays taken |
| TreasuryRuns.RunSound | treasury/manager.go:429-952 | over every run with any failures: every position is sound in every state iff no credit overflows int64 |
| TreasuryRuns.InsufficientIff | treasury/manager.go:429-952 | over every run without overflow: a call ends for want of funds iff it passed the checks before, is not a credit, and completing it would leave its position unsound |
| TreasuryRuns.CompletesIff | treasury/manager.go:429-952 | a call completes iff its amount is positive and in range, failed flushes do not gate it, its reference is new, its position loaded, the result sound, and neither log nor store refuses |
| TreasuryRuns.UpdateAcceptedIff | treasury/manager.go:676-706 | UpdateBalance is accepted iff the amount is in range and the position is sound with it |
| TreasuryRuns.RecordedIff | treasury/manager.go:337-393 | a record is written iff the call gets as far as the log, outside a replay, and the database takes it |
| TreasuryRuns.CreditCanOverflow | treasury/manager.go:768-772 | a credit that does |
| TreasuryRuns.CountersAreTotals | treasury/manager.go:429-952 | over every run: each counter is its initial value plus the completed operations, to the micro-unit, plus for the balance what UpdateBalance corrected it by |
| TreasuryRuns.DuplicateChangesNothing | treasury/manager.go:453-455 | a completed call repeated within two minutes changes nothing, whatever happened in between |
| TreasuryRuns.KeysKeptApart | treasury/manager.go:240-263 | whatever a call does, one with another operation or reference is a duplicate after it only if it was before |
| TreasuryRuns.FlushCatchesUp | treasury/flush.go:92-148 | after any run one clean flush makes the store equal to memory and, if anything was dirty, resets the failure count |
| TreasuryRuns.PendingIff | treasury/manager.go:399-419 | a counted failure keeps a dirty position to reset it, except exactly when a synchronous flush takes the last mark |
| TreasuryRuns.SyncFlushCanStrand | treasury/manager.go:444-449 | a run from a freshly loaded manager after which failures are counted and nothing is dirty |
| TreasuryRuns.StrandedUntilMarked | treasury/flush.go:101-104 | over every run from there: it stays so, and every reserve, credit and debit is refused, exactly until the first step that marks a position |
| TreasuryRuns.MarkReopens | treasury/flush.go:127-131 | the next clean flush after such a step starts the count over |
| TreasuryInterleaving.ReservationsSafeIff | treasury/manager.go:463-559 | every interleaving: locked + reserved <= balance in every state iff no release that could not be logged is added back when what it freed is no longer available |
| TreasuryInterleaving.ReservationsSafe | treasury/manager.go:463-559 | then reserved is exactly what is still held, and a matched release never finds too little |
| TreasuryInterleaving.ReleasesNeverUndercut | treasury/manager.go:542-551 | every interleaving, overdrawn ones included: a release is refused iff less than its amount is reserved at its load, and its swap takes exactly its amount and leaves no negative number |
| TreasuryInterleaving.RollbackCanOverdraw | treasury/manager.go:553-559 | a run that ends with twice the balance reserved |
| TreasuryInterleaving.StepRefines | treasury/manager.go:468-559 | a step is an indivisible reserve, release, rollback, refusal or credit whose condition holds of the counters at that moment, or nothing, iff it is not an overdrawing rollback; a refusal's condition leaves out the credits since its balance load |
| TreasuryInterleaving.RunRefines | treasury/manager.go:539-559 | an interleaving is a serial execution in the order of the swaps iff no rollback in it overdraws |
| TreasuryInterleaving.FailureMeansWrite | treasury/manager.go:477-480 | a swap fails only if reserved was written since its load |
| TreasuryInterleaving.RetriesBounded | treasury/manager.go:468-481 | every interleaving: retries of all goroutines together are at most goroutines times writes, and writes at most three per goroutine |
| TreasuryInterleaving.EveryoneFinishes | treasury/manager.go:542-551 | every interleaving: with n goroutines, one that is scheduled 12n + 8 times has finished |
| TreasuryInterleaving.RefusalExactIff | treasury/manager.go:469-476 | in every reachable state, the answer about to be given is right for every amount iff no credit landed since the balance load and what is available is an int64 |
| TreasuryInterleaving.RefusalCanBeSpurious | treasury/manager.go:469-476 | a run refused although funds were sufficient at every moment of it |
| TreasuryFlusher.NothingForgottenIff | treasury/flush.go:92-252 | over every interleaving: in every state each position whose row is behind memory is dirty, about to be marked, or held by the flusher with the current values still to come, iff no rollback comes after the flusher has loaded its counter and no synchronous flush writes outdated values or removes a mark prematurely |
| TreasuryFlusher.RollBackAccountedIff | treasury/manager.go:777-793 | one rollback leaves its position accounted for iff the flusher has not loaded the counter since the last mark |
| TreasuryFlusher.ChangesAreMarked | treasury/manager.go:1000-1006 | an operation changes memory at once, is then about to mark its position, and marking makes it dirty |
| TreasuryFlusher.MarkedUntilDrained | treasury/manager.go:1000-1006 | only a drain or a synchronous flush between the mark and the rollback can make it too late |
| TreasuryFlusher.SyncWriteAccountedIff | treasury/manager.go:403-412 | the write of a synchronous flush leaves everything accounted for iff it is current or its position is dirty, about to be marked or held by the flusher |
| TreasuryFlusher.SyncClearAccountedIff | treasury/manager.go:413-417 | its removal of the mark does iff store or flusher have what memory holds, or another mark is coming |
| TreasuryFlusher.SyncAloneIsHarmless | treasury/manager.go:399-419 | at any moment of a run in which nobody else writes the position and the flusher does not take it, neither breaks anything |
| TreasuryFlusher.RefusedSyncChangesNothing | treasury/manager.go:405-411 | a synchronous flush that the store refuses leaves row and mark as they were |
| TreasuryFlusher.SyncFlushLosesCredit | treasury/manager.go:399-419 | a run after which a credit is not stored with nothing dirty and nothing under way |
| TreasuryFlusher.FailuresTrackedIff | treasury/flush.go:106-134 | over every interleaving: a counted failure leaves work behind in every state iff no synchronous flush removes the last mark while one is on the count |
| TreasuryFlusher.RolledBackCreditIsKept | treasury/manager.go:772-782 | a run after which the store holds a rolled-back credit with nothing dirty and nothing under way |
| TreasuryFlusher.FailuresLeaveWork | treasury/flush.go:106-134 | then, between cycles, a non-zero failure count leaves the dirty set non-empty |
| TreasuryFlusher.FailuresAreTrailing | treasury/flush.go:106-134 | every interleaving: the failure count is the trailing run of completed cycles in which a write was refused |
| TreasuryFlusher.CleanFlushCatchesUp | treasury/flush.go:161-252 | from any reachable state with operations quiet, the next clean cycle makes the count zero, and the store equal to memory iff every position was accounted for |
| TreasuryFlusher.NothingDirtyIsCaughtUp | treasury/manager.go:1065-1079 | with operations quiet, an empty dirty set means no failure counted unless a synchronous flush emptied it, and store equal to memory iff every position is accounted for |
| TreasuryFlusher.CycleCanComplete | treasury/flush.go:92-252 | from every reachable state the flusher can end its cycle, and complete a clean one if none is under way and anything is dirty |
| Recovery.AddPage | treasury/loader.go:47-49 | a page is added position by position, or a row out of range panics |
| Recovery.LoadTable | treasury/loader.go:38-55 | paging loads every row, for any number of rows, unless a page cannot be read or a row is out of range |
| Recovery.ReplayOp | treasury/loader.go:109-126 | replays the operation its record names |
| Recovery.LoadPositions | treasury/loader.go:17-105 | fails on an unreadable page with the rows before it loaded and marks and keys cleared, panics on a row out of range, and otherwise ends where a run of the replayed operations from the loaded rows ends |
| Recovery.LoadUndoesStore | treasury/manager.go:988-990 | loading what a sound position wrote gives back its balance and lock |
| ReserveOps.OpenMoves | db/queries/treasury/reserve_ops.sql:6-15 | for every log and every record: what the record does to the sum over the reserves the query returns |
| ReserveOps.OpenIsMoved | db/queries/treasury/reserve_ops.sql:6-15 | those reserves add up to what the records have moved one by one |
| ReserveOps.ReserveInStepIff | db/queries/treasury/reserve_ops.sql:9-14 | the record of a reserve moves the sum by its amount iff its reference is not ended yet or the amount is no whole micro-unit |
| ReserveOps.EndInStepIff | db/queries/treasury/reserve_ops.sql:9-14 | the record that ends a reference does iff the open reserves of that reference add up to its own amount on every position |
| ReserveOps.EndOfOneReserve | db/queries/treasury/reserve_ops.sql:9-14 | so it does when it ends the one reserve of its reference in full |
| ReserveOps.CleanupMoves | db/queries/treasury/reserve_ops.sql:20-30 | a cleanup moves the sum by the reserves it reopens, and adds no record |
| ReserveOps.CleanupKeepsUncommittedIff | db/queries/treasury/reserve_ops.sql:20-30 | for every log and cutoff: a cleanup leaves what would be replayed as it was iff no reserve younger than the cutoff has all its ends older |
| Recovery.ReservesKeepRows | treasury/flush.go:211-216 | reserves and releases never leave a row out of date |
| Recovery.ReplayGives | treasury/loader.go:58-85 | replaying operations that fit, in any order and whatever the store refuses, restores balance and lock, makes reserved the amounts of those that complete, says beforehand which these are, and leaves log and rows as they were |
| Recovery.OpenFits | treasury/loader.go:66-71 | whenever memory and log agree the query's operations, in any order, are such operations and add up to what is reserved |
| Recovery.NextOutcome | treasury/manager.go:429-502 | a replayed reserve is a duplicate, has its synchronous flush refused, or completes, and never runs out of funds |
| Recovery.CrashRecoversIff | treasury/loader.go:58-85 | after a crash with memory and log in agreement the restart restores all three counters of every position iff every replayed reserve of at least a micro-unit has its flush accepted and its reference to itself; then memory, log and rows agree again |
| Recovery.RecoveryExactIff | treasury/loader.go:17-105 | any life that began in agreement stays so at every moment and is restored iff every step does the same to memory and log and every replayed reserve completes |
| Recovery.EveryRestartExactIff | treasury/loader.go:17-105 | over any number of crashes every life is exact iff every life meets that condition |
| Recovery.FirstStart | treasury/loader.go:17-55 | a first start, with nothing logged and nothing reserved, has memory and log in agreement |
| Recovery.SecondReplayChangesNothing | treasury/loader.go:107-109 | replaying again within two minutes, in any order, changes nothing |
| Recovery.CallLogged | treasury/manager.go:337-393 | whatever the log looks like, a call keeps memory and log in agreement iff its record moves the open reserves by what the call did to the counter |
| Recovery.StepLogged | treasury/flush.go:44-55 | the same for every step, a log cleanup included |
| Recovery.CallKeepsIff | treasury/manager.go:337-393 | a completed call meets that condition iff its record is in step with the log |
| Recovery.RunLogged | treasury/manager.go:483-502 | over every run: memory and log agree in every state iff every step does the same to both |
| Recovery.WorkerReleaseBreaks | node/worker/treasury_worker.go:136-160 | a completed release under a reference derived from its reason leaves memory and log in disagreement |
| Recovery.MatchedEndKeeps | node/worker/treasury_worker.go:195-202 | a completed consume, commit or release under the transfer's own reference keeps them in agreement when it ends the transfer's one reserve in full |
| Recovery.WorkerReleaseKeepsIff | node/worker/treasury_worker.go:136-160 | a completed release that gives back a transfer's one reserve in full keeps them in agreement iff it carries no reason |
| Recovery.ReleasedReserveComesBack | node/worker/treasury_worker.go:136-160 | a run with a released reserve that every restart takes again |
| Recovery.RefusedReplayIsDropped | treasury/loader.go:71-80 | a restart that drops a reserve whose flush the store refuses |
| Recovery.RefusedReserveIsLogged | treasury/manager.go:492-502 | a reserve refused for its failed synchronous flush is in the log and would be replayed |
| Journal.CheckLines | domain/ledger.go:103-122 | accepts iff all amounts are positive and no line ID and no account and side repeats; otherwise names the first offender and its fault |
| Journal.CheckBalances | domain/ledger.go:124-149 | accepts iff debits equal credits in every currency; otherwise names a currency in which they differ |
| Journal.ValidateEntries | domain/ledger.go:98-152 | accepts exactly the valid entries, with a true reason otherwise |
| Journal.IdsAcceptedIff | domain/ledger.go:110-115 | of an accepted entry with other line IDs: accepted iff every ID that is given is given once |
| Journal.BuildReversal | ledger/ledger.go:269-288 | the loop builds the mirrored lines |
| Journal.MirrorTwice | ledger/ledger.go:269-288 | reversing a reversal, with the original IDs, gives back the entry |
| Journal.ReversalAcceptedIff | ledger/ledger.go:258-310 | the mirror of an accepted entry is accepted iff every line is a debit or a credit |
| Journal.NonStandardReversalRefused | domain/ledger.go:136-141 | an accepted entry whose reversal is refused |
| Decomposition.SplitSides | ledger/tigerbeetle.go:169-177 | debits and credits in order; other types on neither side |
| Decomposition.MatchSides | ledger/tigerbeetle.go:210-262 | the loop ends on every input and produces the greedy pieces, or reports the first negative one |
| Decomposition.BuildTransfers | ledger/tigerbeetle.go:210-270 | the same, with all transfers but the last linked |
| Decomposition.GreedyLength | ledger/tigerbeetle.go:225-262 | at most debits + credits - 1 transfers |
| Decomposition.GreedyExact | ledger/tigerbeetle.go:225-262 | equal sides are used up: every account's pieces sum to its lines |
| Decomposition.GreedyMirror | ledger/tigerbeetle.go:225-262 | exchanging the sides exchanges the sides of every piece and nothing else |
| Decomposition.AcceptedBuilds | ledger/tigerbeetle.go:210-270 | building never fails on an accepted entry, and yields nothing iff the entry has no debit or credit |
| Decomposition.DecompositionExact | ledger/tigerbeetle.go:55-62 | an accepted entry's transfers, each within 64 bits, debit and credit each account for exactly its lines with eight decimals, and short by less than one unit per transfer otherwise |
| Decomposition.DecompositionExactIff | ledger/tigerbeetle.go:55-62 | with eight decimals the decomposition is exact iff no piece exceeds 64 bits |
| Decomposition.LinesFit | ledger/tigerbeetle.go:55-62 | lines within 64 bits have pieces within 64 bits |
| Decomposition.ReversalPieces | ledger/ledger.go:269-288 | the mirror decomposes into the original pieces with sides exchanged, one by one |
| Decomposition.NothingPostedReadsZero | ledger/tigerbeetle.go:274-286 | an account with no postings reads zero |
| Decomposition.PostMovesIff | ledger/tigerbeetle.go:274-286 | transfers move a balance by credits minus debits, unit by unit, iff both totals pass the ends of the signed range equally often |
| Decomposition.PostingMovesBalances | ledger/tigerbeetle.go:274-286 | an accepted entry moves every balance by its credit lines minus its debit lines iff the laps are even, so always below 2^63; with more than eight decimals it is then off by less than one unit per transfer |
| Decomposition.OppositesCancel | ledger/tigerbeetle.go:274-286 | transfers and their opposites leave a GetBalance where it was iff both totals pass the ends of the signed range equally often |
| Decomposition.ReversalRestoresBalances | ledger/ledger.go:258-310 | posting and reversing an accepted entry, even with truncated amounts, restores a balance iff its totals pass the ends of the signed range equally often; so always below 2^63 |
| BatchPosting.Build | ledger/batch.go:161-175 | the transfers or the build error of one entry |
| BatchPosting.PostEntries | ledger/tigerbeetle.go:168-202 | posting one entry on its own, including a call that breaks with or without having been applied; posted iff the call is answered with code 0 or 1 for each of its transfers |
| BatchPosting.FirstFailure | ledger/tigerbeetle.go:191-195 | the first transfer with a code other than 0 and 1 decides; without one the entry is posted |
| BatchPosting.CreateConcat | ledger/tigerbeetle.go:264-267 | chains do not cross the end of an entry, so one call on two parts is two calls |
| BatchPosting.BatchCodes | ledger/batch.go:189-195 | one call on all transfers leaves the one-by-one state and gives the one-by-one codes end to end |
| BatchPosting.Collect | ledger/batch.go:157-182 | all transfers in order, and for every entry where its own went |
| BatchPosting.IndexFailures | ledger/batch.go:216-222 | the map holds exactly the indices with a code other than 0 and 1 |
| BatchPosting.EntryVerdict | ledger/batch.go:231-237 | an entry's answer is the verdict on its own slice |
| BatchPosting.Distribute | ledger/batch.go:224-243 | every caller gets the answer for its own entry |
| BatchPosting.FlushBatch | ledger/batch.go:150-244 | for any all-or-nothing acceptance rule: the one-by-one state and outcomes; a caller is told posted iff the call is answered with code 0 or 1 for each of their own transfers; a broken call leaves the old or the one-by-one state and tells everyone; the caller of an accepted entry hears nothing iff the entry has no debit or credit line and the call was answered or never made |
| BatchPosting.AnsweredIff | ledger/batch.go:224-229 | of an answered call, the caller of an accepted entry hears iff the entry has a debit or a credit line |
| BatchPosting.UnansweredEntry | ledger/batch.go:224-229 | an accepted entry whose caller does not |
| BatchPosting.FailedEntryChangesNothing | ledger/tigerbeetle.go:264-267 | an entry reported as failed left the ledger untouched |
| BatchPosting.RetryIsHarmless | ledger/tigerbeetle.go:188-195 | under a rule that answers 1 for transfers it holds: an entry posted before, posted again alone or anywhere in a later batch, is posted and leaves the state as it was |
| BatchPosting.BatchRetryIsHarmless | ledger/batch.go:189-222 | a batch that went through, sent again, is posted throughout and leaves the state as it was |
| BatchPosting.KeepRemembers | ledger/tigerbeetle.go:188-195 | a store that keeps what it is sent and answers 1 for what it holds meets what is asked of a store |
| Batcher.EveryItemInOneBatch | ledger/batch.go:83-138 | every run: accepted items are the batches end to end and what is pending, so each is in exactly one, and no batch is empty or oversized |
| Batcher.PendingIsTaken | ledger/batch.go:118-135 | pending items have an armed timer or a waiting callback, and letting it run when the lock is free takes all of them |
| Batcher.TakersAreKnown | ledger/batch.go:83-138 | a batch is taken by the Submit that fills it, by the callback of a timer that fired, or by Stop, each holding the lock |
| Batcher.SubmitDecides | ledger/batch.go:96-138 | a Submit takes everything pending iff it fills the batch, and otherwise starts a timer iff none is running |
| Batcher.StoppedTimerNeverRuns | ledger/batch.go:66-117 | a timer stopped before it fires never runs its callback, whatever follows |
| Batcher.EverythingCanBePosted | ledger/batch.go:83-148 | from every reachable state some continuation posts every accepted item |
| Batcher.StoppedStaysEmpty | ledger/batch.go:63-94 | after Stop has drained nothing is pending and nothing more is accepted |
| Batcher.StopCompleteIff | ledger/batch.go:63-117 | at the call of Stop: whatever follows, everything accepted is posted when Stop returns, iff nothing is pending, no Submit is past its check, and no flush sits between giving up the lock and wg.Add |
| Batcher.ReturnedMeansTaken | ledger/batch.go:63-79 | when Stop has returned every accepted item is in a batch |
| Batcher.StopCanReturnEarly | ledger/batch.go:63-117 | a run in which Stop is called between the check of a Submit and its queueing, and returns first |
| SyncQueue.SyncConsumer.constructor | ledger/sync.go:38-50 | an empty consumer, with the default size for a non-positive one |
| SyncQueue.SyncConsumer.Enqueue | ledger/sync.go:67-89 | queued, or dropped and counted when the queue is full |
| SyncQueue.SyncConsumer.Attempt | ledger/sync.go:158-169 | one pass: exactly the entries whose write failed are returned, in order, and the others are synced |
| SyncQueue.SyncConsumer.TryThrice | ledger/sync.go:158-183 | passes over what failed until nothing does, at most three, and what is returned has failed in each |
| SyncQueue.SyncConsumer.Requeue | ledger/sync.go:191-203 | everything given back is queued or dropped and counted |
| SyncQueue.SyncConsumer.Flush | ledger/sync.go:154-216 | a batch is conserved: synced, queued again, or dropped and counted |
| SyncQueue.SyncConsumer.DrainQueue | ledger/sync.go:141-150 | the whole queue moves to the end of the batch, in order |
| SyncQueue.EntriesConserved | ledger/sync.go:67-216 | every run: enqueued = synced + queued + in hand + dropped as multisets, droppedTotal counts the dropped, at most three tries per flush |
| SyncQueue.FlushesWhenFull | ledger/sync.go:106-138 | every run: the consumer waits below the batch size, and an entry starts a flush iff it fills the batch |
| SyncQueue.SyncedIsWritten | ledger/sync.go:158-183 | every run: what is synced is exactly what was written successfully |
| SyncQueue.CanSettleIff | ledger/sync.go:92-216 | from every reachable state some continuation leaves every entry synced or counted as dropped iff the consumer still comes back to its queue and its batch |
| SyncQueue.LeftoversAfterExit | ledger/sync.go:106-138 | after the exit the uncounted entries are exactly the queue, for good |
| SyncQueue.LeftBehindIff | ledger/sync.go:115-122 | from the moment the consumer sees Stop: the queue is left empty iff nothing is enqueued after the drain and nothing given back by the last flush |
| SyncQueue.EntryLeftBehind | ledger/sync.go:185-203 | a run that leaves an entry behind, neither synced nor counted |
| Saga.TransferStore.constructor | core/engine.go:258-283 | a row in its first status with an empty outbox |
| Saga.TransferStore.TransitionWithOutbox | core/store.go:40-43 | status and intents go in together, and iff the version matches |
| Saga.TransferStore.Handle | core/engine.go:445-1340 | one handler from load to commit: it commits its decision, skips or refuses |
| Saga.Reachable | core/engine.go:445-1340 | every reachable row is at one of finitely many points that fix its statuses and the number of each intent |
| Saga.SagaSafety | core/engine.go:445-1340 | racing and redelivered handlers: statuses follow ValidTransitions, none twice, at most one reserve, send and consume, consume never with release or reversal, a finished transfer that reserved has consumed or released |
| Saga.OutboxIsAskedFor | core/engine.go:445-1340 | every run: the outbox holds each intent exactly as often as the statuses passed through ask for it |
| Saga.CommitsIff | core/engine.go:445-1340 | each handler commits iff its target is an allowed transition and the transfer is in the status it reports on, with two named exceptions |
| Saga.EveryTransitionHasAHandler | domain/transfer.go:37-50 | a transition is allowed iff some handler commits it |
| Saga.SkipsIff | core/engine.go:1540-1563 | every run: a result is skipped silently iff it reports on a status the transfer has left on its way to completion, or is a failed refund |
| Saga.EveryTransferCanEnd | core/engine.go:445-1340 | whatever happened so far, some continuation completes or refunds the transfer |
| Saga.CanCompleteIff | core/engine.go:445-1340 | a transfer can still be completed iff it has neither failed nor begun to be refunded |
| Saga.SuccessesCanComplete | core/engine.go:445-1100 | so it can after any race of handlers whose results are all successes |
| Saga.RefundNetsOutIff | core/engine.go:1191-1291 | a refunded transfer's outbox has as many reversals as on-ramp postings iff it never failed or was failed explicitly after settlement began; otherwise exactly one more |
| Saga.TreasuryNetsOutIff | core/engine.go:672-1274 | a completed or refunded transfer has as many consumes and releases as reserves iff it never failed; otherwise one release too many, or two if it never reserved |
| Saga.RefundCanReverseTwice | core/engine.go:1213-1274 | a run with one posting and two reversals, one reserve and two releases |
| Settlement.Admit | core/engine.go:125-300 | admits iff the amount is positive, no fee negative and the total their sum, strictly between zero and the amount |
| Settlement.NetGuardsNeverTrip | core/engine.go:593-598 | for admitted amounts neither net-amount guard trips and no fee exceeds the total |
| Settlement.CompletionAcceptedIff | core/engine.go:1033-1068 | for any slug the completion lines are a valid entry iff the total fee is strictly between zero and the amount; so for every admitted transfer |
| Settlement.CompletionPays | core/engine.go:1033-1068 | pending funds go down by the amount, the recipient's go up by what is not a fee, revenue by the fees |
| Settlement.TenantCodesDistinct | domain/account.go:67-74 | account codes of slugs without a colon coincide iff tenant and path do |
| Settlement.ColonsCollide | domain/account.go:71-74 | two that coincide otherwise |
| Settlement.Transfer.constructor | core/engine.go:258-300 | a transfer that passed the guards |
| Settlement.Transfer.CanTransitionTo | domain/transfer.go:165-176 | the loop over the table finds exactly the allowed transitions |
| Settlement.Transfer.TransitionTo | domain/transfer.go:181-200 | only status and version change, and only if allowed, so the amounts stay admitted |
| Settlement.Transfer.NetAfterOnRamp | core/engine.go:593-598 | the guard passes at any point of a transfer's life |
| Settlement.Transfer.CompletionEntry | core/engine.go:1033-1068 | guard and validation pass at any point of a transfer's life |
| CircuitBreaker.Breaker.constructor | resilience/circuitbreaker.go:155-176 | closed, all counters zero |
| CircuitBreaker.Breaker.TransitionLocked | resilience/circuitbreaker.go:277-301 | the new state and the counters each transition resets |
| CircuitBreaker.Breaker.CurrentStateLocked | resilience/circuitbreaker.go:210-215 | an open circuit past its timeout becomes half-open, anything else stays |
| CircuitBreaker.Breaker.AllowRequest | resilience/circuitbreaker.go:218-236 | whether the request is admitted, and the new state |
| CircuitBreaker.Breaker.RecordSuccess | resilience/circuitbreaker.go:239-253 | the new state after a success |
| CircuitBreaker.Breaker.RecordFailure | resilience/circuitbreaker.go:256-274 | the new state after a failure |
| CircuitBreaker.CountsTrailingFailures | resilience/circuitbreaker.go:239-274 | every run: the counter is the trailing run of recorded failures, and closed means below the threshold |
| CircuitBreaker.TripsIff | resilience/circuitbreaker.go:256-274 | every run: a failure opens a closed circuit iff it completes a run of failureThreshold failures, and leaves any other open |
| CircuitBreaker.SuccessNeverOpens | resilience/circuitbreaker.go:239-253 | a success changes the mode only from half-open to closed |
| CircuitBreaker.RecoversAfter | resilience/circuitbreaker.go:239-253 | every run: while reports are successes a half-open circuit closes exactly with the last success it was short of |
| CircuitBreaker.RecoversIff | resilience/circuitbreaker.go:210-253 | from every reachable state a healthy backend can close the circuit iff the calls under way and the free slots suffice for the successes it needs |
| CircuitBreaker.EnoughSlotsRecover | resilience/circuitbreaker.go:210-253 | so always with as many slots as needed successes, those of panicked probes apart |
| CircuitBreaker.NothingAdmittedTooSoon | resilience/circuitbreaker.go:210-236 | every run: unless closed, nothing is admitted within resetTimeout of the last failure |
| CircuitBreaker.NeverWedges | resilience/circuitbreaker.go:218-301 | every run, late finishers included: half-open with all slots used and no probe under way only if more probes panicked than there are slots to spare |
| CircuitBreaker.NeverWedgesIff | resilience/circuitbreaker.go:218-301 | it survives p panicking probes iff it has p slots more than needed successes; for p = 0, it never wedges without a panic iff it has enough slots |
| CircuitBreaker.Wedging | resilience/circuitbreaker.go:181-200 | a run that wedges, for every configuration, with the number of panics it takes |
| CircuitBreaker.WedgeIsPermanent | resilience/circuitbreaker.go:218-236 | a wedge with nothing under way refuses every request for ever |
| LocalCache.Cache.constructor | cache/local.go:33-42 | empty, with the default size for a non-positive one |
| LocalCache.Cache.Get | cache/local.go:46-75 | an unexpired value is returned and refreshed; an expired one is dropped |
| LocalCache.Cache.Set | cache/local.go:78-98 | the value is stored within the bound; what went away was expired or, the cache being full, least recently used |
| LocalCache.Cache.Delete | cache/local.go:101-105 | exactly this key goes |
| LocalCache.Cache.EvictExpired | cache/local.go:116-123 | exactly the expired entries go |
| LocalCache.Cache.EvictLRU | cache/local.go:126-142 | one least recently accessed entry goes |
| LocalCache.OnlyStaleOrOldestLeave | cache/local.go:78-98 | a value leaves on a Set only if the cache was full, an unexpired one only if it was the least recently used of a cache full of unexpired ones |
| TenantCache.Replica.constructor | cache/tenant_cache.go:37-43 | an empty replica over a shared Redis |
| TenantCache.Replica.Get | cache/tenant_cache.go:51-84 | local, then Redis, then database, with what each level stores on the way and what an outage skips |
| TenantCache.Replica.Invalidate | cache/tenant_cache.go:88-92 | the local copy goes; Redis forgets iff it is up |
| TenantStaleness.AnswersAreRecent | cache/tenant_cache.go:51-84 | every run: each answer was the database's value within the last 5m30s, plus twice the longest time a Get held a value |
| TenantStaleness.StalenessIsReached | cache/tenant_cache.go:51-84 | a run with Gets that take no time in which a value is returned 5m30s after it changed |
| TenantStaleness.GetsRunSideBySide | cache/tenant_cache.go:51-84 | every run: a Get that misses joins those under way, which go on as they were |
| TenantStaleness.InvalidationEffectiveIff | cache/tenant_cache.go:88-92 | an invalidation takes effect everywhere within 30s, whatever follows, iff no Get holds an older value at that moment |
| TenantStaleness.InvalidationWithAtomicGets | cache/tenant_cache.go:51-92 | with atomic Gets no replica returns the old value after 30s |
| TenantStaleness.OwnInvalidationIsImmediate | cache/tenant_cache.go:88-92 | on the replica that invalidates, and with no Get holding an older value, no older value is returned from then on |
| TenantStaleness.LateFillReturnsOld | cache/tenant_cache.go:73-83 | after any delay a Get under way can hand out what it read, and leaves it in the local cache for 30s from then |
| Fees.ValidateIff | domain/tenant.go:78-102 | a schedule is valid iff each rate charges between nothing and the whole amount, whatever the amount, and both pairs of clamps are in order |
| Fees.RefusedIff | domain/tenant.go:111-130 | a fee is refused iff its type is unknown or its rate negative; so, under a valid schedule, iff its type is unknown |
| Fees.ClampsHold | domain/tenant.go:111-153 | the fee never exceeds a set maximum, rounded to a unit, and meets a set minimum, rounded to a unit, iff that minimum does not exceed the maximum |
| Fees.RampFeeWithinBounds | domain/tenant.go:78-153 | on- and off-ramp fees lie within the set bounds, exactly for bounds of whole units and to half a unit otherwise |
| Fees.CollectionFeeCanFallBelowMinimum | domain/tenant.go:78-102 | an accepted schedule that charges a collection less than its minimum |
| Fees.FeeMonotone | domain/tenant.go:111-153 | a larger amount never pays a smaller fee |
| Fees.FeeWithinHalfUnit | domain/tenant.go:135-138 | unclamped, an eight-decimal amount pays the exact fee to within half a unit |
| Fees.FeeNearlyExact | domain/tenant.go:135-138 | for any amount the division adds at most half of 10^-16 |
| Money.RoundHalfAwayTies | domain/tenant.go:135-138 | a tie is rounded away from zero, on either side of it |
| Fees.RampFeesJustified | domain/tenant.go:111-153 | each ramp charges its own rate, exact to half a unit, under the transfer clamps |
| Fees.CollectionFeesJustified | domain/tenant.go:111-153 | each collection charges its own rate under its own clamps |
| Fees.SplittingSavesAtMostOneUnit | domain/tenant.go:111-153 | splitting an amount in two lowers the total fee by at most one unit iff a set maximum is not negative by more than one unit |

## Left out

- Postgres, Redis, NATS, TigerBeetle and provider clients: foreign calls; each appears as its contract only.
- JSON and gob encoding, UUID generation, SHA-256: IDs are given, fresh and, where derived, distinct.
- HTTP and gRPC handlers, authentication, metrics, logging, liquidity alerts, audit events of the treasury: no hard property.
- Routing, quotes, compliance, daily volume limits and the other checks of CreateTransfer that are not about amounts.
- TreasuryInterleaving.ReservationsSafeIff: interleaves Reserve, matched Release and successful credits; debit, commit and consume read counters that other operations write without a common lock and are modelled sequentially.
- Recovery.CrashRecoversIff: rows are current at the crash, balances are within the range that can be loaded, and keys last through the replay, which is certain for two minutes; when memory and log disagreed at the crash only the witnesses say what a restart does.
- Recovery.RunLogged: for runs without a credit that overflows int64, which TreasuryRuns.RunSound characterizes.
- TreasuryFlusher.NothingForgottenIff: any operation may start a synchronous flush at any moment; which amounts are large enough is not part of the interleaving.
- Recovery.LoadPositions: the store keeps its order between pages and the 32-bit offset does not overflow; a failed query for open operations is the case of no operations.
- Recovery.SecondReplayChangesNothing: within the two minutes for which keys are certain to survive.
- Treasury.Manager.LogOp: a store without a write-ahead log, which the manager also supports, is not modelled.
- Saga.TreasuryNetsOutIff: counts what the engine asks for; a second release takes effect only while other transfers keep enough reserved on the position.
- Saga.RefundNetsOutIff: counts what the engine asks for; the refund's reversal is non-empty because quotes have a positive stable amount, and what the ledger worker makes of two reversals of one transfer is not modelled.
- Saga.SagaSafety: the outbox is counted by intent; audit events, payload contents and the ordering of entries within a commit are not modelled. Transient retry and the ProcessTransfer driver are not modelled.
- Settlement.CompletionAcceptedIff: the on-ramp posting is cross-currency and not validated by the engine, so no validity is claimed for it.
- State-change callbacks and metrics of the circuit breaker.
- TenantStaleness.AnswersAreRecent: the Redis expiry is inclusive, and clocks of replicas agree.
- SyncQueue.EntriesConserved: the interval timer is one of the actions; its period is not modelled.
- The batching window, retry back-off delays and other durations that do not affect results.
