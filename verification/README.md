# Verified model of the approved-command core

A connector (an assistant acting for a signed-in person) may write to an
application only through an approved command: it prepares an operation, a person
or a standing consent approves it, and a commit claims an attempt, applies the
business writes and records the outcome, each in a transaction of its own. This
project models that protocol and the machinery it stands on, and proves what the
code's comments promise. `dafny verify dfyconfig.toml` checks everything.

## How it is built

Code that decides is a function on values; code that changes things step by step
is a class whose methods are proved equal to those functions, whatever fails on
the way. The theorems are about the functions and hold over all runs.

| file | what it covers |
|---|---|
| `OwnerRecord`, `OwnerAuthority` | the owner's record of switches and epochs: reader, decisions of every writer, the writers and the owner requests as they run |
| `Attempts`, `Effects`, `Commands` | attempts, effects, and every transaction's decision about one operation |
| `CommandRows`, `CommandStore` | what each transaction keeps about one operation, what its work leaves, and why it touches no other |
| `CommandDatabase` | the same transactions on mutable tables, statement by statement, with rollback and every outcome of COMMIT |
| `CommandRuns`, `CommandSafety` | any number of clients and owner steps interleaved with crashes; what holds over every run |
| `CommandAdmission` | who may prepare, approve, claim and commit, and what each then stores, read off the request, the owner record and the rows |
| `CommandAnswers` | exactly when a claimed attempt can still commit, and what a status answer promises |
| `CommandProgress` | from every reachable state four steps commit an operation |
| `Coordinator` | the one transaction coordinator with its deferred cleanup |
| `RowScope` | the row-scope compiler and the table gate |
| `HookedWrite` | probe, roll back, check, run for real |
| `DigestCache` | the stat-fingerprint cache against a full re-hash |
| `TriggerScan` | the migration trigger scanner against printed statements |
| `Locator` | crash-safe publication by hard link |
| `Rotation` | key rotation of the sealed store |
| `Analytics` | incremental sessions and visitor counts |
| `Artifacts`, `ArtifactRuns` | the artifact ring, and its bytes across crashes |

Idealizations: a digest of a record is the record; a ciphertext opens only under
its key and column; random ids and epochs are new when drawn; SQLite transactions
are serialized. The clock is an input of every step and may go back; where a
theorem needs it not to, its hypothesis says so.

## Where the code does less than it seems

Each is proved by a concrete input, next to the condition under which the promise
does hold.

- The probe of a hooked write checks the probe's rows. The real run must return
  the same ids in the same order, but its values may differ when the statement
  assigns the clock: `HookedWrite.AssignedClockEscapesTheChecks`. The checks cover
  the rows written, at any two clock readings, exactly when the clock does not show
  in what the statement lists: `HookedWrite.ChecksCoverIffClockFree`; an assignment
  that calls no date function is such a statement:
  `HookedWrite.AssignmentWithoutClockIsCovered`.
- The digest cache needs two hypotheses. Besides honest change times, no covered
  path may exist only between the two fingerprints of one verification, since a
  removed file leaves no stamp: `DigestCache.TransientPathIsCached`, and exactly
  then `DigestCache.ReadIsSoundIff`.
- A session whose tenant is "0" has its grants loaded as a tenant's but counts as
  having no tenant, so a role tier opens to it: `RowScope.ZeroTenantOpensTier`, and
  otherwise only to a global role: `RowScope.TierMeansGlobal`.
- An `owner_or_role` list of separators only names no role and leaves an
  un-grouped table without an owner column unscoped:
  `RowScope.EmptyRoleListIsUnscoped`, and nothing else does:
  `RowScope.ColumnModesAreScoped`.
- Analytics reads the clock once for the session lookup and again for the event.
  A half hour that ends between the two readings stretches a session even under a
  clock that never steps back, `Analytics.LateInsertStretchesASession`, and a clock
  that does stretches one between beacons, `Analytics.SteppedClockStretchesSessions`.
  `Analytics.RecordKeepsThirtyMinutesIff` and `Analytics.AllRuns` say exactly when
  the rule holds.
- The bounce flag stays on the last row of every session, and the summary counts
  the sessions with a flagged row, so over all beacons every session bounces, that of
  two pages too: `Analytics.EverySessionBounces`, `Analytics.TwoPagesBounce`.
- A store whose COMMIT reports failure but landed removes the bytes its row
  names: `ArtifactRuns.LandedFailureLosesBytes`, and no other row ever loses its
  bytes: `ArtifactRuns.RowsKeepTheirBytes`.
- The connection guard notes `query_only` as off when it cannot read it, so a
  query-only connection goes back to the pool writable:
  `Coordinator.UnreadQueryOnlyIsForgotten`, exactly when it was query-only and could
  not be read: `Coordinator.Transaction.Coordinate`.
- The answer "expired, not committed" does not always say that an attempt is over.
  `CommandProgress.ExpiredAnswerNeedsTheClock` gives it about a claimed attempt that
  still commits once the clock is back. An attempt can still commit, by steps at or
  after a time, exactly when it runs, its process holds it, its operation's authority
  is the record's and neither claim nor operation is over at that time:
  `CommandAnswers.CanCommitIffInPlay`, and for the answers
  `CommandAnswers.NotCommittedIsSettledIff`.
- The reader of the owner record does not itself check that writes imply exposure,
  `OwnerRecord.ReaderAcceptsUnexposedWrites`; every writer keeps it,
  `OwnerRecord.WritersKeepSound`.

## Model

| member | source | states |
|---|---|---|
| OwnerRecord.EncodingFits | app_mcp_epoch.go:122-172 | no well-formed record is longer than 822 bytes, so the reader's 1024-byte limit never rejects what a writer stores |
| OwnerRecord.LongestRecord | app_mcp_epoch.go:122-172 | and a well-formed record reaches 822 bytes |
| OwnerRecord.ReaderAcceptsUnexposedWrites | app_mcp_epoch.go:159-161 | the reader alone accepts approved writes without exposure |
| OwnerRecord.SoundIsFieldsAndSwitches | app_mcp_epoch.go:122-180 | the reader accepts a record and writes imply exposure exactly when its fields are well formed and the switches imply each other |
| OwnerRecord.WritersKeepSound | app_mcp_epoch.go:214-330 | every record any owner-switch writer stores, from any sound record or from none, is accepted by the reader and never has writes without exposure |
| OwnerRecord.TurnOffRotates | app_mcp_epoch.go:435-453 | any turn-off that does not fail leaves writes off, and replacing a version 2 record draws new write and auto-approval epochs |
| OwnerRecord.EpochsFollowSwitches | app_mcp_epoch.go:318-330 | the write epoch changes whenever approved writes do, the auto-approval epoch whenever that switch does, and epochs otherwise change only to new tokens; while writes stay on, owner and write epochs stay |
| OwnerRecord.AutoSwitchRotates | app_mcp_connector_control.go:265-291 | switching auto-approval draws a new epoch even when the switch already had that value |
| OwnerRecord.RestoreStores | app_mcp_epoch.go:606-634 | a restore stores version 2 with every switch off, new owner, write and auto-approval epochs, and no reviewed digests |
| OwnerRecord.TurnOffStores | app_mcp_epoch.go:435-453 | a turn-off leaves exposure, owner epoch, export and publication, and the reviewed digests only when asked to keep them |
| OwnerRecord.SetWritesStores | app_mcp_epoch.go:461-543 | setting approved writes is refused exactly when they would come on unexposed, and touches writes, write epoch, auto-approval and, for off, the digests only |
| OwnerRecord.EnableStores | app_mcp_revision_enrollment.go:100-154 | an enable is refused exactly on a hidden connector or a resume without a recorded suspension under these digests, and stores the digests it was given under a new write epoch |
| OwnerRecord.MutateStoresConnector | app_mcp_epoch.go:214-312 | exposure, owner epoch, export and publication after the generic writer: hiding switches export and publication off under new epochs unless the edit names them |
| OwnerRecord.MutateStoresWrites | app_mcp_epoch.go:214-312 | and its write fields: hiding or rotating a version 2 record switches writes and auto-approval off under new epochs and drops the digests; else only the named switch moves |
| OwnerRecord.MissingRecord | app_mcp_epoch.go:214-312 | without a file only a writer that may create one stores a record, of version 1 under a new owner epoch, with nothing on but what it names |
| OwnerAuthority.ReplacementKeepsSound | app_mcp_epoch.go:332-409 | the record stays sound whether the replacement is not renamed, renamed but not synced, or durable |
| OwnerAuthority.Authority.MutateRecord | app_mcp_epoch.go:214-312 | the generic writer stores exactly its decision, with the exposure asked for; hiding leaves export, publication, writes and auto-approval off, and it succeeds exactly when not refused and durable |
| OwnerAuthority.Authority.TurnOffWritesWithLease | app_mcp_epoch.go:435-453 | turning writes off leaves writes and auto-approval off under new epochs and everything else as it was; it succeeds exactly when the replacement is durable or there is no record |
| OwnerAuthority.Authority.SetWrites | app_mcp_epoch.go:461-543 | setting approved writes refuses without exposure, keeps a record that already says so, else rotates; on success the switch says what was asked |
| OwnerAuthority.Authority.InvalidateForRestoreWithLease | app_mcp_epoch.go:606-634 | a successful restore of a record leaves exposure, export, publication, writes and auto-approval off, with new owner, write and auto-approval epochs and no digests; it succeeds exactly when durable or there is no record |
| OwnerAuthority.Authority.EnableWrites | app_mcp_revision_enrollment.go:100-154 | the one writer of writes on; resume revives only a suspension under the same reviewed digests |
| OwnerAuthority.Authority.ConnectorApply | app_mcp_connector_control.go:241-400 | a successful owner request leaves on or off what it names, a plain disable also export and publication off, a revoke a new owner epoch; a meaningful request whose surroundings all answer succeeds, but for writes off with another switch on a missing record; a refused enable exposes nothing new unless a rename was visible unsynced, its rollback could not be stored, or writes came on and only the requested auto-approval failed; every stopping point is sound |
| OwnerAuthority.Authority.Disable | app_mcp_connector_control.go:252-298 | a successful disable leaves writes, exposure with export and publication, or the named switches off, and a revoke a new owner epoch; with durable replacements it succeeds, on a missing record but for writes together with another switch |
| Attempts.LatestIsGreatest | app_mcp_operation_attempts.go:321-331 | the latest attempt has the greatest start time, ties going to the later row |
| Attempts.LatestIsLast | app_mcp_operation_attempts.go:321-331 | with strictly increasing start times the latest attempt is the last row |
| Attempts.FindLatest | app_mcp_operation_attempts.go:323-331 | the loop finds that attempt |
| Attempts.ClaimStart | app_mcp_command_exposure.go:1151-1156 | a claim never starts at or before the attempt it follows, nor before now |
| Effects.Decode | app_mcp_command_effects.go:159-184 | a receipt's effects are accepted exactly when there are at most 64 and each is well formed |
| Effects.Status | app_mcp_command_effects.go:189-210 | nothing but a completed job row is evidence of delivery |
| Effects.Aggregate | app_mcp_command_effects.go:212-226 | the summary is the most urgent status present, and delivered exactly when there are effects and all are delivered |
| Commands.OutcomeFor | app_mcp_operation_attempts.go:369-380 | success alone is recorded as succeeded, and an unknown COMMIT alone as unknown |
| CommandRows.ClaimKeeps | app_mcp_command_exposure.go:1106-1177 | a claim keeps union and history; a running attempt it follows was stale and ends unknown, the new one starts last, and the COMMIT barrier is the operation's expiry |
| CommandRows.WorkMeans | app_mcp_command_provider.go:381-442 | the apply phase succeeds exactly when no step fails and at most 64 effects are asked for, and has then done every write and queued every effect its steps name, in order, under job ids that continue the table |
| CommandRows.FirstErrorEnds | app_mcp_command_provider.go:411-415 | its error is that of the first failing step, or the refusal of the 65th effect |
| CommandRows.ApplyKeeps | app_mcp_command_exposure.go:1183-1267 | an apply commits only as the latest, running attempt with time left on claim and operation; afterwards the one application holds exactly the writes of its steps in order, the jobs and the receipt exactly their effects, and the approval is consumed by this attempt |
| CommandRows.SettleKeeps | app_mcp_operation_attempts.go:423-494 | the record step changes at most the last attempt, keeps the union, and never records a committed attempt as anything but succeeded |
| CommandRows.ReviewKeeps | app_mcp_command_exposure.go:849-932 | a browser approval is by the operation's own actor from a direct login, there was none before, and it must land before expiry |
| CommandRows.InsertKeeps | app_mcp_command_exposure.go:590-656 | a prepare keeps the invariant and stores the operation under the admitted authority; when it stores a grant approval is CommandAdmission.PrepareStores |
| CommandRows.SweepKeeps | app_mcp_command_exposure.go:696-700 | only an operation that never applied anything is swept |
| CommandRows.RetryableIffClaimable | app_mcp_command_exposure.go:521-529 | for an operation a commit may proceed with that has attempts, retryable holds exactly when the claim admits another |
| CommandRows.CommittedIffApplied | app_mcp_command_exposure.go:498-519 | the status says committed exactly when the writes landed, and otherwise nothing of the operation is applied or queued |
| CommandStore.PutIsLocal | app_mcp_command_exposure.go:1183-1267 | a transaction's row is what its operation's rows become, and no other operation's rows, applications or jobs change |
| CommandStore.SweepKeepsStore | app_mcp_command_exposure.go:713-732 | a sweep keeps every operation's rows coherent |
| CommandStore.OpenCountIsCardinality | app_mcp_command_exposure.go:667-709 | the scan's count is the number of the actor's open operations whatever order the rows come in |
| CommandStore.PrepareKeeps | app_mcp_command_exposure.go:734-800 | a prepare with its sweep keeps the store invariant |
| CommandStore.PrepareKeepsLimit | app_mcp_command_exposure.go:734-757 | a prepare is refused exactly when the actor has 20 open operations, still commits its sweep then, and never leaves more than 20 |
| CommandStore.TablesOkIffRows | app_mcp_command_approval.go:503-594 | the validator accepts the tables exactly when every operation's rows satisfy the union |
| CommandDatabase.Database.ScanOperations | app_mcp_command_exposure.go:667-709 | the scan loop counts and picks exactly what the specification says, at most 100 to sweep |
| CommandDatabase.Database.SweepOperations | app_mcp_command_exposure.go:713-732 | the deletes remove each operation with its approval and attempts and nothing else |
| CommandDatabase.Database.InsertApprovalRow | app_mcp_command_exposure.go:938-969 | the approval insert validates the record and the primary key refuses a second one |
| CommandDatabase.Database.InsertOperation | app_mcp_operation_store.go:483-517 | the operation insert returns an identical stored row and refuses any other conflict |
| CommandDatabase.Database.PrepareOperation | app_mcp_command_exposure.go:734-800 | the tables end as the decision says for every outcome of COMMIT, and as before on any error |
| CommandDatabase.Database.ReviewOperation | app_mcp_command_exposure.go:849-932 | the same for an approval, with the expiry barrier |
| CommandDatabase.Database.Checks | app_mcp_command_exposure.go:1043-1084 | the shared prefix of both commit phases gives exactly the decision's answer |
| CommandDatabase.Database.SwapAttempt | app_mcp_operation_attempts.go:262-277 | an attempt is replaced only if it is still what was read |
| CommandDatabase.Database.MayClaim | app_mcp_command_exposure.go:1120-1137 | the latest attempt admits or refuses a claim as the decision says |
| CommandDatabase.Database.RecordClaim | app_mcp_command_exposure.go:1141-1161 | superseding and inserting leave exactly the claimed history |
| CommandDatabase.Database.ClaimAttempt | app_mcp_command_exposure.go:1106-1177 | commit phase one on the tables, for every outcome of COMMIT |
| CommandDatabase.Database.EnqueueEffect | app_mcp_command_effects.go:91-143 | a queued job carries the operation's authority and the next row id; the 65th effect is refused |
| CommandDatabase.Database.RunPhase | app_mcp_command_provider.go:381-442 | the loop succeeds exactly when no step fails and at most 64 effects are asked for; it returns every write and effect of the steps in order and queues exactly those jobs, and its first error ends it |
| CommandDatabase.Database.ConsumeApproval | app_mcp_command_exposure.go:971-990 | an approval is consumed once, and only if it is still what was read |
| CommandDatabase.Database.StoreReceipt | app_mcp_operation_store.go:519-572 | a receipt is attached to its own prepared operation and is immutable |
| CommandDatabase.Database.CommitOperation | app_mcp_command_exposure.go:1183-1267 | commit phase two on the tables: all of work, approval, receipt and jobs, or nothing; a caller told it is done finds one application with every write of the steps and a job for each effect |
| CommandDatabase.Database.FinishAttempt | app_mcp_operation_attempts.go:423-480 | commit phase three, one try: idempotent, reconciled with the receipt, a state returned only if it is recorded |
| CommandDatabase.Database.ValidateUnion | app_mcp_command_approval.go:503-594 | the validator's loops accept exactly coherent tables |
| CommandAdmission.AdmitIff | app_mcp_command_authority.go:227-294 | a request is admitted exactly with writes on, a connector's pins equal to the record's owner and write epochs on an exposed connector, and export on for a push; auto-approval is open to it exactly under standing consent |
| CommandAdmission.PrepareStores | app_mcp_command_exposure.go:590-656 | for a new id an admitted prepare succeeds exactly for a connector; it stores the request's own record, and a grant approval exactly when the tool allows one and no transfer, the owner's switch is on, both of the request's auto-approval epochs are the record's, and this tool in this contract and execution is among those consented to |
| CommandAdmission.NewOperationsArePrepared | app_mcp_command_exposure.go:465-485 | on the whole system: an operation comes into being only by a prepare of an admitted connector's request, with that record, and with an approval exactly under that consent |
| CommandAdmission.ReviewIff | app_mcp_command_exposure.go:849-932 | a person approves exactly an unapproved operation of their own, under the same source and in force, from a direct browser login |
| CommandAdmission.MayCommitIff | app_mcp_command_exposure.go:1043-1084 | both commit phases go ahead exactly for the operation's own caller, under the source and standing it was prepared for, in force, unfinished and approved, while the approving session is live or the approving grant's consent still stands |
| CommandAdmission.RefusalMeans | app_mcp_command_exposure.go:1043-1084 | who is answered from the receipt, and who is told that the operation has run out or lacks its approval |
| CommandAdmission.ClaimIff | app_mcp_command_exposure.go:1120-1137 | a claim is admitted exactly first, after a failed or conflicting attempt, or after one that ran 35 seconds without an outcome, and at most five times; and which error says why not |
| CommandAdmission.ApplyIff | app_mcp_command_exposure.go:1183-1217 | an apply goes through exactly as the last, running attempt, under 30 seconds old and before expiry, with work that does not fail and an approval consumed in time |
| CommandAdmission.CommitsAreAllowed | app_mcp_command_exposure.go:1043-1084 | on the whole system: a receipt appears only by an apply of the operation's own caller under its source, in force, with its approver standing behind it |
| CommandAdmission.SettleRecords | app_mcp_operation_attempts.go:423-494 | a running attempt ends with the outcome it was given, or as succeeded if that was unknown and the receipt is there, and not before it started |
| CommandAdmission.SettleStepRecords | app_mcp_operation_attempts.go:423-494 | and on the whole system the record step stores that when its COMMIT lands |
| CommandAdmission.StatusMeans | app_mcp_command_exposure.go:498-519 | each status, from the rows and the clock: committed exactly with a receipt, expired exactly when out of force without one, undetermined exactly while the last attempt runs or is unknown |
| CommandAdmission.LimitMeans | app_mcp_command_exposure.go:734-757 | a prepare finds the limit reached exactly when twenty of the actor's operations are unfinished and unexpired, and either way the operations the scan picked, and only those, are gone |
| CommandAdmission.SweepPicks | app_mcp_command_exposure.go:667-709 | the scan picks an unfinished operation exactly an hour past its expiry, unless a hundred were picked before it |
| CommandRuns.AdmitMeans | app_mcp_command_authority.go:227-294 | what the coordinator admits carries the owner record's present epochs, with export on for a push and consent live only under the present auto-approval epoch |
| CommandRuns.StepRow | app_mcp_command_exposure.go:734-1297 | any step leaves an operation alone, removes it unapplied, inserts it, approves it, moves its attempts or commits it, and a receipt appears only at a commit point: latest running attempt, living authority, time left |
| CommandRuns.StepKeeps | app_mcp_command_exposure.go:734-1297 | every step of every client and of the owner keeps the whole invariant |
| CommandRuns.RunKeeps | app_mcp_command_exposure.go:734-1297 | so does every run, with retries, crashes and unknown COMMITs |
| CommandSafety.AtMostOnce | app_mcp_command_exposure.go:1183-1268 | in every reachable state an operation's writes and jobs have landed at most once, and exactly when its receipt exists; then some apply of the run, by the receipt's attempt, made them, and they are exactly the writes and effects of its steps |
| CommandSafety.CommitCarriesWork | app_mcp_command_exposure.go:1183-1267 | the step of a run that gives an operation its receipt is an apply and leaves exactly the writes and jobs of its own steps |
| CommandSafety.UnionAlwaysHolds | app_mcp_command_approval.go:503-594 | in every reachable state the validator accepts the store and job ids are unique |
| CommandSafety.AttemptsAreOrdered | app_mcp_command_exposure.go:1120-1166 | start times strictly increase even if the clock steps back, only the latest attempt runs, none follows an unknown outcome, and only the latest can have committed |
| CommandSafety.ReceiptIsForever | app_mcp_command_exposure.go:1036-1053 | a receipt, its approval, its writes and its jobs never change again |
| CommandSafety.SupersededNeverCommits | app_mcp_command_exposure.go:1120-1122 | an attempt that another follows never becomes the receipt's, whatever the clock does and though its process may still run |
| CommandSafety.UnknownIsTheEnd | app_mcp_command_exposure.go:1098-1102 | after a recorded unknown outcome without a receipt no attempt follows and the operation never commits |
| CommandSafety.OwnerStepRevivesNothing | app_mcp_epoch.go:318-330 | no owner step brings back the authority of an existing operation |
| CommandSafety.DeadNeverCommits | app_mcp_command_exposure.go:481-496 | an operation whose authority is gone from the record never commits, whatever the owner does later |
| CommandSafety.TurnOffIsForever | app_mcp_epoch.go:435-453 | an operation prepared before a turn-off never commits after it, even if writes come back |
| CommandSafety.AutoSwitchIsForever | app_mcp_command_exposure.go:475-485 | an approval by standing consent dies when auto-approval is switched either way |
| CommandSafety.ExportSwitchIsForever | app_mcp_command_exposure.go:492-494 | a push prepared before external export is switched never commits |
| CommandSafety.ExpiredNeverCommits | app_mcp_command_exposure.go:487-491 | while the clock stays past its expiry an operation never commits |
| CommandSafety.ExpiredIsAbsorbing | app_mcp_command_exposure.go:498-519 | under a nondecreasing clock an expired operation is expired, or removed, at every later time, for every caller but one whose tool no longer pushes when only the export epoch is gone |
| CommandSafety.ExpiredMeans | app_mcp_command_exposure.go:487-496 | expired means past the lifetime or an epoch the caller's tool depends on gone from the owner record |
| CommandAnswers.CanCommitIffInPlay | app_mcp_command_exposure.go:1183-1268 | some continuation with no step before a time commits an attempt exactly when it runs, its process holds it, the owner record carries its authority, and claim and operation have time left then |
| CommandAnswers.NotCommittedIsSettledIff | app_mcp_command_exposure.go:498-519 | after the status "not committed", for any caller, no attempt made by then can become the receipt's, unless the status was expired and the attempt is still in play; never while the clock stays at or past an answer given after the lifetime |
| CommandProgress.ExpiredAnswerNeedsTheClock | app_mcp_command_exposure.go:487-519 | an attempt claimed before an "expired" answer still commits when the clock is back |
| CommandProgress.FourStepsCommit | app_mcp_command_exposure.go:1183-1267 | from every reachable state an admitted request below the limit commits by prepare, approve, claim and apply, by a person's approval or standing consent |
| CommandProgress.CommittedIsReachable | app_mcp_command_exposure.go:1183-1267 | a run from the empty store ends with one committed operation |
| Coordinator.Transaction.Coordinate | app_mcp_command_authority.go:111-402 | COMMIT is confirmed exactly when the work asks to commit, every call up to it answers and it succeeds, unknown exactly when it then returns an error; success is exactly a confirmed COMMIT or a rolled back read; the transaction ends exactly once, and a reused connection has its busy timeout and no guard, and its query_only as found exactly when that was off or the guard could read it |
| Coordinator.UnreadQueryOnlyIsForgotten | flows_command_runtime.go:196-214 | a query-only connection whose query_only cannot be read goes back to the pool writable |
| Coordinator.Transaction.Open | app_mcp_command_authority.go:127-222 | BEGIN runs with a zero busy timeout that is restored inside the transaction, or the connection is discarded; it fails exactly when a call does |
| Coordinator.Transaction.InstallGuard | flows_command_runtime.go:200-224 | the guard is installed unless one of its four calls fails |
| Coordinator.Transaction.Finish | app_mcp_command_authority.go:329-385 | COMMIT is issued exactly when the guard is certain and off, the source unchanged and in time, and the state is confirmed exactly when it then succeeds |
| Coordinator.Transaction.Deferred | app_mcp_command_authority.go:134-211 | cleanup on any return path rolls back an open transaction and restores or discards the connection |
| Coordinator.Ask | app_mcp_command_exposure.go:545-555 | a caller is told success exactly when the work ran to a COMMIT that succeeded, failure exactly when COMMIT was never issued, and unknown exactly when it returned an error |
| RowScope.BuildGlobalRoleTier | access.go:340-367 | the loop with its arguments compiles exactly the tier |
| RowScope.TierMeansGlobal | access.go:328-367 | the tier holds exactly for a globally held role, or in the "0" tenant for any held one |
| RowScope.MemberOfMeans | access.go:717-741 | member-of admits members and shares, inside the tenant on a keyed table, and nothing when misdeclared |
| RowScope.TieredMeans | access.go:1177-1232 | owner_or_role on every table shape, both directions |
| RowScope.RowsStayInTenant | access.go:1160-1268 | for every mode, keyed table and non-bypass session with a tenant, a row in scope carries that tenant's key |
| RowScope.WithoutTenantOnlyOwn | access.go:1160-1268 | a session without a tenant reaches on a keyed table only rows it owns, is shared or is a member of |
| RowScope.DeclaredSelfIsOwnerOnly | access.go:1233-1243 | a declared self is owner-only inside the tenant; the undeclared default is tenant-wide |
| RowScope.TenantRoleReachesOwnRootOnly | access.go:462-494 | on an un-grouped unshared table a role held only in a tenant reaches at most that tenant's own root row |
| RowScope.TenantRootReach | access.go:514-538 | on the tenant root, own row or every row, the latter exactly for a global role |
| RowScope.TierWidensIffGlobal | access.go:1213-1228 | the tier widens to a foreign unshared row exactly when the role is held globally, or in the "0" tenant |
| RowScope.ZeroTenantOpensTier | types.go:699-733 | a session in tenant "0" sees every row through a role no one holds globally |
| RowScope.ColumnModesAreScoped | access.go:462-494 | behind the gate a column-scoped mode leaves nobody unscoped, but for a role list without a name; whom the gate lets through in every mode is RowScope.GateOfPlainModes and RowScope.GateOfRoleModes |
| RowScope.EmptyRoleListIsUnscoped | access.go:462-494 | a role list without a name does: a user without any role reaches every row |
| RowScope.CreateNeedsGlobalRole | access.go:446-461 | creating a row of an un-grouped unshared table takes a global role |
| RowScope.MostSpecificRuleGoverns | access.go:101-156 | the table's rule for the operation governs, then its rule for all, then the defaults in that order, whatever the lower ones say; without a rule a table is its owners', else its tenants', else the administrators' |
| RowScope.ActingAsIsScoped | access.go:1160-1176 | unscoped exactly an administrator who neither acts as a tenant nor comes through a connector's grant; acting as a tenant shows that tenant's rows alone |
| RowScope.GateOfPlainModes | access.go:238-266 | off admits nobody, anon anybody, everyone exactly the signed in, admin exactly administrators, self and group exactly where there is a column to scope by, and nothing but anon an anonymous caller |
| RowScope.GateOfRoleModes | access.go:462-494 | exactly whom role:, perm:, member-of and owner_or_role admit, for every table and operation |
| RowScope.AdminTablesAreAdmins | access.go:246-247 | through gate and predicate together, only an administrator reaches a row of an admin table |
| RowScope.ScopeMeans | access.go:1160-1268 | for every mode, table, session and row the compiled predicate with its arguments lets through exactly the rows a reference definition without SQL says the session sees |
| HookedWrite.Command.Probe | app_mcp_command_hooks.go:520-532 | the probe returns the statement's rows and leaves the table as it was |
| HookedWrite.Command.CheckTransitions | app_mcp_command_hooks.go:733-757 | a row passes exactly when each workflow's change is allowed, its role held and its condition met |
| HookedWrite.Command.CheckRow | app_mcp_command_hooks.go:543-603 | a row passes exactly when lock, validator, start state, before-hook and workflows allow it against the pre-write state |
| HookedWrite.PassMeans | app_mcp_command_hooks.go:543-603 | a passed row spelled out: no other's lock, the validator, the before-hook on the old image, a permitted start, and for each workflow whose field moves a declared move whose role is held and whose condition held before the write |
| HookedWrite.Command.ExecuteHookedWrite | app_mcp_command_hooks.go:503-686 | it succeeds exactly when both runs work, every probed row passes, the write lists the probe's ids in the probe's order, the row count is as expected and the after-hooks run; then every written row passes too if the clock does not show in what the statement lists, and the first before-image of each row stays remembered |
| HookedWrite.TrackingKeepsFirst | app_mcp_command_hooks.go:711-731 | the tracked state of a row is its state before the command's first update of it |
| HookedWrite.OnlyListedRowsChange | app_mcp_command_hooks.go:178-190 | a checked write changes no row outside its list, and changes no id |
| HookedWrite.ChecksCoverIffClockFree | app_mcp_command_hooks.go:607-618 | the checks hold of the rows really written, whatever the rules and the two clock readings, exactly when the clock does not show in the rows the statement lists |
| HookedWrite.AssignmentWithoutClockIsCovered | flows_command_runtime.go:571-577 | an assignment that calls no date function is covered, even if its condition calls one |
| HookedWrite.AssignedClockEscapesTheChecks | flows_command_runtime.go:571-577 | an assignment of the clock is not: with the same ids in the same order, a row that fails a check is written |
| DigestCache.StreamIsInjective | app_mcp_digests.go:313-342 | the fingerprint's record stream determines every path and stamp |
| DigestCache.UnchangedMeansSameContent | app_mcp_digests.go:234-244 | an unchanged, settled fingerprint means every covered file kept its content at every time between |
| DigestCache.Cache.HitIsSound | app_mcp_digests.go:295-305 | a cache hit returns success only when re-hashing the current source would |
| DigestCache.Cache.Validate | app_mcp_digests.go:245-274 | validation keeps the cache sound unless it caches a transient path, succeeds without reading only on a sound hit, and forgets the entry on failure; what it caches is a hit for that fingerprint and manifest, and no other, until the maximal age |
| DigestCache.ReadIsSoundIff | app_mcp_digests.go:264-272 | a reading that agrees between two equal fingerprints may be cached exactly when no covered path was there only for the read |
| DigestCache.UnstampedChangeIsMissed | app_mcp_digests.go:234-244 | without honest change times, though everything else holds, a change can be missed |
| DigestCache.TransientPathIsCached | app_mcp_digests.go:264-272 | with honest change times, a covered file that exists only during the read can be cached |
| TriggerScan.LastStatementWins | app_mcp_app_triggers.go:92-98 | for each name the result is exactly the last main-schema CREATE or DROP TRIGGER |
| TriggerScan.AfterEndSkipsItems | app_mcp_app_triggers.go:190-203 | the depth counter finds the body's END through any nesting of CASE |
| TriggerScan.ScanReadsBack | app_mcp_app_triggers.go:118-175 | scanning any printed statement list gives what the statements mean |
| TriggerScan.HistoryReadsBack | app_mcp_app_triggers.go:92-116 | so does scanning all migrations in order |
| TriggerScan.ParseTrigger | app_mcp_app_triggers.go:177-207 | one trigger's name and END are found on any tokens, or their absence |
| TriggerScan.ScanTriggers | app_mcp_app_triggers.go:118-175 | the index loops terminate on any tokens and equal the scanner on what is left |
| TriggerScan.MigrationTriggers | app_mcp_app_triggers.go:99-116 | the file loop stops at the first unreadable migration and else accumulates |
| Locator.CrashKeepsSound | app_mcp_authority_binding.go:557-626 | after a crash anywhere the locator is absent or complete, and a durable one is still there |
| Locator.Directory.WriteAll | app_mcp_authority_binding.go:571-585 | the write loop writes the whole record through short writes, or fails, and does not fail while every write takes something |
| Locator.Directory.LinkFinal | app_mcp_authority_binding.go:609-616 | a link publishes a complete file exactly when there is no locator and the link works, is a conflict exactly when there is one, and never replaces it |
| Locator.Directory.Adopt | app_mcp_authority_binding.go:486-514 | an existing locator is adopted exactly if equal and made durable and read back, a conflict exactly if not equal, and untouched either way |
| Locator.Directory.Publish | app_mcp_authority_binding.go:418-644 | with every call answering and no rival the record is published; an existing locator is adopted or a conflict by its contents, an unreadable one a plain error; at every point the locator is absent or complete and an existing one stays; success is durable; an error other than the unknown outcome means this call published nothing |
| Rotation.SameContentSameUnion | app_mcp_command_rotation.go:71-102 | the union is about plaintexts, so the same content under another key is as valid |
| Rotation.OpensIffSealed | app_mcp_operation_store.go:667-745 | an operation row opens exactly to what was sealed under the key in its own columns, beside the same plaintext columns |
| Rotation.OthersOpenIffSealed | app_mcp_command_approval.go:604-652 | so do approvals, attempts and the marker |
| Rotation.SealedUnion | app_mcp_command_approval.go:503-594 | the sealed tables validate exactly when the store they seal does |
| Rotation.ReachableIsValid | app_mcp_command_rotation.go:71-102 | so the sealed form of every reachable store is valid, and its rotation is refused only when a row changes underneath |
| Rotation.SameContentSealsSame | app_mcp_command_rotation.go:71-102 | and what a rotation leaves seals the same store |
| Rotation.SealedStore.RotateApprovals | app_mcp_command_approval.go:604-652 | every approval opens under the new key to its old plaintext, and any compare-and-swap miss fails |
| Rotation.SealedStore.RotateAttempts | app_mcp_operation_attempts.go:279-294 | the same for attempts |
| Rotation.SealedStore.RotateOperations | app_mcp_operation_store.go:667-745 | the same for operations with their receipts |
| Rotation.SealedStore.RotateMarker | app_mcp_command_rotation.go:37-69 | the marker is resealed with a new generation and rotation and all else as it was, or the step fails |
| Rotation.SealedStore.Rotate | app_mcp_command_rotation.go:71-102 | rotation succeeds exactly when the keys differ, the store is valid and nothing changed underneath; then every plaintext is kept under the new key only and the union validates; else nothing changed |
| Rotation.NewKeyOnly | app_mcp_command_rotation.go:71-102 | what opens under the new key does not open under the old one |
| Analytics.Beacon.ResolveSession | analytics.go:592-607 | the session that goes on is that of the newest event within thirty minutes |
| Analytics.Beacon.Pageview | analytics.go:287-332 | a pageview is recorded whole or not at all, each statement reading its own clock |
| Analytics.RecordKeepsValid | analytics.go:287-332 | each session keeps exactly one entry row, its first, and one exit row, its last, which alone carries the bounce flag, and counts match the events, also when the clock steps back |
| Analytics.EntriesCountSessions | analytics.go:307-311 | the visitor's session count is the number of its distinct sessions |
| Analytics.RecordKeepsThirtyMinutesIff | analytics.go:592-607 | whatever the clock does, the thirty-minute rule survives a beacon exactly when the visitor's newest row, the lookup and the two clock readings show none of three cases |
| Analytics.NewestDecides | analytics.go:592-607 | while the clock has not stepped back, the session goes on exactly when the visitor's newest event is under thirty minutes old at the lookup |
| Analytics.AllRuns | analytics.go:287-332 | for every run of beacons: entry and exit rows and counts are right, the stored session count is the number of distinct sessions, and the thirty-minute rule holds exactly when every beacon was on time, under a steady clock exactly when no half hour ended between a lookup and its insert |
| Analytics.LateInsertStretchesASession | analytics.go:313-318 | under a steady clock, events half an hour apart can share a session |
| Analytics.SteppedClockStretchesSessions | analytics.go:592-607 | so can later ones after the clock stepped back |
| Analytics.UserIsFirstSignedIn | analytics.go:296-302 | a visitor's user is the first that signed in and never changes |
| Analytics.LastSeenIsLastBeacon | analytics.go:296-302 | a visitor was last seen at the clock reading of their last beacon, over all runs |
| Analytics.EverySessionBounces | analytics.go:376-383 | over all runs the sessions counted as bounced are all sessions, so the flag singles out those of one page exactly when there are no others |
| Analytics.TwoPagesBounce | analytics.go:313-328 | though a session of two pages is no single page visit |
| Artifacts.FitsShrinks | app_mcp_artifacts.go:393-398 | a run that fits still fits when shortened, so the longest run is well defined |
| Artifacts.LongestIsInBudget | app_mcp_artifacts.go:393-425 | the kept run with the new artifact is within 25 items, 128 MiB and seven days, and one more would not be |
| Artifacts.DeletingTheRest | app_mcp_artifacts.go:426-431 | deleting the evicted ids leaves exactly the newest run and every other row |
| Artifacts.Ring.ChooseEvicted | app_mcp_artifacts.go:393-425 | the walk keeps the longest newest-first run within 25 items, 128 MiB and the lifetime as the clock reads at each row, the new artifact counted first |
| Artifacts.Ring.Evict | app_mcp_artifacts.go:393-432 | eviction leaves exactly that run and every other row |
| Artifacts.Ring.DeleteBytes | app_mcp_artifacts.go:215-243 | of the bytes asked for, exactly those no manifest names and whose removal works are removed |
| Artifacts.Ring.StoreArtifact | app_mcp_artifacts.go:314-391 | a store leaves exactly that run beside the new artifact, at most 25 items and 128 MiB, every row backed by its bytes, and removes no bytes but those of rows it evicted; it fails without loss exactly when the failed COMMIT rolled back |
| ArtifactRuns.StepKeeps | app_mcp_artifacts.go:215-391 | every step of stores, evictions, purges, sweeps and crashes keeps rows backed |
| ArtifactRuns.RowsKeepTheirBytes | app_mcp_artifacts.go:215-391 | across every run a row without bytes is one whose COMMIT failed and landed |
| ArtifactRuns.LandedFailureLosesBytes | app_mcp_artifacts.go:354-385 | and such a row does lose them |
| ArtifactRuns.OrphansAreSwept | app_mcp_artifacts.go:245-303 | bytes nothing knows go with the next sweep after the grace |

## Left out

- CommandDatabase.Database.RunPhase: the business SQL is a list of writes, queued effects and errors; what the statements do to application tables is not modelled, except for hooked writes.
- CommandRuns.AdmitMeans: the live grant, credential, account, role, enrollment and source checks of admission are inputs of the request; only its checks against the owner record are modelled.
- CommandAdmission.PrepareStores: the plan phase that computes intent, arguments and preview is an input.
- OwnerAuthority.Authority.ConnectorApply: the former exposure is read before the locked steps; an owner step of another process between that reading and those steps is not modelled.
- OwnerAuthority.Authority.MutateRecord: the durability of a rename is that of a process crash; a power loss that drops an unsynced rename is not modelled.
- DigestCache.Cache.Validate: the stat walks are taken at one instant each; reads of file contents are spread in time. The byte limit and the refusals of the walk are parameters.
- HookedWrite.Command.ExecuteHookedWrite: what after-hooks write to other tables, and webhook payloads, are not modelled; that they run once per row in order is.
- TriggerScan.ScanReadsBack: text is already tokens with interned lower-case names; choosing the migration files and their UP sections, and the effects read from a trigger's body, are not modelled.
- Locator.Directory.Publish: identity checks of the directory and the owner's lease are single steps that may fail. A rival publishes before the last look or before the link; between two staging steps it would change nothing this call sees before the link, and after the link it finds a locator.
- Rotation.SealedStore.Rotate: other encrypted tables of the application are rotated elsewhere and are not part of this model.
- RowScope.RowsStayInTenant: act-as, verified e-mail and live membership are inputs; loading a session is stated as what a loaded session carries.
- Analytics.Beacon.Pageview: ring pruning, durations, user-agent and referrer parsing, and the time window of the summary, are left out.
- Artifacts.Ring.StoreArtifact: a store finishes within the sweep's grace, as `ArtifactRuns` assumes openly.
- Unreadable rows: the prepare scan skips and logs them; the model's rows all decode.
- Audit rows, telemetry, broadcasts, rate limits, review pages, HTTP and the SQL authorizer: no state the theorems speak of.
- External providers, transfers and job workers: only the rows queued in the command transaction are modelled.
