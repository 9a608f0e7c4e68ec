# DreamSSO: verified models of its state machines

Dafny models of the parts of DreamSSO whose correctness depends on whole runs rather than on one request, with proofs
about every input, every run or every reachable state. `dafny verify dfyconfig.toml` checks everything.

| Files | What they model |
|---|---|
| `Outbox*.dfy` | The durable event outbox: destination leases raced for by several workers, bounded batches, settlement as delivered, retried or dead, crashes at any point. `Outbox` has the tables and transactions, `OutboxProtocol` the interleaved steps and their invariant, `OutboxTheorems` the results, `OutboxStore` the store class and the delivery loop, `OutboxEffects` each transaction field by field. |
| `Role*.dfy` | The versioned role authority: three resolvers (`RoleTables`), the ledger and its events (`RolePublish`), catalog normal form, order and repair (`RoleCatalogs`), the inbox (`RoleSync`, `RoleSyncTheorems`), administration (`RoleAdmin`, `RoleClosure`), runs that mix all of them (`RoleRuns`), redelivery (`RoleReplay`, `RoleReplayRuns`), each operation row by row (`RolePublishEffects`, `RoleReportEffects`, `RoleAdminEffects`), and the loops that update the tables in place (`RoleStore`). |
| `Key*.dfy` | Signing-key rotation: the key table and its transactions (`KeyRotation`), commits in time (`KeyHistory`), the rotation service and the key-set cache (`KeyService`), each transaction row by row (`KeyEffects`). |
| `CanonicalJson.dfy`, `CanonicalParser.dfy` | The canonical printer that event identity rests on, and a parser that inverts it. |
| `Login*.dfy` | The sign-in transaction from `/authorize` to the code (`Login`), its invariants over runs (`LoginTheorems`), each request reply by reply (`LoginEffects`), guesses counted over runs (`LoginAttempts`), the handlers as they run (`LoginService`). |
| `Totp.dfy`, `EmailOtp.dfy`, `SendLimiter.dfy`, `EmailChange.dfy` | One-time codes, send limits and the linked key spaces of pending email changes. |

Code that changes state step by step appears twice: as a class whose methods are proved equal to a specification
function of the old state, and as that function, about which the theorems are proved. The `*Effects` modules say what each
operation does from the fields of the tables alone, without the functions that compute it. Tables and key spaces are maps,
transactions are atomic, and processes that really interleave (outbox workers, key-rotation processes) are step
relations with the database clock as an explicit, never decreasing input. Digests are injective, and random names
(tokens, sids, transaction ids) are fresh.

What the proofs found out about the code:

- A registration limiter denial can name a `retry_after` that is too long: when the wait would outlast the 24 h window,
  a retry succeeds as soon as the window ends. `SendLimiter.NoEarlierRetry` gives the exact condition and
  `SendLimiter.EarlierRetryCanSucceed` a reachable instance.
- Authenticator codes are one-time although their marker expires, provided a request spends at most 210 s between
  verifying a code and claiming its step; `Totp.StallBoundIsExact` shows that this is the exact bound.
- Key sets a relying party holds verify every live token when responses travel for at most 120.001 s after being
  answered (in whole milliseconds; the last one comes from the process cache's strict age limit) and signing plus
  commit delays stay within 23 h 45 min. `KeyHistory.HeldKeysVerifyTokens` needs nothing else, and
  `KeyHistory.DeliveryMarginIsTight` shows that one millisecond more of travel is too much.
- The canonical printer gives a number literal beyond the range of doubles (which a JSON parser turns into an infinity)
  the text of `null`. `CanonicalParser.CanonicalTextIdentifies` states text equality for all values with that one
  identification, and `CanonicalParser.InfinityReadsAsNull` exhibits it.
- A replayed inbox batch is not always harmless. A legacy (unrevisioned) report may replace the receipt of an earlier one
  with the same id, and redelivering the earlier one then undoes the later: `RoleReplay.ReplayCanDoHarm`.
  `RoleReplay.ReplayIsHarmlessExactly` and `RoleReplay.BatchReplayIsHarmlessExactly` give the exact condition for an
  event and for a batch, `RoleReplayRuns.ReachableReplayIsHarmlessExactly` carries it to every reachable state, and
  `RoleReplayRuns.PermanentReplayIsHarmless` shows that clients which report revisions are never affected.
- The wait that the daily limit of email codes reports ends one tick early: the strict comparison still refuses at that
  moment, with a wait of 0 (`EmailOtp.DailyWaitEndsOneTickEarly`). The reported cooldown is the shortest wait if and only
  if it ends before the day does (`EmailOtp.CooldownIsShortest`).

## Model

| member | source | states |
|---|---|---|
| `Outbox.NormalizedEvents` | src/events/outboxStore.ts:30-44 | Enqueueing succeeds only if every event is well formed and its wire form alone fits the size limit |
| `Outbox.BackoffDoubles` | src/events/outboxStore.ts:178-179 | The delay without jitter doubles with each failure from 60 s and stays at one hour |
| `Outbox.BackoffMs` | src/events/outboxStore.ts:178-179 | Every delay, jitter included, lies between 60 s and 3615 s |
| `Outbox.BatchSize` | src/events/outboxStore.ts:189-201 | The batch is the longest prefix of due rows within the count and byte limits, and one row when the head has failed before |
| `OutboxStore.BoundedBatch` | src/events/outboxStore.ts:189-201 | The loop that grows the array returns exactly that prefix |
| `OutboxRows.SettlePrefix` | src/events/outboxStore.ts:136-167 | Settling the first m pending rows of a destination keeps the order of all its rows, and its queue becomes what is left |
| `OutboxRows.SelectOther` | src/events/outboxStore.ts:146-161 | A settlement changes no row of any other destination |
| `OutboxProtocol.NextKeepsInv` | src/events/outboxStore.ts:47-175 | Every step of every worker and producer keeps order, attempts shape, lease ownership and claim validity |
| `OutboxProtocol.RunKeepsInv` | src/events/outboxStore.ts:47-238 | So does every run |
| `OutboxTheorems.InOrderDelivery` | src/events/outboxStore.ts:65-70 | In every run from an empty outbox, no row is delivered or dead while an earlier row of its destination is pending |
| `OutboxTheorems.DeliveredWasAcknowledged` | src/events/outboxStore.ts:225-235 | Only rows that a receiver acknowledged with 204 are ever marked delivered |
| `OutboxTheorems.SettledForever` | src/events/outboxStore.ts:146-161 | Rows are never lost or altered; delivered and dead rows never change again |
| `OutboxTheorems.OneOwner` | src/events/outboxStore.ts:136-145 | At most one worker can settle or renew a destination; without the live lease both change nothing |
| `OutboxTheorems.AttemptsShape` | src/events/outboxStore.ts:189-201 | Along every queue the attempts read k, 1, ..., 1, 0, ..., 0 |
| `OutboxTheorems.PoisonIsolation` | src/events/outboxStore.ts:155-161 | A row that dies of exhausted retries was sent alone at least 49 times before |
| `OutboxTheorems.BoundedSettlements` | src/events/outboxStore.ts:136-167 | Without new events, effective settlements and remaining attempts together never exceed the attempts left at the start |
| `OutboxTheorems.EverythingTerminates` | src/events/outboxStore.ts:203-247 | Once that many settlements took effect every row is delivered or dead |
| `OutboxTheorems.ClaimSucceeds` | src/events/outboxStore.ts:96-123 | From a computable moment on a destination with pending rows can be claimed, whoever died holding its lease |
| `OutboxTheorems.HeadFits` | src/events/outboxStore.ts:203-210 | A claimed batch is never empty: the `event_too_large` branch of delivery is unreachable for rows this code enqueued |
| `OutboxTheorems.CanAlwaysDrain` | src/events/outboxStore.ts:203-247 | From every reachable state some run settles every row and kills nothing that a usable endpoint is owed |
| `OutboxStore.AttemptIsRun` | src/events/outboxStore.ts:203-238 | One delivery attempt, with all its branches, is a run of the protocol |
| `OutboxStore.PostgresOutboxStore.InsertEvents` | src/events/outboxStore.ts:47-63 | All events become pending rows in order, or a conflicting id leaves the tables unchanged |
| `OutboxStore.PostgresOutboxStore.Claim` | src/events/outboxStore.ts:96-123 | Takes the lease and the head of the queue, or gives the lease back when the head is not due |
| `OutboxStore.PostgresOutboxStore.Renew` | src/events/outboxStore.ts:125-134 | Extends only a live lease of an enabled client with an unchanged endpoint |
| `OutboxStore.PostgresOutboxStore.Settle` | src/events/outboxStore.ts:136-167 | Applies an outcome under the live lease, otherwise changes nothing |
| `OutboxStore.PostgresOutboxStore.ReleaseLease` | src/events/outboxStore.ts:169-175 | Clears the lease of its owner and schedules the destination by its new head |
| `OutboxStore.PostgresOutboxStore.DeliverDestination` | src/events/outboxStore.ts:203-238 | One attempt leaves the tables as specified and reports true exactly for an acknowledged, recorded batch |
| `OutboxStore.PostgresOutboxStore.DrainDestination` | src/events/outboxStore.ts:241-247 | At most eight attempts, stopping at the first that does not deliver |
| `OutboxEffects.ValidationIsExact` | src/events/outboxStore.ts:30-44 | A list of events passes validation if and only if each is well formed, of a sane version and small enough by itself |
| `OutboxEffects.RowsAreInserted` | src/events/outboxStore.ts:47-63 | An insert appends only new, untried rows that are due at once, and afterwards every event is stored |
| `OutboxEffects.NewEventsKeepTheirOrder` | src/events/outboxStore.ts:47-63 | Distinct new events become one row each, in the order of the list |
| `OutboxEffects.RefusedOnlyForAConflict` | src/events/outboxStore.ts:52-61 | An insert is refused only if one id stands for two different things |
| `OutboxEffects.ErrorsAreNamed` | src/events/outboxStore.ts:30-44 | A list of events is refused with the error of its first bad event: invalid, or else too large |
| `OutboxEffects.EnqueueIsExact` | src/events/outboxStore.ts:47-63 | An enqueueing is refused for a bad event or a conflict and then changes nothing; otherwise it stores the events and creates a missing destination, due at once |
| `OutboxEffects.ClaimIsExact` | src/events/outboxStore.ts:96-111 | A destination is claimed if and only if it is due, no live lease holds it, and its oldest pending row is due |
| `OutboxEffects.ClaimHandsOut` | src/events/outboxStore.ts:103-122 | A claim takes a lease of 30 s and hands out the oldest hundred pending rows with the endpoint as it stands |
| `OutboxEffects.FruitlessClaimSleeps` | src/events/outboxStore.ts:112-118 | A claim that finds nothing due gives its lease back and sleeps until the head of the queue is due |
| `OutboxEffects.RenewalIsExact` | src/events/outboxStore.ts:125-134 | A lease is renewed for 30 s if and only if it lives, its client is enabled and its endpoint is the claimed one |
| `OutboxEffects.BatchIsLongest` | src/events/outboxStore.ts:189-201 | Byte by byte: every due row from the front that fits 64 KiB, a hundred at most, a head that failed before alone, and no batch could be longer |
| `OutboxEffects.JitterIsAdded` | src/events/outboxStore.ts:178-179 | The delay is its exponential part, at most an hour, plus the jitter |
| `OutboxEffects.OutcomeIsExact` | src/events/outboxStore.ts:225-235 | Only a 204 delivers; everything else is a retry with the delay of one more failure |
| `OutboxEffects.SettlementIsExact` | src/events/outboxStore.ts:136-167 | Row by row and field by field: a retry adds one attempt, postpones by exactly its delay and kills at the fiftieth; deliveries and kills change the status alone; the destination remembers at most 50 failures, none after anything but a retry, and sleeps until its new head is due |
| `OutboxEffects.RetryPostponesTheDestination` | src/events/outboxStore.ts:155-166 | After a retry the surviving head and its destination are due exactly after the delay |
| `OutboxEffects.NothingIsTriedEarly` | src/events/outboxStore.ts:96-111 | Whatever producers and workers do, a sleeping destination is not claimed before its time |
| `OutboxEffects.RetriesWait` | src/events/outboxStore.ts:155-166 | No run sends a retried batch again before its delay is over: until then every claim of the destination fails |
| `OutboxEffects.AttemptGivesUp` | src/events/outboxStore.ts:203-222 | Without a claim, or with a lease that cannot be renewed, nothing is sent and nothing is settled |
| `OutboxEffects.UnsentBatchIsSettled` | src/events/outboxStore.ts:211-219 | A batch with nowhere to go dies and one that cannot be signed is retried; neither counts as a success |
| `OutboxEffects.PromptAttemptSettles` | src/events/outboxStore.ts:203-238 | An answered attempt within its lease is recorded: success exactly for a 204, otherwise the batch is postponed by the next delay |
| `OutboxEffects.HistoryIsExact` | src/events/outboxStore.ts:225-235 | What the theorems count: an acknowledgement for exactly the events a 204 answered, a lone retry for exactly the event retried alone |
| `OutboxEffects.WorkersFollowTheLoop` | src/events/outboxStore.ts:203-238 | A claim is sent only after its renewal, answered only after it is sent, settled only after its answer |
| `OutboxEffects.PassEndsWithFirstFailure` | src/events/outboxStore.ts:240-247 | A pass over a destination makes one attempt after another and ends with the first that does not deliver, and only there |
| `OutboxEffects.StepsArePossible` | src/events/outboxStore.ts:203-238 | Which steps a run may take: everything the worker's place in its loop allows, in any order among workers and producers |
| `OutboxEffects.SurroundingsAreExact` | src/events/outboxStore.ts:203-222 | A worker may crash and an endpoint may change at any time; neither touches the queues |
| `RoleTables.JoinDecides` | src/rbac/appRoles.ts:18-37 | The lookups with early returns and the joined CASE of the access-state query give the same role and source |
| `RoleTables.CteDecides` | src/rbac/roleChanges.ts:69-84 | The publish CTE, with its inner joins on accounts and catalog, has a row exactly for the existing accounts of a managed client, and resolves it as the lookups and the access-state query do |
| `RoleTables.ResolversAgree` | src/backchannel/accessStateStore.ts:9-67 | The access-state snapshot reports the looked-up role; a null override never falls through |
| `RoleTables.ResolvedIsPublished` | src/rbac/roleChanges.ts:69-84 | Without dangling references the published role is the resolved one and `unknown_role` cannot occur |
| `RoleTables.GatesCoincide` | src/rbac/appRoles.ts:50-71 | Sign-in gate, access-state `allowed` of an active account and a non-null published role coincide |
| `RoleTables.Sorted` | src/rbac/roleChanges.ts:68 | Clients and subjects are visited once each, in increasing order |
| `RolePublish.PublishRepairs` | src/rbac/roleChanges.ts:63-104 | After publishing, every covered ledger row carries the resolved role, and rows that agreed before still do |
| `RolePublish.PublishKeeps` | src/rbac/roleChanges.ts:63-104 | Publishing keeps ledger, revisions and events consistent, only appends events and only raises revisions |
| `RolePublish.PublishAllKeeps` | src/rbac/roleChanges.ts:67-104 | The same for a call over several clients |
| `RolePublish.ReceivedIsHighest` | src/rbac/roleChanges.ts:87-93 | A receiver that keeps the maximum revision holds some message of the subject than which none is later |
| `RolePublish.ReceiverConverges` | src/rbac/roleChanges.ts:63-104 | Under any reordering and duplication that includes the latest event, a receiver ends with the resolved role |
| `RolePublish.HighestEventCarriesTheRole` | src/rbac/roleChanges.ts:63-104 | The highest-revision event of a subject carries the ledger role, which is the resolved role |
| `RolePublish.SnapshotIsCurrent` | src/backchannel/accessStateStore.ts:38-67 | An event at or below a snapshot's revision, whenever it is seen, was queued before the snapshot |
| `RolePublishEffects.ResolutionIsExact` | src/rbac/appRoles.ts:18-37 | A personal override, null included, else the org role's default, null included, else the catalog's default |
| `RolePublishEffects.LevelIsExact` | src/rbac/appRoles.ts:39-48 | A role ranks by its catalog row; no role and an unlisted one rank below everything |
| `RolePublishEffects.GateIsExact` | src/rbac/appRoles.ts:50-71 | Unmanaged clients admit everybody, managed ones exactly those whose resolved role their catalog lists |
| `RolePublishEffects.AccessStateIsExact` | src/backchannel/accessStateStore.ts:51-65 | Every field of one access state, for unknown, deleted, suspended and active accounts, managed and unmanaged clients, listed and unlisted roles |
| `RolePublishEffects.SnapshotIsExact` | src/backchannel/accessStateStore.ts:38-67 | A snapshot answers for each subject in order; only a managed client's carries epoch and revision |
| `RolePublishEffects.SyncRowIsExact` | src/rbac/roleChanges.ts:41-51 | The row a first publication creates: legacy, without digest, at revision 0, with the catalog's time |
| `RolePublishEffects.PublicationIsDecidedExactly` | src/rbac/roleChanges.ts:63-104 | A publication takes exactly one revision if somebody must be told, fails if there is none left, and otherwise changes nothing; forced subjects are always told |
| `RolePublishEffects.LedgerIsExact` | src/rbac/roleChanges.ts:69-101 | Exactly the told subjects get a ledger row, with their listed role and the new revision; every other row stays |
| `RolePublishEffects.EventsAreExact` | src/rbac/roleChanges.ts:86-95 | One event for each told subject and for nobody else, in increasing subject order, with role, epoch and the new revision |
| `RolePublishEffects.CallsFollowInTurn` | src/rbac/roleChanges.ts:67-104 | Several clients are published one after another, and the first failure is the call's |
| `RoleCatalogs.NormalFormIsCanonical` | src/backchannel/rolesSync.ts:42-69 | An accepted report is strictly sorted, lists exactly its rows, has a listed default, and does not depend on their order |
| `RoleCatalogs.StoreAndList` | src/backchannel/rolesSync.ts:190-194 | Storing a normalized list and reading it back in id order gives it back: the migration baseline compares like with like |
| `RoleCatalogs.RedirectDemotes` | src/backchannel/rolesSync.ts:196-208 | A reference redirected by a removal lands on a strictly less privileged listed role or on denial |
| `RoleCatalogs.UpdateExtends` | src/backchannel/rolesSync.ts:199-208 | One UPDATE of the loop extends the simultaneous substitution by one role and touches no reference already moved |
| `RoleCatalogs.RedirectRemoved` | src/backchannel/rolesSync.ts:199-208 | The sequential UPDATE loop over both tables equals one simultaneous substitution |
| `RoleCatalogs.ReplaceRows` | src/backchannel/rolesSync.ts:209-215 | Upserting the report and deleting the rest leaves exactly the reported table |
| `RoleCatalogs.FindTop` | src/backchannel/rolesSync.ts:228-229 | The reduction returns the most privileged role |
| `RoleCatalogs.TopIsBest` | src/backchannel/rolesSync.ts:228-229 | No role of the report has a smaller level, or the same level and a smaller id |
| `RoleCatalogs.CatalogKeepsReferences` | src/backchannel/rolesSync.ts:196-243 | No reference dangles after a report if none did before |
| `RoleCatalogs.CatalogKeepsOthers` | src/backchannel/rolesSync.ts:178-248 | A report changes no resolution of any other client |
| `RoleCatalogs.OverrideOutranksRoot` | src/backchannel/rolesSync.ts:226-243 | A personal override, null included, wins over the root default that a report stores |
| `RoleCatalogs.RootGetsTop` | src/backchannel/rolesSync.ts:226-243 | A member of a level-0 role without an override resolves to the top role of the report |
| `RoleSync.BoundEventsChangeNothing` | src/backchannel/rolesSync.ts:150-154 | Events whose receipts hold their digests change nothing |
| `RoleSync.ProcessBinds` | src/backchannel/rolesSync.ts:154-174 | An accepted event binds its own receipt and no other, and replaces one only where the source allows it |
| `RoleSync.AcceptedEventIsBound` | src/backchannel/rolesSync.ts:133-176 | After an accepted batch with distinct ids every event of it is bound |
| `RoleSync.ReplayChangesNothing` | src/backchannel/rolesSync.ts:133-176 | Redelivering an accepted batch in any later envelope, its receipts standing, changes nothing or is rejected |
| `RoleReplay.DeliveryIsHarmlessExactly` | src/backchannel/rolesSync.ts:133-176 | In any state, delivering an event never changes anything, in any envelope, if and only if its receipt is its own, or the receipt or epoch check refuses it, or a revisioned client's order rejects it or leaves it unbound |
| `RoleReplay.ReplayIsHarmlessExactly` | src/backchannel/rolesSync.ts:150-163 | Redelivering an accepted event is harmless if and only if the receipt still holds it, or may not be replaced by it, or the client is revisioned and the report is not |
| `RoleReplay.ReplayCanDoHarm` | src/backchannel/rolesSync.ts:155-163 | A legacy client's earlier report, redelivered unchanged after a later one with the same id, is accepted and undoes it |
| `RoleReplay.BatchReplayIsHarmlessExactly` | src/backchannel/rolesSync.ts:133-176 | Redelivering an accepted batch is harmless if and only if every receipt still holds its event or some event is refused |
| `RoleReplayRuns.RunKeeps` | src/backchannel/rolesSync.ts:155-174 | Over any run settled receipts stay settled, and those of other events or of revisioned clients stay as they are |
| `RoleReplayRuns.ReachableReplayIsHarmlessExactly` | src/backchannel/rolesSync.ts:133-176 | The batch condition, in every state reachable after acceptance by any run of calls, reports and other changes |
| `RoleReplayRuns.PermanentReplayIsHarmless` | src/backchannel/rolesSync.ts:133-176 | For a revisioned client, and for batches without reports, an accepted batch is harmless in every later reachable state |
| `RoleSync.ReceiptsArePermanent` | src/backchannel/rolesSync.ts:155-163 | Receipts of other events, and all receipts of a revisioned client, are never replaced |
| `RoleSync.VersionOnlyAdvances` | src/backchannel/rolesSync.ts:102-115 | Once a client is revisioned its mode and epoch stay and its revision never falls |
| `RoleSyncTheorems.ApplyKeepsSound` | src/backchannel/rolesSync.ts:178-248 | Applying a report keeps ledger, events, references and the stored digest sound |
| `RoleSyncTheorems.ProcessAllKeepsSound` | src/backchannel/rolesSync.ts:133-176 | So does a whole batch |
| `RoleSyncTheorems.ToldReportConverges` | src/backchannel/rolesSync.ts:102-124 | An accepted report leaves the client at the higher of the two revisions with that revision's content |
| `RoleSyncTheorems.FirstRevisionIsAdopted` | src/backchannel/rolesSync.ts:183-195 | The first accepted revisioned report takes a legacy client over, whatever was stored |
| `RoleSyncTheorems.ReportsConverge` | src/backchannel/rolesSync.ts:133-248 | Any order and multiplicity of batches ends with roles and default of the highest accepted revision; rejected ones leave no trace |
| `RoleSyncTheorems.ToldReportsAreAccepted` | src/backchannel/rolesSync.ts:133-176 | With consistent ids, a current envelope and a live client, such reports are never rejected except for an exhausted revision counter |
| `RoleReportEffects.ReportIsAcceptedExactly` | src/backchannel/rolesSync.ts:42-69 | A report is accepted if and only if it has at most 500 well-formed rows of distinct ids, a numeric or absent default and a proper version |
| `RoleReportEffects.ReportKeepsItsFields` | src/backchannel/rolesSync.ts:42-69 | Its default is kept if and only if a row lists it; name and version are kept |
| `RoleReportEffects.RevisionedOrderIsExact` | src/backchannel/rolesSync.ts:102-115 | For a revisioned client: epoch first, then higher applies, lower is stale, and the same revision must be the same report |
| `RoleReportEffects.LegacyOrderIsExact` | src/backchannel/rolesSync.ts:116-124 | For a legacy client: a first report and a first revision apply; otherwise the envelope's time decides, and at the same second the contents |
| `RoleReportEffects.IgnoredReportChangesNothing` | src/backchannel/rolesSync.ts:178-195 | A report that is stale, or the same with nothing left to tell, changes nothing |
| `RoleReportEffects.ReportMovesOverrides` | src/backchannel/rolesSync.ts:196-208 | From ids and levels alone: after an applied report each override that named a removed role is the report's default if that exists and has a larger level number, else null; all others stay |
| `RoleReportEffects.ReportMovesOrgDefaults` | src/backchannel/rolesSync.ts:196-243 | The same for org defaults, except that level-0 org roles get the most privileged reported role |
| `RoleReportEffects.ReportReplacesTheCatalog` | src/backchannel/rolesSync.ts:209-225 | Afterwards the catalog holds exactly the reported roles, default and time; no other table changes but the two that hold references and a reported client name |
| `RoleReportEffects.ReportTells` | src/backchannel/rolesSync.ts:226-247 | Everybody is told at the first reconciliation and at the adoption of revisions; members of level-0 roles whose default was set or changed are always told |
| `RoleReportEffects.OtherEventIsExact` | src/backchannel/rolesSync.ts:141-174 | An event of another type is acknowledged once, and anything else under its id is a conflict |
| `RoleReportEffects.ReportEventIsExact` | src/backchannel/rolesSync.ts:139-174 | A report event meets the epoch check, then its receipt, then the order; the receipt is bound except for a stale report under a receipt without digest |
| `RoleReportEffects.BatchesAreInDate` | src/backchannel/rolesSync.ts:126-141 | A batch is accepted only from an enabled client, and only if its envelope is current at every reading of the clock |
| `RoleReportEffects.EventsFollowInTurn` | src/backchannel/rolesSync.ts:139-176 | The first refused event is the batch's refusal; accepted ones are applied in turn |
| `RoleSyncTheorems.ToldBatchIsAccepted` | src/backchannel/rolesSync.ts:133-176 | With room in the revision counter such a batch is accepted, and ids, client and room are left as the next batch needs them |
| `RoleSyncTheorems.DeliveredReportsReachTheMaximum` | src/backchannel/rolesSync.ts:102-248 | Any order and multiplicity of consistent, current batches to a live client with room in its counter is accepted and ends with roles and default of the highest revision delivered |
| `RoleSyncTheorems.HighestIsMaximal` | src/backchannel/rolesSync.ts:109-115 | No revision held or delivered is above the one reached |
| `RoleSyncTheorems.HighestIsReached` | src/backchannel/rolesSync.ts:109-115 | The revision reached was held or delivered |
| `RoleAdmin.ComputeGranted` | src/rbac/index.ts:28-32 | The loop over the permission catalog computes override, else role effect, else deny |
| `RoleAdmin.CopiedRow` | src/rbac/roleAdministration.ts:184-187 | Seeding a new org role copies exactly the rows of the seed role |
| `RoleClosure.UserIsWritten` | src/rbac/roleAdministration.ts:103-115 | Key by key, the writes of a user change set what was asked for and nothing else |
| `RoleClosure.RoleIsWritten` | src/rbac/roleAdministration.ts:148-156 | The same for an org role |
| `RoleClosure.UserAccessCloses` | src/rbac/roleAdministration.ts:59-121 | An accepted user change leaves the actor's standing alone; the target ends no more privileged than the actor per application and strictly below in level |
| `RoleClosure.RoleAccessCloses` | src/rbac/roleAdministration.ts:123-159 | The same for every member of a changed org role |
| `RoleClosure.CallCloses` | src/rbac/roleAdministration.ts:59-269 | The same for every administrative call |
| `RoleClosure.AcceptedCallsAreAuthorized` | src/rbac/roleAdministration.ts:22-43 | Whoever gets a call accepted is active, holds every permission it needs and strictly outranks everything it touches or hands out |
| `RoleClosure.CallKeepsPermissions` | src/rbac/roleAdministration.ts:59-159 | A permission effect changes only by the hand of one who holds it, for the one exempt key, or through a move to another org role |
| `RoleClosure.CallKeepsKeys` | src/rbac/roleAdministration.ts:59-269 | Memberships, defaults and overrides keep naming existing rows of managed clients |
| `RoleClosure.SingleActorClosure` | src/rbac/roleAdministration.ts:59-269 | No sequence of calls by one actor changes its own org role, level, permissions or application roles, or lifts any existing user above it |
| `RoleRuns.CallKeepsReferences` | src/rbac/roleAdministration.ts:86-188 | No administrative call stores a role that the catalog does not list |
| `RoleRuns.CallRepublishes` | src/rbac/roleAdministration.ts:116-157 | Everybody whose resolved role a call changes is covered by the publication the call makes |
| `RoleRuns.AdminKeepsInv` | src/rbac/roleAdministration.ts:59-269 | Every accepted call keeps ledger, events, references and foreign keys sound |
| `RoleRuns.ReportKeepsInv` | src/backchannel/rolesSync.ts:133-248 | Every delivered batch keeps them sound |
| `RoleRuns.RunKeepsInv` | src/rbac/roleChanges.ts:18-39 | So does every run of calls, batches, registrations and account or client changes; events are only appended and revisions only rise |
| `RoleRuns.UnknownRoleIsUnreachable` | src/backchannel/accessStateStore.ts:38-67 | In every state reachable from a fresh installation no reference dangles and `unknown_role` is not reported |
| `RoleRuns.StepIsExact` | src/rbac/roleChanges.ts:18-39 | What a run's steps do: calls and batches commit or leave no trace, accounts and clients are registered, disabled and deleted, never removed |
| `RoleRuns.ReceiversConverge` | src/rbac/roleChanges.ts:63-104 | After any run a receiver of any reordering of a client's events, the latest included, holds the resolved role |
| `RoleRuns.SnapshotIsNeverContradicted` | src/backchannel/accessStateStore.ts:38-67 | Whatever runs after a snapshot of revision R, the newest event at or below R carries the snapshot's role and epoch |
| `RoleStore.AnnounceParts` | src/rbac/roleChanges.ts:90-101 | Writing events and ledger rows in chunks equals writing them at once |
| `RoleStore.RoleStore.EnsureRoleSyncState` | src/rbac/roleChanges.ts:41-51 | Creates the sync row on first use, seeded with the catalog's time, and fails only for an unknown client |
| `RoleStore.RoleStore.AnnounceChunks` | src/rbac/roleChanges.ts:90-101 | The loop over chunks of 100 queues every event and writes every ledger row |
| `RoleStore.RoleStore.SelectChanged` | src/rbac/roleChanges.ts:69-86 | The query and the filter over its rows select exactly the subjects whose ledger row is missing, different or forced |
| `RoleStore.RoleStore.PublishOne` | src/rbac/roleChanges.ts:68-102 | One client's publication: nothing for an empty change, otherwise one revision for all of it |
| `RoleStore.RoleStore.PublishRoleChanges` | src/rbac/roleChanges.ts:63-104 | The loop over distinct sorted clients publishes as specified and counts the changed rows |
| `RoleStore.RoleStore.StoreReport` | src/backchannel/rolesSync.ts:196-243 | The loops of an accepted report leave the tables and the forced subjects as specified |
| `RoleStore.RoleStore.ApplyReport` | src/backchannel/rolesSync.ts:178-248 | One report decides, stores and publishes as specified |
| `RoleStore.RoleStore.ProcessOne` | src/backchannel/rolesSync.ts:139-174 | One event with all its early exits |
| `RoleStore.RoleStore.ProcessIncomingEvents` | src/backchannel/rolesSync.ts:133-176 | A batch is applied event by event, and any failure restores the state before it |
| `RoleStore.RoleStore.ChangeUser` | src/rbac/roleAdministration.ts:59-121 | Validates everything before the first write; a failure leaves the tables unchanged |
| `RoleStore.RoleStore.ChangeRole` | src/rbac/roleAdministration.ts:123-159 | The same for an org role |
| `RoleStore.RoleStore.Administer` | src/rbac/roleAdministration.ts:59-269 | Every call commits as specified or changes nothing |
| `RoleStore.CheckPerms` | src/rbac/roleAdministration.ts:81-84 | The validation loop over permissions stops at the first refused entry |
| `RoleStore.CheckUserApps` | src/rbac/roleAdministration.ts:88-97 | The validation loop over a user's application roles |
| `RoleStore.CheckRoleApps` | src/rbac/roleAdministration.ts:136-147 | The validation loop over an org role's defaults |
| `RoleStore.CheckMoves` | src/rbac/roleAdministration.ts:98-106 | A move is allowed exactly if it is for every managed client |
| `RoleStore.WriteRows` | src/rbac/roleAdministration.ts:107-115 | The upsert-or-delete loop |
| `RoleAdminEffects.GrantIsExact` | src/rbac/index.ts:17-38 | A permission is held by a personal grant, or by the org role's grant without a personal effect |
| `RoleAdminEffects.UserCallIsCheckedExactly` | src/rbac/roleAdministration.ts:59-104 | A user change is accepted if and only if actor, target, org role, every permission, every application role and every silently moved application are allowed |
| `RoleAdminEffects.RoleCallIsCheckedExactly` | src/rbac/roleAdministration.ts:123-149 | An org role change is accepted if and only if actor, org role, every permission and every application default are allowed |
| `RoleAdminEffects.LifecycleIsCheckedExactly` | src/rbac/roleAdministration.ts:167-264 | The same for creating, editing, deleting and choosing org roles and for creating users |
| `RoleAdminEffects.UserRefusalsAreNamed` | src/rbac/roleAdministration.ts:59-82 | Which refusal a user change gets, in the order of the checks |
| `RoleAdminEffects.AppRefusalsAreNamed` | src/rbac/roleAdministration.ts:86-95 | Which refusal one application entry gets |
| `RoleAdminEffects.LifecycleRefusalsAreNamed` | src/rbac/roleAdministration.ts:167-242 | Which refusal the other calls get |
| `RoleAdminEffects.CreationIsExact` | src/rbac/roleAdministration.ts:167-191 | A new org role gets exactly the permissions and application defaults of the default org role; nothing else changes |
| `RoleAdminEffects.DeletionIsExact` | src/rbac/roleAdministration.ts:220-232 | A deleted org role takes exactly its permissions and application defaults with it |
| `RoleAdminEffects.EditIsExact` | src/rbac/roleAdministration.ts:193-218 | An edit sets the supplied fields of one org role and nothing else |
| `RoleAdminEffects.ChoiceAndUserAreExact` | src/rbac/roleAdministration.ts:234-269 | Choosing the default and creating a user set one field and one row each |
| `RoleAdminEffects.LifecycleIsSilent` | src/rbac/roleAdministration.ts:167-269 | These five calls touch the tables alone: nothing is published |
| `RoleAdminEffects.UserChangeIsPublished` | src/rbac/roleAdministration.ts:117 | A move publishes every managed client, any other user change the named ones, once each in increasing order and for the target alone |
| `RoleAdminEffects.RoleChangeIsPublished` | src/rbac/roleAdministration.ts:157 | A change of an org role publishes the named clients for everybody |
| `KeyRotation.ExecuteKeepsInv` | src/signingKeyRotation.ts:33-110 | Every transaction keeps at most one current and one next key and every key's life in order; its own reads are always accepted |
| `KeyRotation.RowsOnlyAge` | src/signingKeyRotation.ts:59-78 | No row disappears, and each moves only from unmarked to marked to current to retired |
| `KeyRotation.ReconcileActivatesOnlyItsKey` | src/signingKeyRotation.ts:59-78 | A stale kid changes nothing; a reconciliation activates only the kid it names, at least 300 s after its marker |
| `KeyRotation.RepeatedScheduleAddsNothing` | src/signingKeyRotation.ts:98-107 | Scheduling while a key is pending adds no key |
| `KeyRotation.PendingAbsorbsSchedules` | src/signingKeyRotation.ts:98-110 | No number of scheduling calls by any processes changes the table while a key is pending |
| `KeyRotation.ExactlyOneCurrent` | src/signingKeyRotation.ts:33-110 | After any interleaving with lost commits there is exactly one current and at most one next key |
| `KeyRotation.RetirementIsFinal` | src/signingKeyRotation.ts:74-75 | A retired row never changes again |
| `KeyHistory.EveryKeyHasProvenance` | src/signingKeyRotation.ts:64-71 | A marked key was already committed at its marker; an unmarked signing key is older than every published set |
| `KeyHistory.SignerWasPublished` | src/signingKeyRotation.ts:59-78 | A key that signs at q was readable in every non-empty state from 300 s before q on |
| `KeyHistory.RetiredLate` | src/signingKeyRotation.ts:74-75 | A key that still signed at q carries a retirement stamp later than q less the commit delay |
| `KeyHistory.HeldKeysVerifyTokens` | src/keys.ts:72-97 | Any key set a relying party may still hold when it verifies an unexpired token contains the token's key |
| `KeyHistory.DeliveryMarginIsTight` | src/routes/jwks.ts:14 | One millisecond more of travel than the bound, within both cache limits, and a held key set misses the key of a fresh token |
| `KeyService.SigningKeyRotation.Transact` | src/signingKeyRotation.ts:45-49 | A transaction commits its result or leaves the table unchanged, and time passes as its visit says |
| `KeyService.SigningKeyRotation.Reconcile` | src/signingKeyRotation.ts:59-78 | One maintenance transaction after the visits of other processes; it fails exactly when it is lost, and a table with a current key keeps one |
| `KeyService.SigningKeyRotation.FirstKey` | src/signingKeyRotation.ts:80-83 | An empty table gets its first key exactly unless that commit is lost, and the table read next has a current key whatever others committed in between |
| `KeyService.SigningKeyRotation.Current` | src/signingKeyRotation.ts:79-92 | The answer is the current key of the last read, whatever other processes did in between; a pending key that needs help is reconciled once, after and before the visits of others, and a strict call answers none exactly when that is lost; in an undisturbed call a due key becomes current and is the answer, an unmarked one is marked |
| `KeyService.SigningKeyRotation.HelpAlong` | src/signingKeyRotation.ts:84-91 | A table whose pending key is unmarked or due gets one reconciliation of exactly that key; any other table gets none |
| `KeyService.SigningKeyRotation.Others` | src/signingKeyRotation.ts:45-49 | Other processes' visits between two of a call's own take effect in turn |
| `KeyService.SigningKeyRotation.Status` | src/signingKeyRotation.ts:93-97 | A strict call of the signer and one more read: the status describes current and pending key of that read, and is missing exactly when the help was needed and lost |
| `KeyService.SigningKeyRotation.Schedule` | src/signingKeyRotation.ts:98-110 | Scheduling, marking and reporting under interference loses no key and describes the table it read; undisturbed, it leaves a marked pending key |
| `KeyService.JwksCache.GetJwks` | src/keys.ts:76-97 | Every answer is a real past key set read less than 60 s ago; a stalled or empty read answers nothing |
| `KeyService.JwksCache.Invalidate` | src/keys.ts:99-101 | An invalidation empties the cache |
| `KeyService.CacheSurvives` | src/keys.ts:73-97 | A cached key set stays a snapshot of the past after other processes commit |
| `KeyService.AnswersStayTrue` | src/keys.ts:76-101 | Along any run of requests, invalidations and commits of others every answer ever given is a young snapshot of the final history |
| `KeyService.AnsweredKeysVerifyTokens` | src/keys.ts:51-97 | From signer to verifier: an answered key set, held for 120 s plus delivery, verifies every unexpired token |
| `KeyService.EveryAnswerVerifiesTokens` | src/keys.ts:51-101 | The same for every answer of such a run, whenever it was given |
| `KeyService.SigningKeyRotation.Publish` | src/signingKeyRotation.ts:98-108 | The scheduling transaction adds one unmarked key unless one is pending |
| `KeyService.SigningKeyRotation.MarkAndReport` | src/signingKeyRotation.ts:104-110 | The maintenance of a scheduling call marks the pending key unless another process or a lost commit comes between |
| `KeyService.TwoCallsCompleteTheRotation` | src/signingKeyRotation.ts:79-92 | A scheduled key becomes the answer after two undisturbed calls of the signer 300 s apart |
| `KeyService.SchedulingCompletes` | src/signingKeyRotation.ts:98-110 | An undisturbed scheduling call leaves a pending key that is marked |
| `KeyEffects.BootstrapIsExact` | src/signingKeyRotation.ts:50-58 | A first key is created exactly in an empty table; keys without a current one are refused |
| `KeyEffects.ScheduleIsExact` | src/signingKeyRotation.ts:98-107 | Scheduling adds one unmarked pending key to a table without one |
| `KeyEffects.ReconcileIsExact` | src/signingKeyRotation.ts:59-78 | Row by row: an unmarked key named is marked with its activation 300 s later, a due one becomes current and retires its predecessor, anything else changes nothing |
| `KeyEffects.PublishedIsExact` | src/keys.ts:76-91 | A key set holds the pending and the current keys and those retired less than 24 h ago |
| `KeyEffects.ServeIsExact` | src/keys.ts:76-97 | A cached answer is used while it is younger than 60 s; otherwise a read of at most 5 s that finds keys is cached from its start |
| `KeyEffects.ReactionIsExact` | src/keys.ts:76-101 | Every answer given is on record, and an invalidation makes the next request read the table |
| `KeyEffects.CommitsFollow` | src/signingKeyRotation.ts:45-49 | Each transaction reads what the one before left, after that became visible, and none is visible before its statements ran |
| `KeyEffects.VisitIsExact` | src/signingKeyRotation.ts:45-49 | One visit of a process reads, writes and commits in this order; a lost or failed one leaves the table as it was |
| `KeyEffects.VisitsFollow` | src/signingKeyRotation.ts:45-49 | Visits take effect one after another, a call's own after those of the others |
| `KeyEffects.ReadsSeeTheLastCommit` | src/signingKeyRotation.ts:33-43 | A read sees the rows of the last commit made by then |
| `KeyEffects.ReadIsExact` | src/signingKeyRotation.ts:33-43 | A transaction's read accepts exactly the tables with at most one current and one next key and complete markers |
| `KeyEffects.UnreadableTablesStop` | src/signingKeyRotation.ts:33-49 | A refused read stops every transaction |
| `CanonicalJson.CanonicalPrints` | src/backchannel/rolesSync.ts:71-80 | The printer succeeds exactly for values nested at most 64 deep and prints their canonical form |
| `CanonicalParser.StringsInvert` | src/backchannel/rolesSync.ts:74-76 | Reading an escaped string back gives it unchanged, lone surrogates included, and stops at its closing quote |
| `CanonicalParser.ParserInvertsPrinter` | src/backchannel/rolesSync.ts:71-80 | Parsing printed text gives the value back and leaves exactly the following text |
| `CanonicalParser.CanonDecides` | src/backchannel/rolesSync.ts:71-80 | Two values have one canonical form exactly when they agree up to key order |
| `CanonicalParser.CanonicalTextParses` | src/backchannel/rolesSync.ts:71-80 | Printing then parsing gives the canonical form, on any following text |
| `CanonicalParser.CanonicalTextIdentifies` | src/backchannel/rolesSync.ts:71-80 | Two printed texts are equal if and only if the values agree up to key order, an infinity reading as null |
| `CanonicalParser.InfinityReadsAsNull` | src/backchannel/rolesSync.ts:77 | The printed text of an infinity is that of null |
| `CanonicalParser.InboxTextIdentifies` | src/backchannel/rolesSync.ts:85-87 | Two inbox digests cover equal texts exactly when types are equal and payloads agree up to key order |
| `CanonicalParser.EscapeIsExact` | src/backchannel/rolesSync.ts:74-76 | Which units of a string are escaped, and how |
| `CanonicalParser.PairIsKept` | src/backchannel/rolesSync.ts:74-76 | A surrogate pair is written as it is |
| `CanonicalParser.UnicodeIsExact` | src/backchannel/rolesSync.ts:74-76 | The long escape is a backslash, u and four lower-case hexadecimal digits of the unit's value |
| `CanonicalParser.LexemeIsExact` | src/backchannel/rolesSync.ts:77 | Which texts count as numbers |
| `CanonicalParser.LessIsLexicographic` | src/backchannel/rolesSync.ts:78-79 | Keys are ordered by their first difference in code units, a prefix first |
| `CanonicalParser.KeysAreSorted` | src/backchannel/rolesSync.ts:78-79 | The keys of a printed object strictly increase |
| `CanonicalParser.ArrayTextIsExact` | src/backchannel/rolesSync.ts:77-78 | The text of an array, from the texts of its items |
| `CanonicalParser.ObjectTextIsExact` | src/backchannel/rolesSync.ts:78-80 | The text of an object, from the texts of its fields, in either order of theirs |
| `CanonicalParser.SmallTextsAreExact` | src/backchannel/rolesSync.ts:71-80 | The texts of empty containers, of the words and of the empty string |
| `LoginTheorems.FinishKeeps` | src/routes/authorize.ts:66-83 | A session may be opened once per transaction, never by a step-up, only with factors verified in it |
| `LoginTheorems.AuthorizeKeeps` | src/routes/authorize.ts:217-366 | Silent reuse and step-up keep provenance and phases |
| `LoginTheorems.AdminDoorKeeps` | src/routes/admin.ts:101-140 | So does the admin door |
| `LoginTheorems.PostLoginKeeps` | src/routes/authorize.ts:389-446 | So does the password form |
| `LoginTheorems.PostPasskeyKeeps` | src/routes/authorize.ts:515-562 | So does a first-factor passkey |
| `LoginTheorems.SendEmailKeeps` | src/routes/authorize.ts:567-600 | So does sending an email code |
| `LoginTheorems.PostChallengeKeeps` | src/routes/authorize.ts:605-728 | So does an answer to a challenge, by every method and in every mode |
| `LoginTheorems.PostStayKeeps` | src/routes/authorize.ts:451-494 | So does the stay-signed-in answer |
| `LoginTheorems.FactorsWereVerified` | src/routes/authorize.ts:66-728 | In every run each factor of each session and code was verified for its own subject; a step-up code's factor in its own transaction |
| `LoginTheorems.PasswordAloneIsNotEnough` | src/routes/authorize.ts:415-440 | An account with two-step sign-in and a passkey, an authenticator or an email address never gets a session from a password alone |
| `LoginTheorems.PhasesOnlyAdvance` | src/oidc/transactions.ts:10-58 | Phases only move forward, a transaction keeps its subject and purpose, and an ended one never returns |
| `LoginTheorems.StepUpOpensNoSession` | src/routes/authorize.ts:641-691 | A step-up transaction never opens a session |
| `LoginTheorems.OneCodePerTransaction` | src/routes/authorize.ts:451-684 | A transaction mints at most one code and ends with it |
| `LoginTheorems.AttemptsAreCapped` | src/routes/authorize.ts:603-634 | The stored counter of a living challenge never exceeds four; `LoginAttempts.GuessesAreCounted` shows what it counts |
| `LoginTheorems.CodesAreEarned` | src/routes/authorize.ts:217-684 | A request yields at most one code, only for a user the application admits, to the transaction's client, and only with its CSRF token or a live session |
| `LoginTheorems.ForgedFormsAreHarmless` | src/routes/authorize.ts:52-60 | A form without its transaction's CSRF token verifies, opens and mints nothing and moves no phase |
| `LoginService.LoginService.CreateTxn` | src/oidc/transactions.ts:63-68 | Adds one transaction under a fresh name |
| `LoginService.LoginService.UpdateTxn` | src/oidc/transactions.ts:77-79 | Rewrites one transaction and no other |
| `LoginService.LoginService.ConsumeTxn` | src/oidc/transactions.ts:81-83 | Ends one transaction and no other |
| `LoginService.LoginService.CreateSession` | src/oidc/sessions.ts:112-140 | A session is born transient, stamped with the strongest factor of its amr |
| `LoginService.LoginService.ShowChallenge` | src/routes/authorize.ts:109-141 | Showing the passkey page replaces the assertion challenge; other pages change nothing |
| `LoginService.LoginService.OnAuthorize` | src/routes/authorize.ts:217-366 | The handler's branches: reuse, step-up, refusal, new transaction |
| `LoginService.LoginService.OnAdminDoor` | src/routes/admin.ts:86-140 | The admin door's branches |
| `LoginService.LoginService.OnLogin` | src/routes/authorize.ts:389-446 | The password form's branches |
| `LoginService.LoginService.OnPasskey` | src/routes/authorize.ts:515-562 | The first-factor passkey's branches; a failed attempt uses the challenge up |
| `LoginService.LoginService.OnSendEmail` | src/routes/authorize.ts:567-600 | The email offer's branches |
| `LoginService.LoginService.FailStrong` | src/routes/authorize.ts:617-635 | Counts the attempt and burns the transaction at the cap |
| `LoginService.LoginService.SucceedStrong` | src/routes/authorize.ts:641-691 | Mints a step-up code, stamps the admin session, or finishes the login |
| `LoginService.LoginService.OnChallenge` | src/routes/authorize.ts:605-728 | The challenge's branches by method |
| `LoginService.LoginService.OnStay` | src/routes/authorize.ts:451-494 | Persists only the caller's own session, then ends the transaction with its one outcome |
| `LoginEffects.StampIsStrongest` | src/oidc/sessions.ts:52-58 | The sudo stamp of a session is the strongest of its factors |
| `LoginEffects.SessionLoads` | src/oidc/sessions.ts:185-215 | A cookie loads the live session it names, if its account is active |
| `LoginEffects.FinishIsExact` | src/routes/authorize.ts:66-83 | Finishing a login opens one live, transient session for the user and asks whether to stay |
| `LoginEffects.NewTxnIsExact` | src/oidc/transactions.ts:63-68 | A new transaction has its own CSRF token and is in its first phase unless it starts with a challenge |
| `LoginEffects.LoginFormIsExact` | src/routes/authorize.ts:147-160 | The login form keeps its assertion challenge or gets a new one |
| `LoginEffects.OffersAreExact` | src/routes/authorize.ts:417-428 | Which methods an account is offered, by its passkeys, authenticators and address, the passkey first and the email code only without a strong one |
| `LoginEffects.PasswordIsExact` | src/routes/authorize.ts:389-446 | The password form from account fields alone: the right password opens the session of an active account exactly if it owes no second factor, and otherwise challenges it with exactly what it owns |
| `LoginEffects.PasswordElsewhere` | src/routes/authorize.ts:389-400 | A form sent to a later phase shows that phase, one without the token is refused |
| `LoginEffects.PasskeyIsExact` | src/routes/authorize.ts:515-562 | Exactly an assertion over the transaction's own challenge by an active account signs in; any other attempt uses the challenge up |
| `LoginEffects.PasskeyElsewhere` | src/routes/authorize.ts:515-530 | Its replies in every other phase |
| `LoginEffects.AuthorizeIsExact` | src/routes/authorize.ts:217-366 | When a session is reused, when a step-up starts and with which methods, and when the user is refused, told to enroll or sent to sign in |
| `LoginEffects.AdminDoorIsExact` | src/routes/admin.ts:86-140 | The admin door opens for a satisfied session, and else challenges with the passkey, or without one the authenticator |
| `LoginEffects.LocalLoginIsExact` | src/routes/admin.ts:162-168 | Signing in to the portal itself starts in the first phase, for no client |
| `LoginEffects.SurroundingsAreExact` | src/oidc/transactions.ts:77-83 | What an expiry, a changed account and an ended session change, and nothing else |
| `LoginEffects.ChallengePageIsExact` | src/routes/authorize.ts:109-146 | The challenge shows the wanted method if it is offered, else the first, and the passkey page carries a new challenge |
| `LoginEffects.SucceedIsExact` | src/routes/authorize.ts:641-687 | What a verified strong factor leads to in each mode, down to session, code and stamp |
| `LoginEffects.FailIsExact` | src/routes/authorize.ts:617-635 | A failed strong factor adds one attempt, and the fifth ends the transaction |
| `LoginEffects.TotpIsExact` | src/routes/authorize.ts:617-693 | An authenticator answer succeeds or counts as an attempt |
| `LoginEffects.PasskeyChallengeIsExact` | src/routes/authorize.ts:695-710 | A passkey answer succeeds exactly for the subject's own credential over the challenge on show, which any attempt uses up |
| `LoginEffects.EmailIsExact` | src/routes/authorize.ts:712-727 | The right email code opens the session; a wrong one is no attempt of the transaction |
| `LoginEffects.ChallengeElsewhere` | src/routes/authorize.ts:605-614 | Replies to an answer in another phase, without the token, or by a method not offered |
| `LoginEffects.SendEmailIsExact` | src/routes/authorize.ts:567-600 | Sending the email code needs an offer and the token, and is remembered |
| `LoginEffects.StayIsExact` | src/routes/authorize.ts:451-494 | The answer persists exactly the caller's own live session, ends the transaction, and gives a code to its client exactly for an admitted user |
| `LoginEffects.StayElsewhere` | src/routes/authorize.ts:451-460 | Replies to the stay-signed-in answer in another phase or without the token |
| `LoginEffects.GetLoginIsExact` | src/routes/authorize.ts:369-386 | A page request shows the phase the transaction is in |
| `LoginAttempts.StepCounts` | src/routes/authorize.ts:603-635 | Every request counts exactly its wrong guess at a living transaction, and the fifth is told so and ends it |
| `LoginAttempts.GuessesAreCounted` | src/routes/authorize.ts:603-635 | Over any run a living transaction remembers exactly the wrong strong answers given to it, and no run compares more than five |
| `LoginAttempts.FifthGuessEnds` | src/routes/authorize.ts:617-635 | After four wrong answers of a run, the fifth replies that there were too many and the transaction is gone |
| `Totp.MarkerIsLast` | src/mfa.ts:20-34 | The stored marker is the last accepted step, written while its code was young |
| `Totp.ExpiryIsSafe` | src/mfa.ts:12-17 | A code claimed after the previous marker expired is of a newer step all the same |
| `Totp.AcceptedStepsIncrease` | src/mfa.ts:146-168 | Per credential the accepted steps strictly increase over any run of overlapping requests |
| `Totp.LongerStallReplays` | src/mfa.ts:12-34 | With one millisecond more between verification and claim, one code is accepted twice |
| `Totp.StallBoundIsExact` | src/mfa.ts:12-34 | All runs are free of replays if and only if that stall is at most 210 s |
| `Totp.Authenticators.ClaimStep` | src/mfa.ts:24-34 | The atomic claim moves one credential's marker, and only to a newer step |
| `Totp.Authenticators.VerifyLogin` | src/mfa.ts:146-168 | The loop accepts exactly if some credential of the account can claim, uses the first such one, and moves no other marker |
| `Totp.Authenticators.Confirm` | src/mfa.ts:91-119 | A confirmation uses its code up for sign-in |
| `Totp.ClaimIsExact` | src/mfa.ts:20-34 | A claim needs a step newer than a marker younger than 300 s, or than 0, and then writes the marker |
| `Totp.UseIsExact` | src/mfa.ts:146-168 | Which authenticators a code can use |
| `EmailOtp.GuessesAreBounded` | src/emailOtp.ts:92-118 | In every run a minted code is compared with at most five wrong guesses and accepted at most once |
| `EmailOtp.GuessBudget` | src/emailOtp.ts:92-118 | All wrong guesses of a run are at most five for each code minted |
| `EmailOtp.MintsAreBounded` | src/emailOtp.ts:34-88 | At most twenty codes are minted in one limit window |
| `EmailOtp.ResendKeepsTheCode` | src/emailOtp.ts:55-69 | A resend sends the same code, refreshes its life and keeps its attempt count |
| `EmailOtp.CooldownIsExact` | src/emailOtp.ts:45-50 | If nothing else is sent, a request refused for its cooldown is served exactly from the end of the reported wait or of the day on |
| `EmailOtp.CooldownIsShortest` | src/emailOtp.ts:45-50 | The reported cooldown is the shortest wait if and only if it ends before the day does |
| `EmailOtp.DailyWaitEndsOneTickEarly` | src/emailOtp.ts:36-47 | After the wait of a daily refusal the request is refused once more, with wait 0, and served from the next tick on |
| `EmailOtp.Codes.IssueCode` | src/emailOtp.ts:34-88 | Refuses, resends or mints, and counts the send |
| `EmailOtp.Codes.VerifyCode` | src/emailOtp.ts:92-118 | Deletes the code on a match, counts the attempt otherwise |
| `EmailOtp.RefusalIsExact` | src/emailOtp.ts:34-50 | A request is refused exactly within a day of the first send after twenty sends, or within a minute of the last, with the wait named |
| `EmailOtp.IssueIsExact` | src/emailOtp.ts:51-88 | A served request repeats a readable code younger than 300 s with attempts left, mints a new one otherwise, and counts |
| `EmailOtp.VerifyIsExact` | src/emailOtp.ts:92-118 | A code is accepted within 300 s of its last send unless five guesses were wrong; a wrong guess adds one, and nothing else changes |
| `EmailOtp.CorruptionIsExact` | src/emailOtp.ts:55-69 | A change of the sealing key makes one code unreadable and changes nothing else |
| `SendLimiter.SendsAreBounded` | src/registration.ts:78-98 | With a clock that never goes back and no releases, any interval shorter than the window holds at most 2 * max - 1 sends |
| `SendLimiter.BoundIsReached` | src/passwordReset.ts:87-104 | That bound is reached by the password-reset limiter |
| `SendLimiter.RetryAfterIsEnough` | src/registration.ts:88-91 | A retry at exactly `retry_after` succeeds when nothing else is sent |
| `SendLimiter.NoEarlierRetry` | src/registration.ts:88-91 | No earlier retry succeeds if and only if the cap is reached or the wait ends within the window |
| `SendLimiter.EarlierRetryCanSucceed` | src/registration.ts:88-91 | A reachable denial of 235 s whose retry succeeds after five |
| `SendLimiter.NextBackoffIsEnforced` | src/registration.ts:92-97 | `next_backoff` is the wait enforced for the rest of the window unless the send was the last allowed one |
| `SendLimiter.ReleaseRefunds` | src/registration.ts:99-104 | After a failed send the count is as before and an immediate retry is served |
| `SendLimiter.Limiter.ReserveSend` | src/registration.ts:110-118 | The atomic reservation of one address, touching no other |
| `SendLimiter.Limiter.ReleaseSend` | src/passwordReset.ts:105-123 | The atomic release of one address |
| `SendLimiter.ReservationIsExact` | src/registration.ts:78-98 | The reservation script field by field: a new window, a granted send with the next wait, or a refusal that changes nothing |
| `SendLimiter.PoliciesAreExact` | src/registration.ts:20-23 | The two policies: registration with its four growing waits, password reset with one |
| `SendLimiter.ReleaseIsExact` | src/registration.ts:99-104 | A release takes one send back, never below none, and forgets the last send |
| `EmailChange.TimePasses` | src/emailChange.ts:61-65 | Equal lifetimes: token, pointer and reservation that correspond disappear together |
| `EmailChange.IssueKeeps` | src/emailChange.ts:46-66 | Given the owner check, issuing or resending keeps the three key spaces in correspondence |
| `EmailChange.RedeemKeeps` | src/emailChange.ts:69-77 | So does redemption |
| `EmailChange.CancelKeeps` | src/emailChange.ts:84-89 | So does cancelling |
| `EmailChange.OneLinkPerUser` | src/emailChange.ts:37-42 | A user has at most one live link |
| `EmailChange.ReservedExactlyWhenTargeted` | src/emailChange.ts:93-101 | An address is reserved for a user exactly when a live change of that user targets it, in any letter case |
| `EmailChange.RedeemFreesEverything` | src/emailChange.ts:69-77 | Redemption gives the record out once and frees link, user and address |
| `EmailChange.LinksWorkOnce` | src/emailChange.ts:69-77 | No run lets a link be redeemed twice |
| `EmailChange.RunKeeps` | src/emailChange.ts:46-89 | Every run keeps the correspondence |
| `EmailChange.OwnerCheckIsNeeded` | src/routes/emailChangeRoutes.ts:155-166 | Without the route's owner check a live change can lose its reservation |
| `EmailChange.Changes.IssueChange` | src/emailChange.ts:46-66 | Issues or resends as specified |
| `EmailChange.Changes.RedeemChange` | src/emailChange.ts:69-77 | Redeems as specified |
| `EmailChange.Changes.DropChange` | src/emailChange.ts:79-82 | Removes the link, its pointer and, for a change, its reservation |
| `EmailChange.Changes.CancelChange` | src/emailChange.ts:84-89 | Cancels as specified |
| `EmailChange.ResendIsExact` | src/emailChange.ts:46-60 | The same kind and target within 300 s: the same link, its time of sending renewed, its life not |
| `EmailChange.NewLinkIsExact` | src/emailChange.ts:46-66 | Anything else: a new link of 1800 s, a reservation for a change, and the end of the user's previous link |
| `EmailChange.RedemptionIsExact` | src/emailChange.ts:69-77 | A live link is redeemed with its record, pointer and reservation; any other token changes nothing |
| `EmailChange.CancellationIsExact` | src/emailChange.ts:79-89 | Cancelling ends exactly a pending link of the user |
| `EmailChange.FreeIsExact` | src/emailChange.ts:93-101 | An address may be taken exactly while no other user's reservation of it lives |
| `EmailChange.StepIsExact` | src/routes/emailChangeRoutes.ts:155-166 | A run starts a change only for a free address, and every operation sees the clock as it stands then |

## Left out

- The legacy Redis importer (`src/events/outboxStore.ts:249-347`): it inserts rows with attempts of their own, which the attempts shape does not survive.
- `PostgresOutboxStore.destinations` and the pump that calls it: a scheduling query; every interleaving of claims is covered instead.
- Retention cleanup of delivered rows and old receipts (`src/events.ts:112-117`), and client deletion with its cascades: rows and receipts stay for good, so replay results speak of receipts that still exist.
- The reasons stored with failures (`last_error_code`) and the `delivered_at` stamp of outbox rows.
- Wire sizes and event ids are abstract: byte length is a function of the events and a UUID is a number.
- Role events are a sequence here; that they reach the outbox rows in that order is the insert of the same transaction, and their delivery is the outbox model's subject.
- Text rules of a report (trimming, length, surrogates, UUID and decimal syntax): rows arrive as valid or malformed, and digests cover the normalized content itself.
- Audit rows, lock modes, timeouts and SQL text; a failed transaction is a rollback.
- Application-role ceilings for users made by `createOrgUser`: the code checks only the org level there, so `RoleClosure.SingleActorClosure` speaks of existing users.
- Syntax checks of administration bodies: ill-formed maps and identifiers are rejected before the modelled part.
- `createOrgRole` reports several field errors at once; the model has one error for all of them.
- Key material, its encryption and self-tests, the in-process private-key cache and the transactional variant of `getJwks`.
- A replayed confirmation of an authenticator is accepted by `confirmAuthenticator` whatever its claim says; the strict increase is about sign-in.
- Reset tokens and login tickets of `src/passwordReset.ts`, pending registrations and invitations of `src/registration.ts`: single records read and deleted, easy next to the limiters and the linked key spaces.
- Setting up, renaming and removing authenticators (the five-per-account cap and the 15-minute setup window of `src/mfa.ts`).
- Wildcard matching of permission keys (`src/rbac/index.ts`), used by route guards and not by role administration.
- Whether a sudo window is fresh (`src/oidc/stepupRules.ts`): an input of the admin door.
- Verification of passwords, assertions and codes: their outcomes are inputs of the sign-in model.
- Sessions opened from registration and reset tickets and by setup (`src/routes/register.ts:253`, `src/routes/reset.ts:312`, `src/routes/setup.ts:173`): they do not pass through a sign-in transaction.
- Redemption of codes at the token endpoint, and session idle and absolute windows: a session is live until it ends.
- Overlapping requests on one sign-in transaction, email code or email change: their Redis and SQL read-modify-write sequences are modelled one after another. Only the Lua scripts are atomic in the source, and the TOTP claim is modelled under overlap.
- Token stamps, process caches, relying-party time and database time are one clock in `Key*.dfy`; skew between them adds to the delays named there.
- Receipts that hold an event type without a digest or the reverse: the schema allows them, but the current code writes both columns and its predecessor wrote neither.
- The random authority epoch of a client is its client id: clients are never deleted and created again here, so the epoch is drawn once.
- `RoleReplay.BatchReplayIsHarmlessExactly`: asks that a client with a digest holds the time of an envelope after 1970 began; `RoleReplayRuns` derives it from clocks past 310 s.
- The Redis expiry of a limiter key coincides with the end of its window and is not modelled separately; a key recreated by a release after expiry has count 0 and reads like no key.
- `SendLimiter.SendsAreBounded`: assumes no releases, because a release is meant to give a send back.
- `EmailOtp.Codes.IssueCode`: takes the serial number of the code it may mint as an input, because digits may repeat.
