# Verified models of the event-operations backend

This project models the stateful core of the backend in Dafny and proves properties of it over every input and every run.
Tables are maps, a database transaction or a single awaited statement is one step, a unique index is an insert that fails,
and a request may stop after any awaited write. Nothing here executes the service.

| area | files |
|---|---|
| Visitor replication: paged snapshot, change journal, delta calls | `VisitorStore`, `SnapshotPaging`, `VisitorChanges`, `VisitorReplication` |
| Scan ingestion: five requests into one movement log | `ScanTables`, `ScanInvariants`, `ScanRequests`, `ScanOverlap`, `ScanAlone`, `ScanStore`, `ScanReentry`, `ScanReentryRun`, `ScanFastPath`, `ScanOutcomes` |
| Offline registration and ownership of sync operations | `OfflineRegistration`, `OfflineOutcomes`, `OperationOwnership`, `BatchOutcomes` |
| Compare-and-set protocols | `TicketClaim`, `QrTokenRefresh` |
| Staff assignments and sessions | `StaffBinding`, `StaffOutcomes` |
| QR formats, cursors, canonical JSON | `QrSigning`, `Base64`, `CursorCodec`, `CanonicalJson` |
| Import loop, calendar buckets, zone levels | `ImportJob`, `ImportOutcomes`, `Calendars`, `TimeSeries`, `TimeSeriesCounts`, `Histograms`, `ZoneLevels` |
| Shared helpers | `Wrappers`, `Text` |

In a protocol module a `System` (or `Db`, `Tables`, `State`) is the state, `Next` or `Apply` one step, `Run` a whole run, and
`Inv` the inductive invariant. The classes hold the same tables as fields that their methods reassign; each method's
`ensures` ties the new state to the step or plan function, about which the lemmas speak. Beside the laws over runs, the
modules named `…Outcomes`, `Histograms` and the last sections of the others say what each operation leaves for which input,
in terms of rows and request fields, not of the functions that compute it.

## What turned out to need a condition

Each of these is proved with the exact condition, or with a concrete counterexample beside the general result.

- An offline registration that stopped after its insert is recovered by its retry exactly when the payload carries an
  `externalId`. Without one the lookup falls back to the operation id, which the insert did not store: the retry links
  another registration if one carries that id as its `externalId`, and otherwise collides with its own phone number and
  ends in conflict (`OfflineRegistration.RecoveryNeedsExternalId`).
- A replayed offline scan decides by the offline operation's event and kind but writes the raw scan's. On a raw scan without
  a movement it breaks the re-entry rule exactly in the case `ScanReentry.ReplayBreaksRule` states; no other request does
  (`ScanReentry.StepBreaksRule`), and a run from empty tables gets there (`ScanReentryRun.EntersTwice`).
- `CONFLICTED` is terminal while requests are taken one at a time. When they overlap it lasts exactly as long as no link,
  failure or finish of the operation arrives from a request that checked it before the mark
  (`ScanOverlap.ConflictSurvives`); a run from empty tables undoes the mark (`ScanOverlap.LateLinkUndoesConflict`).
  Movements stay safe under every overlap.
- A `PROCESSED` offline operation keeps its row through a request, stopped anywhere, exactly when that is not an accepted
  upload of it under another payload hash that reaches its write, which makes it `CONFLICTED`
  (`ScanRequests.ProcessedStaysIff`). Within a reconciliation its turn ends `FAILED` with the movement named exactly when it
  made the movement and the activity update after it throws (`ScanRequests.ProcessedFailsAgainIff`); the next replay then
  restores it.
- A replay asks of its token only that it is ACTIVE; `ScanReentry.ReplayAdmitsUnusableIff` says exactly when it allows a
  movement on a token that every online route refuses.
- A sync operation that is PENDING can still be decided exactly while some request holds it: after a stop nobody claims it
  (`OperationOwnership.DecidedIffHeld`).
- First sender wins from every moment of a run exactly when no rotation stores again a token value that a phone was bound to;
  values that nobody was bound to may come back (`TicketClaim.FirstSenderWinsIffFresh`,
  `TicketClaim.RotationAgreesIffUnbound`). A run from the empty table shows the failure
  (`TicketClaim.ReusedTokenIsGrantedTwice`).
- QR calls that begin in a window without a revocation agree whatever else is in flight
  (`QrTokenRefresh.OverlappingCallsAgree`). Calls already in flight agree too, exactly when none of them is to re-read an
  update that an earlier revocation has outdated (`QrTokenRefresh.AllAgreeUnlessOutdated`), which a run from the empty table
  can lead to (`QrTokenRefresh.OutdatedIsReachable`).
- Canonical JSON prints a number that is not finite as `null`, so it tells values apart up to exactly that
  (`CanonicalJson.SameTextIffSameValue`).
- `Date.UTC` reads the years 0 to 99 as 1900 to 1999. Each date has its bucket exactly when the range does not lead out of
  these years, nor past them to a bucket before the last of 1999 (`TimeSeries.EveryDateInOneBucketIffFits`).
- Time-series counts add up exactly for ranges inside those years; for ranges past them by months to a month before 1900;
  and for ranges clear of them in which no two neighbouring buckets fall in one month of a year not written with four digits
  (`TimeSeriesCounts.ConservesIffCountable`).
  The dashboard asks for at most 366 days, so a range past these years cannot be requested, and `registeredAt` is a MySQL
  `DATETIME` of the years 1000 to 9999, so the dates that are miscounted in the years 0 to 100 and 10000 do not come from the
  table. The failing ranges show where the bucketing functions themselves end.
- Importing a file again creates nothing, whatever is registered before and during it, exactly when every valid row carries
  an identifier; malformed and invalid rows need none (`ImportJob.ReimportCreatesNothingIffIdentified`). The same holds of a
  row whose import stopped between storing its registration and marking it
  (`ImportJob.StoppedRowCreatesAgainIffUnidentified`).

## Model

| member | source | states |
|---|---|---|
| VisitorStore.ApplyKeepsValid | prisma/migrations/20260803090000_add_visitor_change_journal/migration.sql:22-56 | every insert, update or delete keeps the link between stock and journal: each registration of an event has a journal row dated no earlier than its creation, and a registration whose last row is an UPSERT still exists; the journal only grows |
| VisitorStore.SettledIsStable | prisma/migrations/20260803090000_add_visitor_change_journal/migration.sql:22-76 | no write makes a copy that was right at some journal position wrong without leaving a row at or after that position |
| VisitorStore.WriteShows | prisma/migrations/20260803090000_add_visitor_change_journal/migration.sql:22-56 | a new registration is shown under its own event at the time of the clock, an update replaces the copy where it is shown, a removal takes it away, and nobody else changes |
| VisitorStore.JournaledIffVisible | prisma/migrations/20260803090000_add_visitor_change_journal/migration.sql:22-56 | a write adds a journal row exactly when it changes what is shown: one row, dated now, of the registration and event of the change, an UPSERT while the registration is shown and a DELETE when it is gone |
| VisitorStore.VisitorTables.Insert | prisma/migrations/20260803090000_add_visitor_change_journal/migration.sql:22-27 | an insert and its trigger as one step on the tables in place |
| VisitorStore.VisitorTables.Modify | prisma/migrations/20260803090000_add_visitor_change_journal/migration.sql:29-49 | an update journals an UPSERT exactly when a visitor-facing column changed |
| VisitorStore.VisitorTables.Erase | prisma/migrations/20260803090000_add_visitor_change_journal/migration.sql:51-56 | a deletion leaves a DELETE tombstone |
| SnapshotPaging.PageIsPrefix | src/modules/visitors/visitors.service.ts:164-303 | a page is the ordered first part of what lies beyond the cursor up to snapshotAsOf; whatever it leaves out lies beyond the cursor it returns |
| SnapshotPaging.DownloadIsOrdered | src/modules/visitors/visitors.service.ts:134-303 | whatever the server does between pages, no visitor is delivered twice and (createdAt, id) order is kept across pages |
| SnapshotPaging.DownloadIsComplete | src/modules/visitors/visitors.service.ts:134-303 | a registration present for the whole download is delivered, whatever is created, changed or deleted beside it |
| SnapshotPaging.StockChangesUnlessHarmless | src/modules/visitors/visitors.service.ts:182-232 | a write changes the stock as of an instant exactly when it removes one of its members, or creates one while the clock has not passed the instant |
| SnapshotPaging.OnlyRemovalsDisturb | src/modules/visitors/visitors.service.ts:134-134 | once the clock has passed snapshotAsOf, writes without a deletion leave that stock alone, in any number and between any pages |
| SnapshotPaging.DownloadIsExact | src/modules/visitors/visitors.service.ts:134-303 | with such writes before and between the pages, following nextCursor to null yields exactly the ordered stock as of snapshotAsOf, for any page limits |
| SnapshotPaging.DownloadTerminates | src/modules/visitors/visitors.service.ts:134-134 | since every page asks for at least 50 rows, a stock of N visitors is exhausted after N / 50 requests, at least one, with such writes between them |
| SnapshotPaging.DownloadAscends | src/modules/visitors/visitors.service.ts:134-303 | in a download each visitor was created no earlier than the one before, none after snapshotAsOf, and of two created at once the smaller id comes first |
| VisitorChanges.PageSkipsNothing | src/modules/visitors/visitors.service.ts:353-366 | every journal row of the event between the old and the returned cursor is in the page |
| VisitorChanges.PageLeavesRest | src/modules/visitors/visitors.service.ts:353-366 | what remains beyond the returned cursor is the previous remainder without the page's rows |
| VisitorChanges.EffectiveIsCompaction | src/modules/visitors/visitors.service.ts:368-384 | the compacted page holds exactly the newest row of every registration in it, in journal order |
| VisitorChanges.CompactChanges | src/modules/visitors/visitors.service.ts:373-384 | the Map-and-sort loop computes that compaction |
| VisitorChanges.CompactionKeepsNewest | src/modules/visitors/visitors.service.ts:373-384 | compaction preserves, for every registration, which row decides its copy on the device |
| VisitorReplication.StepKeepsInv | src/modules/visitors/visitors.service.ts:122-489 | every database read of a snapshot or delta request, every write between them and every lost reply keeps: each registration's copy is right, or a journal row beyond the device's cursor will repair it, or a later page will bring it |
| VisitorReplication.RunKeepsInv | src/modules/visitors/visitors.service.ts:122-489 | the same over every run |
| VisitorReplication.FinalReplyConverges | src/modules/visitors/visitors.service.ts:445-466 | after any run, a delta reply with hasMore = false and no later write leaves the replica equal to the event's stock |
| VisitorReplication.NewDeviceConverges | src/modules/visitors/visitors.service.ts:445-466 | in particular after any run from the empty server with a device that has nothing |
| VisitorReplication.CatchUp | src/modules/visitors/visitors.service.ts:348-489 | once writing stops, enough delta calls of any page sizes make the replica equal to the stock |
| VisitorReplication.CursorAtIsNewest | src/modules/visitors/visitors.service.ts:1058-1071 | the change cursor of a fresh snapshot is 0 exactly when no journal row of the event is dated up to snapshotAsOf, and otherwise the newest such row: that row is one, and none follows it |
| VisitorReplication.UndisturbedSnapshotIsWhole | src/modules/visitors/visitors.service.ts:122-303 | a snapshot that nothing disturbs, taken page by page with any limits, ends with the replica equal to the event's stock and the device's cursor at the newest journal row of the event |
| VisitorReplication.RepairWithoutSnapshot | prisma/migrations/20260803090000_add_visitor_change_journal/migration.sql:14-20 | a device may skip the snapshot and follow the journal from 0 with an old copy exactly when the journal knows every copy that is wrong |
| VisitorReplication.FindChangesForStaff | src/modules/visitors/visitors.service.ts:348-489 | an undisturbed delta call delivers the compacted page, and hasMore is true exactly when journal rows are left beyond the returned cursor |
| ScanTables.AcceptedIffUsable | src/modules/scans/scans.service.ts:800-1283 | under the unique keys of tokens, registrations and mappings, a code is accepted if and only if some usable token of the scanned event is the one it denotes in its format, and then as that token and its holder |
| ScanTables.AcceptedOnlyWhenUsable | src/modules/scans/scans.service.ts:800-1283 | whichever of the four code formats is read, a code is accepted only on an ACTIVE token of the scanned event, in its window, whose registration is ACTIVE |
| ScanInvariants.ApplyKeepsInv | src/modules/scans/scans.service.ts:1581-1733 | every write keeps: row ids and movement ids distinct, every movement owned by a raw scan and repeating it, a movement id on an offline operation names the movement of its own raw scan; no movement is lost or altered |
| ScanInvariants.MovementsAreForever | src/modules/scans/scans.service.ts:95-722 | under any interleaving of the writes of any requests, an operation's movement, once there, is never lost, replaced or altered, and no two operations share one |
| ScanInvariants.ProcessedNamesOwnMovement | src/modules/scans/scans.service.ts:1369-1514 | at any moment of any interleaving a PROCESSED offline operation names the movement of the raw scan with its own operationId, and that movement repeats that scan |
| ScanOutcomes.DirectScanMovesHolder | src/modules/scans/scans.service.ts:95-255 | a new scan whose checks pass and whose code stands for a usable token leaves exactly one more movement: of that token's row and its holder, of the scan's kind, place and time, allowed if and only if the gate admits the holder's type and the re-entry rule does not bar the holder, and denied with that reason otherwise |
| ScanOutcomes.QueuedScanMovesHolder | src/modules/scans/scans.service.ts:257-530 | fast ingestion and an undisturbed worker leave the same movement and mark the raw scan with its outcome |
| ScanOutcomes.RefusedIffInvalid | src/modules/scans/scans.service.ts:800-1283 | a code is refused exactly when it neither stands for a usable token nor waits for a mapping |
| ScanOutcomes.WaitsIff | src/modules/scans/scans.service.ts:960-1283 | a code waits exactly when it is an offline reference of this event not yet synced, or a signed offline code of this event whose mapping is missing, without a registration, pending, conflicted or revoked |
| ScanOutcomes.RefusedScanIsDenied | src/modules/scans/scans.service.ts:1581-1615 | a refused code leaves an INVALID raw scan with result DENIED and no movement; when it denotes a token, that token and its holder are recorded with the first failing check of event, status, window and holder as the reason |
| ScanOutcomes.QueuedRefusalIsDenied | src/modules/scans/scans.service.ts:1670-1692 | the worker leaves a queued scan of a refused code the same way |
| ScanOutcomes.WaitingScanIsKept | src/modules/scans/scans.service.ts:1285-1367 | a code that waits becomes an offline operation with what the scan said, unless there is one already; no movement is made |
| ScanOutcomes.DisorderlyScanLeavesNothing | src/modules/scans/scans.service.ts:1735-1871 | a scan at an absent or archived event, or with an absent, foreign or inactive device, session or gate, leaves nothing when taken directly, and a FAILED, DENIED raw scan without a movement when queued |
| ScanOutcomes.KnownScanChangesNothing | src/modules/scans/scans.service.ts:95-140 | a scan that is known already changes nothing by either route |
| ScanOutcomes.RetriedScanIsNew | src/modules/scans/scans.service.ts:95-140 | a scan stored as not synced by an older version is taken as a new one |
| ScanOutcomes.ReplayMovesLinkedHolder | src/modules/scans/scans.service.ts:1369-1514 | a replay that gets past its look-ups and checks makes one movement: of an ACTIVE token of the registration that some mapping of its event gives for its code or its registration operation, repeating the raw scan or else the offline scan, decided by the gate and the re-entry rule as the offline scan asks them |
| ScanOutcomes.BarrenReplayWritesNothing | src/modules/scans/scans.service.ts:1369-1580 | a replay without a movement writes nothing when no mapping links it, when event, device, session or gate are not in order, or when no linking mapping has a canonical token; it throws in all but the first case |
| ScanOutcomes.TurnLeaves | src/modules/scans/scans.service.ts:692-722 | the turn of a waiting operation ends PROCESSED when its movement was there or is made and nothing throws, LINKED when no mapping links it, FAILED otherwise |
| ScanOutcomes.NewUploadIsStored | src/modules/scans/scans.service.ts:532-577 | an accepted upload of a new operation is stored with what it said, and replayed at once exactly when its code is linked |
| ScanOutcomes.WaitingUploadIsLinked | src/modules/scans/scans.service.ts:579-663 | a known operation that waits is linked and replayed when its code is linked by now |
| ScanOutcomes.BadUploadChangesNothing | src/modules/scans/scans.service.ts:532-577 | an upload whose code is not signed for this event, or is another one, or which fails a check, changes nothing |
| ScanRequests.PlanIsJustified | src/modules/scans/scans.service.ts:95-722 | each of ingest, ingestFast, processRawScan, ingestOfflineScan and reconcile sends only writes whose ids it has read and never links, fails or finishes a CONFLICTED operation |
| ScanRequests.ExactlyOnce | src/modules/scans/scans.service.ts:95-722 | over any run of the five requests, repeated at will and stopped between any two writes: at most one movement per operationId, never changed; a movement id once named stays; a CONFLICTED row is frozen |
| ScanRequests.ConflictIffHashDiffers | src/modules/scans/scans.service.ts:579-640 | an accepted upload of a known operation leaves it CONFLICTED if and only if it was so already or carries a different signed payload |
| ScanRequests.ReplayProcesses | src/modules/scans/scans.service.ts:1420-1514 | a replay that gets past every look-up and check ends PROCESSED, naming the movement it made; that movement is of the canonical token of the registration which a mapping of the operation's event gives for the scanned code or for its registration operation |
| ScanRequests.ContextIs | src/modules/scans/scans.service.ts:1516-1580 | the context of an offline scan, by the rows: unlinked exactly when no mapping of its event with a registration carries its code or its registration operation; otherwise the canonical ACTIVE token of such a mapping, or none when such a mapping has no canonical token with an attendee |
| ScanRequests.StoppedReplayIsFinished | src/modules/scans/scans.service.ts:1369-1418 | a replay that stopped between the movement transaction and the offline-operation update is finished by the next one, which names the same movement and makes no other |
| ScanRequests.ProcessedStaysIff | src/modules/scans/scans.service.ts:95-722 | a PROCESSED operation keeps its row through a request, stopped anywhere, if and only if the request is not an accepted upload of it with another payload hash that reaches its write |
| ScanRequests.ProcessedFailsAgainIff | src/modules/scans/scans.service.ts:692-722 | the turn of a waiting operation ends FAILED with its movement named if and only if it made the movement and the activity update throws; any later replay then marks it PROCESSED |
| ScanRequests.FoundMovementIsNamed | src/modules/scans/scans.service.ts:1369-1418 | a replay that finds the movement written only names it: no movement is made or changed |
| ScanOverlap.OverlapIsInterleaving | src/modules/scans/scans.service.ts:95-722 | however the five requests overlap, each reading the scan tables at its own moments and stopped or refused anywhere, their writes form an interleaving, so movements stay what they are |
| ScanOverlap.UndisturbedReplayFollowsPlan | src/modules/scans/scans.service.ts:1369-1476 | a replay whose three reads see the same tables sets out to do exactly what the plan of a replay taken alone says |
| ScanAlone.AloneFollowsPlan | src/modules/scans/scans.service.ts:95-722 | any of the five requests that goes on while no other moves comes to its end, its reads and writes one by one leaving exactly what its plan makes of the tables it began with: the overlapping form refines the one taken at a time |
| ScanOverlap.ConflictSurvives | src/modules/scans/scans.service.ts:692-703 | under any interleaving a CONFLICTED row stays as it is if and only if no link, failure or finish of it arrives from a request that checked it before the mark |
| ScanOverlap.ConflictSurvivesOverlap | src/modules/scans/scans.service.ts:579-722 | the same over every run of overlapping requests |
| ScanOverlap.SettledConflictIsFinal | src/modules/scans/scans.service.ts:579-722 | a mark that finds no request under way with a link, replay, failure or finish of its operation left to do is final under every continuation |
| ScanOverlap.LateLinkUndoesConflict | src/modules/scans/scans.service.ts:579-703 | from empty tables: an upload, a reconciliation that lists it, an upload under another hash that marks it, and the reconciliation's write that takes the mark away |
| ScanStore.Scans.CreateProcessedScanAndMovement | src/modules/scans/scans.service.ts:1617-1668 | the transaction for a scan without a row, on the tables in place |
| ScanStore.Scans.UpdateRawScanAndCreateMovement | src/modules/scans/scans.service.ts:1694-1733 | the transaction for a scan with a row; the movement repeats the row |
| ScanStore.Scans.Ingest | src/modules/scans/scans.service.ts:95-255 | direct ingestion in place leaves what its plan of writes describes |
| ScanStore.Scans.IngestFast | src/modules/scans/scans.service.ts:257-284 | fast ingestion in place leaves what its plan describes |
| ScanStore.Scans.ProcessRaw | src/modules/scans/scans.service.ts:331-530 | the worker in place, error handler included, leaves what its plan describes |
| ScanStore.Scans.IngestOfflineScan | src/modules/scans/scans.service.ts:532-663 | the offline upload in place leaves what its plan describes |
| ScanStore.Scans.ProcessOfflineScanOperation | src/modules/scans/scans.service.ts:1369-1514 | the replay of one offline operation leaves what its plan describes, and throws exactly when the plan says so |
| ScanStore.Scans.ReconcileOfflineRegistration | src/modules/scans/scans.service.ts:665-722 | the reconciliation loop leaves what its plan describes, for any order the query may answer in |
| ScanReentry.NobodyEntersTwice | src/modules/scans/scans.service.ts:2115-2134 | over any run of stopped or repeated requests in which an operation id keeps its event and kind, a registration never has two ALLOWED ENTRY movements where re-entry is not allowed |
| ScanReentry.ReplayBreaksRule | src/modules/scans/scans.service.ts:1432-1476 | on an existing raw scan without a movement the replay breaks the rule if and only if that scan is an entry, the holder has entered, the gate admits, and the offline operation's own event and kind do not bar it |
| ScanReentry.StepBreaksRule | src/modules/scans/scans.service.ts:95-722 | one request, stopped anywhere, takes the rule away from a registration if and only if it replays and one of its writes is such a replay |
| ScanReentryRun.EntersTwice | src/modules/scans/scans.service.ts:257-640 | from empty tables: an unreadable code is queued as an entry and rejected, its holder enters by another operation, and the upload of the first operation as an exit adds a second entry |
| ScanReentry.ReplayAdmitsUnusableIff | src/modules/scans/scans.service.ts:1516-1580 | a replay allows a movement on a token no online route accepts if and only if gate and re-entry rule pass and the linked ACTIVE token is of another event, outside its window, or of a holder not ACTIVE |
| ScanReentry.FirstCandidateEnters | src/modules/scans/scans.service.ts:665-722 | in the order of the query the first waiting entry that neither fails nor is refused at its gate is let in, every later one is denied as ALREADY_ENTERED, and without one nobody enters |
| ScanReentry.ReconcileAdmitsEarliest | src/modules/scans/scans.service.ts:665-722 | hence reconciliation gives the entry to the earliest-scanned such operation and denies all others |
| ScanFastPath.FastPathRefinesDirect | src/modules/scans/scans.service.ts:257-530 | for a new operationId, ingestFast followed by processRawScan leaves the same movements and the same offline scans as ingest, for every code kind and every failing check |
| OfflineRegistration.RunKeepsInv | src/modules/sync/sync.service.ts:591-943 | over any interleaving of executors and stops, mappings and executors only ever name the registration of their own payload |
| OfflineRegistration.RepliesNameOneRegistration | src/modules/sync/sync.service.ts:591-943 | for a payload with an externalId, every CREATED, RECOVERED_EXISTING or ALREADY_SYNCED reply names the one registration that carries it |
| OfflineRegistration.OneInsertPerPayload | src/modules/sync/sync.service.ts:824-836 | with or without an externalId, a payload never inserts two registrations |
| OfflineRegistration.RecoveryNeedsExternalId | src/modules/sync/sync.service.ts:735-836 | after a stop between insert and link, an undisturbed retry names the registration if and only if the payload carries an externalId; it links another one if and only if it carries none and some registration has the operation id as externalId; else it ends CONFLICTED |
| OfflineOutcomes.FirstSubmissionCreates | src/modules/sync/sync.service.ts:690-897 | an undisturbed first submission that no look-up recognises and no unique identifier stands against leaves its registration with the payload's own identifiers, a SYNCED mapping that names it, and the answer CREATED |
| OfflineOutcomes.ClashingSubmissionConflicts | src/modules/sync/sync.service.ts:824-866 | when another registration has its phone, email or externalId, it leaves a CONFLICTED mapping, no registration and no answer |
| OfflineOutcomes.RecognisedSubmissionIsLinked | src/modules/sync/sync.service.ts:735-823 | a registration whose externalId is the payload's, or its operation id for want of one, is linked and answered RECOVERED_EXISTING; nothing is created |
| OfflineOutcomes.ResubmissionIsAnswered | src/modules/sync/sync.service.ts:620-733 | resubmitting a linked payload answers ALREADY_SYNCED with its registration and changes nothing |
| OfflineOutcomes.ChangedPayloadConflicts | src/modules/sync/sync.service.ts:640-690 | a changed hash or QR token marks the mapping CONFLICTED and changes nothing else |
| OfflineOutcomes.RejectedSubmissionLeaves | src/modules/sync/sync.service.ts:838-866 | a creation refused for good leaves the mapping CONFLICTED, one refused otherwise PENDING |
| OfflineRegistration.OfflineRegistrations.Fail | src/modules/sync/sync.service.ts:838-866 | the error handler in place: conflict, bad request and not found leave the mapping CONFLICTED, any other error PENDING |
| OperationOwnership.SortedBatchIs | src/modules/sync/sync.service.ts:973-991 | a sorted batch is its offline registrations, then its offline scans, then its QR generations, then its scan events, each in the order they were sent |
| OperationOwnership.SortGroupsByType | src/modules/sync/sync.service.ts:973-991 | sorting a batch gives all registrations in their order, then scans, then QR generations, then scan events, losing nothing |
| OperationOwnership.OneOwner | src/modules/sync/sync.service.ts:164-430 | over concurrent batches and recovery runs at most one request holds an operation between its creation or claim and its completion, and it is PENDING meanwhile |
| OperationOwnership.RepliesAgree | src/modules/sync/sync.service.ts:164-430 | every PROCESSED or DUPLICATE reply for an operation carries the one stored output |
| OperationOwnership.RunKeepsInv | src/modules/sync/sync.service.ts:1182-1292 | PROCESSED is never left or run again, recovery included |
| OperationOwnership.DecidedIffHeld | src/modules/sync/sync.service.ts:1182-1292 | after any run a PENDING operation can still be decided if and only if some request holds it; once its owner has stopped it stays PENDING for good |
| BatchOutcomes.FreshBatchDecidesAll | src/modules/sync/sync.service.ts:164-430 | an undisturbed batch of new operations leaves every one of them decided by what executing it gave, with the reply that says so, and every other row as it was |
| BatchOutcomes.ProcessedIsAnswered | src/modules/sync/sync.service.ts:202-368 | an operation that is PROCESSED is answered as a duplicate with its stored output, and neither executed nor changed |
| BatchOutcomes.FailedIsRetried | src/modules/sync/sync.service.ts:202-368 | one that FAILED but may be retried is executed again, as what it was stored as |
| BatchOutcomes.OthersAreLeft | src/modules/sync/sync.service.ts:202-368 | one that failed for good or is in other hands is answered as failed and left alone |
| BatchOutcomes.RetryBounds | src/modules/sync/sync.service.ts:1151-1172 | only offline registrations may be retried: always without an error code or with a blank one, never after an error listed as final, and otherwise exactly after one that may pass; case and outer spaces of the code do not matter |
| BatchOutcomes.RecoveryTakesFailed | src/modules/sync/sync.service.ts:1182-1260 | a recovery run takes up, once each and within its limit, FAILED operations that may be retried, and all of them when the FAILED offline registrations do not exceed the limit; it changes no row yet |
| OperationOwnership.SyncOperations.ClaimFailed | src/modules/sync/sync.service.ts:1230-1241 | the conditional FAILED-to-PENDING update changes the row exactly when it is still FAILED |
| TicketClaim.NormalizePhoneIsIdempotent | src/modules/whatsapp-ticket-requests/whatsapp-ticket-requests.service.ts:986-990 | normalizing a phone twice is normalizing it once |
| TicketClaim.NormalizedIsDigits | src/modules/whatsapp-ticket-requests/whatsapp-ticket-requests.service.ts:986-990 | a normalized phone is the decimal digits of what was given, in their order; the two suffixes hold none |
| TicketClaim.FirstSenderIsFinal | src/modules/whatsapp-ticket-requests/whatsapp-ticket-requests.service.ts:411-696 | over all interleavings of claims and rotations that store no bound token value again, the phone first bound to a token value stays its only sender |
| TicketClaim.FirstSenderWins | src/modules/whatsapp-ticket-requests/whatsapp-ticket-requests.service.ts:583-696 | under the same condition all phones for which the claim answers true on one token value are equal |
| TicketClaim.RotationAgreesIffUnbound | src/modules/whatsapp-ticket-requests/whatsapp-ticket-requests.service.ts:411-483 | after a rotation that is stored with some lifetime, all later grants on one token agree if and only if nobody was ever bound to the token it stores |
| TicketClaim.FirstSenderWinsIffFresh | src/modules/whatsapp-ticket-requests/whatsapp-ticket-requests.service.ts:411-696 | over a whole run the same holds from every moment on if and only if no rotation stores a bound token again |
| TicketClaim.UnboundTokenIsGranted | src/modules/whatsapp-ticket-requests/whatsapp-ticket-requests.service.ts:583-696 | an undisturbed claim of a live, unbound token succeeds and binds its sender |
| TicketClaim.UndisturbedClaim | src/modules/whatsapp-ticket-requests/whatsapp-ticket-requests.service.ts:583-696 | the answer to an undisturbed claim, for every row: a live token with no phone is granted and bound to the sender, one bound to the same phone up to normalization is granted again, any other is refused, and but for the binding nothing changes |
| TicketClaim.OvertakenClaim | src/modules/whatsapp-ticket-requests/whatsapp-ticket-requests.service.ts:660-696 | a claim whose update finds a phone bound meanwhile is granted exactly when that phone is its own, and writes nothing |
| TicketClaim.RotationLeaves | src/modules/whatsapp-ticket-requests/whatsapp-ticket-requests.service.ts:411-483 | a rotation to a token that no other registration holds leaves it with its lifetime and no phone; any other leaves everything as it was |
| TicketClaim.ReusedTokenIsGrantedTwice | src/modules/whatsapp-ticket-requests/whatsapp-ticket-requests.service.ts:411-483 | from an empty table: a token is claimed, stored again by a rotation, and granted to a second phone |
| TicketClaim.TicketRequests.PersistUniqueToken | src/modules/whatsapp-ticket-requests/whatsapp-ticket-requests.service.ts:411-483 | the retry loop stores the first drawn token no other registration holds, or leaves the table as it was |
| QrTokenRefresh.ActiveIsNeverReplaced | src/modules/qr/qr.service.ts:34-95 | without a revocation an ACTIVE token row is never replaced, over any interleaving of generate calls |
| QrTokenRefresh.OverlappingCallsAgree | src/modules/qr/qr.service.ts:328-444 | generate calls that begin and return normally in a window without a revocation all return the same, active tokenId, whatever calls are in flight before it |
| QrTokenRefresh.AllAgreeUnlessOutdated | src/modules/qr/qr.service.ts:328-444 | calls already in flight agree with all others over every such window if and only if none is to re-read its own update over a row that is no longer active |
| QrTokenRefresh.OutdatedIsReachable | src/modules/qr/qr.service.ts:243-268 | from the empty table: issue, revoke, replace, and revoke again before the replacing call re-reads, after which two calls disagree |
| QrTokenRefresh.ReturnsCurrentToken | src/modules/qr/qr.service.ts:328-444 | what a call returns is the row's token at the very step it returns |
| QrTokenRefresh.ActiveIsReturned | src/modules/qr/qr.service.ts:34-95 | a call on an ACTIVE row returns its token and changes nothing |
| QrTokenRefresh.FirstTokenIsIssued | src/modules/qr/qr.service.ts:328-444 | an undisturbed call without a row stores its own token as ACTIVE and returns it |
| QrTokenRefresh.InactiveTokenIsReplaced | src/modules/qr/qr.service.ts:328-444 | over a row that is not ACTIVE it replaces the token and returns its own |
| QrTokenRefresh.OvertakenGetsWinner | src/modules/qr/qr.service.ts:390-444 | a call whose write another call has overtaken returns that call's token while it is ACTIVE, fails otherwise, and writes nothing |
| QrTokenRefresh.QrTokens.WriteToken | src/modules/qr/qr.service.ts:328-444 | the compare-and-set or create step on the row in place |
| StaffBinding.StepKeepsInv | src/modules/staff-assignments/staff-assignments.service.ts:33-442 | create, update, activate and deactivate, start, start-mine, end, end-mine and the checkpoint cascade each keep: one active assignment and one ACTIVE session per user, one per (event, device), every ACTIVE session bound to an active assignment of its user on event, device and checkpoint; an ENDED session never changes |
| StaffBinding.RunKeepsInv | src/modules/staff-sessions/staff-sessions.service.ts:64-420 | the same over every run of requests taken one at a time |
| StaffBinding.StartOpensOne | src/modules/staff-sessions/staff-sessions.service.ts:64-164 | a granted start opens one bound session in the checkpoint's mode and ends exactly the active sessions of that user or on that device of the event |
| StaffBinding.RefreshEndsNothing | src/modules/staff-sessions/staff-sessions.service.ts:211-273 | the surplus clean-up of a reused session ends no session in any reachable state |
| StaffBinding.RestartKeepsSession | src/modules/staff-sessions/staff-sessions.service.ts:211-290 | starting one's session again finds the session the first call returned; nothing is ended or created |
| StaffBinding.DropKeepsInv | src/common/utils/location-cascade.util.ts:43-107 | deleting the sessions and assignments at some checkpoints keeps the binding of the others |
| StaffOutcomes.CreationIffOpen | src/modules/staff-assignments/staff-assignments.service.ts:33-108 | an assignment is created exactly for staff, at an active checkpoint and device of an open event; it then has that place and the given or previous notes, is the user's only active one, and the user's sessions end |
| StaffOutcomes.UpdateLeaves | src/modules/staff-assignments/staff-assignments.service.ts:204-322 | an update is granted exactly when the place it leaves is open; it writes the named fields and no other, and ends the user's sessions of that event if and only if it deactivates or the place is no longer the same; a request to activate takes over |
| StaffOutcomes.DeactivationEnds | src/modules/staff-assignments/staff-assignments.service.ts:350-442 | deactivating writes the flag alone and ends exactly the user's active sessions of that event, now |
| StaffOutcomes.ActivationIffOpen | src/modules/staff-assignments/staff-assignments.service.ts:350-442 | activating is granted exactly for staff at an open place, and takes over with the assignment as it is |
| StaffOutcomes.NobodyWorksAfterDeactivation | src/modules/staff-assignments/staff-assignments.service.ts:350-442 | afterwards the user has no ACTIVE session of that event, and none at all if the assignment was active |
| StaffOutcomes.StartIffOpen | src/modules/staff-sessions/staff-sessions.service.ts:64-164 | a start is granted exactly to staff for themselves or a super admin for a named user who is staff and actively assigned to that open place, in the mode of the checkpoint's type; the session opened is the wanted one, and exactly the sessions of the user or on the device of the event end, now |
| StaffOutcomes.StartMineLeaves | src/modules/staff-sessions/staff-sessions.service.ts:166-301 | starting one's own session keeps the running one, moving only its lastSeenAt, and otherwise opens one at the assignment's place in the mode of its gate |
| StaffOutcomes.EndMineEnds | src/modules/staff-sessions/staff-sessions.service.ts:303-348 | staff, and nobody else, end exactly their own active sessions |
| StaffOutcomes.EndEndsOne | src/modules/staff-sessions/staff-sessions.service.ts:403-420 | ending a session ends that one and no other |
| StaffOutcomes.DropTakesThoseThere | src/common/utils/location-cascade.util.ts:43-107 | the cascade takes exactly the sessions and assignments at the checkpoints and leaves every other row as it was |
| StaffBinding.StaffTables.CreateAssignment | src/modules/staff-assignments/staff-assignments.service.ts:33-108 | create in place keeps the invariant and leaves the state its specification gives |
| StaffBinding.StaffTables.UpdateAssignment | src/modules/staff-assignments/staff-assignments.service.ts:204-322 | update in place, with its three branches |
| StaffBinding.StaffTables.SetAssignmentActive | src/modules/staff-assignments/staff-assignments.service.ts:342-442 | activation and deactivation in place |
| StaffBinding.StaffTables.StartSession | src/modules/staff-sessions/staff-sessions.service.ts:64-164 | start in place |
| StaffBinding.StaffTables.StartMySession | src/modules/staff-sessions/staff-sessions.service.ts:166-301 | reuse or start in place |
| CanonicalJson.QuoteIsUnique | src/modules/offline/offline-qr.service.ts:465-479 | a quoted string is read back in one way only, lone surrogates and control characters included |
| CanonicalJson.QuotedReadsBack | src/modules/offline/offline-qr.service.ts:465-479 | a quoted string reads back, by the string grammar of RFC 8259, as the string it was made of |
| CanonicalJson.PrintIsUnique | src/modules/offline/offline-qr.service.ts:465-479 | printed values are uniquely readable whatever follows them, at any nesting |
| CanonicalJson.SameTextIffSameValue | src/modules/offline/offline-qr.service.ts:465-479 | two values print the same text if and only if they are equal up to object key order, numbers that are not finite read as null |
| CanonicalJson.InjectiveIffFinite | src/modules/offline/offline-qr.service.ts:274-276 | among finite values the text of a value is its own if and only if that value is finite |
| CanonicalJson.KeysAreSorted | src/modules/offline/offline-qr.service.ts:475-477 | the keys of an object are printed in strictly ascending code-unit order |
| CanonicalJson.OrderByFirstDifference | src/modules/offline/offline-qr.service.ts:475-477 | that order: a prefix comes first, and otherwise the smaller code unit at the first difference |
| Base64.RepadRestores | src/modules/visitors/visitors.service.ts:976-996 | the decoder's replacement and re-padding give back the base64 text, for every byte string |
| Base64.DecodeInvertsEncode | src/modules/visitors/visitors.service.ts:973-998 | decoding inverts encoding for every byte string |
| Base64.EncodingIsUrlSafe | src/modules/visitors/visitors.service.ts:976-980 | the encoded text has only letters, digits, minus and underscore |
| Base64.EncodesByTheTable | src/modules/visitors/visitors.service.ts:976-980 | three bytes are spelled as one 24-bit number by the table of RFC 4648, a last group of one or two as the leading characters of its zero-filled number, padded |
| CursorCodec.CursorRoundTrip | src/modules/visitors/visitors.service.ts:973-1024 | decode(encode(c)) is c for every well-formed cursor and a refusal for every other |
| CursorCodec.CursorTextIsUnique | src/modules/visitors/visitors.service.ts:973-998 | two cursors with one text are one cursor |
| CursorCodec.AcceptedIsCursor | src/modules/visitors/visitors.service.ts:1000-1020 | whatever text a client sends, what is accepted is well formed; surrounding space is ignored |
| CursorCodec.AcceptedIffShown | src/modules/visitors/visitors.service.ts:982-1024 | of all texts exactly those are accepted whose parsed members show a complete cursor, and as that cursor |
| Calendars.MonthLength | src/modules/client-dashboard/client-analytics.service.ts:418-433 | the month starts of ECMA-262's calendar are 28 to 31 days apart |
| Histograms.MonthsLastTheirDays | src/modules/client-dashboard/client-analytics.service.ts:391-433 | every month of every year has its 28, 29, 30 or 31 days |
| Calendars.MonthsRepeat | src/modules/client-dashboard/client-analytics.service.ts:391-398 | the months of the years 0 to 99 are as long as those 1900 years later, except February of year 0 |
| TimeSeries.BuildTimeSeries | src/modules/client-dashboard/client-analytics.service.ts:348-382 | both loops end; one bucket per start, labelled by taking its key anew and holding the number of dates with that key |
| TimeSeries.StartsAreConsecutive | src/modules/client-dashboard/client-analytics.service.ts:368-379 | the buckets run from the bucket of `from` to the bucket of `to`, each the successor of the one before |
| Histograms.SeriesIsHistogram | src/modules/client-dashboard/client-analytics.service.ts:348-433 | in the years 100 to 9999 the series is the histogram of the dates: from the day, Monday week or month of `from` to that of `to` without a gap, each bucket labelled with its first day and holding the number of dates in it |
| TimeSeries.EveryDateInOneBucketIffFits | src/modules/client-dashboard/client-analytics.service.ts:391-416 | for days, Monday weeks and months: every date of a range lies in exactly one bucket, its own, if and only if the range does not lead out of the years 0 to 99, nor past them to a bucket before the last of 1999 |
| TimeSeries.Year99StartsTooLate | src/modules/client-dashboard/client-analytics.service.ts:391-398 | the failing instance: from the last day of year 99 to the first of year 100 there is no bucket |
| TimeSeriesCounts.ConservesIffCountable | src/modules/client-dashboard/client-analytics.service.ts:348-416 | for every range: the counts add up to the number of dates, for every list of dates of the range, if and only if it stays inside the years 0 to 99, or goes by months from before them to a month from 100 to 1899, or is clear of them, first bucket included, without two neighbouring buckets under one ten-character key |
| TimeSeriesCounts.InsideConserves | src/modules/client-dashboard/client-analytics.service.ts:391-398 | inside the years 0 to 99 both ends move together and every count is kept |
| TimeSeriesCounts.LeavingLosesDate | src/modules/client-dashboard/client-analytics.service.ts:391-398 | the first day of year 100 is lost by every range that starts in those years |
| TimeSeriesCounts.EnteringCountsTwice | src/modules/client-dashboard/client-analytics.service.ts:348-398 | a range from before year 0 into it, or past it to 1900 or later, counts the first day of year 0 in its own bucket and in that of January 1900 |
| TimeSeriesCounts.ConservesInFourDigitYears | src/modules/client-dashboard/client-analytics.service.ts:348-389 | in particular for every range of the years 100 to 9999 whose first bucket starts there, and for months in any later range |
| TimeSeriesCounts.ConservesSince1970 | src/modules/client-dashboard/client-analytics.service.ts:348-389 | in the calendar of ECMA-262: for every range from 1970 to the end of 9999 |
| TimeSeriesCounts.NeighbouringDaysCountTwice | src/modules/client-dashboard/client-analytics.service.ts:384-389 | the counterexample family: two days of a month written without its days |
| TimeSeriesCounts.YearTenThousandCollides | src/modules/client-dashboard/client-analytics.service.ts:384-389 | as on the first two days of the year 10000 |
| ZoneLevels.CollectZoneSubtree | src/common/utils/location-cascade.util.ts:8-41 | terminates on any parent links, cyclic ones included, and level n holds, once each, exactly the zones whose shortest way from a root has n links |
| ZoneLevels.ListedIffReachable | src/common/utils/location-cascade.util.ts:8-41 | the levels list exactly the reachable zones, each on one level |
| ZoneLevels.OneBelowParent | src/common/utils/location-cascade.util.ts:26-38 | a zone that is no root stands exactly one level below its parent |
| ZoneLevels.NoChildLeftBehind | src/modules/zones/zones.service.ts:141-143 | when a zone is deleted, no surviving zone but a root names it as its parent |
| ZoneLevels.DeleteDeepestFirst | src/modules/zones/zones.service.ts:141-143 | the deletion leaves exactly the zones that cannot be reached, and none of them hangs from a deleted one |
| ImportJob.RowOutcome | src/modules/imports/imports.service.ts:550-632 | a row creates a registration if and only if it is valid, nobody matched it and nobody holds one of its stored identifiers; a duplicate names a registration that shares one; the event's identifiers stay unique |
| ImportOutcomes.RowIsDecided | src/modules/imports/imports.service.ts:550-632 | every row: FAILED with VALIDATION_FAILED when malformed or invalid; DUPLICATE of the one registration that carries one of its identifiers; FAILED with DUPLICATE_REGISTRATION when two do; created with its trimmed identifiers when nobody does; and after a conflict at creation a DUPLICATE or a failure by a second look-up |
| ImportOutcomes.EveryRowIsDecided | src/modules/imports/imports.service.ts:465-488 | the same of every pending row of a job, among the registrations there are when its turn comes |
| ImportOutcomes.LookupFinds | src/modules/imports/imports.service.ts:985-1035 | the look-up answers nobody, the one, or several, by how many registrations carry a given identifier |
| ImportJob.PassOutcome | src/modules/imports/imports.service.ts:550-632 | no registration created by the run shares an externalId, phone or email with any other of the event; each PROCESSED row made its own |
| ImportJob.Import.ProcessImportRow | src/modules/imports/imports.service.ts:550-717 | one row in place, the creation conflict and second look-up included |
| ImportJob.Import.ProcessImportJob | src/modules/imports/imports.service.ts:465-488 | the chunk loop ends for every chunk size and leaves what one pass over the rows in order would |
| ImportJob.FinishedJob | src/modules/imports/imports.service.ts:719-773 | the final counts partition the rows; the job is COMPLETED exactly when no row failed and FAILED exactly when all did |
| ImportJob.ReimportCreatesNothingIffIdentified | src/modules/imports/imports.service.ts:550-1035 | no later import of the same rows creates a registration, whatever is registered before and during it, if and only if every valid row carries an identifier |
| ImportJob.UnidentifiedRowIsCreatedAgain | src/modules/imports/imports.service.ts:1002-1004 | a valid row without an identifier is created by the first import and by every later one, among any other rows and arrivals |
| ImportJob.StoppedRowCreatesAgainIffUnidentified | src/modules/imports/imports.service.ts:465-596 | a row whose import stopped between storing its registration and marking it creates another when it is taken up again if and only if it carries no identifier |
| QrSigning.SignedRoundTrip | src/common/utils/qr-signing.util.ts:41-118 | a full token verifies to its own payload if and only if no required member is blank |
| QrSigning.CompactRoundTrip | src/common/utils/qr-signing.util.ts:51-174 | a compact token verifies to its own id if and only if that is 1 to 128 characters of the token alphabet |
| QrSigning.FullRefusesCompact | src/common/utils/qr-signing.util.ts:63-75 | no Q2 token passes the full-token verifier |
| QrSigning.CompactReadsFull | src/common/utils/qr-signing.util.ts:120-216 | the compact verifier reads a full token by the older format |
| QrSigning.AcceptedIsSigned | src/common/utils/qr-signing.util.ts:63-216 | whatever text is presented, what a verifier accepts carries the signature of exactly what it returns |
| QrSigning.FullAcceptsIff | src/common/utils/qr-signing.util.ts:63-118 | of all texts the full verifier accepts exactly those that consist of an encoded object with ten non-blank members and its MAC, as the payload those members are |
| QrSigning.CompactAcceptsIff | src/common/utils/qr-signing.util.ts:120-216 | the compact verifier accepts exactly a Q2 text of an id and the first 16 bytes of the MAC over both, or an encoded object with a tokenId and its MAC, as that id |
| QrSigning.BothTokensValidate | src/modules/qr/qr.service.ts:167-326 | both tokens of an issued row are answered alike, VALID if and only if the row is ACTIVE and in its window and the registration ACTIVE |
| QrSigning.EveryTextIsAnswered | src/modules/qr/qr.service.ts:167-241 | the answer to every text: INVALID_SIGNATURE exactly for one that neither verifier accepts, TOKEN_NOT_FOUND without a row, EVENT_MISMATCH for a full token of another event or registration, and else by the row's status, window and registration |

## Left out

Assumptions about the surroundings:

- Each registration or QR write adds at most one journal row, committed with it; journal ids, commit order and `changedAt` grow together, on one clock.
- A visitor is what the journal's triggers watch; columns they do not watch, such as `updatedAt` or the names of an attendee type, are not compared.
- An update that moves a registration to another event is not modelled: the trigger journals only the new event.
- MySQL, Prisma and their isolation levels: a transaction is one atomic step, a unique index a failing insert, a lost commit acknowledgement is not modelled.
- HMAC, SHA-256 and Ed25519 are parameters; no unforgeability is claimed beyond what carries a signature. JSON parsing in cursors and QR payloads is a parameter with a round-trip law.
- An absent registration operation id inside the OR of a mapping look-up (`offlineRegistrationOperationId ?? undefined`) matches nothing.
- Registrations are stored with trimmed, non-blank identifiers, those of other requests included.
- In `ScanOverlap` events, devices, gates, sessions, tokens, mappings and attendees may change between any two steps; one decision sees them at one moment.
- Session, assignment and import requests are taken one at a time (they check outside their transactions). So are scan requests, except that movements and CONFLICTED marks are also treated under overlap (`ScanOverlap`).
- Deletion of events, registrations and checkpoints is excluded from the exactly-once runs; administrators do not edit an externalId, phone or email during them.
- Dates stay within the range of an ECMA-262 time value; outside it `toISOString` throws.
- Error codes are ASCII: `toUpperCase` is modelled on the letters a to z only.

Parts of the code:

- `recordDelivery`, `markDelivery` and the rest of the ticket webhook, beyond the sender claim.
- `submitBatch` status summaries, queue delivery, reconciliation scheduling and activity timestamps on devices.
- Offline QR signature verification, key provisioning and payload normalization in `offline-qr.service.ts`.
- Import strategies FAIL and UPDATE_EXISTING: their handler is returned without being awaited, so its rejections bypass the row's error handling and leave the row PENDING.
- Import file parsing, header detection and custom-field validation: each row enters with the result of normalizing it.
- Cursors of version 2 without a change cursor, which recompute it at every page.
- Response formatting, tickets, badges, QR images, reports, pagination and the CRUD services: easy members only.
- A blank device id, which widens the clean-up of a reused session to its whole event; ids are never blank here.
- VisitorReplication.FinalReplyConverges: speaks of one device and one event at a time, which loses nothing since devices do not write.
- OfflineRegistration.RepliesNameOneRegistration: assumes that every resubmission of an operation repeats its payload.
- ImportJob.Import.ProcessImportJob: row updates themselves do not fail.
