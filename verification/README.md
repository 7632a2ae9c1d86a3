# OpenAgentEmail protocols in Dafny

A model, with machine-checked proofs, of the parts of OpenAgentEmail that must keep a promise across
crashes, reconnects, interleaved requests and bounded memory. Each module takes one component of the
service or of its example adapters, follows its branches and constants, and proves what every run keeps.
`dafny verify dfyconfig.toml` checks the whole project.

| module | component |
|---|---|
| `Correlation`, `Adapter` | the at-most-once adapter protocol and its durable record |
| `JsonText`, `CanonicalJson` | JSON text as the runtime writes and reads it, and the canonical form under request fingerprints |
| `Utf8` | UTF-8 as files are written and read: cut or ill-formed bytes become replacement characters |
| `Dedup`, `Wake` | the durable dedup store and the wake pipeline above it |
| `Seats`, `Waiters` | the per-seat lock chain and the shared abort signal |
| `Watcher` | the multi-sink mail watcher |
| `MailSince`, `WindowScan` | forward catch-up by cursor, and the capped mailbox scan |
| `Registry`, `Devices` | the paired-device registry on disk, and revoking a device |
| `OAuth` | the grant and token store with its cache and pruning |
| `Cooldown` | the auto-reply reservation table and its rebuild |
| `Log` | the append-only notification log and its repair |
| `Overview` | the single-flight overview cache |
| `Common` | an option, a result, and the faults of one file-system call |

How it is built. Pure code of the source is functions. Code that changes things in place is classes and
methods with loops; each is proved equal to a function of the state, and the theorems are about those
functions over whole runs. A run is any sequence of events: calls, steps of workers, deaths, power losses,
failed writes, timers, arrivals. Every call into the file system carries a fault (`Works`, `Throws`,
`ThrowsLate`, `Dies`, `DiesLate`), so it can fail or stop the process before or after it took effect.

Assumptions. The clock does not go back within a run, and one operation reads it once. Hashes and MACs are
injective; random ids and secrets never repeat. A rename is atomic. Within one UIDVALIDITY new messages
get higher UIDs (section 2.3.1.1 of RFC 9051) and a fetch yields its messages in ascending UID order. The
set of sinks is fixed. Only `create` makes tasks with a correlation's marker. A power loss keeps, for the
dedup directory, any of the states each name has had since the last directory sync; for the device
registry, both the updates since the last sync up to some point and any subset of them are treated. Between
two turns of the event loop all promise reactions have run: a request joins and shares in one turn
(`server.ts:215-217`), and a flight dropped by its signal leaves the share table in the turn in which the
signal fires (`dedup.ts:417-425`).

Where the code and its comments, or a first reading of them, part ways:

- `packages/api/src/lib/imap.ts:558` calls the identity branch of the key cap unreachable. It is taken
  exactly where a message keeps, within its own bound, an identity that the reservation had no room for
  (`WindowScan.UnreservedIdentityReachesLastBranch`); so it is dead exactly when no message keeps one, as
  when there are at least as many keys as identities (`WindowScan.LastBranchIsDeadExactly`).
- The notification log promises that the torn tail is kept in the side file before the log is rewritten. The
  log is read as UTF-8, so the side file holds the bytes that were cut off if and only if the cut fell
  between two characters; otherwise those of the last one are replaced and lost
  (`Log.SideFileKeepsBytesExactlyAtBoundary`, `Log.CutLetterIsLost`). No whole record is ever lost.
- The `expired` answers of the OAuth store are never given with one clock: the load has dropped the row, so
  the answer is `not_found` (`OAuth.ExpiredIsNeverAnswered`). For the same reason a client cannot revoke its
  own expired token; that is the only operation whose answer differs from an unpruned file's.
- A registry overwrite can leave an empty registry in exactly one way: the rename of the backup reports an
  error after taking effect, rewriting from memory fails too, and the file is then set aside
  (`Registry.EmptyExactlyWhenBackupLost`). If directory updates may reach the disk in any order there are two
  more: the new file is set aside before the move to the backup is on disk
  (`Registry.EmptyExactlyWhenBackupMissing`), and a read removes the backup of an interrupted overwrite before
  its renames are (`Registry.EmptyExactlyWhenDroppedEarly`, `Registry.EarlyDropLosesTheTable`).
- One failing call makes a registry overwrite all or nothing, except a rename of the new file that reports an
  error after taking effect: the write fails and the new table is there (`Registry.OneFailureIsAtomic`).
- The generation check of the overview cache never rejects a result (`Overview.LateResultsAreDropped`), and
  its freshness promise holds exactly when the refresh floor is not above the freshness limit, or zero
  (`Overview.AgesNeedTheFloor`).

## Model

| member | source | states |
|---|---|---|
| Correlation.Transition | examples/adapters/src/correlation-store.ts:126-136 | A transition that does not throw gives a valid record one phase on, adjacent to the one before. |
| Correlation.TransitionSucceedsExactly | examples/adapters/src/correlation-store.ts:126-136 | From a valid record it succeeds if and only if it goes one phase on and forward in time, with the new phase's evidence and nothing that contradicts or anticipates other evidence; then it sets the phase, the time and that evidence alone. |
| Correlation.ChainIsWriteOnce | examples/adapters/src/correlation-store.ts:292-302 | In any sequence of adjacent versions the phase is the position, and whatever evidence a version holds every later one repeats. |
| Correlation.CorrelationStore.Save | examples/adapters/src/correlation-store.ts:151-185 | A save is a compare-and-swap on "exactly the next phase": refused without effect, or the record is durable on return; when it fails or dies nothing durable is lost and only the new version may have become visible. |
| Adapter.CollectMarked | examples/adapters/src/retry.ts:72-86 | One listing is clean exactly when every marked task in it matches; then the marked tasks, and no others, are added by id. |
| Adapter.ReconcileTask | examples/adapters/src/retry.ts:72-86 | Adopts exactly when the bounded listings contain no contradiction and agree on one task; otherwise the error names which of these failed. |
| Adapter.AgreesExactly | examples/adapters/src/retry.ts:56-86 | Listings agree on a task if and only if some task in them carries the marker, and every one that does is that one, with the configured participants and fingerprint, and not another than one already adopted. |
| Adapter.AdoptedWasCreated | examples/adapters/src/retry.ts:88-105 | A task on which listings of existing tasks agree is the one that `create` made. |
| Adapter.StepKeepsInv | examples/adapters/src/retry.ts:88-128 | Every step of any worker, of the service or of the machine keeps the protocol invariant: one entitlement per effect, and only after its attempt is durable. |
| Adapter.SyncKeepsInv | examples/adapters/src/correlation-store.ts:159-185 | Making a save durable hands out an entitlement that nobody has or had. |
| Adapter.AtMostOnce | examples/adapters/src/retry.ts:88-230 | For any interleaving of any number of workers, with deaths, errors and power losses: at most one `create`, one `inputRequired` and one `commit`, each only after its attempt was durable. |
| Adapter.DurablePhasesAreWriteOnce | examples/adapters/src/correlation-store.ts:159-185 | The durable versions move through the phases one at a time, and evidence once durable never changes. |
| Adapter.DurableIsForever | examples/adapters/src/correlation-store.ts:159-185 | No later run, whatever fails, loses a durable version. |
| Adapter.AdoptedTaskIsTheCreatedOne | examples/adapters/src/retry.ts:88-128 | A durable task id is that of the one task `create` made, with the configured participants, marker and fingerprint; input was requested for that task only; resume evidence came from the one commit. |
| Adapter.RecordsSayWhatWasGiven | examples/adapters/src/retry.ts:88-230 | Over every run, the decision in a durable record agrees in verdict, message and fingerprint with one that was received, its input evidence is one that input was asked with, its attempt stamp one that `create` was given; and no resume starts but on a delivery of the decision on record. |
| Adapter.UndisturbedOperationAdvances | examples/adapters/src/retry.ts:88-230 | From a durable record and a free lock, the operation of that phase, with nothing failing, makes durable the next phase with its own evidence (the very decision, input or stamp) and all that the record said before. |
| Adapter.CallIsMade | examples/adapters/src/retry.ts:88-230 | After a durable attempt the worker makes the one call of the phase, and its reply is what is saved next; every other phase makes none. |
| Adapter.LostAnswerSavesNothing | examples/adapters/src/retry.ts:95-99 | A lost answer, a task that was not asked for or missing evidence stops the worker with nothing saved. |
| Adapter.RefusedOperationChangesNothing | examples/adapters/src/retry.ts:88-230 | An operation that the record does not allow, or that meets the lock, leaves no trace. |
| Adapter.ContradictionResumesNothing | examples/adapters/src/retry.ts:191-227 | A decision delivered again that contradicts the one on record resumes nothing and leaves no trace. |
| Adapter.NoSecondEffect | examples/adapters/src/retry.ts:213-230 | Once an effect has happened no continuation of the run repeats it. |
| JsonText.StringReadsBack | examples/adapters/src/correlation-store.ts:103 | Unescaping undoes string escaping for every sequence of code units, lone surrogates included, whatever text follows. |
| JsonText.ParseUndoesPlain | packages/api/src/lib/notification-log.ts:281-323 | Parsing what JSON.stringify writes gives back the very value, member order included, for every valid value. |
| CanonicalJson.SortAscends | examples/adapters/src/correlation-store.ts:98-104 | Members with distinct keys come out in strictly ascending code-unit order. |
| CanonicalJson.ParseUndoesCanonical | examples/adapters/src/correlation-store.ts:98-104 | Parsing the canonical text of a value consumes all of it and gives the same JSON value up to member order. |
| CanonicalJson.CanonicalIsStable | packages/api/src/lib/tasks-internal.ts:436-448 | Canonicalizing what was parsed from a canonical text gives the same text, as the approval digest relies on. |
| CanonicalJson.SameTextExactlyWhenSameValue | examples/adapters/src/correlation-store.ts:94-104 | Two values have the same canonical text if and only if they are the same JSON value up to member order, so equal fingerprints mean equal requests up to hash collision. |
| JsonText.PrefixIsNoObject | packages/api/src/lib/notification-log.ts:281-315 | No proper prefix of the text of a value, its members in any order, is the text of an object: a torn record cannot be mistaken for a whole one. |
| JsonText.PlainIsOneLine | packages/api/src/lib/notification-log.ts:604 | The text of any value holds no line break and no lone surrogate, so one record is one line of whole characters. |
| Utf8.DecodeConcat | packages/api/src/lib/notification-log.ts:325-361 | Reading what was written gives back every text of whole characters, whatever bytes follow it. |
| Utf8.DecodeBreak | packages/api/src/lib/notification-log.ts:281-328 | A line break ends any sequence: each line of any bytes is read on its own. |
| Utf8.CutDecodes | packages/api/src/lib/notification-log.ts:325-361 | A text cut at any byte reads as its whole characters, and one replacement character exactly when the cut fell inside one. |
| Utf8.CutSurvivesExactlyAtBoundary | packages/api/src/lib/notification-log.ts:325-415 | Reading a cut text and writing it again gives the same bytes if and only if the cut fell between two characters. |
| Dedup.DedupStore.FsyncParentOrThrow | examples/webhook-wake/src/dedup.ts:582-598 | A failed directory sync throws and leaves the marker in place. |
| Dedup.DedupStore.ReadStore | examples/webhook-wake/src/dedup.ts:599-654 | Reading goes past an unacknowledged rename only after making it durable. |
| Dedup.DedupStore.WriteStore | examples/webhook-wake/src/dedup.ts:796-823 | Temporary file, durable marker, rename, directory sync, marker removed, in this order, stopping at the first failure. |
| Dedup.DedupStore.Get | examples/webhook-wake/src/dedup.ts:427-436 | The lookup after a durable read, expired records not found. |
| Dedup.DedupStore.ReserveCapacity | examples/webhook-wake/src/dedup.ts:437-450 | A slot is taken only if live records and reserved keys leave room, and not for a key already on record. |
| Dedup.DedupStore.ReleaseCapacity | examples/webhook-wake/src/dedup.ts:451-456 | The slot is given back and nothing else changes. |
| Dedup.DedupStore.Commit | examples/webhook-wake/src/dedup.ts:457-477 | Capacity, key check, write, and the slot given up only on success. |
| Dedup.WriteAll | examples/webhook-wake/src/dedup.ts:394-407 | The loop over short writes ends with the whole payload written, or throws having written a proper prefix. |
| Dedup.FailedSyncIsMarked | examples/webhook-wake/src/dedup.ts:582-613 | After a failed directory sync the marker stands, unless it could not be written either, so the next read syncs again; the caller sees the failure. |
| Dedup.ReadIsDurable | examples/webhook-wake/src/dedup.ts:599-654 | A read that returns leaves the visible file as the only one a power loss can leave. |
| Dedup.WriteIsDurable | examples/webhook-wake/src/dedup.ts:796-823 | Wherever a write stops, a missing marker still means that the visible file is durable; one that returns is durable. |
| Dedup.ReturnsExactly | examples/webhook-wake/src/dedup.ts:582-823 | No failure is swallowed: a read or a write returns normally exactly when every call it makes works, and a read syncs nothing unless the marker stands. |
| Dedup.HitIsDurable | examples/webhook-wake/src/dedup.ts:427-436 | A record returned by `get` is in every state a power loss may leave. |
| Dedup.CommitIsDurable | examples/webhook-wake/src/dedup.ts:457-477 | A commit that returns is durable and evicts no live record; one that fails leaves only states that were possible before or the new file; a refused one changes no file. |
| Dedup.GetFindsExactly | examples/webhook-wake/src/dedup.ts:427-434 | Without a fault a lookup finds the record of the key exactly until it expires. |
| Dedup.ReserveSucceedsExactly | examples/webhook-wake/src/dedup.ts:437-449 | A slot is refused only if the key is neither live nor reserved and live and reserved keys reach the bound; without a fault it is granted in every other case, and taken exactly for a key not on record. |
| Dedup.CommitSucceedsExactly | examples/webhook-wake/src/dedup.ts:457-476 | A commit is refused only for want of room or for one of the four unsafe keys; without a fault every other one succeeds, and then a lookup gives the committed record exactly until it expires, and of any other key what it gave before. |
| Wake.StepKeepsInv | examples/webhook-wake/src/server.ts:213-390 | Every step of the pipeline, in any interleaving, keeps store, capacity, flight and log invariants. |
| Wake.NoSecondWake | examples/webhook-wake/src/server.ts:213-390 | Two successful wakes of one event key happen only if, in between, a commit failed, the process stopped with the wake uncommitted, or the retention ran out. |
| Wake.AcknowledgedIsDurable | examples/webhook-wake/src/dedup.ts:427-477 | Whatever was acknowledged to a caller stays a hit until it expires, through any later steps, crashes and power losses. |
| Wake.NoEviction | examples/webhook-wake/src/dedup.ts:486-499 | No step but a power loss that undoes an unreported write removes a live record. |
| Wake.NeverOverCapacity | examples/webhook-wake/src/dedup.ts:437-489 | Live records together with reserved keys never exceed the bound, in any state a power loss may leave. |
| Wake.NoLeakedSlots | examples/webhook-wake/src/server.ts:290-294 | Each reserved key belongs to its own live flight, which holds the seat and will commit or release it; a seat never has two, and no slot outlives its request. |
| Wake.UndisturbedRequestWakesOnce | examples/webhook-wake/src/server.ts:213-388 | With no live record, room and a free seat, an undisturbed request wakes exactly once and leaves a durable record for the whole retention, its slot and seat free. |
| Wake.UndisturbedObservationIsRecorded | examples/webhook-wake/src/server.ts:296-331 | A request that is only observed is recorded in the same way, without a wake. |
| Wake.FailedWakeMayBeRetried | examples/webhook-wake/src/server.ts:333-347 | A wake that fails leaves store, slots and seats as they were, so the next request may wake. |
| Wake.DuplicateIsNotWoken | examples/webhook-wake/src/server.ts:217-223 | A request whose key is on record ends at its first lookup, without a wake. |
| Wake.FailedStoreGivesUp | examples/webhook-wake/src/server.ts:290-388 | When recording fails, a wake that was sent is marked as unrecorded and nothing else is; slot and seat are given up, unless the process is dead. |
| Wake.FailedReadGivesUp | examples/webhook-wake/src/server.ts:217-288 | A lookup that fails, a slot that is refused, a request that gives up in the queue and a state that cannot be written end the request without a wake, its seat free and no slot held. |
| Seats.SeatSerializer.Enter | examples/webhook-wake/src/serialize.ts:41-53 | A call's slot hangs behind the last slot of its seat and becomes the last. |
| Seats.SeatSerializer.Wake | examples/webhook-wake/src/serialize.ts:55-67 | A woken call runs if its signal has not fired, and gives its slot up without running otherwise. |
| Seats.SeatSerializer.Leave | examples/webhook-wake/src/serialize.ts:68-71 | The slot is released when the work is over, however it ended. |
| Seats.OpenMeansAllOver | examples/webhook-wake/src/serialize.ts:41-53 | A resolved lock means that every call of the seat up to it has ended. |
| Seats.OneAtATimeInCallOrder | examples/webhook-wake/src/serialize.ts:41-74 | Per seat at most one work runs; works start in call order after every earlier call has ended; a call dropped while queued never starts and lets nobody overtake. |
| Seats.FirstInLineMayGo | examples/webhook-wake/src/serialize.ts:41-74 | With no work running, the first queued call of a seat can always begin or be dropped. |
| Seats.OnlyAbortedCallsAreDropped | examples/webhook-wake/src/serialize.ts:55-67 | A call whose signal fires while it queues never starts in any later run, and only such a call is ever dropped. |
| Seats.SeatIsHandedOn | examples/webhook-wake/src/serialize.ts:41-74 | At any point of any run a call that may begin runs, alone on its seat, until it ends; then the next in line may begin or be dropped at once. |
| Waiters.ShareWaiterAggregate.JoinKey | examples/webhook-wake/src/share-waiters.ts:29-63 | A live join waits on an unfired controller of its key; a join that has already aborted takes no place. |
| Waiters.ShareWaiterAggregate.LeaveKey | examples/webhook-wake/src/share-waiters.ts:65-85 | Leaving is idempotent, and the last to leave fires the controller and drops it. |
| Waiters.DroppedOnlyWhenAllLeft | examples/webhook-wake/src/server.ts:213-388 | Through aggregate, share table and seat queue, by the turns in which requests left or came aborted: a signal has fired exactly when all who joined it alive have left; a flight is dropped only after every request that was handed it has left, whichever started it; the live ones of a queued flight all wait on its signal. |
| Waiters.RequestIsHandedAFlight | examples/webhook-wake/src/server.ts:213-217 | At any point of any run a request is handed the flight of its key, or starts one on its seat unless its lookup answers; no other flight gets it. |
| Waiters.FlightRunsToItsEnd | examples/webhook-wake/src/server.ts:213-388 | A flight that may begin runs until it ends; then it is no longer shared, its seat is free for the next, and every other flight is as it was. |
| Waiters.LiveJoinGetsLiveSignal | examples/webhook-wake/src/share-waiters.ts:29-63 | A live request never gets a signal that has already fired, whatever happened to its key before. |
| Watcher.GetUnionPending | packages/api/src/lib/notification-watcher.ts:1511-1551 | Every sink is reconciled and anchored on its own, and the fetch list is the ascending union of the messages above the watermark of any sink. |
| Watcher.OfferAll | packages/api/src/lib/notification-watcher.ts:1577-1640 | One message is offered to every sink independently; the loop throws exactly when no sink settled it and one failed. |
| Watcher.DeliverBatch | packages/api/src/lib/notification-watcher.ts:1573-1640 | Every sink ends as if it had read the whole batch alone, even when the loop throws and leaves the rest unread; it throws only when every sink is stuck. |
| Watcher.StuckStays | packages/api/src/lib/notification-watcher.ts:1577-1636 | A sink stuck on a message is not touched by later ones. |
| Watcher.OthersMailIsIgnored | packages/api/src/lib/notification-watcher.ts:1541-1551 | Messages fetched for other sinks change nothing for a sink that has seen them. |
| Watcher.NonInterference | packages/api/src/lib/notification-watcher.ts:1541-1640 | On one mailbox snapshot a sink's watermark, failure and handled mail are the same in the multi-sink loop as on its own. |
| Watcher.OutageEndsInOneOutcome | packages/api/src/lib/notification-watcher.ts:1511-1632 | From a message's first service failure, through any polls, fetches, arrivals and reconnects: nothing moves until an event decides; then it has exactly one outcome, delivered or skipped only from a batch searched within ten minutes, and given up only after the full ten and at the first later poll at the latest. |
| Watcher.EveryMailAccounted | packages/api/src/lib/notification-watcher.ts:215-239 | Within a UIDVALIDITY generation outcomes come in increasing UID order, at most one per UID; every present message above the anchor and not above the watermark has one; a pending failure is above the watermark with nothing unseen below it. |
| Watcher.RecreatedMailboxLosesNothing | packages/api/src/lib/notification-watcher.ts:215-239 | A sink that had seen an earlier UIDVALIDITY is anchored at 0 in every later one: after any run, every message present at a poll is fetched next or has its outcome. |
| Watcher.FirstPollTakesNothing | packages/api/src/lib/notification-watcher.ts:223-230 | The very first poll anchors a sink at the highest message present, and takes none. |
| Watcher.OldMailIsNeverHanded | packages/api/src/lib/notification-watcher.ts:223-239 | Mail present at the first poll is never handed over while the mailbox lives. |
| Watcher.OutcomeIsTheReply | packages/api/src/lib/notification-watcher.ts:1577-1640 | At any point of any run an unblocked message above the watermark is handed over once, and its outcome, watermark, skip count and failure are what the reply says. |
| MailSince.ListMessagesSince | packages/api/src/lib/imap.ts:989-1085 | The request as coded, from the cursor checks to the checkpoint cursor, equals the page specification. |
| MailSince.ScanCollects | packages/api/src/lib/imap.ts:1054-1070 | A scan collects exactly the wanted messages of the batch up to where it stopped. |
| MailSince.BatchIsLowest | packages/api/src/lib/imap.ts:1013-1053 | The batch holds exactly the lowest candidates above the watermark that the budget allows, at least one. |
| MailSince.StopsOnlyWhenFull | packages/api/src/lib/imap.ts:1054-1070 | The scan ends before the end of its batch only when the page is full. |
| MailSince.PageIsOrdered | packages/api/src/lib/imap.ts:1000-1085 | A page is refused exactly for a wrong folder, address or UIDVALIDITY; otherwise it is ordered by time and then UID, within the limit, exactly the wanted messages scanned, later than the anchor or as late with a higher UID, and its cursor keeps the anchor. |
| MailSince.EachReturnedOnce | packages/api/src/lib/imap.ts:1013-1084 | Over any polls, limits, budgets, arrivals and deletions each wanted message is returned at most once, nothing else is, and every wanted message the watermark has passed was returned unless it was deleted first. |
| MailSince.PollsDrain | packages/api/src/lib/imap.ts:1013-1084 | A poll with candidates left moves the scan watermark up; one with none has returned every wanted message present. |
| WindowScan.ReserveIdentities | packages/api/src/lib/imap.ts:506-514 | Identities take their places before any message is read. |
| WindowScan.Sift | packages/api/src/lib/imap.ts:521-534 | Splits the recipients into identities and other hosted addresses, in order. |
| WindowScan.BoundMessage | packages/api/src/lib/imap.ts:536-549 | Under the per-message bound identities go first, the ones left out are named, others only noticed. |
| WindowScan.AdmitKept | packages/api/src/lib/imap.ts:551-562 | Under the bound over all, an address is kept if it is known or there is room. |
| WindowScan.ScanWindow | packages/api/src/lib/imap.ts:482-577 | The early answer for an empty mailbox and the loops of the scan compute the scan specification. |
| WindowScan.ScanCountsExactly | packages/api/src/lib/imap.ts:482-577 | Every identity not named incomplete is in exactly the records of the messages addressed to it; only identities are named; records and distinct addresses stay within their caps; the scan of a non-empty mailbox is not partial if and only if nothing was dropped, and truncated if and only if messages were not fetched. |
| WindowScan.IncompleteIsExact | packages/api/src/lib/imap.ts:506-562 | An identity is named incomplete if and only if the reservation had no room for it, or some message is addressed to it behind as many other identities as a message may keep. |
| WindowScan.UnreservedIdentityReachesLastBranch | packages/api/src/lib/imap.ts:551-562 | Over every scan the second pass drops an identity, in the branch the source calls unreachable, if and only if the message keeps one that the reservation had no room for. |
| WindowScan.LastBranchIsDeadExactly | packages/api/src/lib/imap.ts:551-562 | No identity is ever dropped there if and only if no message keeps an unreserved one, in particular when every identity had room. |
| WindowScan.LastBranchIsReached | packages/api/src/lib/imap.ts:551-562 | A concrete scan on which it happens. |
| Registry.DeviceRegistry.RecoverBackupFile | packages/api/src/lib/notification-devices.ts:291-325 | A backup without its file is restored, one beside its file is dropped, one beside a quarantined file closes the registry. |
| Registry.DeviceRegistry.ReadRegistry | packages/api/src/lib/notification-devices.ts:362-407 | Recovery, then the table, an empty one if there is none, or the latched error. |
| Registry.DeviceRegistry.RestoreOverwritten | packages/api/src/lib/notification-devices.ts:328-360 | The backup first, then the copy in memory, then the new file set aside and the registry closed. |
| Registry.DeviceRegistry.WriteAtomic | packages/api/src/lib/notification-devices.ts:425-506 | The steps of an overwrite and of its roll-back, in order, each with its own fault. |
| Registry.DeviceRegistry.UndoWrite | packages/api/src/lib/notification-devices.ts:470-498 | Roll-back, a second directory sync, and the fail-closed marker when that fails too. |
| Registry.ReadKeepsSound | packages/api/src/lib/notification-devices.ts:362-407 | Recovery, stopped anywhere, leaves only states from which a read gives an allowed table or the error. |
| Registry.WriteKeepsSound | packages/api/src/lib/notification-devices.ts:425-506 | Whatever fails or stops in an overwrite, every state it may leave recovers to a table allowed before, the new one, or the error, or an empty one if the write loses the backup; a write that returned leaves only the new one. |
| Registry.EmptyExactlyWhenBackupLost | packages/api/src/lib/notification-devices.ts:328-360 | Some state an overwrite may leave recovers to an empty registry if and only if the roll-back lost both copies in the one way the fault condition names. |
| Registry.OneFailureIsAtomic | packages/api/src/lib/notification-devices.ts:425-506 | From any directory that holds a table, with at most one call failing in any way, an overwrite is all or nothing in every state it may leave, except exactly when the rename of the new file reports an error after taking effect. |
| Registry.UndisturbedWriteStores | packages/api/src/lib/notification-devices.ts:425-506 | With nothing failing an overwrite leaves the new table in every state, and the next read gives it. |
| Registry.UndisturbedReadLoads | packages/api/src/lib/notification-devices.ts:362-407 | With nothing failing a read gives what the directory says, or the error, and an overwrite may follow. |
| Registry.WrittenIsStored | packages/api/src/lib/notification-devices.ts:425-506 | An overwrite that returns has put its table into every state a power loss may leave, whatever was there before. |
| Registry.ReadAnswersExactly | packages/api/src/lib/notification-devices.ts:270-407 | When a read succeeds and with which table: it fails closed for a closed registry, two contending copies, a backup that cannot be put back, or a file that cannot be read or is torn; leftovers that cannot be removed hinder nobody; the latch is set exactly with the error. |
| Registry.WriteAnswersExactly | packages/api/src/lib/notification-devices.ts:328-506 | An overwrite returns normally exactly when every call it needs works; a process that lives closes the registry exactly when the old file could not be put back or the directory not synced again, and every other failure leaves it open. |
| Registry.RecoveryIsExact | packages/api/src/lib/notification-devices.ts:270-506 | With updates reaching the disk in order: after any run of reads, writes, restarts and power losses a read that succeeds gives the last table reported as written or a later attempted one, never a mixed one, and besides an empty one only if some write lost its backup. |
| Registry.ReadKeepsAnySound | packages/api/src/lib/notification-devices.ts:291-325 | A read that does not drop a backup early keeps every state sound that any subset of the updates may leave. |
| Registry.WriteKeepsAnySound | packages/api/src/lib/notification-devices.ts:425-506 | So does an overwrite that neither loses the backup nor sets the new file aside too early; one that returned leaves only the new table. |
| Registry.RecoveryIsExactInAnyOrder | packages/api/src/lib/notification-devices.ts:270-506 | If a power loss may keep any subset of the updates since the last sync, recovery is as exact after every run that avoids those three steps. |
| Registry.EmptyExactlyWhenDroppedEarly | packages/api/src/lib/notification-devices.ts:291-325 | From sound states, some subset of the updates recovers to an empty registry after a read if and only if it dropped the backup while an unsynced update had taken the file away. |
| Registry.EmptyExactlyWhenBackupMissing | packages/api/src/lib/notification-devices.ts:328-506 | From a clean registry, some subset does after an overwrite if and only if its roll-back lost both copies or set the new file aside before the backup was synced. |
| Registry.EarlyDropLosesTheTable | packages/api/src/lib/notification-devices.ts:291-325 | A concrete run of a write, a write that dies after installing, a restart, a read and a power loss after which the acknowledged table is gone and a read answers an empty one. |
| Registry.FailClosedStays | packages/api/src/lib/notification-devices.ts:362-366 | Once the marker is visible, no run without a power loss reads, writes or changes anything, restarts included; once it is on disk, no run at all does. |
| Devices.PairedDevices.RegisterPairedDevice | packages/api/src/lib/notification-devices.ts:534-558 | A new device is appended to the table that was read, and stored. |
| Devices.PairedDevices.FinishRevokeRow | packages/api/src/lib/notification-devices.ts:560-574 | The row is revoked in memory only after the remote delete returned deleted or not_found, and then stored. |
| Devices.PairedDevices.RevokePairedDevice | packages/api/src/lib/notification-devices.ts:576-592 | Pending is stored before the remote user is deleted. |
| Devices.PairedDevices.ReconcilePendingRevokes | packages/api/src/lib/notification-devices.ts:595-611 | The loop over pending rows goes on after a transient reply or a failed write, with the rows as changed in memory. |
| Devices.FinishIsProper | packages/api/src/lib/notification-devices.ts:560-574 | Finishing a pending row keeps every stored table free of unconfirmed revocations. |
| Devices.RevokedMeansConfirmed | packages/api/src/lib/notification-devices.ts:560-611 | After any run with any faults, and power losses that keep any subset of the updates, a device that reads as revoked had been stored as pending and then had its remote user deleted or reported missing. |
| Devices.ReconcileRevokesAllPending | packages/api/src/lib/notification-devices.ts:595-611 | When nothing fails a reconcile, from any row on, revokes exactly the pending devices but the one to skip, each with its own time, and the registry on disk says so. |
| Devices.RegisterAdds | packages/api/src/lib/notification-devices.ts:534-558 | When nothing fails, registering adds one active device to the stored table. |
| Devices.RevokeAnswers | packages/api/src/lib/notification-devices.ts:576-592 | Whatever fails, a revocation answers that there is no such device exactly when no row of the table it read has the id, and already revoked exactly when the first row that has it is. |
| Devices.RevokeRevokes | packages/api/src/lib/notification-devices.ts:560-592 | When the disk works, a row not yet revoked ends revoked after its user was deleted or found missing, the stored table being the old one with that one row revoked; if the server does not answer, that row is stored as pending. |
| Devices.RevokedIsLeftAlone | packages/api/src/lib/notification-devices.ts:576-582 | Revoking a device that is revoked already, or unknown, changes nothing on disk and deletes nobody. |
| Devices.ReconcileRevokesOnDisk | packages/api/src/lib/notification-devices.ts:595-611 | When nothing fails, a reconcile from disk ends with exactly the pending rows revoked, in the visible file. |
| Devices.AnswersAreStored | packages/api/src/lib/notification-devices.ts:534-592 | Whatever fails, registered and revoked are answered only when every state a power loss may leave says so, with nothing else changed; an unreadable registry is not written and nobody is deleted. |
| Devices.RevokeDeletesOnlyPending | packages/api/src/lib/notification-devices.ts:560-592 | Whatever fails, a revocation deletes the user of its own device only, and only after the device is pending on disk. |
| OAuth.OAuthStore.PruneExpired | packages/api/src/lib/oauth-store.ts:231-257 | The loops delete exactly the expired rows and report whether there were any. |
| OAuth.OAuthStore.LoadStore | packages/api/src/lib/oauth-store.ts:264-321 | A hit is pruned in memory; a cold read writes back what it pruned, unless told not to; a failed write drops the cache. |
| OAuth.OAuthStore.SaveStore | packages/api/src/lib/oauth-store.ts:384-390 | The cache is dropped before the write and filled only after it. |
| OAuth.OAuthStore.CreateGrantAndCode | packages/api/src/lib/oauth-store.ts:484-520 | Creates the grant and its code in one save. |
| OAuth.OAuthStore.ConsumeAuthorizationCode | packages/api/src/lib/oauth-store.ts:567-591 | Deletes the code and answers with its row only if the deletion was saved. |
| OAuth.OAuthStore.IssueTokenPair | packages/api/src/lib/oauth-store.ts:593-626 | Issues only for an existing grant, both rows in one save. |
| OAuth.OAuthStore.RotateRefreshToken | packages/api/src/lib/oauth-store.ts:658-716 | All checks come before the old token is deleted, and deletion and issue are one save. |
| OAuth.OAuthStore.RevokeTokenOf | packages/api/src/lib/oauth-store.ts:724-747 | Deletes only for the client of the token's grant, and writes nothing otherwise. |
| OAuth.OAuthStore.RevokeOneGrant | packages/api/src/lib/oauth-store.ts:464-482 | Deletes the grant with every code and token of it. |
| OAuth.OAuthStore.RevokeGrantsForAddress | packages/api/src/lib/oauth-store.ts:430-454 | Deletes every grant of the address with all that hangs on it, in one save. |
| OAuth.OAuthStore.LookupAccessToken | packages/api/src/lib/oauth-store.ts:755-773 | Missing, expired, without grant, or accepted. |
| OAuth.ApplyCommutes | packages/api/src/lib/oauth-store.ts:231-257 | Running an operation on a pruned store leaves the same live rows as running it on the whole one. |
| OAuth.AnswersAgree | packages/api/src/lib/oauth-store.ts:724-773 | It gives the same answer, up to expired versus missing, if and only if it is not a client revoking its own expired token. |
| OAuth.ServeFits | packages/api/src/lib/oauth-store.ts:264-390 | Whatever is hit, pruned or failed to write in a call, file and cache keep the live rows of the plain file. |
| OAuth.AgreesWithPlainFile | packages/api/src/lib/oauth-store.ts:231-390 | After any run of operations, cache hits, prunes, failed writes and restarts, a call that returns answers as an unpruned, uncached file would, with that one exception. |
| OAuth.ExpiredRevocationDiffers | packages/api/src/lib/oauth-store.ts:724-747 | A concrete store on which the exception happens. |
| OAuth.ExpiredIsNeverAnswered | packages/api/src/lib/oauth-store.ts:567-676 | No call of any run answers expired. |
| OAuth.NothingIsUsedTwice | packages/api/src/lib/oauth-store.ts:567-716 | Over every run each code is consumed and each refresh token rotated successfully at most once, every row's grant exists, and a grant never has more refresh rows than issueTokenPair calls (sections 4.1.2 and 6 of RFC 6749). |
| OAuth.RevokedStaysRevoked | packages/api/src/lib/oauth-store.ts:430-482 | After a grant is revoked none of its codes or tokens is ever accepted again. |
| OAuth.MismatchChangesNothing | packages/api/src/lib/oauth-store.ts:678-689 | A rotation refused for its audience or client changes no live row. |
| OAuth.IssuedPairWorks | packages/api/src/lib/oauth-store.ts:593-773 | After any run and a call that issued a pair or rotated into one, through any later run that spares it: the access token is accepted with its grant, address and audience exactly until its hour is over, noting its last use, and the refresh token rotates exactly until its thirty days are, for the right client and audience. |
| OAuth.UsedUpIsGone | packages/api/src/lib/oauth-store.ts:567-716 | A code once consumed and a refresh token once rotated are not found by any later call of any run. |
| OAuth.AnswersAreRight | packages/api/src/lib/oauth-store.ts:430-773 | After any run every call that answers gives the answer the live rows call for: a live token presented by the client of its grant is revoked, an existing grant is revoked, and so for every operation. |
| OAuth.RevokedTokenIsGone | packages/api/src/lib/oauth-store.ts:724-747 | After a call that answered that a token was revoked, and any later run, no lookup accepts it, no rotation finds it, and it is not revoked again. |
| OAuth.RevokedGrantIsGone | packages/api/src/lib/oauth-store.ts:430-482 | After a call that revoked a grant, alone or with its address, and any later run, no code or token of it is accepted. |
| OAuth.LoadWritesExactly | packages/api/src/lib/oauth-store.ts:264-321 | A load writes exactly when there is no cache, it may, and some row has expired; it fails exactly when that write does. |
| OAuth.CallWritesExactly | packages/api/src/lib/oauth-store.ts:384-773 | Past its load a call writes exactly when it has something to save; then cache and file agree if the write worked, and the cache is gone if not. |
| OAuth.CodeWorks | packages/api/src/lib/oauth-store.ts:484-591 | After any run and a call that made a grant and its code, through any later run that spares it, the code answers with what it was made for exactly until its ten minutes are over. |
| Cooldown.CooldownTable.Drop | packages/api/src/lib/auto-reply-cooldown.ts:68-73 | Only finished cooldowns that have ended go; reservations stay. |
| Cooldown.CooldownTable.FullHint | packages/api/src/lib/auto-reply-cooldown.ts:95-103 | The hint of a full table is when the first running cooldown ends, or the configured time. |
| Cooldown.CooldownTable.CheckAndReserve | packages/api/src/lib/auto-reply-cooldown.ts:136-164 | Grants exactly when no pair is in the table and all fit; a grant takes each pair once under a fresh ticket, a refusal adds nothing. |
| Cooldown.CooldownTable.Release | packages/api/src/lib/auto-reply-cooldown.ts:170-179 | Removes exactly the pairs the ticket still owns. |
| Cooldown.CooldownTable.Finalize | packages/api/src/lib/auto-reply-cooldown.ts:185-198 | Turns exactly the pairs the ticket still owns into cooldowns from now. |
| Cooldown.Rebuild | packages/api/src/lib/auto-reply-cooldown.ts:248-276 | The loops over rows, recipients and ranked pairs compute the rebuilt table. |
| Cooldown.TicketsStayApart | packages/api/src/lib/auto-reply-cooldown.ts:136-197 | Over every run the table stays within its cap, an open ticket owns all its pairs, and no two share one. |
| Cooldown.NoReserveInCooldown | packages/api/src/lib/auto-reply-cooldown.ts:136-197 | A pair that is or was in cooldown at any point of a run, by a rebuild or a finalize, is not reserved before that cooldown is over, nor while another ticket holds it. |
| Cooldown.ReservesExactly | packages/api/src/lib/auto-reply-cooldown.ts:136-164 | At any point of any run a send gets a ticket if and only if no pair it asks for belongs to an open ticket or a running cooldown and those and the new pairs fit the cap; the ticket is new and holds just the pairs asked for, and no other pair changes. |
| Cooldown.RebuiltIsStart | packages/api/src/lib/auto-reply-cooldown.ts:248-276 | The table that a rebuild leaves starts such a run, with the cooldowns it installed. |
| Cooldown.ReleaseUndoesReserve | packages/api/src/lib/auto-reply-cooldown.ts:136-198 | At any point of any run, releasing a ticket takes exactly its pairs out of the table and finalizing it turns exactly those into cooldowns; one already handed back changes nothing. |
| Cooldown.RetryHintIsTight | packages/api/src/lib/auto-reply-cooldown.ts:75-90 | For any table: after the hinted seconds every pair that blocks the send has ended, and a second earlier one has not, unless the hint is one second, the least there is and all that a lapsed reservation asks for. |
| Cooldown.FullHintIsTight | packages/api/src/lib/auto-reply-cooldown.ts:95-103 | For a send that only a full table refuses: when the hint is over some running cooldown has ended, and a second earlier none has; with none running it is the configured time, at least a second. |
| Cooldown.FreshIsLatest | packages/api/src/lib/auto-reply-cooldown.ts:255-271 | A rebuilt pair ends at the latest time that a counted row says. |
| Cooldown.RebuildIgnoresOrder | packages/api/src/lib/auto-reply-cooldown.ts:248-276 | The rebuilt table does not depend on the order of the rows. |
| Cooldown.RebuildKeepsLatest | packages/api/src/lib/auto-reply-cooldown.ts:273-275 | It holds all live pairs or the cap; a dropped one ends before every kept one, or with it and sorts after it. |
| Cooldown.RebuildBlocksExactly | packages/api/src/lib/auto-reply-cooldown.ts:248-276 | With room for all it blocks exactly the pairs named by an automatic reply that was queued, or failed with an answer, within the window and not in the future. |
| Log.NotificationLog.ParseFileText | packages/api/src/lib/notification-log.ts:281-315 | The complete lines up to the first bad one, the torn last line apart. |
| Log.NotificationLog.InspectAndRepair | packages/api/src/lib/notification-log.ts:398-443 | The torn line is safe in the side file before the log is rewritten; a missing last break is added; a bad line closes the log untouched. |
| Log.NotificationLog.AppendNotificationLog | packages/api/src/lib/notification-log.ts:583-607 | Repair first, then one line, of which a crash may leave any bytes. |
| Log.NotificationLog.LoadRecords | packages/api/src/lib/notification-log.ts:445-448 | A closed log is not looked at again by a query. |
| Log.ParseTorn | packages/api/src/lib/notification-log.ts:281-315 | A log cut at any byte of its last line reads as its earlier records, with the last one exactly when its JSON is complete, and never as corrupt. |
| Log.RepairKeepsLog | packages/api/src/lib/notification-log.ts:398-443 | Wherever a repair stops the log still holds the same records. |
| Log.AppendKeepsLog | packages/api/src/lib/notification-log.ts:583-607 | An append cut at any byte leaves the earlier records, and the new one exactly when its JSON is complete. |
| Log.LogKeepsEveryRecord | packages/api/src/lib/notification-log.ts:398-443 | After any appends cut at any byte and repairs stopped anywhere, the next finished repair returns exactly the completely written records in order, and the log never closes. |
| Log.RepairIsIdempotent | packages/api/src/lib/notification-log.ts:398-443 | A finished repair leaves nothing for the next. |
| Log.NothingIsThrownAway | packages/api/src/lib/notification-log.ts:408-436 | Whatever bytes the log holds, they leave it only after what was read of the tail is in the side file. |
| Log.SideFileKeepsBytesExactlyAtBoundary | packages/api/src/lib/notification-log.ts:408-436 | The side file holds the very bytes that were cut off if and only if the cut fell between two characters; otherwise it holds a replacement character instead of the last one's. |
| Log.CutLetterIsLost | packages/api/src/lib/notification-log.ts:408-436 | A concrete record cut inside an accented letter, whose byte is in neither file after the repair. |
| Log.MiddleCorruptionFailsClosed | packages/api/src/lib/notification-log.ts:400-405 | A line of any bytes that reads as no record, before the last break, closes the log and rewrites nothing. |
| Log.JsonCodecIsGood | packages/api/src/lib/notification-log.ts:604 | All JSON objects, members in the order they were made, one a line, meet everything the log needs of its records. |
| Overview.OverviewCache.StartFlight | packages/api/src/lib/overview-cache.ts:172-240 | The flight in progress, none during the cool-down, or a new one. |
| Overview.OverviewCache.GetOverview | packages/api/src/lib/overview-cache.ts:242-298 | The branches of a request up to its wait. |
| Overview.OverviewCache.AfterWait | packages/api/src/lib/overview-cache.ts:296-327 | Loading if the response budget ran out first, and otherwise the branches with the clock read again. |
| Overview.OverviewCache.OnDeadline | packages/api/src/lib/overview-cache.ts:187-200 | The timeout is recorded on the spot and starts the cool-down. |
| Overview.OverviewCache.OnSettled | packages/api/src/lib/overview-cache.ts:207-231 | A result in time is installed and clears the failure; a late one changes nothing. |
| Overview.OverviewCache.OnFinally | packages/api/src/lib/overview-cache.ts:232-236 | Only a settled scan gives the slot back. |
| Overview.OneFlightOutsideCooldown | packages/api/src/lib/overview-cache.ts:172-240 | At most one scan is in flight, and a request starts one only when none is and a whole cool-down has passed since the last failure. |
| Overview.LateResultsAreDropped | packages/api/src/lib/overview-cache.ts:207-231 | A result after its deadline is never installed, and the generation check never rejects one. |
| Overview.AgesAreBounded | packages/api/src/lib/overview-cache.ts:242-327 | After any run, everything shown as ready is younger than the freshness limit, everything stale at most the hard limit old, at once and after a wait. |
| Overview.AgesNeedTheFloor | packages/api/src/lib/overview-cache.ts:262-270 | That holds after every run from the start if and only if the refresh floor is not above the freshness limit, or zero if that is negative. |
| Overview.RepliesAreHonest | packages/api/src/lib/overview-cache.ts:272-327 | At once and after a wait: a refusal's retry time covers the cool-down and names the last failure, if any since a scan that is now too old; revalidating or loading means that a scan is in flight. |
| Overview.RequestIsAnsweredExactly | packages/api/src/lib/overview-cache.ts:242-298 | By the age of the snapshot and the limits alone: when a request is ready at once and changes nothing, when it starts a scan, and whether it then gets a stale answer, waits or is refused, with the exact retry time. |
| Overview.WaitEndsExactly | packages/api/src/lib/overview-cache.ts:296-327 | How a wait ends, by what the scan left and the age of the snapshot then. |
| Overview.FreshScanIsShown | packages/api/src/lib/overview-cache.ts:207-298 | After any run, a scan that settles in time is shown to every unforced request within the freshness limit without a new scan, and to the request that waited. |
| Overview.FailuresAreRecorded | packages/api/src/lib/overview-cache.ts:187-231 | After any run, a failure in time or a passed deadline keeps the snapshot, is recorded on the spot and starts the cool-down from then. |
| Overview.DeadlineIsFinal | packages/api/src/lib/overview-cache.ts:187-231 | Once the deadline of a scan has passed, its result changes nothing, whatever came in between. |

## Left out

- Network and process I/O (IMAP, SMTP, HTTP, ntfy, spawning): only their outcomes are events.
- SHA-256, HMAC, base64url and random ids: injective or fresh, no timing; a secret stands for its hash.
- File owners, modes, symlinks and lock-directory trust checks in the stores; the lock itself is modelled.
- The field-level checks of validateRecord and the other parsers (text patterns, credential shapes, timestamps).
- Subject and marker placement in tasks: one flag says whether a task is well formed.
- handleVerifiedMail has no method of its own: other requests run between its awaits, so it is modelled as steps; several clock readings in one request count as one.
- The retry functions of the adapter are modelled as steps for the same reason; pollNonTerminal is left out.
- The `.dirsync` chain of ancestor directories in dedup.ts: the state directory exists and is durable.
- Dedup file inspection and repair of damaged store files.
- The legacy single-sink branch of watchConnection and its mirrored global watermark, IDLE and reconnect timing.
- Text building: OTP and metadata masking, push bodies, wake texts, previews.
- Newest-first paging, Sent-folder access and message summaries in imap.ts; a message's folder is one flag, and a server-side SEARCH finds every message received since the anchor.
- The choice of the newest messages for the window scan (`SCAN_BACK`, `truncated`): the scan starts from the fetched messages.
- White space between JSON tokens, which JSON.parse accepts: the texts the service writes have none.
- Numbers in JSON are the text JavaScript prints for them; NaN, -0, undefined and values that are not JSON are not modelled.
- peekAccessToken, its raw cache and the tombstone set; grant listing; test helpers of the OAuth store.
- checkAutoReplyCooldown (the read-only check) and address normalization; a pair is its normalized key.
- A cooldown time that changes between reserve and finalize is allowed; calls with a non-positive one do nothing, as in the source.
- Log queries, windows and cursors; a write that reports success is taken to have written everything.
- Device names, topics, list and peek; JSON checks of the registry file (a file is whole or does not parse).
- refreshError and the log lines of the overview outcomes.
- Chmod and best-effort steps that cannot change the outcome.
- config, net, client metadata documents, pinned fetch, UI, setup, MCP wiring, scenario runner, audit and monitoring.
