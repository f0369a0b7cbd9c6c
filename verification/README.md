# Dosi-Tracker Linux agent: the offline delivery core, proved

The Linux agent keeps finished activity blocks in a local outbox until the server has taken them. This project
models that delivery engine and the consent and lifecycle gate in front of it, and proves what they promise over
every input, every run and every failure.

- **The outbox** (`QueueRows`, `Enqueueing`, `Limits`, `OutboxStore`). A class holding scoped rows, pending or
  parked, each with its payload, tag, captures and capture digests. Each call is one transaction that takes effect
  as a whole or reports an error and changes nothing, and any call may fail. Every reachable store keeps the byte
  counts, the digests and the tags right and the identities unique.
- **The sync pass** (`SyncPass`, `PassAnswers`, `PassProgress`, `SyncCoordinator`, `PassGuarantees`). The two-level loop of batches
  and redeliveries, against a transport that may answer anything at any time. Its contract says what became of every
  row, what was sent and in which order, and that the report tells exactly that.
- **Runs** (`OutboxRuns`, `RunGuarantees`, `OutboxUse`). The uploader has its own connection to the store, so the worker
  may queue, enforce limits, purge and park between any two steps of an upload: peeking at a row, loading its captures,
  sending it, carrying out the answer. A run interleaves the steps of any number of uploads with the worker's calls, each
  with exactly the effect of the call's own contract, and with crashes that end every upload at any moment. `AnyUse` drives
  the class with arbitrary calls and shows that what it goes through is such a run.
- **Delivery** (`Delivering`, `Signing`, `Utf8`). The integrity check in front of each upload, the byte layout under the
  tag, and truncation at character boundaries.
- **Tokens** (`Tokens`, `ApiClients`, `TokenSharing`). The cell several clients share a bearer and a refresh token in,
  the sequential form of `ensure_token` and `send`, and the interleaved steps of any number of clients.
- **Consent and lifecycle** (`ConsentFiles`, `Consent`, `Lifecycle`). Saving over a map from paths to file contents,
  consent that narrows at once and widens only once saved, and generation-numbered acquisition tickets.
- **Texts** (`ServiceText`, `DesktopEntry`). The session env file and the autostart entry's `Exec` value, with the readers
  that must get the same values back.

Conventions. A failure of the database, the disk or the network is a nondeterministic branch (`if *`). Where the
program compares times, times are integers. HMAC-SHA256, SHA-256 and base64url are function values of a `Crypto`
record of which only `Lawful` is assumed (base64url decodes what it encoded, SHA-256 yields 32 bytes); no theorem
assumes collisions away, the ones that need it name the two colliding inputs instead. Text the outbox measures in
bytes is UTF-8 bytes (`Utf8.Text`); the service texts are Unicode characters.

`RunPass` promises `Done`, which is five predicates: `RowsAccounted` (what became of the rows), `DeliveredRows` (what
was sent), `AnswersFollowed` (that each answer was followed, spelled out answer by answer in `PassAnswers`), `ReportTrue`
(what the report says) and `EndExplained` (why the pass ended). The lemmas of `PassGuarantees`
draw from these what a caller wants to know.

Four properties hold only under a condition, and the exact condition is proved:

- A consent update that reports success is on record exactly when the choice differs from the consent in memory or
  the record held it already (`Consent.SuccessIsDurable`). A revocation whose save failed is reported as done when
  repeated, and a restart finds the old grant (`Consent.RepeatedRevocationIsNotSaved`).
- Every change of the tracker starts a new generation, except exactly when a terminated tracker gets another policy
  (`Lifecycle.ChangesAreNumbered`, `Lifecycle.PolicyChangesUnnumberedOnceTerminated`); over a whole run the generation
  stands still exactly when nothing else happened (`Lifecycle.GenerationStandsStill`).
- An answer to an upload is carried out on the row that was sent exactly when that row is still stored, because the store
  looks it up by activity id; otherwise it is carried out on a row queued since (`OutboxRuns.AnswerMeetsSentRow`), which
  may then be deleted without ever having been sent (`RunGuarantees.LateAnswerDeletesUnsentRow`).
- The rendered autostart entry has the intended `Exec` line exactly when the program's path does not itself contain
  `@TRYEXEC@`, because the placeholders are replaced one after the other in the whole text
  (`DesktopEntry.ExecLineIsIntended`, `DesktopEntry.PlaceholderInPathBreaksLine`).

## Model

| member | source | states |
|---|---|---|
| SyncCoordinator.SyncPassCoordinator.RunPass | clients/linux/src/sync.rs:380-461 | whatever the transport answers and whichever store calls fail: a report means `Done` (first `attempted` queued rows taken in order, each answer followed, each row gone, parked or, for the last one, waiting; every other row untouched; report and stop reason tell exactly that), an error means nothing happened, a configuration is refused exactly if not within 1 to 200 and 1 to 100, and either way the pass is a trace of atomic effects |
| SyncCoordinator.SyncPassCoordinator.DeliverRow | clients/linux/src/sync.rs:465-621 | one row's turn: one delivery, a second only after a strip that removed bytes, with the digests kept; the last answer is followed as `TurnFollowed` spells out for each of the nine outcomes, or its local failure reported with the row as it was; the row leaves only if the ledger has it |
| SyncCoordinator.SyncPassCoordinator.DeliverLoaded | clients/linux/src/sync.rs:487-621 | the delivery loop: at most two rounds, the second only after a strip that removed bytes |
| SyncCoordinator.SyncPassCoordinator.TakeTurn | clients/linux/src/sync.rs:392-436 | one round of the outer loop: a batch is taken up or the pass ends, without a report only if the first read failed |
| SyncCoordinator.SyncPassCoordinator.ReadBatch | clients/linux/src/sync.rs:393-417 | the next rows in queue order, within the batch limit and the attempts left; none only if the queue is empty |
| SyncCoordinator.SyncPassCoordinator.ActOn | clients/linux/src/sync.rs:493-618 | each of the nine outcomes leads to the change of at most that row, or to the stop, that `TurnFollowed` spells out for it: a revoked device parks the row and blocks the scope, a parked row lets the pass go on |
| SyncCoordinator.SyncPassCoordinator.OnAccepted | clients/linux/src/sync.rs:494-524 | an acknowledgement of another id changes nothing and stops; one of this id deletes the row, which the ledger holds, or stops with the row kept |
| SyncCoordinator.SyncPassCoordinator.RecordAttempt | clients/linux/src/sync.rs:625-650 | the attempt is counted and listed, or nothing changed and the stop reason says so |
| SyncCoordinator.SyncPassCoordinator.ParkRow | clients/linux/src/sync.rs:653-681 | the row is parked with exactly the bounded reason and listed, or kept and the pass stops |
| SyncCoordinator.SyncPassCoordinator.StripOrPark | clients/linux/src/sync.rs:579-598 | bytes are stripped once; a row resent already or without bytes is parked; a failed strip stops |
| SyncCoordinator.SyncPassCoordinator.Attempt | clients/linux/src/sync.rs:489-493 | one delivery and its consequence are at most two atomic effects, after either of which a crash loses nothing |
| SyncCoordinator.ClearedIsSentShed | clients/linux/src/sync.rs:587-593 | the entry cleared in memory is the stripped row as the store would load it, digests included |
| SyncPass.Transport.Deliver | clients/linux/src/sync.rs:126-139 | the transport may answer anything and its answer may be lost; it accepts a row by its own id only once the idempotent ledger holds it |
| SyncPass.BoundedReasonsAreKept | clients/linux/src/sync.rs:694-704 | every reason the pass keeps is a whole-character prefix, is accepted as an attempt's message and parked unchanged |
| PassProgress.ContinueStep | clients/linux/src/sync.rs:418-436 | a row that lets the pass go on leaves one more row settled, the rest of the queue as it was, and the report in step |
| PassProgress.StopStep | clients/linux/src/sync.rs:465-621 | a row that stops the pass leaves everything accounted for, with the stop reason its last outcome calls for |
| PassGuarantees.PassConserves | clients/linux/src/sync.rs:380-682 | conservation: each row queued at the start is deleted, listed, accepted by the transport under its exact id and in the ledger, or parked and listed for the very reason the transport gave, or still pending with the same identity, payload, signature and digests; every other row is untouched |
| PassGuarantees.PassCounts | clients/linux/src/sync.rs:390-461 | attempted is deleted plus parked, plus one exactly when the last row waits on |
| PassGuarantees.PassInOrder | clients/linux/src/sync.rs:392-436 | exactly the first `attempted` queued rows are sent, in id order, a row again at most once and right after a strip that removed bytes; at most twice `max_attempts` deliveries; the last one taken stays unsent only if the store could not load it |
| PassGuarantees.PassFollowsAnswers | clients/linux/src/sync.rs:493-618 | every answer but the last lets the pass go on, that is, accepts the row by its own id, parks it or asks for its captures to go; any other answer is the last, is to the last row taken, and stops the pass with the stop reason that belongs to that answer |
| PassGuarantees.RowFollowsLastAnswer | clients/linux/src/sync.rs:493-618 | the last answer to a row says what became of it: parked for that very reason, gone, or the pass stopped there with the store failure that prevented it |
| PassGuarantees.ParkedAsAnswered | clients/linux/src/sync.rs:524-618 | a taken row is parked only for an answer that asks for it, with that answer's reason cut to the bound |
| PassGuarantees.StrippedWereResent | clients/linux/src/sync.rs:579-598 | an activity is among those stripped and resent exactly if two deliveries in a row were of it |
| PassGuarantees.AckedInOrder | clients/linux/src/sync.rs:494-524 | the rows that are gone are listed in the order of the queue |
| PassGuarantees.DrainedMeansAll | clients/linux/src/sync.rs:415-458 | a pass is drained or has a stop reason, never both; drained means no pending row is left, the attempt limit means the limit was used up with rows left |
| PassGuarantees.AcceptancesReported | clients/linux/src/sync.rs:494-524 | a row is listed as accepted exactly if the transport accepted it by its id; the persisted list is the accepted list but for its last element, missing exactly when its deletion failed |
| OutboxRuns.RunKeeps | clients/linux/src/outbox.rs:1667-1693 | over any run, the worker and uploads interleaved and crashes anywhere: identities stay unique, ids are never reused, the ledger's content for an activity never changes, a stored row keeps identity, payload and signature |
| OutboxRuns.AnswerMeetsSentRow | clients/linux/src/outbox.rs:1667-1693 | the row an answer is carried out on is the one that was sent, with what was sent, exactly if that row is still stored; otherwise it is a newer row |
| OutboxRuns.PassIsRun | clients/linux/src/sync.rs:380-461 | an undisturbed pass cut after any of its effects is a piece of a run, world by world |
| RunGuarantees.UploadsAreFaithful | clients/linux/src/sync.rs:465-524 | if an activity was new when its row was queued, then as long as the row is stored every upload of it and what the ledger holds have the row's own payload, tag and captures (each image as queued or empty, digests kept; no captures at all only if the row was parked meanwhile) |
| RunGuarantees.RowsLeaveDelivered | clients/linux/src/sync.rs:494-524 | a row that left was too old or past the newest `maxPendingRows` when limits were enforced, or met the predicate of the purge it was dropped by, or was acknowledged: then its activity is in the ledger for good, and if the activity was new when queued, with the row's own payload, tag and captures |
| RunGuarantees.LeavesFor | clients/linux/src/outbox.rs:1978-2091 | exactly the rows past the limits leave by a limit and exactly those a purge names leave by it; parking a scope, queueing and crashing remove none; an upload or pass removes only a row whose activity the ledger holds |
| RunGuarantees.LateAnswerDeletesUnsentRow | clients/linux/src/outbox.rs:1667-1693 | a run in which a row is purged and its activity queued again with another payload while the upload is under way: the late answer deletes the new row, which was never sent |
| RunGuarantees.StillVerifies | clients/linux/src/outbox.rs:1746-1843 | a queued v2 row verifies under the key it was queued under after any sheds, strips and failed attempts |
| RunGuarantees.UploadStillVerifies | clients/linux/src/api.rs:1552-1572 | an upload of a queued row about to be sent is never withheld for integrity, whatever the worker did meanwhile |
| RunGuarantees.EnqueueAgain | clients/linux/src/outbox.rs:1487-1570 | queueing the identical activity with the same key again finds the same row, whatever happened to it since, and is never refused |
| RunGuarantees.SameActivityIsSame | clients/linux/src/outbox.rs:1519-1531 | two activities recognised as the same row have equal payloads and images, or HMAC-SHA256 or SHA-256 collides on inputs named; so a different one is refused |
| OutboxUse.Conclude | clients/linux/src/sync.rs:493-618 | carrying out an answer with one call of the store is one step of an upload, whatever the store holds by then |
| OutboxUse.AnyWork | clients/linux/src/agent/worker.rs:3332-3353 | each call of the worker has exactly the effect its step says |
| OutboxUse.AnyUse | clients/linux/src/agent/uploader.rs:1-14 | after any number of calls, each one transaction or one delivery, uploads and worker interleaved and crashes among them, the store is valid and what it and the server went through is a run |
| OutboxStore.Outbox.ValidRowAt | clients/linux/src/outbox.rs:1487-1570 | in every reachable store a row's byte count is the size of its captures, a parked row has none, its images match their digests and its tag is the tag of its payload and digests |
| OutboxStore.Outbox.Enqueue | clients/linux/src/outbox.rs:1382-1477 | refused with the first applicable error, recognised by identical payload, or inserted under a new id within both quotas |
| OutboxStore.Outbox.EnqueueActivity | clients/linux/src/outbox.rs:1487-1570 | refused with the first applicable error, recognised by payload and tag, or inserted, signed and complete under a new id, every field of the new row named |
| Enqueueing.ActivityRowFields | clients/linux/src/outbox.rs:1533-1567 | the inserted row field by field: the activity's own times, project and payload, the tag over it, and each capture as handed in with its digest |
| Enqueueing.ActivitiesAccepted | clients/linux/src/outbox.rs:469-537 | a finished block is accepted exactly if its ids, times, size and payload are in order, no two captures are of one kind, and each is non-empty and within its kind's bytes |
| Enqueueing.ActivityRefusedExactly | clients/linux/src/outbox.rs:1487-1570 | refused exactly for the scope, an empty key, the block itself or a different block under the same id; never for want of room |
| Enqueueing.EnvelopesAccepted | clients/linux/src/outbox.rs:226-275 | an envelope is accepted exactly if the version is 1 and every length, range and character rule holds; another version is named |
| Enqueueing.EnvelopeRefusedExactly | clients/linux/src/outbox.rs:1382-1477 | refused exactly for the scope, the envelope, its size, a different payload under the same id, or a new one past the count or the byte quota, and the error is the one that applies |
| Enqueueing.TotalIsOfAllRows | clients/linux/src/outbox.rs:1430-1435 | the total held against the quota counts the payload of every row once, pending or parked |
| OutboxStore.Outbox.TotalPayloadBytes | clients/linux/src/outbox.rs:1430-1435 | the sum of the payload sizes of all rows |
| OutboxStore.Outbox.PeekReady | clients/linux/src/outbox.rs:1588-1614 | the first rows of the scope's queue in id order, as many as asked for within one and a page |
| OutboxStore.Outbox.SelectPending | clients/linux/src/outbox.rs:1588-1614 | the select yields the prefix of the queue in id order |
| OutboxStore.Outbox.LoadCaptures | clients/linux/src/outbox.rs:1618-1660 | the row's captures, screen first, shed ones included |
| OutboxStore.Outbox.PendingCount | clients/linux/src/outbox.rs:2135-2144 | the length of the scope's queue |
| OutboxStore.Outbox.AckDelivered | clients/linux/src/outbox.rs:1667-1693 | exactly the named row is gone, or nothing changed and the error is the argument's, the store's or that there is none |
| OutboxStore.Outbox.MarkAttemptFailed | clients/linux/src/outbox.rs:1700-1741 | exactly the named pending row has one more attempt and the message; an overlong message is refused |
| OutboxStore.Outbox.Park | clients/linux/src/outbox.rs:1746-1782 | exactly the named pending row is parked with the truncated reason and loses its captures |
| OutboxStore.Outbox.ParkScope | clients/linux/src/outbox.rs:1785-1809 | every pending row of the scope and no other is parked, and counted |
| OutboxStore.Outbox.StripCaptures | clients/linux/src/outbox.rs:1816-1843 | exactly the named pending row loses its image bytes and keeps its digests; the result says whether it had any |
| OutboxStore.Outbox.StripEntry | clients/linux/src/outbox.rs:2166-2176 | the bytes are gone, the digests stay, and whether any were removed is what the byte count said |
| OutboxStore.Outbox.EnforceLimits | clients/linux/src/outbox.rs:1978-2035 | the sweep and the two deletions leave exactly the store the declarative rule describes, and report its counts; `DroppedByNumbers`, `KeptByNumbers` and `ReportByNumbers` say what that is in times, ranks and bytes |
| Limits.DroppedByNumbers | clients/linux/src/outbox.rs:2017-2028 | a row is dropped exactly if it is pending and either started more than `maxAgeDays` days ago or has at least `maxPendingRows` newer pending rows that did not |
| Limits.FreshRowsStay | clients/linux/src/outbox.rs:2017-2028 | a pending row started within the age limit and among the newest `maxPendingRows` stays |
| Limits.KeptByNumbers | clients/linux/src/outbox.rs:1991-2013 | a pending row that stays loses its image bytes exactly if its rank, the bytes up to it or its age is past the limit for captures, and then nothing but those; otherwise it is unchanged |
| Limits.ReportByNumbers | clients/linux/src/outbox.rs:2017-2034 | the three counts are the numbers of rows too old, of young rows gone and of rows past the limits for captures |
| OutboxStore.Outbox.PurgeParkedOlderThan | clients/linux/src/outbox.rs:2038-2046 | exactly the rows parked before the cutoff are gone, and counted |
| OutboxStore.Outbox.PurgeForeignPendingOlderThan | clients/linux/src/outbox.rs:2052-2066 | exactly the pending rows of other accounts than the normalised one queued before the cutoff are gone (every account's with nobody signed in), and counted |
| OutboxStore.Outbox.Purge | clients/linux/src/outbox.rs:2070-2091 | exactly the rows of the normalised account and of the kind are gone, and counted |
| OutboxStore.ParkAllIsValid | clients/linux/src/outbox.rs:1785-1809 | parking a scope leaves a valid store in which rows only evolved |
| OutboxStore.DropsAreTheRule | clients/linux/src/outbox.rs:2017-2028 | deleting the too old rows and then all but the newest of the rest is the rule's own choice of survivors |
| Limits.SweepShedIds | clients/linux/src/outbox.rs:1991-2013 | one newest-first sweep with a running count and byte sum finds exactly the rows past the row, byte or age limit |
| Limits.EnforcedWithinBounds | clients/linux/src/outbox.rs:615-631 | afterwards capture bytes, rows with captures and pending rows are within their limits |
| Limits.EnforcedConserves | clients/linux/src/outbox.rs:2017-2034 | pending rows before are pending rows after plus both drop counts |
| Limits.EnforcedKeepsRows | clients/linux/src/outbox.rs:1978-2035 | parked rows are unchanged, kept rows only lose image bytes, dropped rows are pending ones past the limits |
| Limits.EnforcedTwice | clients/linux/src/outbox.rs:1978-2035 | enforcing the same limits at the same time again changes nothing and reports zeros |
| Limits.EnforcedIsValid | clients/linux/src/outbox.rs:2166-2176 | byte counts, digests and tags are still right after enforcement |
| Limits.ShedRowIsValid | clients/linux/src/outbox.rs:2166-2176 | shedding keeps the digests and so the tag |
| Enqueueing.StoredDigestsAreSigned | clients/linux/src/outbox.rs:1500-1567 | the digests stored with the captures are the ones that were signed |
| Enqueueing.StoredBytesAreCounted | clients/linux/src/outbox.rs:1502 | the stored byte count is the size of the stored captures |
| Enqueueing.AcceptedCaptures | clients/linux/src/outbox.rs:516-535 | accepted captures are non-empty, within their kind's size and one per kind |
| Enqueueing.ActivityRowIsValid | clients/linux/src/outbox.rs:1499-1567 | an accepted activity makes a row whose tag verifies |
| Enqueueing.ComputePendingDigests | clients/linux/src/outbox.rs:539-549 | the loop yields the digest of the last capture of each kind |
| Enqueueing.InsertedCaptures | clients/linux/src/outbox.rs:1554-1567 | the inserts yield one stored capture per kind with its digest |
| QueueRows.InsertKeepsValid | clients/linux/src/outbox.rs:1487-1570 | a valid row under a new id and a free identity keeps the store valid and identities unique |
| QueueRows.PendingFromMembers | clients/linux/src/outbox.rs:1588-1614 | the queue holds exactly the scope's pending rows |
| QueueRows.PendingFromAscending | clients/linux/src/outbox.rs:1588-1614 | the queue is in id order |
| QueueRows.PendingFromDropFirst | clients/linux/src/outbox.rs:1667-1693 | when the oldest queued row leaves, the rest of the queue follows unchanged |
| Delivering.VerifyEntry | clients/linux/src/api.rs:640-651 | true exactly if every image kept matches its digest and the tag is that of payload and digests |
| Delivering.ComputeDigests | clients/linux/src/outbox.rs:417-426 | the loop yields the digest of the last capture of each kind |
| Delivering.LoadedDigestsAreStored | clients/linux/src/outbox.rs:417-426 | loading a row's captures gives back the digests its tag covers |
| Delivering.PassSendsVerifiable | clients/linux/src/api.rs:1552-1572 | whatever a pass sends from a valid store, resent rows included, verifies and is not withheld, so delivery never parks an untampered row for integrity |
| Delivering.TamperedEntryFails | clients/linux/src/api.rs:640-651 | an entry that verifies carries the signed payload, digests and remaining image bytes, or a collision is at hand |
| Delivering.DeliverEntry | clients/linux/src/api.rs:1552-1609 | an entry is withheld exactly for a missing key, a failed check, an unreadable payload or a v1 row that cannot be signed, with the outcome of each; an upload carries its row's tag, or a new one for an unsigned v1 row; acceptance means it succeeded; a missing project is parked exactly if the listing succeeded without it, and every other failure has its own outcome |
| Signing.FeedV2 | clients/linux/src/signing.rs:42-56 | the loop feeds payload, NUL and one slot per kind |
| Signing.MacInputInjective | clients/linux/src/signing.rs:37-56 | for payloads without NUL the signed bytes determine payload, screen slot and thumb slot |
| Signing.NeverAV1Input | clients/linux/src/signing.rs:82-87 | they are never the bytes of a v1 tag |
| Signing.V1TagVerifies | clients/linux/src/signing.rs:82-101 | a v1 tag verifies for its own JSON and for anything else exactly if that has the same tag; passing as a v2 tag is an HMAC collision |
| Signing.VerifiesOwnSignature | clients/linux/src/signing.rs:60-71 | a tag verifies for what was signed, and for anything else exactly if that has the same tag |
| Signing.TamperedRowNeedsCollision | clients/linux/src/signing.rs:66-71 | anything else that verifies is an HMAC collision one can point at |
| Utf8.Truncate | clients/linux/src/sync.rs:694-704 | the boundary loop yields the truncation function's value |
| Utf8.BoundaryIffWholeCharacters | clients/linux/src/outbox.rs:946-955 | a byte position is a character boundary exactly if the bytes before it are whole characters |
| Utf8.TruncatedIsLongest | clients/linux/src/outbox.rs:946-955 | the result is the longest prefix of whole characters that fits, and the only one |
| Utf8.TruncatedUsesTheAllowance | clients/linux/src/outbox.rs:946-955 | at most three bytes of the allowance stay unused |
| Tokens.GrantWindow | clients/linux/src/api.rs:666-718 | a grant is valid from the start, due before it expires, and never valid beyond what was granted; without a lifetime it is no token |
| Tokens.GrantIsAdopted | clients/linux/src/api.rs:720-737 | a granted refresh token is taken unless absent or empty, then the previous one stays; the granted access token is valid and not due if it has a lifetime |
| Tokens.RehydratedWindow | clients/linux/src/api.rs:739-771 | a saved token keeps at most a year of what remains and is due 60 seconds before its end, or a fifth of that time, or a second when little remains |
| Tokens.InvalidationIsExact | clients/linux/src/api.rs:979-987 | a refused token is gone, a newer one is untouched, and the refresh token stays |
| Tokens.TokenCell.SetGranted | clients/linux/src/api.rs:843-865 | the grant is stored and the listener told exactly the refresh token that differs from the one before |
| Tokens.TokenCell.Invalidate | clients/linux/src/api.rs:979-987 | the slot is the compared-and-invalidated one |
| Tokens.TokenCell.constructor | clients/linux/src/api.rs:872-885 | holds the given refresh token unless it is empty, and no access token |
| ApiClients.ApiClient.TokenRequest | clients/linux/src/api.rs:1202-1247 | only a grant changes the cell, and then a granted refresh token is the cell's, the presented one staying only if none was granted; the listener is told a new one and nothing else |
| ApiClients.ApiClient.EnsureToken | clients/linux/src/api.rs:1272-1325 | a token request only if the cell's token was missing, expired or due, and at most one, presenting the cell's refresh token or else the password; what a grant brings is adopted by the cell and a new refresh token told to the listener; a refusal is Rejected with the cell unchanged; a token returned is the cell's |
| ApiClients.ApiClient.Send | clients/linux/src/api.rs:1331-1371 | at most two requests, the second only after the first was answered 401 and with the access token granted since; the result is the last answer, and a final 401 leaves that token invalid |
| TokenSharing.StepKeepsInv | clients/linux/src/api.rs:1272-1371 | every step of every client keeps the shared cell's invariant |
| TokenSharing.OneRenewalAtATime | clients/linux/src/api.rs:1281-1317 | at most one renewal is in flight, and what it presented is the cell's current refresh token |
| TokenSharing.RenewalWasNeeded | clients/linux/src/api.rs:1281-1290 | whoever renews had looked at the cell again while holding the lock, without a break since, and found no token that was valid and not due |
| TokenSharing.ReplacedNeverPresented | clients/linux/src/api.rs:1290-1317 | a refresh token the cell has replaced is never held nor presented again |
| TokenSharing.PasswordNeverAgain | clients/linux/src/api.rs:1290-1317 | once the cell holds a refresh token it always holds one, and the password is not sent again |
| TokenSharing.ListenerKnowsCurrent | clients/linux/src/api.rs:843-865 | the last refresh token the listener was told, or the initial one, is the cell's, but while the lock's holder is telling it |
| TokenSharing.GrantReachesCell | clients/linux/src/api.rs:1202-1247 | over any run, what is stored is a grant answered to this very client: its refresh token, else the one presented, is the cell's from then on, its access token too if it has a lifetime, and a new refresh token is told to the listener next |
| TokenSharing.CallsEndAsTheyShould | clients/linux/src/api.rs:1272-1371 | step by step, which way each call goes and how it ends: with the cell's token, Rejected, another failure, or the answer to the request |
| TokenSharing.RefusedRenewalRejects | clients/linux/src/api.rs:1293-1303 | a refused renewal ends in Rejected and changes nothing in the cell |
| TokenSharing.BearerLeavesOnlyRefused | clients/linux/src/api.rs:979-987 | an access token leaves the cell only for a new grant or because it was itself refused |
| TokenSharing.SendIsBounded | clients/linux/src/api.rs:1331-1371 | at most two requests per send, the second never with the refused token |
| TokenSharing.HolderCanMove | clients/linux/src/api.rs:1280-1325 | whoever holds the renewal lock can take a step, so the lock is never stuck |
| ConsentFiles.FileSystem.Save | clients/linux/src/consent.rs:295-439 | success replaces exactly the target; failure leaves every file as it was but for at most one fresh file of its own beside the target |
| ConsentFiles.FileSystem.OpenTemp | clients/linux/src/consent.rs:355-399 | within 64 attempts a new file under a name nothing had, never the target |
| ConsentFiles.FailedSaveKeepsFiles | clients/linux/src/consent.rs:401-438 | after a failed save the target and every other file read as before |
| Consent.FileConsentStore.Save | clients/linux/src/consent.rs:295-439 | the record is the new choice exactly on success, and the old one otherwise |
| Consent.FileConsentStore.Load | clients/linux/src/consent.rs:259-272 | what is loaded is the record |
| Consent.IntersectIsGreatestLowerBound | clients/linux/src/consent.rs:69-80 | the intersection is the most permissive choice within both grant and policy, and has a capability exactly if they share one |
| Consent.ConsentManager.Update | clients/linux/src/consent.rs:665-723 | success means the choice is in force; failure leaves in force what memory and a granted choice share, memory if only the choice is granted, else the choice; the record becomes the choice exactly on success with a choice that differs from memory; and which files may have changed |
| Consent.ChoiceComesIntoForce | clients/linux/src/consent.rs:665-723 | after any events, a choice that is saved or needs no saving is in force, one that is not leaves what a failed choice leaves, and a restart brings back the record |
| Consent.LoadOrFailClosed | clients/linux/src/consent.rs:630-642 | the record, or no consent at all if it cannot be read |
| Consent.MemoryNeverExceedsRecord | clients/linux/src/consent.rs:656-664 | over any updates, failing saves and restarts, and while a save is under way, memory allows nothing the record does not grant and blurs whenever it does |
| Consent.WidensOnlyOnceSaved | clients/linux/src/consent.rs:656-664 | whatever one update newly allows, a loosened blur included, is on record by then |
| Consent.NarrowsAtOnce | clients/linux/src/consent.rs:656-664 | whatever the choice withdraws is withdrawn, saved or not |
| Consent.SuccessIsDurable | clients/linux/src/consent.rs:665-669 | a successful update is on record exactly when the choice differs from memory or was there already |
| Consent.RepeatedRevocationIsNotSaved | clients/linux/src/consent.rs:665-669 | a revocation whose save failed, repeated, reports success, and a restart finds the grant |
| Lifecycle.TrackerLifecycle.Configure | clients/linux/src/lifecycle.rs:193-216 | the tracker after a policy arrives, as `Apply` and by field `ConfiguresAtOnce` say |
| Lifecycle.TrackerLifecycle.Start | clients/linux/src/lifecycle.rs:244-273 | started exactly without a reason to refuse, the first reason reported otherwise |
| Lifecycle.TrackerLifecycle.UpdateConsent | clients/linux/src/lifecycle.rs:343-363 | reconciled whether or not the choice was saved |
| Lifecycle.TrackerLifecycle.Pause | clients/linux/src/lifecycle.rs:276-289 | the new tracker and the refusals; tracking is paused and nothing else is changed |
| Lifecycle.TrackerLifecycle.Stop | clients/linux/src/lifecycle.rs:297-310 | the new tracker and the refusals |
| Lifecycle.TrackerLifecycle.Lock | clients/linux/src/lifecycle.rs:313-318 | the new tracker; whatever was tracked or paused is locked and no ticket stands |
| Lifecycle.TrackerLifecycle.Unlock | clients/linux/src/lifecycle.rs:321-326 | unlocking never resumes tracking |
| Lifecycle.TrackerLifecycle.Quit | clients/linux/src/lifecycle.rs:329-332 | the new tracker |
| Lifecycle.TrackerLifecycle.AcquireTicket | clients/linux/src/lifecycle.rs:366-383 | a ticket of the current generation exactly if tracking with that capability, which `TicketsByField` reads as that capability's own field of policy and granted consent |
| Lifecycle.TrackerLifecycle.ValidateTicket | clients/linux/src/lifecycle.rs:390-407 | the first reason against the ticket, if any; none exactly if it could be acquired now, in its own generation |
| Lifecycle.TicketsByField | clients/linux/src/lifecycle.rs:226-240 | for each of the six capabilities: issued exactly if tracking and its own field is set in policy and granted consent; validated exactly if it could be issued and the generation is the same |
| Lifecycle.AcquiredIsRecorded | clients/linux/src/lifecycle.rs:366-383 | over any run with a record on disk: issued only if that capability's own field is granted on record |
| Lifecycle.EffectiveByField | clients/linux/src/lifecycle.rs:219-224 | each effective permission is that of both policy and granted consent, and none is without either |
| Lifecycle.StartsExactlyWhen | clients/linux/src/lifecycle.rs:244-273 | a start succeeds exactly with a policy, a granted consent, a capability of both and a state it may start from, the first reason named otherwise |
| Lifecycle.StatesFollow | clients/linux/src/lifecycle.rs:276-332 | which state follows which on pausing, stopping, locking, unlocking and quitting |
| Lifecycle.SilencedAtOnce | clients/linux/src/lifecycle.rs:276-332 | pausing, stopping, locking and quitting leave the tracker not tracking, with every earlier ticket refused |
| Lifecycle.ConfiguresAtOnce | clients/linux/src/lifecycle.rs:193-216 | the policy is in force at once; tracking goes on only while policy and granted consent share a capability |
| Lifecycle.ConsentsAtOnce | clients/linux/src/lifecycle.rs:343-363 | a choice that is saved or needs no saving is in force at once, and one that failed leaves what a failed choice leaves |
| Lifecycle.TracksOnWithConsent | clients/linux/src/lifecycle.rs:343-363 | a changed consent leaves the tracker tracking exactly if it was and something is left to track |
| Lifecycle.TicketsOutlastNoChange | clients/linux/src/lifecycle.rs:366-407 | over any run a ticket validates later exactly when the generation is unchanged, and then every state in between was tracking with the same effective permissions and consent |
| Lifecycle.ChangesAreNumbered | clients/linux/src/lifecycle.rs:193-363 | an event changes nothing or starts a new generation, except exactly when a terminated tracker gets another policy, and then only the policy changes |
| Lifecycle.PolicyChangesUnnumberedOnceTerminated | clients/linux/src/lifecycle.rs:203-205 | in Terminated the policy changes without one |
| Lifecycle.GenerationStandsStill | clients/linux/src/lifecycle.rs:193-363 | over any run the generation is unchanged exactly when every event in between changed nothing or gave a terminated tracker another policy |
| Lifecycle.SameGenerationSameLife | clients/linux/src/lifecycle.rs:193-363 | a tracker still in its old generation was in the same state with the same consent all along, and with the same policy unless terminated |
| Lifecycle.GenerationsAscend | clients/linux/src/lifecycle.rs:20-24 | the generation never decreases and Terminated is never left |
| Lifecycle.TrackingIsConsented | clients/linux/src/lifecycle.rs:193-273 | over any run tracking has a policy, a granted consent and a capability of both, is entered only by an explicit start, and what may be acquired is granted by policy, user and the record on disk |
| Lifecycle.TrackingWidensOnlyOnceSaved | clients/linux/src/lifecycle.rs:343-363 | an update of consent adds an effective capability only once saved, and outdates the tickets |
| ServiceText.RenderSessionEnv | clients/linux/src/service.rs:530-555 | the header and one escaped line per variable present, or the first variable in file order that cannot be written and why; a value can be written exactly if it has no control character, dollar sign or backtick and fits 4096 bytes |
| ServiceText.LineReadsBack | clients/linux/src/service.rs:550-568 | each line starts with its variable and its quoted text reads back as the value |
| ServiceText.LinesInOrder | clients/linux/src/service.rs:530-555 | the lines follow the order of the keys, each variable present exactly once |
| ServiceText.SessionIdRoundTrips | clients/linux/src/service.rs:530-568 | the session id read back is the one written, whatever quotes and backslashes it has, and none if none was |
| ServiceText.EscapingRoundTrips | clients/linux/src/service.rs:550-566 | undoing quotes and then backslashes undoes the escaping of every value |
| ServiceText.LinesOfJoined | clients/linux/src/service.rs:557-559 | the lines written are the lines read |
| DesktopEntry.ExecQuote | clients/linux/src/service.rs:159-177 | the loop yields the quoted argument |
| DesktopEntry.QuotedAsSpecified | clients/linux/src/service.rs:156-177 | an argument with a character reserved by the Desktop Entry Specification is quoted with every quote, backtick, dollar sign and backslash escaped; one without is left without any |
| DesktopEntry.ExecRoundTrips | clients/linux/src/service.rs:159-190 | a launcher following the Desktop Entry Specification starts exactly the path that was written |
| DesktopEntry.TryExecRoundTrips | clients/linux/src/service.rs:178-190 | and looks for that very path first |
| DesktopEntry.ExecStaysOnLine | clients/linux/src/service.rs:115-130 | no control character gets into the value |
| DesktopEntry.ExecLineIsIntended | clients/linux/src/service.rs:184-190 | the rendered line is the intended one exactly when the path does not contain the other placeholder |
| DesktopEntry.PlaceholderInPathBreaksLine | clients/linux/src/service.rs:184-190 | a path for which it is not |

## Left out

- SQLite itself (pragmas, migration, WAL, recovery of a damaged file, vacuum): a call is one atomic step on a map of rows, and a row that cannot be decoded counts as a fault of the call.
- SyncCoordinator.SyncPassCoordinator.RunPass: the report of a pass is described for a pass the worker does not disturb; while it works on the same store (the uploader's connection is its own) only what the run theorems say holds, row by row.
- The bounded read-only inspector of the outbox: one aggregate query refused past its row limit, with easy members only.
- Error texts: stop reasons carry the error value instead of its truncated display text.
- Integer widths: ids, counts, byte sums and the generation are unbounded; only the clamp of the capture byte limit to 63 bits is kept.
- JSON, UUIDs and dates: what the libraries say of a payload and its ids enters `PendingActivity` as a verdict, and the v1 envelope carries the JSON it serializes to.
- The normalisation of account ids (trimming, lower-casing) is an uninterpreted function of the text library, applied where a purge applies it; a scope is taken as already normalised.
- `default_page_limit` and the other listing calls (`queue_summary`, `recent_rows`, `pending_scopes`).
- HTTP, TLS and the error-code tables: the server is an oracle that answers a classified failure.
- TokenSharing: `login` and `refresh` called directly do not take the renewal lock and are not steps of the model; the lock may be handed to any waiting client, not the first.
- TokenSharing: the server is assumed to issue access and refresh tokens the cell has not held before, or to repeat the refresh token presented.
- ApiClients.ApiClient.EnsureToken: the sequential form has no other clients between its steps; `TokenSharing` has them.
- The server URL check and the workspace header of `send`, the UTC expiry of a token, and the server clock offset.
- ConsentFiles.FileSystem.Save: owner and mode of a file are one `trusted` flag, the path ends in a UTF-8 file name, and a crash inside the system calls themselves is not modelled.
- Consent.ConsentManager.Update: the storage is not exchanged while the manager is in use (`set_storage`, `set_persist_path`).
- The managed-file rules, the systemd unit and `systemctl` calls of the service integration.
- Credentials, diagnostics, the Windows client, the backend and the frontend.
