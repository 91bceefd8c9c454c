# Zimlo: a verified model of the command path and the cores around it

Zimlo lets a phone drive coding agents that run on a Mac. A command written on the phone is saved in an
outbox, sent over a counted and encrypted channel (directly or through a cloud relay), stored by a Bridge
under a unique key, and executed by an agent. This project models that path, and the self-contained cores
beside it, as Dafny programs, and proves what the system promises about them.

Code that changes state step by step is a `class` with the same fields and methods. Each method is proved
equal to a step function over an immutable copy of the state (`State()`), so that the theorems about whole
runs, which quantify over arbitrary sequences of events, hold of the methods too. The histories used to
state a property (who launched what, which frames were sealed) are ghost fields of the classes and ordinary
fields of the immutable state.

## The modules

- **Keys**: storage keys `device:key`, on which the store's uniqueness and the phone's suffix matching rest.
- **TaskCommands**: the Bridge's command table, dispatch loop, active set, session leases, retry, cancel
  and requeue on restart. An agent's turn is a chain of continuations that interleave with everything else.
- **TaskOutcomes**: what becomes of a command: how its turn ends, what a submission, a retry, a cancel and a
  release do to it.
- **DurableOutbox**: the phone's outbox operations, with saving that may fail.
- **CommandPath**: the two together over a network that loses, delays, reorders and repeats anything that
  was ever sent, with app restarts, Bridge restarts, re-pairing, several hosts and other clients' commands.
- **CommandProgress**: what that path brings about: a command that is sent gets its row and leaves the outbox.
- **SnapshotSync**: what one connection carries of snapshots, as the Bridge's whole messages and differences
  and as the phone's replica of them.
- **SecureChannel** and **ConnectionLease**: the two ends of the channel. Encryption is ideal: a ciphertext
  opens only under the key, counter and associated data it was sealed with. The network may deliver any
  frame that was sealed by someone, or invented. On the phone every suspended `async` path is a recorded
  continuation that may resume at any later time, in any order, with any outcome.
- **ConnectionProgress**: what the same client brings about: that it stays on the way to a connection, gets
  connected by an honest Bridge, and has its commands handed over.
- **HChaCha20** and **Base64Url**: the cipher state transform on `bv32` words, little-endian packing, the
  counter nonce, and both base64url codecs.
- **HChaCha20Example**: the published test vector, worked through round by round.
- **ActionBroker**: approvals, their promises, timers, submissions, expiry, `cancelAll` and restart.
- **Idempotency**: at-least-once deliveries of dismissals, pins, archivings and decisions.
- **RelayRouting**: the relay room, the Mac's relay client, its buffers and local sockets.
- **RelayDelivery**: who is attached, which socket serves a connection, and what gets through.
- **Notifications**: failure pushes, the fallback timer, and merging of pushes for one session.
- **EventBuffer**: the bounded timeline against the full history.
- **FeedCoalescing**: merging of progress posts.
- **TranscriptTail**: reading a growing transcript in chunks, decoding each as UTF-8 and measuring the result.
- **HookConfig**: installing and removing Zimlo's hooks in a JSON configuration.
- **PairingRoom** and **DevicePairing**: pairing in the cloud and on the Mac.
- **PayloadBound**: the size of stored event payloads, in UTF-16 units and UTF-8 bytes, and reading them back.

## Where a promise fails, and exactly when it holds

- **One row per command.** Over any run a command has at most one row on all hosts if and only if every
  delivery of it that could be stored reached one host as one device (`CommandPath.OneRowExactlyWhen`). Two
  things break that. Re-pairing gives the phone a new device id, with which the storage key starts
  (`RePairingDuplicates`). And a command queued while no host was known is sent to whichever is connected
  (`UnscopedDuplicates`). A host-scoped command without re-pairing keeps the promise (`AtMostOneRow`).
- **Storing a command.** A create or follow-up adds a row if and only if its id and key are new and the
  session it names is known. It throws if and only if it adds none although no row has its key. So a
  follow-up to an unknown session is not stored as failed: its row breaks a foreign key, which
  `INSERT OR IGNORE` does not suppress (`TaskCommands.SubmissionStoresExactlyWhen`).
- **The outcome of a turn.** A turn that says ok leaves a completed row if and only if the session it names is
  known. Otherwise the write breaks a foreign key, and the row fails; if the dispatch's own session is gone as
  well, that write fails too and the row stays running until a restart (`TaskOutcomes.TurnEndsAsItReturned`).
- **Staying on the way to a connection.** A paired client that is online and not stopped always has a socket
  or an accepted continuation if and only if it never gives up (`ConnectionProgress.AlwaysTendedExactlyWhen`).
  It gives up when a startup check fails without a relay, a pairing fails after the old connection was dropped,
  or a socket URL cannot be built (`GivesUp`); then only a start, a retry, a pairing or a returning network
  moves it on.
- **The count of failure pushes.** It stays exact throughout a run if and only if no event counts twice: no
  fallback fires after a failure post or another fallback, and no first failure post comes after a fallback
  the hub has forgotten (`Notifications.AlwaysExactExactlyWhen`). Deleting the session of a failed task leads
  to both (`LostSessionCountsTwice`); while failed tasks keep their session neither happens
  (`PushesAreCountedExactly`).
- **Spacing of progress posts.** A call keeps stored posts more than the window apart if and only if it does
  not merge, or no other row of its group is within the window of the new time
  (`FeedCoalescing.SpacedAfterExactlyWhen`, over runs `AlwaysSpacedExactlyWhen`). Nondecreasing timestamps are
  enough; a merge back in time can break it (`BackwardsClockBreaksSpacing`).
- **Server messages.** A message that the snapshot replica does not accept still spends its counter. What
  reaches `onMessage` is a prefix if and only if no accepted message follows a refused one
  (`ConnectionLease.MessagesArePrefixExactlyWhen`); a resync between two accepted messages leaves a gap
  (`RefusedMessageLeavesAGap`).
- **Transcript offsets.** Offsets are measured on decoded text, in which a byte of a torn character counts
  three. A pass reads exactly what lies in the file if and only if its chunk starts on a character boundary or
  gives nothing (`TranscriptTail.PassIsExactExactlyWhen`), and a whole run if and only if that holds of two
  places, both known after the first pass: where it starts on the tail, and the size it stores
  (`RunIsExactExactlyWhen`). Otherwise an offset can pass the size of the file and lines are given again
  (`TornStartRepeatsALine`).
- **Snapshot differences.** A snapshot sent as a difference is refused if and only if the one before it was
  refused, it is of another host, or a changed collection repeats an id (`SnapshotSync.ResyncsExactlyWhen`,
  `RepeatedIdIsRefused`). Snapshots that are not like that are followed exactly (`PlainSnapshotsNeverResync`).
- **Long transcript lines.** A line longer than 2 MiB stops the tailing of its file for good
  (`TranscriptTail.LongLinesBlock`); a pass moves the offset if and only if its chunk holds a newline
  (`AdvancesExactlyAtNewlines`).
- **Removing hooks.** Uninstalling restores a Zimlo-free configuration if and only if its `hooks` value is
  absent or an object, and every event that Zimlo writes to is absent or a non-empty array
  (`HookConfig.UninstallUndoesInstall`).
- **base64url.** The two decoders agree on a text if and only if it holds no whitespace or, stripped of
  whitespace and padding, has length 1 modulo 4 or a character outside the alphabet; `atob` skips whitespace
  and Foundation does not (`Base64Url.DecodersAgreeExactlyWhen`, `WhitespaceDivides`).

## Model

| member | source | states |
|---|---|---|
| CommandPath.NeverLost | apps/ios/Zimlo/AppModel.swift:787-829 | In every run with loss, duplication, reordering, app and Bridge restarts: each appended `task.create`, `task.follow_up` or `session.message` the user has not removed is in the outbox, in memory and on disk, or has a row; no two outbox entries share a semantic key. |
| CommandPath.OneRowPerPairing | apps/cli/src/store.ts:855-879 | In every run, two rows on one host for one appended command are the same row if and only if they were stored under one device id, and the command was really sent to that host by that device. |
| CommandPath.OneRowExactlyWhen | apps/cli/src/task-command-service.ts:44-91 | Over any run, an appended command has at most one row on all hosts together if and only if all its deliveries that could be stored (fields there, id new, session known) reached one host as one device. |
| CommandPath.DeliveryStoresExactlyWhen | apps/cli/src/store.ts:855-879 | After a delivery a command is stored under a device on that host if and only if it was before, or this delivery carries it as that device with a new id and a known session; so a resend adds a row only if none is stored under its storage key. |
| CommandPath.AtMostOneRow | apps/cli/src/task-command-service.ts:44-91 | Without re-pairing, a host-scoped command has at most one row over all hosts, and is executed at most once per admission, retry and restart requeue. |
| CommandPath.RowsCarryTheAppendedText | apps/cli/src/task-command-service.ts:44-91 | Every row stored for an appended command holds that command's trimmed text, on a host the command may reach. |
| CommandPath.RePairingDuplicates | apps/cli/src/task-command-service.ts:49-49 | A concrete possible run in which a resend after re-pairing stores one command twice. |
| CommandPath.UnscopedDuplicates | apps/ios/Zimlo/BridgeClient.swift:769-778 | A concrete possible run, without re-pairing, in which a create queued while no host was known gets a row on each of two hosts. |
| CommandPath.StepKeepsValid | apps/ios/Zimlo/AppModel.swift:787-957 | Every event of the whole path keeps the invariant that ties outbox, wire, rows and keys together. |
| CommandPath.RunKeepsValid | apps/ios/Zimlo/AppModel.swift:787-957 | So does every possible run. |
| CommandProgress.CommandGetsThrough | apps/cli/src/task-command-service.ts:44-91 | From any reachable state, a complete task command that is sent, transmitted, delivered and answered has its row under its key with its trimmed text, a create in a trusted workspace runs, and neither memory nor disk of the outbox holds it; the four events are possible. |
| CommandProgress.SubmissionIsRead | apps/cli/src/bridge.ts:515-580 | A Bridge takes a command for a submission if and only if it is a create, follow-up or message with key, text and place, and then with just these fields, under the key of the device. |
| CommandProgress.RetryAndCancelAreRead | apps/cli/src/bridge.ts:515-580 | A retry is read with its row id, a cancel with its id and the key of the device; other types have no effect on the table. |
| CommandProgress.CancelGetsThrough | apps/cli/src/task-command-service.ts:118-136 | A delivered cancel cancels the queued row it names, by id or by the device's key, and changes no other row. |
| CommandProgress.RetryGetsThrough | apps/cli/src/task-command-service.ts:93-116 | A delivered retry admits the failed row it names again, if still valid. |
| TaskCommands.ExecutionsAreConserved | apps/cli/src/task-command-service.ts:93-187 | In every reachable state and for every command: executions started, plus one if it is queued or canceled, equal queued insertions plus accepted retries plus restart requeues. |
| TaskCommands.CanceledNeverRunsAgain | apps/cli/src/task-command-service.ts:118-136 | A canceled command stays canceled and is never launched again, whatever follows. |
| TaskCommands.OneTurnPerSession | apps/cli/src/resume-service.ts:20-38 | In every reachable state at most one `sendMessage` turn holds a given session. |
| TaskCommands.RedeliveryIsATick | apps/cli/src/store.ts:855-879 | Delivering a known key again returns the stored row and does exactly what an ordinary dispatch pass does: nothing is launched that was not already queued. |
| TaskCommands.SubmissionStoresExactlyWhen | apps/cli/src/store.ts:855-879 | A create or follow-up adds exactly its own row if and only if its id is new, no row has its key, and a followed-up session is known; it throws if and only if it adds none although its key is new. |
| TaskCommands.TickLaunchesExactlyTheDispatchable | apps/cli/src/task-command-service.ts:138-148 | One dispatch pass launches each queued command that is not active and whose session is free exactly once, and leaves every other command alone. |
| TaskCommands.RestartRequeuesExactlyTheInterrupted | apps/cli/src/store.ts:132-133 | A restart queues exactly the dispatching and running rows, clears their error, and forgets flights, leases and the active set. |
| TaskCommands.FreshCreateRuns | apps/cli/src/task-command-service.ts:44-66 | A create with a new id and key in a trusted workspace is running after the call, launched exactly once. |
| TaskCommands.NewRowsAreSubmitted | apps/cli/src/task-command-service.ts:44-91 | A row that appears in a step was submitted in it, with that key, trimmed text, materials and kind. |
| TaskCommands.StepKeepsValid | apps/cli/src/task-command-service.ts:32-211 | Every operation and continuation keeps the invariant: unique keys, conserved executions, leases held by the flights that took them. |
| TaskCommands.RunKeepsValid | apps/cli/src/task-command-service.ts:32-211 | So does every run. |
| TaskCommands.FindByKey | apps/cli/src/store.ts:906-909 | Finds a row under a key if and only if there is one. |
| TaskCommands.TaskCommandService.InsertTaskCommand | apps/cli/src/store.ts:855-879 | Inserts unless the id or key is taken, returns the row that then holds the key, and throws when there is none (foreign key). |
| TaskCommands.TaskCommandService.UpdateTaskCommand | apps/cli/src/store.ts:881-899 | Replaces the row of that id except its key and kind; writes nothing when the session is unknown. |
| TaskCommands.TaskCommandService.Dispatch | apps/cli/src/task-command-service.ts:150-187 | Marks the command active and running and starts waiting for its materials. |
| TaskCommands.TaskCommandService.DispatchQueued | apps/cli/src/task-command-service.ts:138-148 | The loop over the queue equals the dispatch pass of the specification, in queue order. |
| TaskCommands.TaskCommandService.Submit | apps/cli/src/task-command-service.ts:62-65 | Inserts and then dispatches; a failed insertion dispatches nothing. |
| TaskCommands.TaskCommandService.Create | apps/cli/src/task-command-service.ts:44-66 | A create is one step of the model, failed at once when its workspace is not trusted; the answer is the row stored under its key. |
| TaskCommands.TaskCommandService.FollowUp | apps/cli/src/task-command-service.ts:68-91 | A follow-up is one step of the model, failed at once for an uncertain session or a missing directory; the answer is the row stored under its key, and none is given when it throws. |
| TaskCommands.TaskCommandService.FollowUpInvalidReason | apps/cli/src/task-command-service.ts:203-211 | Names the first reason why a session cannot be followed up. |
| TaskCommands.TaskCommandService.Retry | apps/cli/src/task-command-service.ts:93-116 | Only a failed command is queued again; one that is no longer valid stays failed with the reason; an unknown one is answered with nothing. |
| TaskCommands.TaskCommandService.Cancel | apps/cli/src/task-command-service.ts:118-136 | Cancels only a queued command; canceling twice succeeds; anything else is refused or not found. |
| TaskCommands.TaskCommandService.Settle | apps/cli/src/task-command-service.ts:150-187 | The final write, the lease and the flight's phase become those of the specification, whose outcomes `TaskOutcomes.TurnEndsAsItReturned`, `ThrownTurnFails` and `RefusedMaterialsEndTheFlight` state. |
| TaskCommands.TaskCommandService.OnMaterials | apps/cli/src/task-command-service.ts:189-201 | Materials that are missing or too many or too large fail the command; otherwise the turn starts. |
| TaskCommands.TaskCommandService.SendMessage | apps/cli/src/resume-service.ts:20-38 | A turn is refused for an unknown, foreign or leased session or a missing directory, and otherwise takes the lease. |
| TaskCommands.TaskCommandService.OnSession | apps/cli/src/task-command-service.ts:150-187 | A session announced while a create runs is written to its row. |
| TaskCommands.TaskCommandService.OnTurnEnded | apps/cli/src/resume-service.ts:27-37 | A turn that returns or throws settles its own flight only, as `TaskOutcomes.TurnEndsAsItReturned` and `ThrownTurnFails` say. |
| TaskCommands.TaskCommandService.OnReleased | apps/cli/src/task-command-service.ts:145-146 | The `finally` branch frees the active slot of a settled flight and nothing else. |
| TaskCommands.TaskCommandService.Recover | apps/cli/src/store.ts:132-133 | A restart equals the restart step, row by row. |
| TaskOutcomes.TurnEndsAsItReturned | apps/cli/src/task-command-service.ts:163-187 | A turn that returned leaves the row completed if and only if it says ok and the session it names is known; otherwise failed, with its message if that session is known; the session named is the row's; the slot and the lease are free afterwards. Only if not even the dispatch's own session is known does the row stay running. |
| TaskOutcomes.ThrownTurnFails | apps/cli/src/task-command-service.ts:179-186 | A turn that threw leaves a failed row with its message and frees slot and lease. |
| TaskOutcomes.MaterialsStartTheTurnExactlyWhen | apps/cli/src/task-command-service.ts:158-171 | A waiting dispatch starts its turn if and only if every material is ready, there are at most ten of at most 80 MiB, and a follow-up's session has no lease; it then holds it. |
| TaskOutcomes.RefusedMaterialsEndTheFlight | apps/cli/src/task-command-service.ts:158-187 | Otherwise the flight ends and the row fails, with the message of the check that failed first. |
| TaskOutcomes.AnnouncedSessionIsKept | apps/cli/src/task-command-service.ts:164-178 | The session that a create announces is the row's at once, and still is when the turn ends without naming one. |
| TaskOutcomes.ReleaseFreesExactlyTheSettled | apps/cli/src/task-command-service.ts:145-146 | A release frees the slot of a settled dispatch and of no other. |
| TaskOutcomes.CancelCancelsExactlyTheQueued | apps/cli/src/task-command-service.ts:118-136 | A cancel succeeds if and only if the row named by id, or else by key, is queued or was canceled before; a queued row becomes canceled, and nothing else changes. |
| TaskOutcomes.CancelFindsNothingExactlyWhen | apps/cli/src/task-command-service.ts:124-127 | It finds nothing if and only if no row has that id or, without one, that key. |
| TaskOutcomes.NewSubmissionRunsOrFails | apps/cli/src/task-command-service.ts:44-91 | A new submission is stored with its trimmed text and materials. In a good place it runs at once or waits for its busy session; otherwise it has failed with a reason and is not launched. |
| TaskOutcomes.ValidRetryRunsOrWaits | apps/cli/src/task-command-service.ts:93-116 | A failed command that is still valid runs at once after a retry, or waits if its dispatch or session is still busy; its error is gone and the retry counted. |
| TaskOutcomes.LaunchedRunsWithoutError | apps/cli/src/task-command-service.ts:138-157 | A command that a pass launches runs without the error of an earlier attempt. |
| TaskOutcomes.RowsKeepKnownSessions | apps/cli/src/store-schema.ts:129-129 | When sessions change, a row keeps its session if and only if that is still known, and otherwise has none. |
| TaskOutcomes.BytesAddUp | apps/cli/src/task-command-service.ts:161-161 | The sizes of materials are added up; one that is missing counts nothing. |
| TaskOutcomes.RefusedRetryStays | apps/cli/src/task-command-service.ts:93-107 | A retry of a row that did not fail changes nothing; of one that is not valid any more, only its error. |
| TaskOutcomes.EndedIsReleased | apps/cli/src/task-command-service.ts:145-187 | After a turn has ended, the release takes the command out of the active set and changes nothing else. |
| TaskOutcomes.FailedTurnRunsAgain | apps/cli/src/task-command-service.ts:93-187 | A turn that failed, released and retried while still valid, runs again: exactly one more launch. |
| Keys.StorageKeyInjective | apps/cli/src/task-command-service.ts:49-49 | Colon-free keys of all devices never share a storage key. |
| Keys.StorageKeyLastSegment | apps/cli/src/task-command-service.ts:74-74 | The client's key is what follows the last colon of the storage key. |
| Keys.SuffixNamesLastSegment | apps/ios/Zimlo/AppModel.swift:901-902 | The phone's suffix test on a storage key holds if and only if the key's last segment is the entry's own key. |
| DurableOutbox.SameKeySameType | apps/ios/Zimlo/SharedRules.swift:236-274 | Commands with one semantic key have one type, so a replacement never changes a queued command into another kind. |
| DurableOutbox.TaskConfirmedOnlyByItsRow | apps/ios/Zimlo/AppModel.swift:888-957 | A command for a task leaves the outbox if and only if its own host reports the row that carries its idempotency key. |
| DurableOutbox.FlushSendsExactlyTheWaiting | apps/ios/Zimlo/AppModel.swift:880-886 | A flush hands over exactly the commands of entries without an error that belong to the host. |
| DurableOutbox.SentCommandIsSaved | apps/ios/Zimlo/AppModel.swift:787-829 | What a send hands to the channel is in the outbox; success leaves memory and disk equal; failure sends nothing and leaves the disk alone. |
| DurableOutbox.ErrorMarksExactlyTheNamed | apps/ios/Zimlo/SharedRules.swift:355-368 | An error with a key, bare or behind a device prefix, marks exactly the entries of its host whose own key is the last segment, and those that share an id with one. |
| DurableOutbox.KeylessErrorMarksTheOnlyStale | apps/ios/Zimlo/SharedRules.swift:369-376 | An error without a key marks an entry if and only if a project was not found and the entry, or one with its id, is the only setting of a project the host no longer has. |
| DurableOutbox.IndexOfKey | apps/ios/Zimlo/AppModel.swift:787-829 | Finds the first entry of a semantic key, or none exactly when there is none. |
| DurableOutbox.SettingIsReplaced | apps/ios/Zimlo/AppModel.swift:787-805 | A state-setting command whose send can be saved is itself transmitted, and is then the one queued under its semantic key, without an error, in memory and on disk; no other key changes, and an entry is added only if none was there. |
| DurableOutbox.OtherCommandIsQueuedOnce | apps/ios/Zimlo/AppModel.swift:796-829 | Any other command: what is queued under its key stays and is transmitted again; otherwise one entry with it is appended, saved and transmitted. |
| DurableOutbox.SendSucceedsExactlyWhen | apps/ios/Zimlo/AppModel.swift:796-829 | A send succeeds if and only if the outbox can be saved or a command that is not replaceable is already queued, and it transmits if and only if it succeeds; a new command that cannot be saved is not queued. |
| DurableOutbox.OutboxHoldsTheCurrent | apps/ios/Zimlo/AppModel.swift:787-829 | Over any run of sends that could be saved the outbox holds, under every semantic key, the last setting or the first other command: an undone setting is never sent as it was. |
| DurableOutbox.RestartLosesNothing | apps/ios/Zimlo/AppModel.swift:787-957 | While saving works, the outbox that a restarted app reads back is the one in memory, after a send, an acknowledgement, a failure, a removal and a retry. |
| DurableOutbox.HostsDoNotShareKeys | apps/ios/Zimlo/SharedRules.swift:236-274 | Commands for different hosts, or for one and for none, have different semantic keys, so what is set on one host replaces nothing set on another. |
| DurableOutbox.SemanticKeyBeginsWith | apps/ios/Zimlo/SharedRules.swift:236-274 | The first segment of a semantic key is the host, or the type of a command for no host. |
| DurableOutbox.NewEntriesShareIdExactlyWhen | apps/ios/Zimlo/AppModel.swift:808-816 | New entries share an id if and only if both are cancels of one semantic key, or neither is a cancel and host and own key agree. |
| DurableOutbox.AcknowledgedKeepsExactly | apps/ios/Zimlo/AppModel.swift:888-957 | An acknowledgement takes out exactly the confirmed entries, and saves if it took out any. |
| DurableOutbox.ConfirmedExactlyByItsAnswer | apps/ios/Zimlo/AppModel.swift:888-957 | Apart from task rows, an entry is confirmed if and only if the message is of its host and answers its command, by the table of types; a dismissal undone is confirmed by a snapshot without it and not by an event. |
| DurableOutbox.RowConfirmsRetryExactlyWhen | apps/ios/Zimlo/AppModel.swift:893-902 | A task row never confirms a cancel, and confirms a retry if and only if it is the row the retry names. |
| DurableOutbox.RemovedExactly | apps/ios/Zimlo/AppModel.swift:644-647 | The user's removal takes out exactly the named entries. |
| DurableOutbox.RetriedEntryIsSent | apps/ios/Zimlo/AppModel.swift:880-886 | A failed entry is sent again by the next flush once it is retried. |
| DurableOutbox.AppModel.SendDurable | apps/ios/Zimlo/AppModel.swift:787-829 | The send of the specification, of which `SettingIsReplaced`, `OtherCommandIsQueuedOnce` and `SendSucceedsExactlyWhen` say what it queues, saves and transmits; an append that cannot be saved is rolled back. |
| DurableOutbox.AppModel.FlushOutbox | apps/ios/Zimlo/AppModel.swift:880-886 | Sends the waiting entries in outbox order, and nothing while offline. |
| DurableOutbox.AppModel.Acknowledge | apps/ios/Zimlo/AppModel.swift:888-957 | Keeps exactly the entries the message does not confirm, in order, and saves only if something was removed. |
| DurableOutbox.AppModel.MarkOutboxFailed | apps/ios/Zimlo/AppModel.swift:1200-1223 | A Bridge error is written to exactly the entries that the failure rules match, which stay in the outbox; saves only if something changed, and reports whether an entry matched. |
| DurableOutbox.AppModel.RemoveOutboxEntries | apps/ios/Zimlo/AppModel.swift:644-647 | The user's removal is saved. |
| SnapshotSync.PlainSnapshotsNeverResync | packages/swift/ZimloCore/Sources/ZimloCore/SnapshotReplica.swift:12-50 | Over every run of publications and requests in which each snapshot is of the host and repeats no id in a collection, none is refused and the replica is at every moment what was published last, whole or as a difference. |
| SnapshotSync.ReplicaIsTheLastAccepted | packages/swift/ZimloCore/Sources/ZimloCore/SnapshotReplica.swift:12-50 | Over every run at all, the replica is exactly the snapshot accepted last. |
| SnapshotSync.ResyncsExactlyWhen | packages/swift/ZimloCore/Sources/ZimloCore/SnapshotReplica.swift:12-50 | A resync arises if and only if the snapshot is not one of the host, or goes as a difference although the one before was refused or a changed collection repeats an id; it leaves the replica as it was. |
| SnapshotSync.RequestHeals | runtime/crates/zimlo-bridge/src/snapshot_sync.rs:11-14 | After a request, whatever went before, the next snapshot of the host is accepted. |
| SnapshotSync.RepeatedIdIsRefused | packages/swift/ZimloCore/Sources/ZimloCore/SnapshotReplica.swift:33-45 | A concrete run without a gap in which a difference is refused, since a collection repeats an id. |
| SnapshotSync.DeltaRebuildsExactlyWhen | runtime/crates/zimlo-bridge/src/snapshot_sync.rs:44-92 | A replica that holds the snapshot before rebuilds the one after from their difference if and only if that is of its host and repeats no id in a changed collection. |
| SnapshotSync.PatchRebuildsExactlyWhen | runtime/crates/zimlo-bridge/src/snapshot_sync.rs:52-79 | Applying the difference of two collections to the first gives the second, in its order, if and only if no id repeats in it; otherwise it is refused. |
| SnapshotSync.DecimalIsInjective | runtime/crates/zimlo-bridge/src/snapshot_sync.rs:17-19 | Revisions that read alike are one revision. |
| SnapshotSync.NeverAnotherHost | packages/swift/ZimloCore/Sources/ZimloCore/SnapshotReplica.swift:12-50 | Whatever messages arrive, also ones no Bridge sends, the replica never holds another host's state. |
| SnapshotSync.AcceptedDifferenceMovesOn | packages/swift/ZimloCore/Sources/ZimloCore/SnapshotReplica.swift:26-50 | A difference is taken only on top of the revision it names and of its own host, and moves the replica to another revision; what is handed on is the snapshot then held. |
| SnapshotSync.AsksAtMostOnce | packages/swift/ZimloCore/Sources/ZimloCore/SnapshotReplica.swift:19-24 | Over any messages the replica asks for differences at most once. |
| SnapshotSync.AsksExactlyAtTheFirstAccepted | packages/swift/ZimloCore/Sources/ZimloCore/SnapshotReplica.swift:19-24 | With the Bridge at the other end it asks exactly at the first snapshot it accepts. |
| SnapshotSync.GoesAsDifferenceExactlyWhen | runtime/crates/zimlo-bridge/src/snapshot_sync.rs:16-31 | A publication goes as a difference if and only if differences were asked for, a snapshot of the same host went before it, every item of a changed collection has an id, and it is shorter so. |
| SnapshotSync.SnapshotReplica.Receive | packages/swift/ZimloCore/Sources/ZimloCore/SnapshotReplica.swift:12-50 | State and outcome equal the specification's, over full snapshots, differences, other messages and unreadable ones. |
| SnapshotSync.SnapshotReplica.ApplyCollections | packages/swift/ZimloCore/Sources/ZimloCore/SnapshotReplica.swift:33-45 | Patching the collections in any order gives all of them patched, or nothing. |
| SnapshotSync.SnapshotReplica.ApplyPatch | packages/swift/ZimloCore/Sources/ZimloCore/SnapshotReplica.swift:34-44 | Old items less the removed, with the upserted, in the given order, which names each once; otherwise nothing. |
| SnapshotSync.SnapshotReplica.Collect | packages/swift/ZimloCore/Sources/ZimloCore/SnapshotReplica.swift:39-42 | The items by id, or nothing when one has none. |
| SnapshotSync.SnapshotDelivery.Message | runtime/crates/zimlo-bridge/src/snapshot_sync.rs:16-31 | Sends a whole snapshot, or the shorter difference to the one before, and counts the revision. |
| SnapshotSync.SnapshotDelivery.Difference | runtime/crates/zimlo-bridge/src/snapshot_sync.rs:44-92 | The loop over the fields, in any order, gives the difference, or none when an item has no id. |
| SecureChannel.CommandsAreAPrefix | apps/cli/src/secure-socket.ts:87-112 | Over an arbitrary network, what `onCommand` is given is a prefix of what was sealed under the connection's key; a command that fails the schema is never passed over, so nothing after it arrives. |
| SecureChannel.ServerNoncesAreUnique | apps/cli/src/secure-socket.ts:72-81 | Everything the server seals is under one key with increasing counters. |
| SecureChannel.IdentityIsFixed | apps/cli/src/secure-socket.ts:114-145 | Once authenticated, no frame changes the device or the keys. |
| SecureChannel.ServerStepKeepsOk | apps/cli/src/secure-socket.ts:87-145 | Every send and every arrival keeps the counters in step with what was delivered and sealed. |
| SecureChannel.AuthenticatesExactlyWhen | apps/cli/src/secure-socket.ts:114-145 | A connection is authenticated if and only if its first frame proves the key of a registered device that is not revoked, as that device, under the derived keys and with the server's proof as the answer; anything else only closes it. |
| SecureChannel.HandedOverOnlyWhenProven | apps/cli/src/secure-socket.ts:87-145 | Over any network a command is handed over only on a connection on which such a proof arrived. |
| SecureChannel.HandsOverExactlyWhen | apps/cli/src/secure-socket.ts:87-112 | On an authenticated connection a frame is handed over if and only if it is the next in order, opens and fits the schema; one that only misses the schema is answered, any other closes the connection. |
| SecureChannel.SecureSocket.Send | apps/cli/src/secure-socket.ts:72-81 | A frame is sealed under the next counter and transmitted if and only if the socket is authenticated and open. |
| SecureChannel.SecureSocket.Receive | apps/cli/src/secure-socket.ts:87-112 | A frame at the expected counter that opens to a valid command is handed on and counted; an invalid command is answered with an error and not counted; anything else closes the socket. |
| SecureChannel.SecureSocket.Authenticate | apps/cli/src/secure-socket.ts:114-145 | A valid proof with a nonce of the right length installs device and keys and answers with the server's proof; anything else closes the socket. |
| ConnectionLease.StaleContinuationsDoNothing | apps/ios/Zimlo/BridgeClient.swift:541-561 | A resumed continuation whose generation is no longer current changes no field and delivers nothing. |
| ConnectionLease.OvertakenContinuationsNeverAct | apps/ios/Zimlo/BridgeClient.swift:521-555 | That stays so in every later state of every run: a superseded generation never comes back. |
| ConnectionLease.GenerationsOnlyGrow | apps/ios/Zimlo/BridgeClient.swift:521-539 | Generation numbers and socket numbers never decrease. |
| ConnectionLease.ConnectedMeansReady | apps/ios/Zimlo/BridgeClient.swift:369-421 | In every reachable state `connected` implies a socket, both keys, credentials and a client that is not stopped. |
| ConnectionLease.CountersNeverRepeat | apps/ios/Zimlo/BridgeClient.swift:156-184 | In every run, of two encryptions under one key the later has the larger counter. |
| ConnectionLease.NoncesNeverRepeat | apps/ios/Zimlo/Crypto.swift:99-134 | So no pair of key and cipher nonce is ever used twice, while counters fit 64 bits. |
| ConnectionLease.MessagesAreAPrefix | apps/ios/Zimlo/BridgeClient.swift:423-460 | What the receive loop consumes under a key is a prefix of what the server sealed under it; `onMessage` gets exactly the accepted ones, which are a prefix while no accepted one follows a refused one. |
| ConnectionLease.MessagesArePrefixExactlyWhen | apps/ios/Zimlo/BridgeClient.swift:446-454 | In every run, the places of the messages `onMessage` got are 0, 1, ... without a gap if and only if no accepted message follows a refused one; of messages that differ, the delivered ones are a prefix of what was sealed under the same condition. |
| ConnectionLease.RefusedMessageLeavesAGap | apps/ios/Zimlo/BridgeClient.swift:447-448 | A concrete plausible run, judged accepted, resync, accepted, whose delivered messages are not a prefix of what the Bridge sealed. |
| ConnectionLease.CommandsArriveInOrder | apps/ios/Zimlo/BridgeClient.swift:156-184 | Both ends together: what the Bridge delivers on a connection is a prefix of what the phone sealed on it. |
| ConnectionLease.MessagesArriveInOrder | apps/cli/src/secure-socket.ts:72-81 | Both ends together, the other way: what the phone consumes on a connection is a prefix of what that Bridge socket sealed, when only its frames are relayed under its key. |
| ConnectionLease.StepKeepsValid | apps/ios/Zimlo/BridgeClient.swift:47-561 | Every call, network event and resumed continuation keeps the connection invariant. |
| ConnectionLease.HostBridgeClient.BeginConnectionGeneration | apps/ios/Zimlo/BridgeClient.swift:521-539 | Moves the generation on and drops socket, keys, counters and the connected flag. |
| ConnectionLease.HostBridgeClient.ScheduleReconnect | apps/ios/Zimlo/BridgeClient.swift:502-519 | Leaves one continuation for the current generation, none for an old one. |
| ConnectionLease.HostBridgeClient.Connect | apps/ios/Zimlo/BridgeClient.swift:327-367 | Begins a generation and dials a new socket, schedules a reconnect when the relay URL is missing, and stops there when no socket URL can be built; does nothing when the expected generation is over or there are no credentials. |
| ConnectionLease.HostBridgeClient.Fail | apps/ios/Zimlo/BridgeClient.swift:462-500 | A failure of the current socket drops it and leaves one reconnect, over the relay if that is next; a policy violation ends the generation and drops the credentials; a failure of any other socket does nothing. When the reconnect is left, and what it does, is `ConnectionProgress.FailureReconnectsExactlyWhen` and `ReconnectDials`. |
| ConnectionLease.HostBridgeClient.Start | apps/ios/Zimlo/BridgeClient.swift:47-76 | Clears the stop flag and, when nothing is under way and there are credentials, begins a generation with one startup continuation. |
| ConnectionLease.HostBridgeClient.RetryNow | apps/ios/Zimlo/BridgeClient.swift:79-89 | When not connected and paired, abandons what is under way and starts again under a newer generation. |
| ConnectionLease.HostBridgeClient.Stop | apps/ios/Zimlo/BridgeClient.swift:112-122 | Leaves no current socket, key or connected flag. |
| ConnectionLease.HostBridgeClient.ForgetDevice | apps/ios/Zimlo/BridgeClient.swift:124-129 | Stops and drops the credentials. |
| ConnectionLease.HostBridgeClient.Pair | apps/ios/Zimlo/BridgeClient.swift:131-154 | Ends the old generation before the pairing request is awaited. |
| ConnectionLease.HostBridgeClient.NetworkChanged | apps/ios/Zimlo/BridgeClient.swift:91-110 | A network that returns retries an unconnected client that is not stopped; otherwise the change is only recorded. |
| ConnectionLease.HostBridgeClient.Transmit | apps/ios/Zimlo/BridgeClient.swift:156-184 | Spends exactly one counter and leaves one continuation bound to this socket and generation. |
| ConnectionLease.HostBridgeClient.Unsealed | apps/ios/Zimlo/BridgeClient.swift:156-184 | An encryption that throws has spent its counter and fails the connection. |
| ConnectionLease.HostBridgeClient.Send | apps/ios/Zimlo/BridgeClient.swift:156-184 | Sends if and only if connected with socket, key and credentials and the encryption succeeds, and reports exactly that. |
| ConnectionLease.HostBridgeClient.FinishStartup | apps/ios/Zimlo/BridgeClient.swift:47-76 | Clears its own startup marker and connects, directly or over the relay, if its generation is still current. |
| ConnectionLease.HostBridgeClient.FinishPairing | apps/ios/Zimlo/BridgeClient.swift:131-154 | Stores new credentials and connects if its generation is still current. |
| ConnectionLease.HostBridgeClient.Authenticate | apps/ios/Zimlo/BridgeClient.swift:369-421 | Each resumption of the handshake advances it on its own socket and generation, or fails that connection. |
| ConnectionLease.HostBridgeClient.FinishHandshake | apps/ios/Zimlo/BridgeClient.swift:369-421 | A proven reply installs the keys and connects; a wrong one fails. |
| ConnectionLease.HostBridgeClient.Judge | apps/ios/Zimlo/BridgeClient.swift:423-460 | The replica's verdict decides: hand on, ask for a snapshot, or fail the connection. |
| ConnectionLease.HostBridgeClient.Open | apps/ios/Zimlo/BridgeClient.swift:423-460 | A frame opens only at the expected counter under the server's key. |
| ConnectionLease.HostBridgeClient.ReceiveTurn | apps/ios/Zimlo/BridgeClient.swift:423-460 | One turn of the receive loop equals the model's step and hands on the opened message if and only if the turn is current and the message accepted. |
| ConnectionProgress.AlwaysTendedExactlyWhen | apps/ios/Zimlo/BridgeClient.swift:44-155 | Over every plausible run from `start`, a paired client that is online and not stopped has at every moment a served socket or a continuation that will be accepted, if and only if no event of the run gives up. |
| ConnectionProgress.StaysTendedUnlessGivenUp | apps/ios/Zimlo/BridgeClient.swift:44-155 | One event keeps that if and only if it does not give up: a startup check that fails without a relay, a pairing that fails, or a dial whose URL cannot be built. |
| ConnectionProgress.SocketErrorFailsTheConnection | apps/ios/Zimlo/BridgeClient.swift:172-178 | An error of a handshake, a receive or a single send fails the connection if it is of the current socket and generation, and changes nothing otherwise. |
| ConnectionProgress.FailureReconnectsExactlyWhen | apps/ios/Zimlo/BridgeClient.swift:485-518 | After a failure of the current socket that is no policy violation, exactly one reconnect is added and still accepted if the network is there or the relay is next and usable, and none otherwise. |
| ConnectionProgress.ViolationEndsThePairing | apps/ios/Zimlo/BridgeClient.swift:472-484 | After a policy violation there is no socket, no credentials, and nothing is accepted any more. |
| ConnectionProgress.ReconnectDials | apps/ios/Zimlo/BridgeClient.swift:327-367 | A reconnect that is resumed dials a new socket of a newer generation, on which a handshake waits. |
| ConnectionProgress.FailedDialsAlternate | apps/ios/Zimlo/BridgeClient.swift:485-518 | A connection that failed is tried again the other way: over a usable relay after a direct one, directly after one over the relay. |
| ConnectionProgress.StartupDials | apps/ios/Zimlo/BridgeClient.swift:60-75 | The first dial goes to the Bridge, unless the relay is on its host, or the check failed and there is a relay; without one a failed check dials nothing. |
| ConnectionProgress.WokenStartsUp | apps/ios/Zimlo/BridgeClient.swift:47-110 | A start with nothing under way, a retry while unconnected, or a returning network leave a paired client awake with a check of the Bridge under a newer generation, and nothing older accepted. |
| ConnectionProgress.PairingWakes | apps/ios/Zimlo/BridgeClient.swift:131-141 | A pairing wakes a stopped client, drops its connection, and leaves only its own answer accepted. |
| ConnectionProgress.PairingDials | apps/ios/Zimlo/BridgeClient.swift:142-149 | A pairing that succeeded dials with its credentials. |
| ConnectionProgress.StoppedRests | apps/ios/Zimlo/BridgeClient.swift:112-129 | A client that is stopped or forgets its device has no socket, and nothing that waited is accepted until it is woken, nor after. |
| ConnectionProgress.HandshakeConnects | apps/ios/Zimlo/BridgeClient.swift:369-421 | An answer with the right proof connects the client in three resumptions, under the keys both nonces determine, with a receive turn waiting. |
| ConnectionProgress.BridgeAnswersTheProof | apps/cli/src/secure-socket.ts:114-145 | The Bridge gives that answer to the client's proof if the device is registered and not revoked, has the same keys, and sends its greeting sealed. |
| ConnectionProgress.EverySendIsSealed | apps/ios/Zimlo/BridgeClient.swift:156-178 | A connected client seals every message it sends, in order, each under the next counter. |
| ConnectionProgress.EveryCommandIsHanded | apps/cli/src/secure-socket.ts:87-112 | A Bridge connection hands over every well-formed command that arrives in order, and stays open. |
| ConnectionProgress.LosslessNetworkDelivers | apps/ios/Zimlo/BridgeClient.swift:156-178 | Put together: over a network that loses nothing, all that a connected client sends is handed over, in order and once. |
| ConnectionProgress.EveryMessageIsHeard | apps/ios/Zimlo/BridgeClient.swift:423-460 | All that the Bridge sends is handed on by the client while its replica accepts it. |
| HChaCha20.TransformIsABijection | apps/ios/Zimlo/Crypto.swift:136-156 | For any number of double rounds the state transform has an explicit two-sided inverse. |
| HChaCha20.MixCancels | apps/ios/Zimlo/Crypto.swift:172-181 | The quarter round (section 2.1 of RFC 8439) and its inverse cancel, both ways. |
| HChaCha20.QuarterRoundExample | apps/ios/Zimlo/Crypto.swift:172-181 | The modelled quarter round gives the vector of section 2.1.1 of RFC 8439. |
| HChaCha20.OnSlot | apps/ios/Zimlo/Crypto.swift:172-177 | A quarter round changes its four words to the mixed ones and no other word. |
| HChaCha20.WordsOfBytes | apps/ios/Zimlo/Crypto.swift:158-170 | Unpacking the little-endian bytes of words gives the words back. |
| HChaCha20.BytesOfWords | apps/ios/Zimlo/Crypto.swift:158-170 | Packing the words read from whole words of bytes gives the bytes back. |
| HChaCha20.QuarterRound | apps/ios/Zimlo/Crypto.swift:172-177 | The in-place update of the array equals the quarter round on that slot. |
| HChaCha20.DoubleRound | apps/ios/Zimlo/Crypto.swift:136-156 | Four column and four diagonal rounds, in the standard's order. |
| HChaCha20.TransformInPlace | apps/ios/Zimlo/Crypto.swift:136-156 | The loop in place equals the transform whose inverse is given. |
| HChaCha20.Words | apps/ios/Zimlo/Crypto.swift:158-170 | The loop reads little-endian words. |
| HChaCha20.Derive | apps/ios/Zimlo/Crypto.swift:136-156 | Constants, key and nonce go through the transform; words 0-3 and 12-15 come out. |
| HChaCha20.HChaCha20 | apps/ios/Zimlo/Crypto.swift:136-156 | The same with the ten double rounds the code makes. |
| HChaCha20.CounterNonce | apps/ios/Zimlo/Crypto.swift:128-134 | The shift-and-mask loop builds sixteen zero bytes and the counter's eight big-endian bytes. |
| HChaCha20.ValueOfBigEndian | apps/ios/Zimlo/Crypto.swift:128-134 | Reading a counter's big-endian digits gives the counter back while it fits. |
| HChaCha20.BigEndianOfValue | apps/ios/Zimlo/Crypto.swift:128-134 | Every byte string is the big-endian form of its value. |
| HChaCha20.BigEndianDigit | apps/ios/Zimlo/Crypto.swift:130-132 | Each byte is the counter shifted and masked as in the code. |
| HChaCha20.CipherNoncesDiffer | apps/ios/Zimlo/Crypto.swift:99-134 | All counters share the subkey's nonce, and cipher nonces are equal if and only if the counters are. |
| HChaCha20Example.PublishedSubkey | apps/ios/Zimlo/Crypto.swift:136-181 | With ten double rounds the key and nonce of section 2.2.1 of draft-irtf-cfrg-xchacha give the subkey published there, so constants, word order and number of rounds are the standard's. |
| HChaCha20Example.WordsAreLittleEndian | apps/ios/Zimlo/Crypto.swift:158-170 | The words of that example stand for the bytes 00 01 02 ... and 82 41 3b 42. |
| HChaCha20Example.DoubleIsASweep | apps/ios/Zimlo/Crypto.swift:144-151 | Four column mixes and four diagonal mixes of a square of words are one double round of the state. |
| Base64Url.RoundTrip | apps/ios/Zimlo/Crypto.swift:32-44 | Decoding undoes encoding (section 5 of RFC 4648) for every byte sequence, in both programs and across them. |
| Base64Url.VersionsAgree | apps/cloud/src/crypto.ts:3-8 | Both encoders give the same text, of length ceil(4n/3), never 1 modulo 4. |
| Base64Url.DecodersAgreeExactlyWhen | apps/cloud/src/crypto.ts:10-14 | The two padding formulas agree on every length; the decoders agree on a text if and only if it holds no whitespace or, stripped of whitespace and padding, has length 1 modulo 4 or a character outside the alphabet. |
| Base64Url.WhitespaceDivides | apps/cloud/src/crypto.ts:12-12 | A space before three characters is skipped by the cloud, which reads two bytes, and rejected by the phone. |
| Base64Url.EncodingIsInjective | apps/ios/Zimlo/Crypto.swift:32-37 | Different byte sequences have different texts. |
| Base64Url.LengthsAreNeverOneModFour | apps/ios/Zimlo/Crypto.swift:39-44 | No encoded length is 1 modulo 4, the one length that padding cannot repair. |
| Base64Url.StandardExamples | apps/cloud/src/crypto.ts:3-8 | Two vectors of section 10 of RFC 4648. |
| Base64Url.Base64URL | apps/cloud/src/crypto.ts:3-8 | The loop that builds a binary string, then replaces and strips, gives the URL text. |
| ActionBroker.PendingMeansWaiting | apps/cli/src/action-broker.ts:45-157 | In every reachable state an action is pending if and only if its promise is still waiting, and a timer runs exactly then. |
| ActionBroker.SettlesOnce | apps/cli/src/action-broker.ts:45-157 | Each promise settles at most once and at most one submission wins over all devices and keys; a promise of this process has settled if and only if it no longer waits. |
| ActionBroker.DeliveredWasOffered | apps/cli/src/action-broker.ts:109-137 | A delivered decision was offered by that action and is the one the winner named, phrase matched, or the automatic one. |
| ActionBroker.WinsExactlyWhen | apps/cli/src/action-broker.ts:109-137 | A first delivery succeeds if and only if the action waits, has not expired, and offers the named decision with a matching phrase. |
| ActionBroker.TerminalIsForever | apps/cli/src/action-broker.ts:109-157 | Resolved and expired actions never change again, nor does what their promise received. |
| ActionBroker.ResultsAreKept | apps/cli/src/store.ts:1368-1371 | A saved result is never replaced, in any run. |
| ActionBroker.ReplayReturnsFirstResult | apps/cli/src/action-broker.ts:109-116 | After any run, deciding again under the same device and key returns the first result and changes nothing. |
| ActionBroker.StepKeepsValid | apps/cli/src/action-broker.ts:45-169 | Every event keeps the broker's invariant. |
| ActionBroker.RunKeepsValid | apps/cli/src/action-broker.ts:45-169 | So does every run. |
| ActionBroker.FirstOnce | apps/cli/src/action-broker.ts:45-107 | Finds an offered one-time decision if and only if there is one. |
| ActionBroker.FindDecision | apps/cli/src/action-broker.ts:109-137 | Finds an offered decision by id if and only if there is one. |
| ActionBroker.DecideDoesWhatItReplies | apps/cli/src/action-broker.ts:109-137 | For a new key: told ok, the action is resolved, has no resolver or timer, its promise was settled once with an offered decision of the named id, and this submission is its one win. Told anything else, no action has changed. The reply is saved. |
| ActionBroker.OneOkReplyPerAction | apps/cli/src/action-broker.ts:109-137 | Over every run at most one submission per action, over all devices and keys, is told ok when it first comes, and its decision is the one delivered. |
| ActionBroker.ReplyNamesTheFirstCheck | apps/cli/src/action-broker.ts:118-129 | The first reply names the first check that failed: waiting, session, expiry, decision, phrase, in this order. |
| ActionBroker.UnansweredSettlesWithNothing | apps/cli/src/action-broker.ts:97-102 | A timeout or an expiry of a waiting action settles it once with nothing and marks it expired; no other action changes. |
| ActionBroker.CancelSettlesExactlyTheWaiting | apps/cli/src/action-broker.ts:139-147 | `cancelAll` does the same to every waiting action and touches no other. |
| ActionBroker.NewActionWaitsOrIsAllowed | apps/cli/src/action-broker.ts:45-107 | A new action waits with resolver and timer, unless the policy allows it and it offers a one-time decision, which its promise then delivers. |
| ActionBroker.ActionBroker.Create | apps/cli/src/action-broker.ts:45-107 | Stores the action and arms promise and timer, or resolves it at once when the policy allows it. |
| ActionBroker.ActionBroker.OnTimeout | apps/cli/src/action-broker.ts:45-107 | The timer settles a waiting promise with nothing and expires the row. |
| ActionBroker.ActionBroker.SaveResult | apps/cli/src/action-broker.ts:159-169 | Saves the first result of a device and key and answers with the verdict. |
| ActionBroker.ActionBroker.Check | apps/cli/src/action-broker.ts:109-137 | The verdict of a first delivery, in the source's order of checks. |
| ActionBroker.ActionBroker.Decide | apps/cli/src/action-broker.ts:109-137 | Replays a known result, refuses, or resolves row and promise together, as `DecideDoesWhatItReplies` says. |
| ActionBroker.ActionBroker.Expire | apps/cli/src/action-broker.ts:149-157 | Expires only an action that still waits. |
| ActionBroker.ActionBroker.CancelEach | apps/cli/src/action-broker.ts:139-147 | The loop cancels every waiting action whatever order the map gives. |
| ActionBroker.ActionBroker.CancelAll | apps/cli/src/action-broker.ts:139-147 | Afterwards nothing waits; every waiting action is expired and settled with nothing. |
| ActionBroker.ActionBroker.Restart | apps/cli/src/store.ts:134-134 | A restart expires what was pending or submitted and loses the promises. |
| Idempotency.DuplicatesChangeNothing | apps/cli/src/feed-dismiss.ts:10-27 | For every delivery sequence, with devices and sessions coming and going between deliveries, the store equals the store after only the first delivery of each device and key that could be applied when it came. |
| Idempotency.LastFirstDeliveryWins | apps/cli/src/task-preferences.ts:11-43 | An item is dismissed, and a task pinned or archived, as the last among the first deliveries says, apart from what went with a deleted device or session. |
| Idempotency.DuplicatedExactlyWhenDelivered | apps/cli/src/store.ts:1368-1376 | A delivery is treated as a duplicate if and only if one with its device and key came before, at a time when what it refers to was known. |
| Idempotency.ThrownIsAppliedLater | apps/cli/src/task-preferences.ts:18-25 | A pin delivered while its session is unknown leaves no trace, and the same delivery is applied once the session is known. |
| Idempotency.StepTracks | apps/cli/src/feed-dismiss.ts:10-27 | A step makes exactly the pair it applies known, and changes in devices and sessions make none known. |
| Idempotency.StepSeesNoOther | apps/cli/src/feed-dismiss.ts:17-17 | And no other key. |
| Idempotency.KeyDecidesAboutASecondTime | apps/cli/src/task-preferences.ts:11-43 | A pin or archive repeated under a key changes nothing; without one, or with an empty one, it is applied again. |
| Idempotency.ThrowsExactlyWhen | apps/cli/src/feed-dismiss.ts:10-27 | What is new throws if and only if it refers to something unknown: a dismissal by an unknown device, not its undoing, and a pin or archive of an unknown session. |
| Idempotency.DecisionsGoToTheBroker | apps/cli/src/action-broker.ts:109-137 | A decision changes the broker alone, as one step of it. |
| Idempotency.PreferenceStore.ApplyFeedDismissSet | apps/cli/src/feed-dismiss.ts:10-27 | Applies once, reports a duplicate otherwise, and throws for an unknown device before saving the key. |
| Idempotency.PreferenceStore.SetTaskPinned | apps/cli/src/store.ts:987-994 | Sets the pin and leaves the archive time. |
| Idempotency.PreferenceStore.SetTaskPinnedIdempotent | apps/cli/src/task-preferences.ts:11-26 | The keyed form: once per device and key; without a key, every time. |
| Idempotency.PreferenceStore.SetTaskArchived | apps/cli/src/store.ts:996-1003 | Sets the archive time and leaves the pin. |
| Idempotency.PreferenceStore.SetTaskArchivedIdempotent | apps/cli/src/task-preferences.ts:28-43 | The keyed form of archiving. |
| Idempotency.PreferenceStore.ChangeKnown | apps/cli/src/store-schema.ts:162-166 | Rows that refer to a deleted device or session go with it. |
| RelayRouting.EachSocketGetsOneBlock | apps/cli/src/cloud-relay-client.ts:73-124 | In every run each local Bridge socket is sent a prefix of one contiguous block of what exactly one device connection sent, through buffering, implicit reopening and closing. |
| RelayRouting.BlocksAreDisjoint | apps/cli/src/cloud-relay-client.ts:73-124 | The blocks of two sockets of one connection follow each other, so no frame is given to two sockets or twice. |
| RelayRouting.EverythingReadIsAssigned | apps/cli/src/cloud-relay-client.ts:73-93 | Every data frame read on the current relay link is in exactly the blocks of its connection's sockets, in order: none is dropped by routing. |
| RelayRouting.RepliesReachOnlyTheirDevice | apps/cloud/src/relay-room.ts:51-104 | What a device receives over a link is a prefix of the replies addressed to it that the room has read, all of them while it is attached. |
| RelayRouting.StepKeepsValid | apps/cloud/src/relay-room.ts:16-104 | Every step of room, link and client keeps the routing invariant. |
| RelayRouting.RelayRoom.FetchDevice | apps/cloud/src/relay-room.ts:16-49 | A device is attached and announced, or refused while no Mac is connected. |
| RelayRouting.RelayRoom.FetchMac | apps/cloud/src/relay-room.ts:16-49 | A new Mac link replaces the old one. |
| RelayRouting.RelayRoom.DeviceMessage | apps/cloud/src/relay-room.ts:51-72 | A device's text is forwarded under its connection id. |
| RelayRouting.RelayRoom.MacMessage | apps/cloud/src/relay-room.ts:51-72 | A Mac's frame reaches the device it names and no other. |
| RelayRouting.RelayRoom.DeviceSocketClose | apps/cloud/src/relay-room.ts:74-91 | A closing device is announced to the Mac. |
| RelayRouting.RelayRoom.MacSocketClose | apps/cloud/src/relay-room.ts:74-91 | A closing Mac link closes the devices. |
| RelayRouting.CloudRelayClient.OpenLocal | apps/cli/src/cloud-relay-client.ts:95-117 | Returns the connection's socket, or opens one with an empty buffer. |
| RelayRouting.CloudRelayClient.CloseLocal | apps/cli/src/cloud-relay-client.ts:119-124 | Forgets and closes the connection's socket. |
| RelayRouting.CloudRelayClient.OnRelayMessage | apps/cli/src/cloud-relay-client.ts:73-93 | Opens, closes, sends or buffers as the frame says; data for an unknown connection opens a socket. |
| RelayRouting.CloudRelayClient.OnLocalOpen | apps/cli/src/cloud-relay-client.ts:101-103 | Flushes the buffer in order and empties it. |
| RelayRouting.CloudRelayClient.OnLocalMessage | apps/cli/src/cloud-relay-client.ts:104-107 | A socket's message goes up under its own connection id. |
| RelayRouting.CloudRelayClient.OnLocalClose | apps/cli/src/cloud-relay-client.ts:108-114 | Only the current socket of a connection reports its closing. |
| RelayRouting.CloudRelayClient.OnRelayClose | apps/cli/src/cloud-relay-client.ts:64-69 | Closes and forgets every local socket. |
| RelayDelivery.UninterruptedConnectionIsDelivered | apps/cli/src/cloud-relay-client.ts:73-117 | Over every run in which a connection is not ended it keeps its one local socket; once that is open and the current link read to its end, it got, in order and once each, all that the device sent since the link began. |
| RelayDelivery.ServesExactlyWhen | apps/cli/src/cloud-relay-client.ts:73-124 | A local socket serves a connection if and only if it did and nothing ended that, or it was just opened by a frame for it. |
| RelayDelivery.BlocksGrowExactly | apps/cli/src/cloud-relay-client.ts:79-93 | A payload goes to the socket that serves its connection, and nothing else is ever added to any socket. |
| RelayDelivery.PhaseChangesExactly | apps/cli/src/cloud-relay-client.ts:95-124 | A socket becomes ready exactly when it opens while connecting, and closing exactly when it closes or its service ends. |
| RelayDelivery.StaysAttachedExactlyWhen | apps/cloud/src/relay-room.ts:16-104 | Over any run a device stays attached if and only if it did not close, no Mac link was lost and it was not hung up on; it never comes back. |
| RelayDelivery.AttachedExactlyWhen | apps/cloud/src/relay-room.ts:16-104 | One step of that: a device is attached if and only if it was and nothing takes it off, or it connects while there is a Mac. |
| RelayDelivery.CurrentExactlyWhen | apps/cloud/src/relay-room.ts:16-49 | A Mac link is the current one from when it connects until it closes or the next one connects, and no longer. |
| RelayDelivery.RelayExactlyWhen | apps/cli/src/cloud-relay-client.ts:48-71 | The client's relay is the link connected last, until its socket closes. |
| RelayDelivery.EveryDeviceEventIsTold | apps/cloud/src/relay-room.ts:51-91 | Each connecting, message, error and closing of a device is one frame on the current link, and on no other. |
| RelayDelivery.EveryLocalEventIsAnswered | apps/cli/src/cloud-relay-client.ts:101-117 | While the relay socket is open, each message of a local socket goes up under its connection, and so does the closing of the socket that serves it. |
| Notifications.PushesAreCountedExactly | apps/cli/src/runtime.ts:124-168 | Over all interleavings in which failed tasks keep their session, the pushes in the ledger since a task last was not failed equal max(failure posts, 1 if the fallback fired), and the fallback fires at most once; `LedgerCountsWhatHappened` ties the ledger to the pushes scheduled. |
| Notifications.AlwaysExactExactlyWhen | apps/cli/src/runtime.ts:124-168 | In every run, with sessions deleted or not, the count is exact after every event if and only if no event counts twice: a fallback that fires after a post or a fallback, or a first post after a forgotten fallback. |
| Notifications.StaysExactUnlessCountedTwice | apps/cli/src/runtime.ts:124-168 | One event leaves an exact count exact if and only if it does not count twice. |
| Notifications.RunKeepsEpisodes | apps/cli/src/runtime.ts:124-168 | Throughout every such run a task is in at most one of the timer, feed and notified sets, and in the one its episode calls for. |
| Notifications.BooksAlwaysBalance | apps/cli/src/runtime.ts:124-168 | In every run, sessions lost or not: posts and fallbacks, less those absorbed, equal the pushes requested. |
| Notifications.LostSessionCountsTwice | apps/cli/src/store.ts:606-625 | Two concrete runs, one for each order of post and fallback, in which the session of a failed task is deleted and one failure is pushed twice. |
| Notifications.SentPushesSayWhatWasMerged | apps/cli/src/runtime.ts:284-314 | A sent push is a failure if and only if some merged request was one, and shows the latest title and summary that apply. |
| Notifications.ReminderIsTimely | apps/cli/src/runtime.ts:18-27 | A reminder is due if and only if the action is pending and its expiry neither too near nor too far; it then fires at least a minute from now and 30 s before expiry. |
| Notifications.StepKeepsBooks | apps/cli/src/runtime.ts:124-168 | Every event keeps the books balanced. |
| Notifications.ScheduledPushesAreCountedExactly | apps/cli/src/runtime.ts:124-168 | While failed tasks keep their session: over every run the failure pushes really scheduled for a task in its episode are as many as its failure posts, or one if only the fallback fired, which it does at most once. |
| Notifications.LedgerCountsWhatHappened | apps/cli/src/runtime.ts:124-168 | Over every run the ledger of the other theorems is what happened: the requests appended to pending pushes, the posts stored, the fallbacks fired. |
| Notifications.EventsScheduleExactly | apps/cli/src/runtime.ts:124-168 | Each event appends exactly one request, for its own session and with its own text, if it is a failure post that no fallback announced, a fallback that fires, or a result post; no other event appends any. |
| Notifications.UnpostedFailureIsPushed | apps/cli/src/runtime.ts:152-276 | A failure nobody posts is pushed: whatever happens to other tasks, its fallback schedules exactly one failure push. |
| Notifications.UpdateArmsExactlyWhen | apps/cli/src/runtime.ts:152-168 | A write arms the fallback if and only if the task enters failure with a session and no failure post came first; it stays armed only while the task fails. |
| Notifications.FlushSendsWhatWaits | apps/cli/src/runtime.ts:301-306 | What waits for a session is sent by its timer, all of it merged in one push, and then waits no more. |
| Notifications.RuntimeHub.PostFeed | apps/cli/src/runtime.ts:124-150 | A newly inserted failure post cancels the timer and schedules its push, unless the fallback has already pushed for it; what is scheduled is `EventsScheduleExactly`. |
| Notifications.RuntimeHub.UpdateTask | apps/cli/src/runtime.ts:152-168 | Entering failure arms the fallback unless a failure post came first; leaving it clears all three records. |
| Notifications.RuntimeHub.OnFallbackTimer | apps/cli/src/runtime.ts:260-276 | Pushes, and is recorded, only for a task that is still failed, has a session and has no failure post. |
| Notifications.RuntimeHub.DeleteSession | apps/cli/src/store-schema.ts:117-117 | Deleting a session clears the reference its tasks hold and nothing else. |
| Notifications.RuntimeHub.ScheduleStatusPush | apps/cli/src/runtime.ts:284-314 | Merges into the waiting push of the session or starts one. |
| Notifications.RuntimeHub.OnStatusTimer | apps/cli/src/runtime.ts:284-314 | Sends the waiting push and forgets it. |
| EventBuffer.StreamingEqualsBatch | apps/ios/Zimlo/AppModel.swift:1065-1075 | Folding single arrivals and bounding after each gives the same list as bounding the whole history at once, for identical redeliveries and unique sequences. |
| EventBuffer.OneMoreArrival | apps/ios/Zimlo/AppModel.swift:1069-1075 | The same for one arrival on a bounded list. |
| EventBuffer.BoundedIsWellFormed | apps/ios/Zimlo/AppModel.swift:38-53 | The list is sorted, has at most 501 items, ends with the newest 500 of the history, holds only latest versions, and always holds the first user instruction. |
| EventBuffer.CanonIsSortedLatest | apps/ios/Zimlo/AppModel.swift:43-45 | The reference history is strictly sorted and holds exactly the latest version of each id. |
| EventBuffer.TrimCovers | apps/ios/Zimlo/AppModel.swift:46-52 | Trimming keeps what any later trim can need. |
| EventBuffer.MergeAt | apps/ios/Zimlo/AppModel.swift:1069-1075 | A merged event takes the one place its sequence gives it. |
| EventBuffer.LatestById | apps/ios/Zimlo/AppModel.swift:44-44 | The dictionary holds exactly the latest value of each id. |
| EventBuffer.SortBySequence | apps/ios/Zimlo/AppModel.swift:45-45 | Sorts the dictionary's values, each once, losing and inventing none. |
| EventBuffer.TrimSorted | apps/ios/Zimlo/AppModel.swift:46-52 | The suffix, with the first instruction put in front when it fell out. |
| EventBuffer.Bounded | apps/ios/Zimlo/AppModel.swift:43-53 | On any values the trim of some ordered list of exactly the latest value of each id; on every consistent history the reference. |
| EventBuffer.AppModel.OnSessionEvents | apps/ios/Zimlo/AppModel.swift:1065-1068 | A batch of any events replaces one session's list by a bounding of it, the reference one when the batch is consistent, and touches no other list. |
| EventBuffer.AppModel.OnEventUpsert | apps/ios/Zimlo/AppModel.swift:1069-1075 | Any event is merged into one session's list and the list bounded again; a list that bounds a consistent history then bounds the history with the event. |
| FeedCoalescing.ProgressStaysSpaced | apps/cli/src/store.ts:696-737 | With nondecreasing timestamps, stored agent progress of one agent, run and task is pairwise more than the window apart. |
| FeedCoalescing.SpacedAfterExactlyWhen | apps/cli/src/store.ts:690-774 | From spaced rows, the rows after a call are spaced if and only if the call does not merge or no other row of its group is within the window of the new time. |
| FeedCoalescing.AlwaysSpacedExactlyWhen | apps/cli/src/store.ts:690-774 | Rows stay spaced throughout a run if and only if every merge of the run met that condition. |
| FeedCoalescing.ProgressRateIsBounded | apps/cli/src/store.ts:696-737 | While merges meet that condition, at most floor((b-a)/window)+1 stored progress posts of one agent, run and task lie in any interval [a,b]. |
| FeedCoalescing.AtMostSevenAnHour | apps/cli/src/agent-tools.ts:43-43 | With nondecreasing timestamps and the window of the agent tools, at most seven in any hour. |
| FeedCoalescing.KeysStayUnique | apps/cli/src/store.ts:690-774 | Ids and (agent, run, dedupe key) stay unique over every run, overwritten rows included. |
| FeedCoalescing.CallsReportWhatTheyDo | apps/cli/src/store.ts:690-774 | The table grows if and only if the call reports `inserted`; a coalesced call overwrites exactly one recent row; any other call changes nothing and returns a stored post. |
| FeedCoalescing.InsertedExactlyWhen | apps/cli/src/store.ts:690-774 | A post is inserted if and only if its references are known, its keys are new, and it is not progress with a recent row in its group. |
| FeedCoalescing.BackwardsClockBreaksSpacing | apps/cli/src/store.ts:696-703 | A merge that does not: three posts whose timestamps go back leave two rows closer than the window. |
| FeedCoalescing.MergedRowShowsThePost | apps/cli/src/store.ts:690-774 | After a merge the newest recent row keeps its id and has the post's text, time and dedupe key; every other row is as it was, and the answer is the post under that id. |
| FeedCoalescing.FeedStore.InsertFeedPost | apps/cli/src/store.ts:690-774 | The method's table and result equal the specification's. |
| FeedCoalescing.FeedStore.FindRecent | apps/cli/src/store.ts:698-703 | One pass finds the newest recent row of the group. |
| FeedCoalescing.Newest | apps/cli/src/store.ts:698-703 | That row is recent, none is newer, and it is missing only if no row is recent. |
| TranscriptTail.ParserGetsWholeLinesOnce | apps/cli/src/discovery-service.ts:109-189 | For every schedule of growth and passes over an append-only, well-formed UTF-8 file whose two starts are clear, the parser is given whole newline-terminated lines at their true offsets, in increasing order and so none twice, all below the stored offset, which never passes the file size. |
| TranscriptTail.OffsetsNeverDecrease | apps/cli/src/discovery-service.ts:109-134 | After every such schedule, another pass never moves the offset back. |
| TranscriptTail.ExactReadingGetsWholeLinesOnce | apps/cli/src/discovery-service.ts:109-189 | A reader that measured the file instead of the decoded text would keep that promise over every file and schedule. |
| TranscriptTail.RunIsExactExactlyWhen | apps/cli/src/discovery-service.ts:109-134 | Over any schedule on a well-formed file every pass reads as that reader would if and only if the tail start and the size stored by the first pass are clear: on a character boundary, or nothing is read from there. |
| TranscriptTail.PassIsExactExactlyWhen | apps/cli/src/discovery-service.ts:109-134 | The same for one pass: its chunk starts on a character boundary, or gives no line (a first pass) or holds no newline (a later one). |
| TranscriptTail.ChunkIsExactExactlyWhen | apps/cli/src/discovery-service.ts:136-189 | The consumed count of a chunk is the true one if and only if the chunk starts on a character boundary or holds no newline, and its lines are the true ones if and only if it does or gives none. |
| TranscriptTail.TornChunkShifts | apps/cli/src/discovery-service.ts:147-188 | In a chunk of a well-formed file every given line and the consumed count lie two bytes too far for each byte of the character torn at its start. |
| TranscriptTail.TornStartRepeatsALine | apps/cli/src/discovery-service.ts:121-124 | A concrete schedule of three passes that stores offsets 3, 10 and 8 and gives one line twice. |
| TranscriptTail.ChunkGivesExactly | apps/cli/src/discovery-service.ts:136-189 | A decoded chunk gives the parser a line if and only if it is one of its whole lines, is not blank, and is not the skipped first one; the offset counts the decoded text's UTF-8 bytes. |
| TranscriptTail.LinesAreExact | apps/cli/src/discovery-service.ts:150-152 | Splitting a decoded text yields exactly its newline-to-newline stretches, at their offsets in it. |
| TranscriptTail.AdvancesExactlyAtNewlines | apps/cli/src/discovery-service.ts:122-129 | A later pass moves the offset if and only if its chunk holds a newline. |
| TranscriptTail.LongLinesBlock | apps/cli/src/discovery-service.ts:122-129 | A line longer than a chunk stops the offset and the parser for good. |
| TranscriptTail.SplitLines | apps/cli/src/discovery-service.ts:150-151 | Splits at newlines as the specification does. |
| TranscriptTail.ParseLines | apps/cli/src/discovery-service.ts:152-187 | The loop gives each wanted line with the byte offset it has added up from the decoded lines. |
| TranscriptTail.ReadAndParse | apps/cli/src/discovery-service.ts:136-189 | Consumes the decoded bytes up to the last newline and hands over exactly the decoded chunk's lines. |
| TranscriptTail.DiscoveryService.IngestCandidate | apps/cli/src/discovery-service.ts:109-134 | One pass equals the model's pass on decoded text and touches no other file's state. |
| TranscriptTail.DiscoveryService.FirstIngest | apps/cli/src/discovery-service.ts:114-121 | The first pass decodes and reads head and tail, and stores the size. |
| TranscriptTail.DiscoveryService.Ingest | apps/cli/src/discovery-service.ts:122-129 | A later pass decodes one chunk and advances by the decoded bytes it consumed. |
| HookConfig.InstallIsIdempotent | apps/cli/src/hook-config.ts:57-142 | Installing twice equals installing once, on every configuration, for every command and any test of what is Zimlo's. |
| HookConfig.UninstallUndoesInstall | apps/cli/src/hook-config.ts:57-142 | On a Zimlo-free configuration, uninstall after install gives it back (up to an empty `hooks`) if and only if the installed slots can be put back. |
| HookConfig.ForeignHandlersStay | apps/cli/src/hook-config.ts:57-121 | Install and uninstall keep every foreign handler, with its event, group fields and order. |
| HookConfig.InstalledExactlyOnce | apps/cli/src/hook-config.ts:57-95 | After an install each event Zimlo writes to ends with its one group and holds no other Zimlo handler; other events hold none. |
| HookConfig.InstalledKeepsOtherFields | apps/cli/src/hook-config.ts:57-95 | An install changes nothing beside `hooks`, and leaves an object there. |
| HookConfig.RemovedKeepsOtherFields | apps/cli/src/hook-config.ts:97-121 | A removal changes nothing beside `hooks`. |
| HookConfig.OwnCommandIsRecognised | apps/cli/src/hook-config.ts:44-55 | The command an install writes is recognised by a removal whenever a quoted path mentions zimlo. |
| HookConfig.CommandIsRead | apps/cli/src/hook-config.ts:44-55 | By the quoting rules of the POSIX shell the command an install writes is read as node, the entry point and the hook's arguments, whatever characters the two paths hold. |
| HookConfig.QuotedIsOneWord | apps/cli/src/hook-config.ts:44-46 | A quoted value is read as one word, which is the value. |
| HookConfig.RemoveZimloCommands | apps/cli/src/hook-config.ts:97-121 | The editing loops remove exactly Zimlo's handlers, and the groups and events they leave empty. |
| HookConfig.AppendEach | apps/cli/src/hook-config.ts:57-95 | The loop adds one group to each event in turn. |
| HookConfig.AppendHooks | apps/cli/src/hook-config.ts:57-95 | The whole append equals the specification. |
| HookConfig.HookConfigChange | apps/cli/src/hook-config.ts:123-142 | Uninstalling, or a plugin that owns the hooks, removes; anything else installs. |
| PairingRoom.OneRequestOneCompletion | apps/cloud/src/pairing-room.ts:35-164 | Over all interleavings of suspended handlers, one registration accepts at most one request and hands out at most one completion, which was completed for that request. |
| PairingRoom.NoSecondAnswer | apps/cloud/src/pairing-room.ts:126-144 | No request id is ever answered in two registrations. |
| PairingRoom.HandedExactlyWhenCompleted | apps/cloud/src/pairing-room.ts:126-144 | A poll is answered, and the room cleared, if and only if its token matches, its request is the pending one, and a completion is there. |
| PairingRoom.StepKeepsValid | apps/cloud/src/pairing-room.ts:35-164 | Every arrival and every resumed handler keeps the room's invariant. |
| PairingRoom.ExchangeSucceeds | apps/cloud/src/pairing-room.ts:35-164 | The whole exchange: a phone with the registered token gets its request accepted, the Mac completes it, and the next poll is given that completion. |
| PairingRoom.RegisteredExactlyWhen | apps/cloud/src/pairing-room.ts:74-96 | A registration is stored if and only if it is complete, not expired, and no other installation's is there. |
| PairingRoom.ArrivalsNeedALiveRegistration | apps/cloud/src/pairing-room.ts:35-72 | Without a live registration every arrival empties the room; with one the phone's wait, and so does the completion of the registering installation, which alone may cancel. |
| PairingRoom.HandlersResumeOnce | apps/cloud/src/pairing-room.ts:35-72 | A waiting handler resumes once and leaves the others waiting. |
| PairingRoom.AcceptedExactlyWhen | apps/cloud/src/pairing-room.ts:98-124 | A request is accepted if and only if its token is the registered one and none waits yet. |
| PairingRoom.CompletedExactlyWhen | apps/cloud/src/pairing-room.ts:146-164 | A completion is stored if and only if it names the waiting request. |
| PairingRoom.HandingEmptiesTheRoom | apps/cloud/src/pairing-room.ts:126-144 | A poll with token and request id of the completion is given it and empties the room; any other poll changes nothing. |
| PairingRoom.DurablePairingRoom.RegisterPairing | apps/cloud/src/pairing-room.ts:74-96 | Accepts if and only if the body is complete, not expired, and from the installation already registered, if any; an accepted one keeps a request already there. |
| PairingRoom.DurablePairingRoom.ArriveDevice | apps/cloud/src/pairing-room.ts:47-49 | A device request starts only on a live registration, which it remembers. |
| PairingRoom.DurablePairingRoom.ArriveResult | apps/cloud/src/pairing-room.ts:50-52 | So does a poll. |
| PairingRoom.DurablePairingRoom.ArriveComplete | apps/cloud/src/pairing-room.ts:58-61 | So does a completion, from the registering installation only. |
| PairingRoom.DurablePairingRoom.CancelByMac | apps/cloud/src/pairing-room.ts:62-66 | Only the registering installation clears the room. |
| PairingRoom.DurablePairingRoom.AcceptDeviceRequest | apps/cloud/src/pairing-room.ts:98-124 | With the right token and no completion, returns the pending request, or the one it makes; otherwise none. |
| PairingRoom.DurablePairingRoom.DeviceResult | apps/cloud/src/pairing-room.ts:126-144 | Hands the completion over exactly when it clears the room. |
| PairingRoom.DurablePairingRoom.CompletePairing | apps/cloud/src/pairing-room.ts:146-164 | Stores a completion if and only if it names the pending request, and reports so. |
| DevicePairing.OneDevicePerPairing | apps/cli/src/device-manager.ts:89-116 | In every run a pairing makes at most one device. |
| DevicePairing.MadeExactlyWhen | apps/cli/src/device-manager.ts:89-116 | An attempt makes a device if and only if it is proven and the pairing is known, unused and not expired. |
| DevicePairing.SpentPairingsStaySpent | apps/cli/src/device-manager.ts:84-116 | A used, cancelled or unknown pairing makes no device in any later run that does not create it. |
| DevicePairing.ProvenMakesItsDeviceExactlyWhen | apps/cli/src/device-manager.ts:55-116 | Over any events in between, a proven attempt makes its device if and only if it comes within two minutes of the creation and nothing spent the pairing. |
| DevicePairing.OpenExactlyWhenUnspent | apps/cli/src/device-manager.ts:55-130 | Over any run a pairing stays open if and only if it is not cancelled, no attempt passed both checks, and the Bridge did not restart; failed keys and proofs do not spend it. |
| DevicePairing.CreatedIsOpenForItsLifetime | apps/cli/src/device-manager.ts:55-82 | A new pairing is open for exactly two minutes; of the others exactly the used and expired go. |
| DevicePairing.CancelledIsGone | apps/cli/src/device-manager.ts:84-87 | A cancelled pairing is gone, and of the others exactly the used and expired. |
| DevicePairing.DeviceManager.PrunePairings | apps/cli/src/device-manager.ts:126-130 | The loop drops exactly the stale pairings. |
| DevicePairing.DeviceManager.CreatePairing | apps/cli/src/device-manager.ts:55-82 | Prunes and adds one unused pairing. |
| DevicePairing.DeviceManager.CancelPairing | apps/cli/src/device-manager.ts:84-87 | Removes it and reports whether it was there. |
| DevicePairing.DeviceManager.CompletePairing | apps/cli/src/device-manager.ts:89-116 | Returns a device exactly when the step made one, and marks the pairing used. |
| PayloadBound.StoredIsBounded | apps/cli/src/sanitization.ts:3-15 | Every stored payload serialises to at most 4096 UTF-8 bytes. |
| PayloadBound.TruncatedOnlyWhenNeeded | apps/cli/src/sanitization.ts:3-15 | A payload is kept whole if and only if it fits; otherwise the preview is a prefix that was only cut while the result was still too large. |
| PayloadBound.WellFormedBytesAreUtf8 | apps/cli/src/sanitization.ts:7-10 | And the bytes that the decoder of `TranscriptTail` accepts as well formed are exactly such encodings: each reads back to a text that encodes to them. |
| PayloadBound.EscapedLength | apps/cli/src/sanitization.ts:3-15 | Escaping costs at most six bytes a unit, surrogates and control characters included. |
| PayloadBound.TruncationCosts | apps/cli/src/sanitization.ts:3-15 | So a truncated payload costs its frame and at most six bytes a unit. |
| PayloadBound.SanitizeEventPayload | apps/cli/src/sanitization.ts:3-15 | The loop ends and computes the specification. |
| PayloadBound.EscapeReadsBack | apps/cli/src/sanitization.ts:3-15 | Every text, lone surrogates and control characters included, reads back from its serialised form by the rules of section 7 of RFC 8259. |
| PayloadBound.TruncationReadsBack | apps/cli/src/sanitization.ts:9-13 | A truncation is one object whose preview reads back as the beginning kept and the note. |
| PayloadBound.ByteLengthMeasuresUtf8 | apps/cli/src/sanitization.ts:7-10 | The measured length of any text is that of its UTF-8 encoding, which is well formed. |

## Left out

- HTTP routes, APNs, R2 and D1, Keychain, subprocesses, file and lock I/O: only their effect on modelled state is kept (a durable map, a queue, a frame that is lost, a save that fails).
- Key derivation, Poly1305, ECDSA and AES-GCM: ideal encryption and fresh connection keys are assumed.
- Views, work reports, card presentation, process-chain detection and the text patterns of the trust policy: no state behind them that these properties need.
- Provider, directory and timestamp columns of a command: no branch of the modelled operations reads them, apart from whether a directory is known.
- ConnectionLease.NoncesNeverRepeat: holds while counters are below 2^64, the width of the counter; wrap-around of counters and generations is not modelled.
- ConnectionLease: `Task.isCancelled` is not consulted, so that a cancelled continuation may still resume in the model; every theorem covers more runs than the program has.
- ConnectionLease: the replica's verdict on a message is arbitrary there, so that its theorems hold of any; `SnapshotSync` has the verdict on snapshots.
- SnapshotSync: the web client's replica, which puts fields in place before it removes others, is not modelled; neither are the wrap-around of the revision at 2^64 and serialisation, which is taken to keep values. Which message is shorter is arbitrary.
- ConnectionProgress: the cancellation of tasks is left out here too. Wherever the program cancels a continuation it has moved the generation, put another in its place or lost the network, and then nothing is claimed of the one cancelled.
- ConnectionProgress.LosslessNetworkDelivers: is of one connection; that the network loses nothing is assumed there, and there only.
- CommandPath.AtMostOneRow: asks for a host-scoped command and no re-pairing; `OneRowExactlyWhen` has the exact condition for every command.
- CommandPath.NeverLost: idempotency keys that the phone draws are fresh and free of colons, by assumption; other clients draw other keys.
- DurableOutbox.AppModel.MarkOutboxFailed: is the path of a Bridge error; the refusal of a session message, which marks the entries of one session, is not modelled by itself, but errors in CommandPath may reach any entries.
- CommandPath: cancelling by a key that already carries its device prefix, and the convergence of rapid dismiss and undo over a dropped connection, are not claimed.
- Notifications.PushesAreCountedExactly: asks that failed tasks keep their session; `AlwaysExactExactlyWhen` has the exact condition.
- Idempotency: pruning of result rows after seven days and unkeyed `trust.policy.update` audit writes are not modelled.
- ActionBroker: an action row is never deleted while it is pending, by assumption.
- RelayRouting: a `LocalConnection` is a value keyed by an index, so aliasing of its buffer is not captured; a replaced Mac link gets no more sends; frames after `stop()` and frames that are not JSON are not modelled.
- Notifications: the timers of approval reminders are reduced to their delay.
- EventBuffer.Bounded: does not say which order two ids of one sequence get, since that order is a Swift dictionary's.
- FeedCoalescing.ProgressStaysSpaced: asks for nondecreasing timestamps; `AlwaysSpacedExactlyWhen` has the exact condition.
- FeedCoalescing: the content columns of a post are one opaque value; project timestamps are not modelled.
- TranscriptTail.ParserGetsWholeLinesOnce: asks for well-formed UTF-8, sizes that do not shrink and clear starts (`RunIsExactExactlyWhen` has the exact condition); that every line is parsed is not claimed, since each later chunk skips its first line.
- HookConfig: JSON objects are maps, so the order of keys is not captured; what counts as a Zimlo command is any predicate, and `OwnCommandIsRecognised` covers the one the program uses.
- Base64Url: a text counts UTF-16 units, as `atob` does; Foundation is taken to reject whitespace and to drop the bits that make no whole byte.
- PairingRoom: a handler is atomic from its first storage read after its body and digest are ready, as the platform's storage gates make it.
- PayloadBound: redaction before the bound is applied is not modelled; payloads are their serialised text.
- Service lock, history search, materials upload and download, device revocation: they would only add easy members or need I/O.
