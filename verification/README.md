# Synergia, verified

Synergia is a manager/worker cluster for LLM inference. Clients hand work units to a
manager; the manager queues them, picks a worker that is connected, consenting,
available and in sync, and waits for its answer; workers run a local `llama-server`
and stop when their user needs the GPU. This project models the parts of that system
whose correctness is hard to see from one function, and proves what they promise.

`dafny verify dfyconfig.toml` checks everything.

| file | subject |
|---|---|
| `Queue.dfy`, `UnitIds.dfy`, `Handlers.dfy` | the pending-unit queue, its identifiers, and the two waiting handlers, one at a time |
| `DispatchProtocol.dfy`, `QueueProtocol.dfy`, `HandlerProtocol.dfy` | the same queue and handlers with the read loops, in every interleaving, and the methods of both as its steps |
| `Store.dfy`, `Gateway.dfy` | the conditional updates of the worker table, the connection registry and the dispatcher |
| `Registry.dfy` | the registry and the status rows, in every interleaving of set-ups and exits |
| `Consent.dfy` | consent withdrawal against everything else that writes a worker's status |
| `WorkerLink.dfy` | a worker and the manager over a FIFO link |
| `Bootstrap.dfy` | the backend update and the model update of a client, in every interleaving |
| `CodeSignature.dfy`, `Sentinel.dfy`, `Bytes.dfy`, `Search.dfy` | patching the manager's URL into a client binary and signing it again |
| `GpuMonitor.dfy`, `EventChannel.dfy` | the GPU monitor, and its event channel against the main loop that drains it |
| `Latency.dfy`, `Sorting.dfy` | the latency matrix |
| `Batch.dfy` | the life of batch requests |
| `Rescan.dfy`, `RescanEnds.dfy` | the substitution that rescans its own result: its one result, and when it ends |
| `UrlTemplate.dfy`, `UrlExpansion.dfy` | download URL templates and their expansion |
| `IcoWriter.dfy`, `LogBuffer.dfy` | the ICO container, the log ring |
| `Basics.dfy` | options, Go's division and copy, and windows, shared by the others |

Two forms occur throughout. Code that updates fields, arrays or tables is a class or a
method with loops, proved against a specification function or a `Valid()` invariant.
Code whose difficulty is concurrency is a step system: `Step` performs one atomic
action (a critical section, a channel operation, a database statement), a run is any
sequence of actions, an action that is not enabled changes nothing, and the theorems
hold for all runs. SHA-256 is an arbitrary function parameter. A table is a map, and a
clock reading is a parameter.

## What the code does not promise

Some properties the code, its comments or its tests suggest do not hold. Each has a
lemma at an input that breaks it, or a contract that covers one, and the exact condition
under which it holds.

- The client's `resolveManagerURL` compares the URL with the first 24 bytes of the
  same array that was patched, so any URL of 24 bytes, such as
  `ws://localhost/ws/worker`, counts as unpatched (`Sentinel.LocalhostIsLost`; exactly
  when: `Sentinel.RoundTrip`).
- A pause that the user sets during a unit is overwritten by the completion
  (`WorkerLink.PauseDuringUnitIsOverwritten`; exactly in which stages:
  `WorkerLink.PauseSurvivesIff`).
- Two overlapping consent requests can leave a worker available whose consent is
  withdrawn (`Consent.OverlappingRequestsLoseWithdrawal`; exactly when:
  `Consent.AgreementIff`). A reconnect ends a withdrawn status
  (`Consent.ReconnectClearsWithdrawal`; what else does: `Consent.WithdrawnChangesOnlyThere`).
- The exit of a superseded connection shows its connected worker as offline
  (`Registry.ReconnectHidesWorker`; exactly when: `Registry.AgreementIff`).
- The GPU monitor and the worker's main loop can wait for each other forever
  (`EventChannel.DeadlockIsReached`; exactly when: `EventChannel.DeadlockIff`,
  `EventChannel.ChangeCanDeadlockIff`).
- A batch request that is cancelled after the loop has seen it can end as completed
  (`Batch.CancelledIsCompleted`; exactly when: `Batch.LegalIffSafe`).
- With a different model started or remembered before, a backend update can bring it back
  after the new one (`Bootstrap.OldModelComesBack`; exactly when:
  `Bootstrap.ConvergesIff`). A failed extraction leaves the server stopped
  (`Bootstrap.HandleBackendUpdate`).
- `ExpandURL` does not end for every argument: with the default template not for a worker
  that reports the architecture `{arch}` or the system `{platform}`
  (`UrlExpansion.DefaultNeverEnds`, `UrlExpansion.OwnPlaceholderNeverEnds`; exactly when:
  `UrlExpansion.DefaultEndsIff`, `UrlExpansion.PlainEndsIff`, `UrlExpansion.EndsIffNoOwn`).
  One rescan ends exactly if the value or the text lacks the placeholder
  (`RescanEnds.EndsIff`), unless the value has two or more of both braces and can both
  begin and finish a placeholder without holding one. That bound is sharp: such a value
  need not end (`RescanEnds.PumpNeverEnds`). Which of them end on which texts is open.
- `UpdateWorkerSyncStatus` panics on short strings (`Store.ShortHashPanics`; exactly when:
  `Store.Store.UpdateWorkerSyncStatus`).
- The re-hashing loop panics on some directories (`CodeSignature.HugePagesPanic`,
  `CodeSignature.LongHashesPanic`; exactly when: `CodeSignature.RehashPages`,
  `CodeSignature.PanicsInBoundsIff`).

One property holds only because of what the handlers record. A latency bucket bound of 0
is read as no bound, and every sample is then counted at least twice
(`Latency.CountsDouble`; exactly when: `Latency.PartitionIff`,
`Latency.FirstBoundPositive`). That takes a payload of 0; both callers of `Record` store
the length of a request that has been parsed as JSON (`completions.go:126`,
`batch.go:358`), and for payloads of at least 1 the counts always sum
(`Latency.ChosenPositive`, `Latency.ComputeRoleMatrix`).

Where comments and code differ, the model follows the code: `store.go:107-108` says
that `UpsertWorker` puts a deleted worker back online, but the update of an existing
row leaves its status alone, and `SetWorkerOnlineIfAllowed` does it;
`websocket.go:187-189` says that closing the old connection removes it from the map
before the new one is added, but the map entry is overwritten at once and the old read
loop later finds that it is no longer its own.

## Model

| member | source | states |
|---|---|---|
| `DispatchProtocol.TokenConservation` | internal/manager/queue/queue.go:31-88 | in every run of any number of handlers and read loops, each registered unit has exactly one token: in the map, between unlock and send, in a channel, consumed, or cancelled |
| `DispatchProtocol.ReadLoopNeverBlocks` | internal/manager/queue/queue.go:52-81 | a reply that has left the map always finds room in its channel, so the send outside the lock never blocks the read loop |
| `DispatchProtocol.ReturnedHandler` | internal/manager/api/completions.go:82-165 | a handler that has returned left no slot, took at most one reply, one that names its own unit, and its row agrees with its branch (dispatched only after a stop) |
| `DispatchProtocol.RowsAreWrittenOnce` | internal/manager/store/store.go:157-200 | in every reachable state every action creates a row as dispatched, changes a dispatched row at most to a final one, and leaves a final row alone |
| `Handlers.Serve` | internal/manager/api/completions.go:96-165 | one unit from its slot to the end of the select, for a reply before the select, one between its choice and the cancellation, or none, and for any choice Go makes among the ready cases: the slot is gone; answered or erred only with the reply that came early, given up only when the timer fired or the loop stops; the row is completed with the time of the result, failed with the message of the error, timed out, or still dispatched after a stop |
| `Handlers.Complete` | internal/manager/api/completions.go:82-165 | the same from NextID on, with the identifier of the advanced counter and without a stop |
| `Handlers.ServeBatch` | internal/manager/api/batch.go:325-398 | the same for a claimed batch row, which ends completed after an answer, still processing after a stop and failed otherwise, a legal move in each case |
| `Handlers.Await` | internal/manager/api/completions.go:133-164 | the select takes any ready case and writes the row of that case, none for the stop; timeout and stop cancel, also when a reply is buffered or arrives just before |
| `HandlerProtocol.HandlerRuns` | internal/manager/api/completions.go:82-165 | for every outcome the replies allow, the run of the handler's own actions from an issued unit ends in the branch and the row of that outcome, leaves no slot and changes no other unit |
| `HandlerProtocol.ServeIsRun` | internal/manager/api/completions.go:96-165 | the method leaves in the queue and in the table what that run leaves, so `DispatchProtocol.ReturnedHandler` speaks of it |
| `Queue.UnitQueue.NextID` | internal/manager/queue/queue.go:31-36 | advances the 64-bit counter and makes the identifier of the time and the counter |
| `Queue.UnitQueue.Register` | internal/manager/queue/queue.go:39-49 | a new slot with two empty channels of its own; other slots untouched |
| `Queue.UnitQueue.Resolve` | internal/manager/queue/queue.go:52-65 | removes exactly this slot; delivered iff it existed, and then its result channel holds just this result; the channel is never full |
| `Queue.UnitQueue.Reject` | internal/manager/queue/queue.go:68-81 | the same for the error channel |
| `Queue.UnitQueue.Cancel` | internal/manager/queue/queue.go:84-88 | removes exactly this slot |
| `QueueProtocol.ResolveIsTakeAndSend` | internal/manager/queue/queue.go:52-65 | on a queue that a protocol state shows, the method has the effect of the protocol's two steps, and the queue shows the state after them |
| `QueueProtocol.RejectIsTakeAndSend` | internal/manager/queue/queue.go:68-81 | the same for an error |
| `QueueProtocol.RegisterIsStep` | internal/manager/queue/queue.go:39-49 | the same for the registration of a unit |
| `QueueProtocol.CancelIsStep` | internal/manager/queue/queue.go:84-88 | the same for its cancellation |
| `QueueProtocol.NextIDIsStep` | internal/manager/queue/queue.go:31-36 | the same for a new identifier, until the counter wraps around |
| `UnitIds.UnitIdDetermines` | internal/manager/queue/queue.go:31-36 | equal identifiers come from the same time and counter value |
| `UnitIds.UnitIdReadsBack` | internal/manager/queue/queue.go:35 | the identifier is wu-, the decimal time, a hyphen and the decimal counter: a reader of decimal numbers finds both again |
| `UnitIds.PayloadReadsBack` | internal/client/worker/worker.go:605-609 | the signed text is the identifier, the output and the decimal time, separated by colons |
| `UnitIds.PayloadDetermines` | internal/client/worker/worker.go:605-609 | for identifiers without a colon, equal signed payloads mean the same unit, output and time |
| `UnitIds.UnitIdHasNoColon` | internal/manager/queue/queue.go:35 | generated identifiers satisfy that condition |
| `UnitIds.ColonsWouldCollide` | internal/client/worker/worker.go:607 | other identifiers need not: two different answers with one payload |
| `Store.Store.UpdateWorkerSyncStatus` | internal/manager/store/store.go:738-800 | synced iff the row exists and its role enforces no model or its hash is that of any role with a model; panics iff it is out of sync, reports a hash, and the fingerprint or the hash is too short for the debug message; then without an update |
| `Store.ShortHashPanics` | internal/manager/store/store.go:791-796 | the input: a hash of three characters from any worker that it leaves out of sync, whatever the role table |
| `Gateway.Gateway.VerifyOrRegisterKey` | internal/manager/gateway/websocket.go:661-679 | a fingerprint keeps the first key it showed; accepted iff the key is that one |
| `Gateway.Gateway.Register` | internal/manager/gateway/websocket.go:184-194 | keeps the invariant that the map holds the last registered connection of a fingerprint unless its read loop has exited, and that superseded connections are closed |
| `Gateway.Gateway.ExitReadLoop` | internal/manager/gateway/websocket.go:345-357 | evicts the fingerprint iff this connection is its last registered one, but writes offline in any case: unless the row is missing or deleted, a connected worker is shown offline afterwards iff another connection of it was registered |
| `Registry.AgreementIff` | internal/manager/gateway/websocket.go:184-233 | in every interleaving of set-ups, evictions and offline writes, no connected worker is ever shown as offline iff no exit writes offline while another connection of its worker is serving |
| `Registry.HiddenAfter` | internal/manager/gateway/websocket.go:345-357 | from a state where none is, a step makes a connected worker shown as offline iff it is such a write |
| `Registry.RegisteredChangesOnlyThere` | internal/manager/gateway/websocket.go:184-194 | for every step in every state: the registered connection of a worker changes only by a new registration or by the eviction of that very connection |
| `Registry.ReconnectHidesWorker` | internal/manager/gateway/websocket.go:345-357 | the input: a reconnect whose old read loop exits last |
| `Gateway.Gateway.Dispatch` | internal/manager/gateway/websocket.go:241-279 | fails iff no registered connection is reachable, consented and (unless forced) available and synced; else writes the unit to exactly one that is, whose consent row is there and true |
| `Gateway.LatestIsRegistered` | internal/manager/gateway/websocket.go:187-193 | the last registered connection of a fingerprint is one of its own, and exists as soon as any was registered |
| `Consent.SetConsent` | internal/manager/api/consent.go:149-163 | the two writes in order; afterwards the worker is withdrawn iff the request withdrew and a row exists |
| `Consent.HandleStatus` | internal/manager/gateway/websocket.go:486-496 | a status message changes nothing for a withdrawn worker, nor announces availability without a consent row that is true; otherwise the row shows it |
| `Consent.StatusStepsFollowMethod` | internal/manager/gateway/websocket.go:486-496 | the read and the write of a status message, uninterrupted, have that effect and no other |
| `Consent.WriteRowInStore` | internal/manager/store/store.go:90-144 | each single statement of the step system is the statement of the store |
| `Consent.StepsFollowMethod` | internal/manager/api/consent.go:149-163 | the two atomic steps, uninterrupted, change workers and consents as the method does and nothing else |
| `Consent.WithdrawnChangesOnlyThere` | internal/manager/store/store.go:90-144 | for every action in every state: the worker is withdrawn afterwards iff the action starts a withdrawal, or it was withdrawn and the action is neither a re-acceptance, a disconnect nor a goodbye |
| `Consent.WithdrawalSticks` | internal/manager/api/consent.go:149-163 | in every interleaving with in-flight handlers and overlapping requests, a withdrawn status stays until re-acceptance, disconnect or goodbye |
| `Consent.StatusWriteAgreesIff` | internal/manager/api/consent.go:156-163 | the second write of a request leaves status and consent in agreement iff the consent row still holds its own answer |
| `Consent.AgreementIff` | internal/manager/api/consent.go:149-163 | for a worker with a row and every run of overlapping requests without its disconnect, goodbye or a "withdrawn" status message: once none is open, status and consent agree iff the request that wrote the status last met its own answer in the consent row |
| `Consent.SerialisedRequestsAgree` | internal/manager/api/consent.go:149-163 | under the same conditions, serialised requests always end in agreement |
| `Consent.NoDispatchWithoutConsent` | internal/manager/gateway/websocket.go:241-279 | no unit, forced or not, is sent to a worker for which every read of consent by a dispatcher found none, whatever consent was in between |
| `Consent.NoDispatchBeforeConsent` | internal/manager/store/store.go:270-275 | in every run in which it does not accept, a worker that starts without a consent row, or with a withdrawn one, and that no dispatcher has selected, is sent nothing |
| `Consent.DispatcherSends` | internal/manager/gateway/websocket.go:245-257 | a dispatcher that reads a true consent row and, unless it is forced, an available and synced worker sends one unit |
| `Consent.NoDispatchWhileUnavailable` | internal/manager/gateway/websocket.go:241-260 | no unforced unit is sent to a worker that every dispatcher found unavailable or out of sync at its own second read |
| `Consent.OverlappingRequestsLoseWithdrawal` | internal/manager/api/consent.go:149-163 | the input: an acceptance and a withdrawal whose writes interleave end with consent withdrawn, the worker available and no request open |
| `Consent.ReconnectClearsWithdrawal` | internal/manager/store/store.go:98-102 | after a reconnect a withdrawn worker is available again without consent |
| `WorkerLink.Worker.Process` | internal/client/worker/worker.go:230-406 | for the unit, the flags and the outcome: exactly one answer, a result iff the toggle was accepted or the inference completed, else the error of the rejection, the trigger, the failure or the panic; the pause is toggled only by an accepted toggle, and both processing flags are down at the end |
| `WorkerLink.OneAnswerPerUnit` | internal/client/worker/worker.go:230-406 | in every run each unit that has arrived is waiting, in process and unanswered, or answered exactly once; answers go out in the order of arrival, each under the identifier of its unit |
| `WorkerLink.WorkDecides` | internal/client/worker/worker.go:281-378 | in every state the end of the inference, or the trigger, decides which answer is sent, whatever happens in between |
| `WorkerLink.ScriptSays` | internal/client/worker/worker.go:250-378 | which messages the script of a unit holds, in both directions, from the flags, the trigger and the outcome |
| `WorkerLink.StagesFollowMethod` | internal/client/worker/worker.go:230-406 | what the interleavable stages emit from the first check on is what the method sends |
| `WorkerLink.AdvancesEmit` | internal/client/worker/worker.go:230-406 | from any stage, the step system left alone until the worker is idle appends to the link exactly what the stages emit |
| `WorkerLink.SoloRunSendsScript` | internal/client/worker/worker.go:230-406 | so a worker that takes a unit and is left alone puts on the link what the method sends for it |
| `WorkerLink.IdleShowsLastStatus` | internal/manager/gateway/websocket.go:403-431 | once the worker is idle and the link drained, both flags are down and the manager shows the last status any goroutine sent, never "processing" |
| `WorkerLink.ProcessingMeansAnswerOwed` | internal/manager/gateway/websocket.go:403-431 | a drained link shows "processing" only while the worker still owes an answer or a status |
| `WorkerLink.AnswersDoNotOverwrite` | internal/client/worker/worker.go:296-321 | in every state the drained link shows the last status sent unless that was "processing", so the toggle's "paused" survives the result after it |
| `WorkerLink.PauseSurvivesIff` | internal/client/worker/worker.go:230-406 | a pause that the user sets in any state of any run, the worker then left alone until idle and drained, is shown iff the stage process is in keeps it, else the worker is shown available |
| `WorkerLink.ShownOfStage` | internal/client/worker/worker.go:230-406 | the stages that keep a pause are exactly those whose remaining messages leave it as the last status |
| `WorkerLink.PauseDuringUnitIsOverwritten` | internal/client/worker/worker.go:399-403 | the input, as a run from a fresh connection: a pause during the inference ends with the flag up and the worker shown available |
| `Bootstrap.FreshInstallConverges` | internal/client/worker/worker.go:511-548 | on a fresh install every interleaving in which both goroutines get enough steps ends with exactly one server, running the new model and parameters |
| `Bootstrap.ConvergesIff` | internal/client/backend/manager.go:274-285 | every finished interleaving ends with the new model running iff, before the two updates, the last started model is the new one, or none was started and none or the new one is remembered |
| `Bootstrap.OldModelComesBack` | internal/client/backend/manager.go:274-285 | with a different model started before, or none started and a different one remembered, one interleaving ends with that model running |
| `Bootstrap.OneProcess` | internal/client/backend/manager.go:220-303 | in every state of every run at most one server process, which is the handle's, started with the remembered launch |
| `Bootstrap.EnoughStepsFinish` | internal/client/worker/worker.go:675-717 | nine steps of one goroutine and two of the other finish both updates, however they interleave |
| `Bootstrap.HandleBackendUpdate` | internal/client/worker/worker.go:660-717 | alone: an installed update ends with the last started launch, else the remembered one, else nothing running; a failed extraction leaves the server stopped; every other failure changes nothing |
| `Bootstrap.BackendAlone` | internal/client/worker/worker.go:675-717 | the steps of the backend update, with nothing beside them, end as that method does |
| `Bootstrap.NoServerDuringExtraction` | internal/client/backend/manager.go:156-171 | in every interleaving no server runs between the stop and the end of the extraction, unless the model update has started one |
| `Bootstrap.BackendManager.Start` | internal/client/backend/manager.go:220-264 | replaces the running server and remembers the launch, or on failure stops it and remembers nothing new |
| `Bootstrap.BackendManager.Restart` | internal/client/backend/manager.go:274-285 | fails without effect before the first start, else starts the remembered launch |
| `Bootstrap.BackendManager.Stop` | internal/client/backend/manager.go:267-271 | no process is left, the remembered launch is |
| `Bootstrap.BackendManager.IsRunning` | internal/client/backend/manager.go:288-292 | true iff a server process exists |
| `CodeSignature.RecomputeAdHocSignature` | internal/manager/api/download.go:282-357 | for every image: what is changed, what is not, and exactly when it panics |
| `CodeSignature.RehashPages` | internal/manager/api/download.go:344-356 | for every directory, only hash slots change and the loop panics iff its first turn that does not write is a panicking one; in bounds, every slot then holds the hash of its page of the final bytes |
| `CodeSignature.StopDecides` | internal/manager/api/download.go:344-356 | the first turn that does not write decides whether the loop panics |
| `CodeSignature.PanicsInBoundsIff` | internal/manager/api/download.go:345-350 | in bounds it panics iff the last page would end at 2^32 or beyond |
| `CodeSignature.HugePagesPanic` | internal/manager/api/download.go:345-350 | the input: two pages of 2 GiB |
| `CodeSignature.LongHashesPanic` | internal/manager/api/download.go:355 | another: hashes longer than 32 bytes |
| `CodeSignature.FindCodeSignature` | internal/manager/api/download.go:291-305 | the load-command loop, with its panics and 32-bit wrap-around, computes the specification scan |
| `CodeSignature.FindCodeDirectory` | internal/manager/api/download.go:307-325 | the blob loop computes the specification scan |
| `CodeSignature.FindSignatureRange` | internal/manager/api/download.go:283-307 | the checks of the header and of the announced range, with the wrap-around of its end |
| `CodeSignature.LocateInSignature` | internal/manager/api/download.go:307-342 | the checks of the blob and of the directory header |
| `CodeSignature.LocateFindsDescribed` | internal/manager/api/download.go:282-342 | an image described by the format (last signature command, first directory blob, each field of the directory at its own byte, the page size as a power of two) is located exactly |
| `CodeSignature.LocateIff` | internal/manager/api/download.go:282-342 | for every image below 4 GiB whose load commands lie inside it: the located directory is the described one, and there is one iff one is described |
| `CodeSignature.OthersHaveNoDirectory` | internal/manager/api/download.go:282-305 | files that are no 64-bit Mach-O images, and images without a signature command, are left alone |
| `CodeSignature.OtherSignaturesAreKept` | internal/manager/api/download.go:308-325 | so are signatures with another magic number or without a code directory |
| `CodeSignature.PageSizeIs` | internal/manager/api/download.go:338 | the page size is two to the power of its byte, and 0 from 32 on |
| `CodeSignature.MatchesMeans` | internal/manager/api/download.go:344-356 | a slot matches iff its bytes, at the directory's own offset, are the start of the hash of its page, the last one cut at the code limit |
| `Bytes.Positions` | internal/manager/api/download.go:286-313 | which byte of a little-endian and of a big-endian number counts for how much |
| `Bytes.ReadPutBE32` | internal/manager/api/download.go:308 | a big-endian number is read back as it is written |
| `CodeSignature.PageWrapsOnlyAtTheEnd` | internal/manager/api/download.go:344-350 | in bounds, page arithmetic in 32 bits is exact, but for the end of a last page at 2^32 or beyond |
| `CodeSignature.SlotDoesNotWrap` | internal/manager/api/download.go:351-355 | in bounds, slot arithmetic in 32 bits is exact |
| `CodeSignature.ResignedVerifies` | internal/manager/api/download.go:275-357 | when the slots follow the headers, the re-signed image is located as before and every slot matches its page |
| `CodeSignature.ResigningIsUnique` | internal/manager/api/download.go:344-356 | signing again changes nothing: re-signing is idempotent |
| `Sentinel.PatchSentinel` | internal/manager/api/download.go:243-273 | each error case and the panic iff its condition, else a fresh image that is the written slot, re-signed |
| `Sentinel.RoundTrip` | internal/client/config/config.go:36-42 | the client reads the URL back iff it is empty, or does not end in a null byte and is not 24 bytes long |
| `Sentinel.ManagerUrlRoundTrip` | internal/client/config/config.go:36-42 | for the URLs the manager makes: iff the host has not 8 bytes (wss) or 9 bytes (ws) |
| `Sentinel.ManagerUrlIs` | internal/manager/api/download.go:124-130 | the URL is ws:// or wss://, the host, and /ws/worker |
| `Sentinel.LocalhostIsLost` | internal/client/config/config.go:36-42 | ws://localhost/ws/worker resolves to nothing |
| `Sentinel.SentinelLeftBehind` | internal/manager/api/download.go:262-266 | after writing, the sentinel text occurs iff it occurs in the bytes up to the end of the URL |
| `Sentinel.OnlyTheUrlCanHoldTheSentinel` | internal/manager/api/download.go:262-266 | hence, for a URL that does not start with a byte of the text, iff the URL contains it |
| `Sentinel.PatchedClientResolves` | internal/manager/api/download.go:243-273 | the round trip through writing, re-signing and the client, wherever the slot lies outside the hash slots, with the same exact condition |
| `Sentinel.PatchedBytesKept` | internal/manager/api/download.go:243-273 | length and every byte outside the slot and the hash slots are unchanged |
| `Sentinel.PatchedImageVerifies` | internal/manager/api/download.go:243-273 | for a described image whose URL slot lies between its load commands and its signature: patching panics iff its last page would end at 2^32 or beyond, and every image it returns verifies under the same directory |
| `GpuMonitor.Monitor.Check` | internal/client/gpu/monitor.go:244-303 | a check without reading changes nothing, one during processing only the last reading, every other one adds a sample that determines window, state and events; it ends holding the lock iff it changed the state and found the event channel full; on lock, flag and channel it is the `Check` step of `EventChannel` |
| `GpuMonitor.Monitor.Receive` | internal/client/gpu/monitor.go:85 | the main loop takes the oldest event, a waiting one moves up and its check releases the lock; no event is lost or reordered; it is the `Receive` step of `EventChannel` |
| `EventChannel.DeadlockIff` | internal/client/worker/worker.go:202-226 | a check that waits for room in the channel never gets through iff the main loop waits for the lock it holds |
| `EventChannel.DeadlockIsForever` | internal/client/gpu/monitor.go:200-240 | and then nothing that any goroutine does changes anything |
| `EventChannel.ChangeCanDeadlockIff` | internal/client/gpu/monitor.go:271-302 | outside processing, one more state change can lead to that iff five events are undrained |
| `EventChannel.DeadlockIsReached` | internal/client/worker/worker.go:660-717 | the input: six state changes during one backend update, then a work unit |
| `GpuMonitor.Monitor.Advance` | internal/client/gpu/monitor.go:275-302 | one step of the two-state machine; the event of its state change, if any, is sent or waits |
| `GpuMonitor.Monitor.Record` | internal/client/gpu/monitor.go:264-269 | one more sample in the ring, the oldest one dropped once it is full |
| `GpuMonitor.BusyIff` | internal/client/gpu/monitor.go:271-302 | Busy iff some check was contended and every later one was uncontended and came less than the resume delay after it |
| `GpuMonitor.EventsAlternate` | internal/client/gpu/monitor.go:271-302 | the events sent alternate, starting from available, and end in the current state |
| `GpuMonitor.RingRecords` | internal/client/gpu/monitor.go:264-269 | with the new head and full flag, the ring laid out oldest first is the old window slid by one reading |
| `GpuMonitor.LayOut` | internal/client/gpu/monitor.go:323-330 | the two copies rotate the ring into the window |
| `GpuMonitor.Monitor.Stats` | internal/client/gpu/monitor.go:308-358 | exact minimum, maximum, mean and trimmed mean of the last 180 samples, in order |
| `GpuMonitor.WindowIs` | internal/client/gpu/monitor.go:264-269 | the window has the last 180 readings, or all if there are fewer |
| `GpuMonitor.BaselineCountIs` | internal/client/gpu/monitor.go:345 | the trimmed mean is that of the lowest 85 percent of the readings, rounded down, and of at least one |
| `GpuMonitor.StatsAreOrdered` | internal/client/gpu/monitor.go:332-357 | Min <= BaselineMean <= Mean <= Max through truncating division, for every window, negative readings included |
| `GpuMonitor.LowestMean` | internal/client/gpu/monitor.go:343-349 | the mean of the lowest c of a sorted sequence is at most the mean of all |
| `GpuMonitor.Monitor.CalibrateBaseline` | internal/client/gpu/monitor.go:103-125 | the largest successful reading (at least 0) plus the headroom, at most 100 |
| `Latency.ComputeRoleMatrix` | internal/manager/latency/monitor.go:126-206 | row i counts the samples in range i of the chosen bounds and has their 50th, 95th and 99th percentile, zeroes if there are none, with P50 <= P95 <= P99; the counts sum to the samples if the first bound is at least 1 or there is none, else to at least twice as many; they always sum if no payload is empty |
| `Latency.PartitionIff` | internal/manager/store/store.go:529-537 | every non-negative payload is in exactly one bucket iff there are no bounds or the first is at least 1 |
| `Latency.FirstBoundPositive` | internal/manager/latency/monitor.go:236-247 | which it is iff the minimum is at least 1 or twice the spread is at least the bucket count |
| `Latency.ChosenPositive` | internal/manager/latency/monitor.go:126-144 | if no payload and no hourly minimum is below 1, no chosen bounds start with less than 1 |
| `Latency.CountsSum` | internal/manager/latency/monitor.go:157-197 | with such bounds the bucket counts sum to the number of samples |
| `Latency.CountsDouble` | internal/manager/latency/monitor.go:157-197 | otherwise every sample is counted at least twice |
| `Latency.BoundsAscend` | internal/manager/latency/monitor.go:241-246 | bounds do not decrease |
| `Latency.BoundsWithin` | internal/manager/latency/monitor.go:241-246 | bounds lie between the minimum and the maximum |
| `Latency.BoundsNearCuts` | internal/manager/latency/monitor.go:241-246 | each bound is within one half of its exact cut point |
| `Latency.WidthsAreEven` | internal/manager/latency/monitor.go:241-246 | interior widths differ by at most 1 |
| `Latency.ComputeBounds` | internal/manager/latency/monitor.go:209-232 | the bounds between the truncated averages of the hourly extremes; none without stats |
| `Latency.ComputeBoundsFromRange` | internal/manager/latency/monitor.go:236-247 | none for at most one bucket or no spread, else the rounded cut points |
| `Latency.PayloadRange` | internal/manager/store/store.go:619-629 | the smallest and largest payload, zeroes without samples |
| `Latency.ChooseBounds` | internal/manager/latency/monitor.go:126-144 | bounds from the hourly stats, else from the samples; one fewer than buckets |
| `Latency.FillMatrix` | internal/manager/latency/monitor.go:152-197 | row i is the statistics of the samples in range i |
| `Latency.PercentileRank` | internal/manager/latency/monitor.go:249-258 | the percentile is one of the latencies, with idx+1 of them at most and n-idx at least as large |
| `Latency.PercentileIs` | internal/manager/latency/monitor.go:249-258 | with k the percentage of their number, rounded down: more than k latencies are at most the percentile, and all but k at least |
| `Latency.InRangeIs` | internal/manager/store/store.go:529-537 | the query keeps each sample as often as it was there if its payload lies in the range, and no other |
| `Latency.SumsAdd` | internal/manager/latency/monitor.go:214-218 | the sums of the hourly extremes add up over the hours |
| `Latency.PercentilesAscend` | internal/manager/latency/monitor.go:186-195 | P50 <= P95 <= P99 |
| `Batch.SafeClaimsAreLegal` | internal/manager/api/batch.go:278-398 | when each claim finds its row pending and no cancellation under way, rows only move pending, processing, completed or failed, and never two rows are processing |
| `Batch.LegalIffSafe` | internal/manager/store/store.go:671-675 | a claim is safe iff every continuation with safe claims moves rows only so |
| `Batch.UnsafeClaimBreaks` | internal/manager/api/batch.go:195-214 | after any unsafe claim an illegal move can follow |
| `Batch.CancelledIsCompleted` | internal/manager/api/batch.go:292-318 | the input: from any initial state without pending rows, a request that is cancelled between find and claim is failed and then completed |
| `Batch.AtomicRunsAreLegal` | internal/manager/api/batch.go:292-398 | were claiming and cancelling single steps, every run would be legal |
| `Batch.DoneIsFinal` | internal/manager/store/store.go:678-695 | in a legal run a completed or failed row never changes again |
| `Batch.RowChangesOnlyThere` | internal/manager/store/store.go:671-695 | for every step in every state: a row becomes processing by a claim, completed by an answer, failed by a failure or a cancellation, and by nothing else |
| `Batch.FoundIsOldest` | internal/manager/store/store.go:664-668 | the loop picks the oldest pending row |
| `Batch.ClaimedIsOldest` | internal/manager/api/batch.go:298-318 | and it is still the oldest at the claim, however long the delay |
| `Batch.BatchStore.ProcessNext` | internal/manager/api/batch.go:292-398 | without interference exactly the oldest pending row moves: to completed after an answer, to processing after a stop, else to failed; this is what the steps find, claim and finish do |
| `Batch.BatchStore.Cancel` | internal/manager/api/batch.go:195-214 | fails a pending row, refuses any other |
| `UrlExpansion.ExpandURL` | internal/manager/backend/backend.go:72-83 | if the five rescans end, the result of each on the result of the one before, for its own placeholder and value; for values without opening braces, every template expands to the simultaneous substitution of its placeholders |
| `UrlExpansion.AnyOrderSubstitutes` | internal/manager/backend/backend.go:72-83 | the same for every order of replacements that has the placeholders of the template |
| `UrlExpansion.PlatformUrls` | internal/manager/backend/backend.go:85-112 | the default template substituted for every combination of the systems and architectures that clients run on |
| `UrlExpansion.EndsIffNoOwn` | internal/manager/backend/backend.go:72-83 | for values that hold their own placeholder or are templates themselves, in any order: the rescans of a template end iff filling its holes in order meets none whose value holds its own placeholder |
| `UrlExpansion.OrderSplices` | internal/manager/backend/backend.go:72-83 | and then the result is the template with the values spliced in, later replacements reaching the placeholders that earlier values brought |
| `UrlExpansion.PlainEndsIff` | internal/manager/backend/backend.go:72-83 | if the value of each hole has no opening brace or holds its own placeholder: the expansion ends iff each has no opening brace |
| `UrlExpansion.OwnPlaceholderNeverEnds` | internal/manager/backend/backend.go:72-83 | hence never when some hole takes a value with its own placeholder, whichever of the five it is |
| `UrlExpansion.DefaultEndsIff` | internal/manager/backend/backend.go:20-23 | the default template, for arguments without opening braces or with the placeholder they fill: the expansion ends iff none has an opening brace |
| `UrlExpansion.DefaultNeverEnds` | internal/manager/gateway/websocket.go:564 | the inputs: a worker with the architecture {arch}, or with the system {platform} |
| `UrlExpansion.ExpansionEnds` | internal/manager/backend/backend.go:72-83 | the expansion of any text ends for arguments that each have at most one opening or at most one closing brace and hold none of the placeholders they fill |
| `UrlExpansion.ExpansionNeverEnds` | internal/manager/backend/backend.go:72-83 | and never for a version with its own placeholder, on any text with it |
| `UrlTemplate.ReplaceFills` | internal/manager/backend/backend.go:114-122 | replacing a placeholder's name splices a template that lacks it into its holes and touches nothing else |
| `RescanEnds.EndsIff` | internal/manager/backend/backend.go:114-122 | for a pattern whose first and last characters are nowhere else in it, and a value with at most one of either, or that cannot begin or cannot finish an occurrence, or that holds one: the rescan ends iff the value or the text lacks the pattern |
| `RescanEnds.PumpNeverEnds` | internal/manager/backend/backend.go:114-122 | the input beyond that: `s}s}{o{o`, with two of both braces, lacks `{os}` and never ends on `{o{os}` |
| `Rescan.RescanNeverEnds` | internal/manager/backend/backend.go:114-122 | with a value that contains the pattern the rescan ends iff the text lacks it |
| `Rescan.NeverEndsWithin` | internal/manager/backend/backend.go:114-122 | a family of texts that no round leaves has none on which the rescan ends |
| `Rescan.ReplaceEach` | internal/manager/backend/backend.go:114-122 | if the rescan ends, its one result, which holds no occurrence |
| `Rescan.OneResult` | internal/manager/backend/backend.go:114-122 | a rescan has at most one result |
| `Rescan.IndexOf` | internal/manager/backend/backend.go:124-131 | the first occurrence, or -1 if there is none |
| `IcoWriter.PackICO` | internal/client/tray/icons_windows.go:70-112 | the container is header, directory and images, with offsets that wrap at 32 bits |
| `IcoWriter.ReadBack` | internal/client/tray/icons_windows.go:90-99 | a reader of entry i finds size and offset cut to 32 bits, and 0 for dimensions of 256 and more |
| `IcoWriter.Layout` | internal/client/tray/icons_windows.go:70-112 | the file byte by byte: type and count in the header; width, height, planes, depth, size and offset of each entry at their places, each cut to its width |
| `IcoWriter.RegionsFillFile` | internal/client/tray/icons_windows.go:70-112 | the image regions are consecutive, start after the directory, end with the file, and each holds its image |
| `IcoWriter.FaithfulIff` | internal/client/tray/icons_windows.go:70-112 | the directory leads to every image iff the count fits 16 bits and each size and offset 32 |
| `LogBuffer.Buffer.Write` | internal/logbuffer/logbuffer.go:27-48 | keeps the ring; every open subscriber with fewer than 256 buffered lines has the trimmed, non-empty line appended, every other one keeps what it has; none is closed |
| `LogBuffer.Buffer.OfferAll` | internal/logbuffer/logbuffer.go:38-44 | the same for one line: each subscriber is tried exactly once, and none of their channels is closed |
| `LogBuffer.Channel.Offer` | internal/logbuffer/logbuffer.go:39-43 | with fewer than 256 buffered lines the line is appended, with 256 dropped; the send never blocks |
| `LogBuffer.Buffer.GetAll` | internal/logbuffer/logbuffer.go:51-57 | the last maxSize non-empty trimmed lines, in order |
| `LogBuffer.Buffer.Subscribe` | internal/logbuffer/logbuffer.go:61-69 | a new id and a new open channel, offered nothing yet |
| `LogBuffer.Buffer.Unsubscribe` | internal/logbuffer/logbuffer.go:72-79 | removes and closes exactly this channel, keeps what it holds |
| `LogBuffer.DeliveredLines` | internal/logbuffer/logbuffer.go:38-44 | received and buffered lines are, in order, exactly those lines written since the subscription at whose write fewer than 256 were buffered; all of them iff the channel was never full at a write |
| `LogBuffer.OfferKeepsAttached` | internal/logbuffer/logbuffer.go:38-44 | one more such send keeps that |
| `LogBuffer.KeptAllIff` | internal/logbuffer/logbuffer.go:38-44 | a channel lets every line through iff it was never full when one was offered |

## Left out

- Go's `int` and `int64` are unbounded integers except where 32-bit or 64-bit wrap-around is written out (`Bytes`, `IcoWriter`, `CodeSignature`, the queue's counter).
- Database statements are atomic and succeed; only the zero-row update is modelled as having no error. The mode without a store is not part of this model.
- HTTP, TLS, WebSocket framing, JSON, downloads, archive extraction and process exits are not part of this model; where they matter they are parameters that say success or failure.
- Queue.UnitQueue.NextID: uniqueness in `DispatchProtocol` assumes fewer than 2^64 units, after which the counter repeats.
- Handlers.Complete: any other reply changes nothing here, and at most one comes early and one late; every number and order of replies is in `DispatchProtocol`. The log line that cuts the fingerprint to 12 characters after a result, and would panic on a shorter one, is not modelled; it comes after the row update.
- Gateway.Gateway.Dispatch: one critical section; the reads of consent and status by concurrent writers are in `Consent`. `DispatchWithHashCheck` is not modelled.
- WorkerLink.IdleShowsLastStatus: the link loses nothing and consent is held; a failed send of the result is not modelled.
- WorkerLink.Worker.Process: the trigger of a unit is given instead of being searched for in its messages, the `counter` and error reports are left out, and `WaitForBaseline` only delays.
- Registry.AgreementIff: a worker that itself reports the status "offline" is left out, and the updates of the set-up other than the row and its status.
- Bootstrap.FreshInstallConverges: one backend update and one model update, the write of path and parameters is one step, and a start succeeds once the binary is installed; further updates, cancelled downloads and a server that dies by itself are not modelled.
- EventChannel.DeadlockIff: the time between checks is not modelled, so a change may follow at any moment; the dashboard and the prober, which read the monitor too, take no part. `WaitForBaseline` is one step that needs the lock.
- Latency.ComputeRoleMatrix: bucket sizes are exact rationals instead of float64, all buckets are queried at one moment, and the range label is not built.
- Latency hourly aggregation, whose roles come from the table it fills, is not modelled.
- RescanEnds.EndsIff: values with two or more of both braces that can both begin and finish the pattern without holding it.
- UrlExpansion.EndsIffNoOwn: values with an opening brace that starts no placeholder; for them `UrlExpansion.ExpansionEnds` gives one direction.
- CodeSignature.ResignedVerifies: an image whose hash slots overlap its own headers is covered by `RecomputeAdHocSignature` only.
- Batch.BatchStore.ProcessNext: error and result texts are not modelled, creation times are the order of rows, and `toBatchObject` is a field-by-field copy.
- LogBuffer.Buffer.Write: the order in which subscribers are visited is arbitrary, and a negative maximum size, which would panic, is not a size.
- The retry and reconnect backoff, `startDownload`, which cancels the download before it, and the routing of the client's socket into channels: no result above depends on how long they wait or in which order they forward messages of different kinds.
- Dashboards, tray menus, probers, branding, sign-in and the admin pages are user interface around the modelled parts.
