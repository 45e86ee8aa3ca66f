# Verification of the Express migration runtime

A Dafny 4.11 model of the parts of the repository that carry its hardest state:
message delivery with attachments, access of participants to the target chat,
admission and execution of background jobs, the broker command handler, manifest
selection, CTS resolution, mention splicing, Telegram login challenges, the
identity workbook and the send keys. `dafny verify dfyconfig.toml` checks it.

## How it is modelled

Objects that the services change are classes with the same fields: repositories
hold maps keyed by their unique constraints, services hold the gateway they call.
A gateway, a clock or a suspension point of the event loop may answer anything that
fits its type, including a refusal, a cancellation or a failure of the backend; a
ghost log keeps every exchange in order. Exceptions are values (`Common.Result`).
Each method is proved against a relation between snapshots taken before and after
it (`DeliveryContract`, `NewDeliveryContract`, `AccessContract`, ...) or against a pure
function, and the promises about several calls, all runs or all inputs are lemmas
about those relations and functions.

| modules | part of the repository |
|---|---|
| `Common`, `Sequences`, `Sorting`, `Text` | shared vocabulary: options, exceptions, ordered dictionaries, stable sorting, `strip` and `lower` |
| `AttachmentStore`, `Gateways`, `DeliveryContracts`, `MessageDelivery`, `DeliveryRuns` | delivery of one message and its attachments, and sequences of deliveries |
| `ChatAccess`, `MemberAccess`, `Seeding` | giving participants access to a chat |
| `Jobs`, `JobAdmission`, `JobWorker`, `CommandHandler` | the life of a background job |
| `ManifestSelection` | the manifest of an operator's request |
| `CtsResolution` | the user-to-host cache |
| `Mentions` | mention splicing in the renderer |
| `LoginChallenges` | the challenge store and the session service |
| `Workbook` | printing and parsing the identity matrix |
| `IdempotencyKeys` | send keys |

## Where the code and its documentation differ

The model follows the code in each case.

- The docstring of the attachment claim says that an item in processing is
  re-entered (`src/extg_shared/contracts/ports.py:569`). Both repositories answer
  AMBIGUOUS (`src/extg_migration_runtime/infrastructure/persistence/in_memory.py:832-871`).
  Hence a follow-up attachment found in processing always stops the delivery with an
  ambiguity, and so does one whose upload fails, unless the failure only concerns
  the preview.
- A failed item with a cancellation code is claimed again even without the retry flag.

## Results that turned out conditional

- An imported attachment stays imported through replays with media migration on
  (`ReplaysKeepSettled`, `ImportedStaysImported`). With media migration off every
  returning delivery marks it skipped (`MediaOffForgetsImport`). A new delivery with
  media on keeps it exactly when the attachment is reached (its sizes are within the
  limit and its file was fetched) and, if it goes inline, its upload does not fail
  (`ImportedSurvivesExactly`).
- A follow-up whose delivery was cancelled: a replay takes its failed record as
  settled (`CancelledInReplay`). In a new delivery it depends on how it goes
  (`CancelledInNewDelivery`): as a follow-up it is sent again only without the retry
  flag, as the one inline attachment it goes with the message whatever the flag.
- The summary flags of a first delivery name the sends that raised exactly when the
  repository stores the phase of an error (`VerdictHoldsExactly`). With payload storage
  "none" nothing blocks (`OmittedPayloadHidesARefusal`). With "redacted", the default,
  stored messages are redacted, and so is the address of an uploaded file that a later
  delivery reuses (`StoredFileComesBack`).
- Active jobs of one migration are pairwise free of conflicts while no running
  lease expires (`ActiveJobsNeverConflict`). For one start the condition is exact:
  it keeps that property unless the chats meet those of a running job whose lease
  has expired (`StartKeepsExclusiveExactly`); `ExpiredLeaseAllowsOverlap` gets there
  from an empty table.
- A finished execution has made no terminal update exactly when its body was
  cancelled with no request seen by the heartbeat, or it was interrupted while it
  awaited the heartbeat after its body had returned
  (`NoUpdateExactlyWhenCancelled`). A cancellation from outside that arrives later,
  during an audit, leaves the one update in place.
- A delivered command starts an execution exactly when its message has not been
  recorded, the call is not cut short before, and the job is claimable at the claim
  (`RedeliveryExecutesExactly`, `RedeliveryAfterReturns`). So a second execution after
  one that made its update means that another worker had claimed the job in between
  (`SecondExecutionMeansTakeover`), which a kept lease rules out (`KeptLeaseIsEnough`);
  `LostLeaseAllowsSecondExecution` is a run of the handler in which it happens.
- The CTS cache answers as a scan in every history exactly when each huid and each
  email is known on one registered host (`CacheRefinesScanExactly`).
- A request for several ids is refused as a duplicate exactly when two of them stand
  for one configuration (`DuplicatesExactly`).
- The order of entities does not matter when valid mentions start at distinct offsets
  (`OrderDoesNotMatter`); two that start together are a counterexample
  (`EqualOffsetsDependOnOrder`).
- The workbook round trip is the identity exactly on trimmed rows with an
  identifying field and a resolution source (`RoundTripExactly`). Under the legacy
  header a row known by a login alone is lost (`LoginOnlyRowIsLost`); for canonical
  rows that is the only way to lose one (`LegacyRoundTripOfCanonical`).

## Model

| member | source | states |
|---|---|---|
| AttachmentStore.ClaimMapping | src/extg_migration_runtime/infrastructure/persistence/in_memory.py:832-871 | a claim is granted exactly for a new or reclaimable item and then finds it in processing; imported and failed items are answered as such, every other item is ambiguous and keeps its record |
| AttachmentStore.ClaimStage | src/extg_migration_runtime/infrastructure/persistence/in_memory.py:1054-1135 | the same for the upload stage: uploaded and attached files are reused, failed and stale ones are claimed again |
| AttachmentStore.AttachmentMappingRepository.Claim | src/extg_migration_runtime/infrastructure/persistence/in_memory.py:832-871 | the claim changes the table only at its key and only when granted |
| AttachmentStore.AttachmentMappingRepository.Mark | src/extg_migration_runtime/infrastructure/persistence/in_memory.py:903-1016 | a mark rewrites the record at its key, its payload as the repository stores it, and raises when there is none |
| AttachmentStore.StoredPayload | src/extg_migration_runtime/infrastructure/persistence/repositories.py:150-172 | full storage keeps a payload; the phase of an error survives unless nothing is stored |
| AttachmentStore.AttachmentStageRepository.Claim | src/extg_migration_runtime/infrastructure/persistence/in_memory.py:1054-1135 | the stage claim changes the table only at its key |
| Gateways.AsyncRetryPolicy.Run | src/extg_shared/utils/retry.py:32-46 | at most the configured attempts, all for the same operation, all but the last refused as recoverable; the answer is the last one unless the pause was interrupted; it terminates |
| Gateways.AttemptsDecide | src/extg_shared/utils/retry.py:32-46 | of the sends of one retried call only the last may have been accepted |
| MessageDelivery.MessageDeliveryService.ClaimTerminal | src/extg_migration_runtime/application/message_delivery.py:1464-1490 | a claim that is neither granted nor decided is refused without a change |
| MessageDelivery.MessageDeliveryService.PrepareAttachment | src/extg_migration_runtime/application/message_delivery.py:430-675 | one attachment is either decided, with the outcome of the record left behind, or ready with its record untouched; in a new delivery it is ready exactly when its sizes are within the limit and its file was fetched; a settled one of a replay is answered without any call; a prefetched item without payload is a fatal error |
| MessageDelivery.MessageDeliveryService.SkipAttachment | src/extg_migration_runtime/application/message_delivery.py:397-428 | with media off every attachment ends skipped, without a call |
| MessageDelivery.MessageDeliveryService.PrepareMessage | src/extg_migration_runtime/application/message_delivery.py:375-675 | preparation splits the attachments into prepared and decided ones, none in both, none missing, and only downloads |
| MessageDelivery.MessageDeliveryService.EnsureUploaded | src/extg_migration_runtime/application/message_delivery.py:1082-1282 | exactly one of a staged file, an outcome of the record, or the direct file after a failed stage; a file uploaded before is not uploaded again, nor one given up |
| MessageDelivery.MessageDeliveryService.DeliverAttachment | src/extg_migration_runtime/application/message_delivery.py:677-975 | nothing is sent for an imported, skipped, ambiguous or processing record; otherwise at most one send is accepted and the record left behind says what it answered; a cancellation goes on only after the attachment was released |
| MessageDelivery.MessageDeliveryService.MarkInlineImported | src/extg_migration_runtime/application/message_delivery.py:977-1080 | the inline attachment ends imported under the id of the message it went out with, its stage attached; an imported or skipped one is not touched |
| MessageDelivery.MessageDeliveryService.SendOrReusePrimary | src/extg_migration_runtime/application/message_delivery.py:182-243 | a replay reuses the message already sent and sends none; otherwise all sends are the same request with the rendered body, and all but the last were refused as recoverable |
| MessageDelivery.MessageDeliveryService.Deliver | src/extg_migration_runtime/application/message_delivery.py:136-290 | the whole delivery contract: one outcome an attachment at its position, read off the stored record; other messages and targets untouched; settled attachments of a replay untouched; no primary send on a replay; of several sends only the last accepted; what a first delivery's outcomes say about its sends; what becomes of each attachment of a new delivery, by whether it is reached and goes inline; which errors may escape |
| DeliveryContracts.OutcomeFromRecord | src/extg_migration_runtime/application/message_delivery.py:1537-1556 | an outcome blocks exactly when its record is failed or ambiguous in the send phase |
| DeliveryContracts.PreparedStep | src/extg_migration_runtime/application/message_delivery.py:386-675 | one more attachment keeps the split into decided and prepared ones |
| DeliveryContracts.DeliveredStep | src/extg_migration_runtime/application/message_delivery.py:245-290 | one more delivered attachment keeps the outcomes equal to the records and the others untouched |
| DeliveryContracts.InlineDeliversWell | src/extg_migration_runtime/application/message_delivery.py:161-266 | upload, primary send and import of the one inline attachment together give an outcome that is its record |
| DeliveryContracts.InlineMeetsFate | src/extg_migration_runtime/application/message_delivery.py:161-266 | the inline attachment is imported when the message carries it, failed when its upload failed, and otherwise as it was |
| DeliveryContracts.FollowUpMeetsFate | src/extg_migration_runtime/application/message_delivery.py:677-938 | a follow-up is answered from its record without a call, or its send is recorded |
| DeliveryContracts.PreparedExactlyStep | src/extg_migration_runtime/application/message_delivery.py:430-675 | the prepared attachments are exactly those within the limits whose file was fetched |
| DeliveryRuns.ReplayIsIdempotent | src/extg_migration_runtime/application/message_delivery.py:440-455 | after a delivery without blocking failure, delivering again with the message sent and its body asks nothing, changes no record, and returns the same outcomes, body and id |
| DeliveryRuns.FirstDeliveryVerdict | src/extg_migration_runtime/application/message_delivery.py:88-105 | a first delivery has a blocking failure exactly when some follow-up send raised, an ambiguous one exactly when some raised ambiguously, provided that the phase of an error is stored |
| DeliveryRuns.VerdictHoldsExactly | src/extg_migration_runtime/infrastructure/persistence/repositories.py:150-156 | that verdict holds of every first delivery exactly when payloads are stored with their phase |
| DeliveryRuns.OmittedPayloadHidesARefusal | src/extg_migration_runtime/infrastructure/persistence/repositories.py:153-154 | with storage mode "none" a delivery whose follow-up was refused has no blocking failure |
| DeliveryRuns.StoredFileComesBack | src/extg_migration_runtime/infrastructure/persistence/repositories.py:1435-1465 | a finished upload is given back as it was exactly with full storage, and is uploaded again exactly when nothing is stored |
| DeliveryRuns.OneAcceptedSend | src/extg_migration_runtime/application/message_delivery.py:136-290 | in one delivery a message and each attachment have at most one accepted send |
| DeliveryRuns.ReplaysKeepSettled | src/extg_migration_runtime/application/message_delivery.py:440-455 | through any run of replays with media on, also raising or cancelled ones, a settled attachment keeps record and stage and nothing is asked about it |
| DeliveryRuns.ImportedStaysImported | src/extg_migration_runtime/application/message_delivery.py:440-455 | in particular an imported one stays imported under the same id and is never downloaded, uploaded or sent again |
| DeliveryRuns.CancelledInNewDelivery | src/extg_migration_runtime/application/message_delivery.py:136-290 | a cancelled follow-up, in a new delivery that returns, ends imported exactly when the message carries it inline, whatever the retry flag, or when it is sent as a follow-up without the retry flag; with the flag a follow-up keeps its failed record and nothing is asked |
| DeliveryRuns.CancelledInReplay | src/extg_migration_runtime/application/message_delivery.py:440-455 | a replay takes it as settled and asks nothing about it |
| DeliveryRuns.ImportedSurvivesExactly | src/extg_migration_runtime/application/message_delivery.py:430-675 | a new delivery with media on keeps an imported record exactly when the attachment is reached and, if inline, its upload does not fail |
| DeliveryRuns.OverLimitLosesImported | src/extg_migration_runtime/application/message_delivery.py:456-480 | a declared size over the limit always loses it |
| DeliveryRuns.ReachedFollowUpKeepsImported | src/extg_migration_runtime/application/message_delivery.py:694-718 | a follow-up that is reached never does, and only its download is asked |
| MessageDelivery.MessageDeliveryService.Release | src/extg_migration_runtime/application/message_delivery.py:940-974 | after a cancellation the record is failed with the cancellation code and no upload is left in processing |
| DeliveryRuns.MediaOffForgetsImport | src/extg_migration_runtime/application/message_delivery.py:397-428 | with media off every delivery that returns marks an imported attachment skipped |
| ChatAccess.SettlesJoin | src/extg_migration_runtime/application/target_chat_provisioning.py:1055-1337 | two groups without a common member that each account for their members account for them together |
| ChatAccess.MergeIntoKeepsAll | src/extg_migration_runtime/application/target_chat_provisioning.py:1055-1337 | merging the per-host lists loses and repeats nobody |
| ChatAccess.OrderedAfterReady | src/extg_migration_runtime/application/target_chat_provisioning.py:1109-1199 | adds through a host after its helper set-up keep the order on the whole trace |
| ChatAccess.AddImpliesReadyHelper | src/extg_migration_runtime/application/target_chat_provisioning.py:1590-1782 | in an ordered trace, a member add through a host with a helper implies that the helper was attached, promoted and seen as an admin |
| MemberAccess.DeduplicatedIsFiltered | src/extg_migration_runtime/application/target_chat_provisioning.py:1961-1983 | deduplication leaves distinct, non-blank ids outside the skipped ones |
| MemberAccess.DeduplicatedMembers | src/extg_migration_runtime/application/target_chat_provisioning.py:1961-1983 | and keeps every other id |
| MemberAccess.ProvisioningService.Deduplicate | src/extg_migration_runtime/application/target_chat_provisioning.py:1961-1983 | first occurrences by trimmed id |
| MemberAccess.ProvisioningService.Partition | src/extg_migration_runtime/application/target_chat_provisioning.py:2017-2041 | one group a route, each with exactly the targets of that route in order |
| MemberAccess.ProvisioningService.AwaitHelperAdmin | src/extg_migration_runtime/application/target_chat_provisioning.py:1750-1796 | returns only after the helper was seen among the admins; it terminates |
| MemberAccess.ProvisioningService.EnsureHelper | src/extg_migration_runtime/application/target_chat_provisioning.py:1590-1748 | returns only when the helper was attached, promoted through the anchor and seen as an admin through its host, in this order; adds nobody |
| MemberAccess.ProvisioningService.AddWithReroute | src/extg_migration_runtime/application/target_chat_provisioning.py:1339-1408 | one call through the route and a second one through the anchor exactly when the route does not know the chat |
| MemberAccess.ProvisioningService.AddIndividually | src/extg_migration_runtime/application/target_chat_provisioning.py:1410-1465 | every member is settled: added by an accepted call, or failed with its reason |
| MemberAccess.ProvisioningService.AddGroup | src/extg_migration_runtime/application/target_chat_provisioning.py:1109-1276 | the same for a whole route, with its helper ready first and nobody added when it is not |
| MemberAccess.ProvisioningService.DispatchInvites | src/extg_migration_runtime/application/target_chat_provisioning.py:1833-1942 | returns exactly the recipients whose invitation was accepted, in order, and adds nobody |
| MemberAccess.ProvisioningService.Apply | src/extg_migration_runtime/application/target_chat_provisioning.py:1055-1337 | the access contract on the deduplicated targets, and the helper order on every trace, also when it raises |
| MemberAccess.MembersAreConserved | src/extg_migration_runtime/application/target_chat_provisioning.py:1055-1337 | a member is reported failed exactly when no add naming it was accepted, reported added exactly when an accepted add said so, invited exactly when its invitation was accepted; nobody is added and failed; only failed ones are invited; the counts add up |
| Seeding.SeedParticipants | src/extg_migration_runtime/application/target_chat_provisioning.py:1985-2015 | the initiator first, then exactly the participants eligible on the anchor, or the first participant when there would be nobody |
| Seeding.SeedingIsPartition | src/extg_migration_runtime/application/target_chat_provisioning.py:542-583 | every participant but the initiator is named at creation or in exactly one route group, never both, never lost; groups hold their own route in the original order |
| Jobs.JobRepository.Enqueue | src/extg_migration_runtime/infrastructure/persistence/in_memory.py:165-177 | a key is registered once |
| Jobs.JobRepository.Claim | src/extg_migration_runtime/infrastructure/persistence/in_memory.py:194-232 | succeeds exactly for a queued job or a running one without cancel request whose lease expired, and hands over the lease |
| JobAdmission.AdmissionService.Start | src/extg_bot_ui/application/bot_control.py:2138-2325 | a job is queued exactly when nothing conflicts, no threshold is reached and no progress check objects; a conflict is answered "already running" |
| JobAdmission.AdmissionService.BackpressureReached | src/extg_bot_ui/application/bot_control.py:2327-2343 | exactly when a positive threshold is reached; zero and negative ones are off |
| JobAdmission.AdmissionService.StartFanOut | src/extg_bot_ui/application/bot_control.py:2345-2385 | every chat is reported exactly once, as accepted, running or blocked, and the table grows by the accepted ones |
| JobAdmission.NextEvolves | src/extg_migration_runtime/infrastructure/persistence/in_memory.py:194-370 | in every step jobs only move forward: none disappears or changes migration, and an ended job stays as it is |
| JobAdmission.QueueNeverExceedsThreshold | src/extg_bot_ui/application/bot_control.py:2327-2343 | in every run of starts, claims, heartbeats, ends, cancels and time, the queue stays within its positive threshold |
| JobAdmission.ActiveJobsNeverConflict | src/extg_bot_ui/application/bot_control.py:2147-2165 | in every run without an expired running lease the active jobs of a migration work on disjoint chats |
| JobAdmission.StartKeepsExclusiveExactly | src/extg_bot_ui/application/bot_control.py:3049-3080 | a start breaks that exactly when the chats meet those of a running job on an expired lease |
| JobAdmission.ExpiredLeaseAllowsOverlap | src/extg_bot_ui/application/bot_control.py:3049-3080 | four steps from an empty table to two active jobs on one chat |
| JobWorker.TerminalUpdates | src/extg_migration_runtime/application/migration_job_worker.py:108-207 | in every interleaving with heartbeat, other workers and operators: at most one terminal update, under the claimed lease owner, "completed" exactly when the body returned, the cancelled code exactly when the body was cancelled and the heartbeat had seen a request; a normal return means one update |
| JobWorker.NoUpdateExactlyWhenCancelled | src/extg_migration_runtime/application/migration_job_worker.py:131-192 | the exact condition for a finished execution without update |
| JobWorker.ExactlyOneUpdate | src/extg_migration_runtime/application/migration_job_worker.py:108-207 | not cancelled from outside, over a repository that answers, every finished execution made exactly one update |
| JobWorker.CancelledCodeWasAsked | src/extg_migration_runtime/application/migration_job_worker.py:209-243 | the cancelled code is written only if the operator of the job asked for it during the execution |
| JobWorker.ExecutionEvolves | src/extg_migration_runtime/application/migration_job_worker.py:108-207 | an execution only moves jobs forward; if its update found the lease held, the job has ended |
| JobWorker.TasksNeverExceedConcurrency | src/extg_migration_runtime/application/migration_job_worker.py:79-106 | the task set stays within the concurrency in every interleaving of acquisitions, completions and stop |
| JobWorker.UpdateSettlesExactly | src/extg_migration_runtime/application/migration_job_worker.py:108-207 | the terminal update takes effect exactly when no other worker has claimed the job since |
| JobWorker.KeptLeaseIsNotTakenOver | src/extg_migration_runtime/application/migration_job_worker.py:209-243 | while its lease does not run out, nobody takes a job over |
| JobWorker.StopWaitsForTasks | src/extg_migration_runtime/application/migration_job_worker.py:59-77 | `stop` does not return while a job task runs |
| JobWorker.NothingRunsAfterStop | src/extg_migration_runtime/application/migration_job_worker.py:59-77 | once it has returned, no job task is running and none runs ever after |
| CommandHandler.Handler.Handle | src/extg_migration_runtime/application/migration_command_handler.py:32-93 | the handler does what its specification says for every behaviour of the waits and of the execution, which is any run of the job worker on the claimed job |
| CommandHandler.Handler.Execute | src/extg_migration_runtime/application/migration_command_handler.py:76 | the execution is a run of the job worker from the state right after the claim, with its returns and its effect on the job table |
| CommandHandler.StartsExactly | src/extg_migration_runtime/application/migration_command_handler.py:52-76 | an execution is started exactly when the message is not in the inbox, asks for a job, no wait is cut short, and the job is claimable in the state of the claim; it begins with that claim, after which the consumer holds the lease |
| CommandHandler.NotClaimedExactly | src/extg_migration_runtime/application/migration_command_handler.py:52-65 | "not_claimed" is returned exactly when the claim failed and the entry was written |
| CommandHandler.ReturnsExactly | src/extg_migration_runtime/application/migration_command_handler.py:32-93 | "duplicate" exactly for a message in the inbox, without effect; any other return leaves the message in the inbox under its code; which code goes with which message; a code about the job means an execution that returned |
| CommandHandler.CodeTellsTheEnd | src/extg_migration_runtime/application/migration_command_handler.py:77-93 | the code agrees with how the job ended, and is decided when the execution settled it |
| CommandHandler.RedeliveryExecutesExactly | src/extg_migration_runtime/application/migration_command_handler.py:32-76 | over any sequence of deliveries, one starts an execution exactly when no earlier one recorded its message, it is not cut short, and the job is claimable at its claim |
| CommandHandler.RedeliveryAfterReturns | src/extg_migration_runtime/application/migration_command_handler.py:32-76 | the same in terms of earlier deliveries that returned, when none is cut short between its inbox entry and its return |
| CommandHandler.LaterDeliveriesAreDuplicates | src/extg_migration_runtime/application/migration_command_handler.py:32-38 | after a return every later delivery of the message starts nothing, leaves the inbox alone and, if it returns, says "duplicate" |
| CommandHandler.NoExecutionAfterSettled | src/extg_migration_runtime/application/migration_command_handler.py:52-78 | every execution began with a claim, and no job is executed again after an execution that settled it, returned or not |
| CommandHandler.SecondExecutionMeansTakeover | src/extg_migration_runtime/application/migration_command_handler.py:52-93 | a job is executed again after an execution that made its update only if another worker had claimed it in between |
| CommandHandler.AtMostOneReturnedExecution | src/extg_migration_runtime/application/migration_command_handler.py:32-93 | an execution that returned and was not taken over is the last one of its job and of its message |
| CommandHandler.KeptLeaseIsEnough | src/extg_migration_runtime/application/migration_command_handler.py:52-78 | an execution whose lease never runs out is not taken over |
| CommandHandler.LostLeaseAllowsSecondExecution | src/extg_migration_runtime/application/migration_command_handler.py:52-93 | a run of the handler, step by step, in which a lost lease gives one message two returned executions |
| Sorting.SortedIsOrdered | src/extg_bot_ui/application/bot_control.py:4073-4083 | sorting by any order puts the elements in that order |
| Sorting.SortedIsPermutation | src/extg_bot_ui/application/bot_control.py:4073-4083 | and keeps exactly the elements |
| ManifestSelection.TopicsAreSortedByTitle | src/extg_bot_ui/application/bot_control.py:4073-4083 | topic configurations come in title order, none lost |
| ManifestSelection.GroupByPhysicalChat | src/extg_bot_ui/application/bot_control.py:3119-3126 | each group holds exactly the configurations of its physical chat, in order |
| ManifestSelection.SelectOne | src/extg_bot_ui/application/bot_control.py:3137-3169 | an id is refused exactly when it is configured by others only; otherwise it gives its representatives |
| ManifestSelection.SelectByIds | src/extg_bot_ui/application/bot_control.py:3134-3169 | the representatives of all ids in order, and the ids that have none |
| ManifestSelection.BuildManifest | src/extg_bot_ui/application/bot_control.py:3183-3191 | succeeds exactly when every backend is supported, every dialog valid and the ids unique |
| ManifestSelection.LoadConfigManifest | src/extg_bot_ui/application/bot_control.py:3098-3191 | succeeds exactly when every id is answered and the selection forms a manifest; its dialogs are the selection in order; why it is refused otherwise |
| ManifestSelection.SelectionIsExact | src/extg_bot_ui/application/bot_control.py:3127-3169 | only owned configurations, no split root; without ids exactly the owned ones not skipped, with ids exactly those that answer an id |
| ManifestSelection.EveryRequiredIdIsRepresented | src/extg_bot_ui/application/bot_control.py:3170-3174 | when configuration is required every requested id has a dialog |
| ManifestSelection.DuplicatesExactly | src/extg_shared/contracts/manifest.py:82-87 | ids are refused as duplicates exactly when two of them stand for one configuration |
| CtsResolution.BindingRepository.Save | src/extg_migration_runtime/infrastructure/persistence/in_memory.py:1459-1500 | the saved binding is found under its huid and its email, and replaced bindings leave the other index |
| CtsResolution.CandidatesAreRegistered | src/extg_migration_runtime/application/cts_resolution.py:233-250 | the candidates are the registered hosts, each once, the current one first |
| CtsResolution.ResolutionService.CandidateHosts | src/extg_migration_runtime/application/cts_resolution.py:233-250 | the loop builds that list |
| CtsResolution.ResolutionService.Resolve | src/extg_migration_runtime/application/cts_resolution.py:70-231 | all four resolves: a blank input is missing and changes nothing; else the cached answer, or that of the first host that knows the user, which is saved |
| CtsResolution.SaveKeepsTruth | src/extg_migration_runtime/infrastructure/persistence/in_memory.py:1459-1500 | saving what a host answered keeps every binding truthful |
| CtsResolution.TruthfulAnswerIsScan | src/extg_migration_runtime/application/cts_resolution.py:70-231 | over truthful bindings a resolve answers as an uncached scan and keeps them truthful |
| CtsResolution.CacheRefinesScan | src/extg_migration_runtime/application/cts_resolution.py:70-231 | after any sequence of resolves every resolve returns the huid and host of an uncached first-match scan |
| CtsResolution.CacheRefinesScanExactly | src/extg_migration_runtime/application/cts_resolution.py:70-152 | for all histories exactly when each huid and email is known on one registered host |
| Mentions.RenderBodyContent | src/extg_migration_runtime/application/renderer.py:88-109 | without entities the body itself, with entities the spliced source |
| Mentions.SpliceMentions | src/extg_migration_runtime/application/renderer.py:89-109 | the loop computes the splice |
| Mentions.SplicingReplacesSpans | src/extg_migration_runtime/application/renderer.py:89-129 | the replaced spans are valid mentions of the message, in bounds, disjoint and increasing; the text between them is kept in order, and the original texts put back give the source |
| Mentions.NoHuidIsIdentity | src/extg_migration_runtime/application/renderer.py:119-129 | when no valid mention has an id the body is the source |
| Mentions.LeftOutMentionOverlaps | src/extg_migration_runtime/application/renderer.py:95-104 | a valid mention left out begins inside a chosen one |
| Mentions.OrderDoesNotMatter | src/extg_migration_runtime/application/renderer.py:95 | with distinct offsets among valid mentions the entity order does not matter |
| Mentions.EqualOffsetsDependOnOrder | src/extg_migration_runtime/application/renderer.py:95-99 | two mentions with the same offset are where it does |
| LoginChallenges.ChallengeStore.CreateChallenge | src/extg_telethon_service/application/telegram_login_challenge_store.py:26-45 | a new challenge lives for the time to live from now on; expired ones go |
| LoginChallenges.ChallengeStore.GetChallenge | src/extg_telethon_service/application/telegram_login_challenge_store.py:47-53 | finds a challenge exactly when it is live |
| LoginChallenges.ChallengeStore.MarkRequired | src/extg_telethon_service/application/telegram_login_challenge_store.py:55-66 | sets the password flag of a live challenge and nothing else |
| LoginChallenges.ChallengeStore.UpdateSessionString | src/extg_telethon_service/application/telegram_login_challenge_store.py:68-81 | replaces the session of a live challenge and nothing else |
| LoginChallenges.ChallengeStore.DeleteChallenge | src/extg_telethon_service/application/telegram_login_challenge_store.py:83-85 | removes the challenge for good |
| LoginChallenges.GetFindsExactlyTheLive | src/extg_telethon_service/application/telegram_login_challenge_store.py:47-95 | after any history `get` finds a challenge exactly when it was created, not deleted and not expired, with its first expiry |
| LoginChallenges.NothingIsExtendedOrCleared | src/extg_telethon_service/application/telegram_login_challenge_store.py:55-81 | no operation moves an expiry or clears a password requirement |
| LoginChallenges.SessionService.StartConnection | src/extg_telethon_service/application/telegram_session_service.py:102-173 | a challenge for the operator only, or a session for the operator only; a connected operator is refused |
| LoginChallenges.SessionService.CompleteCode | src/extg_telethon_service/application/telegram_session_service.py:175-218 | a session is written only for the creator of a live challenge, which is then gone; a demanded password is noted |
| LoginChallenges.SessionService.CompletePassword | src/extg_telethon_service/application/telegram_session_service.py:220-250 | a session by password is written only for a challenge whose code was answered with a demand for one |
| LoginChallenges.SessionService.OwnChallenge | src/extg_telethon_service/application/telegram_session_service.py:400-408 | a challenge is found exactly when it is live and the operator's own |
| Workbook.BuildWorkbook | src/extg_bot_ui/application/identity_matrix_workbook.py:50-92 | header, one row a participant, then the templates |
| Workbook.ParseWorkbook | src/extg_bot_ui/application/identity_matrix_workbook.py:94-164 | the identified rows under the header variant found, or a refusal |
| Workbook.BuiltWorkbookParses | src/extg_bot_ui/application/identity_matrix_workbook.py:50-164 | for any rows and any number of templates the parse gives back the normalised rows that identify somebody, in order |
| Workbook.RoundTripExactly | src/extg_bot_ui/application/identity_matrix_workbook.py:50-175 | it gives back the very rows exactly when all are canonical |
| Workbook.LegacyWorkbookParses | src/extg_bot_ui/application/identity_matrix_workbook.py:24-33 | under the legacy header any rows come back normalised with empty logins, those that then identify nobody left out |
| Workbook.LegacyRoundTripExactly | src/extg_bot_ui/application/identity_matrix_workbook.py:24-33 | they are the very rows with empty logins exactly when those are canonical |
| Workbook.LegacyRoundTripOfCanonical | src/extg_bot_ui/application/identity_matrix_workbook.py:134-158 | for canonical rows: exactly when each has an identifying field besides the logins |
| Workbook.LoginOnlyRowIsLost | src/extg_bot_ui/application/identity_matrix_workbook.py:143-152 | a row known by its login alone is lost under the legacy header |
| Workbook.NormalisedExactly | src/extg_bot_ui/application/identity_matrix_workbook.py:166-170 | a row is unchanged by the trip and identified exactly when it is canonical |
| IdempotencyKeys.KeysNeverCollide | src/extg_shared/contracts/models.py:133-137 | keys of messages, attachments and chunks are equal exactly for the same send, although topic chat ids contain the separator |
| IdempotencyKeys.KeyIsJoined | src/extg_migration_runtime/application/message_delivery.py:1658-1664 | a key is the colon-join of parts without colons |
| IdempotencyKeys.PartsAreInjective | src/extg_bot_ui/application/bot_control.py:4085-4086 | the parts determine chat, topic, message, attachment and chunk |
| IdempotencyKeys.FreeTextsCollide | src/extg_shared/contracts/models.py:133-137 | with free texts for ids two keys can be equal |

## Left out

- Network gateways, SQL and audit or log output: a gateway may answer anything, an audit is a suspension point.
- `prefetch_attachments`: its result is an arbitrary argument of a delivery.
- Other writers of the same attachment slots: while a delivery awaits, no other task changes the records of its attachments.
- The look-up of the helper bot of a host is a constant function without a suspension.
- Descriptive attachment columns (name, checksum, media kind), temporary files and the transfer semaphore.
- The text of failure lines in a rendered body, and `_format_timestamp`.
- Error texts of the chat gateway: whether a chat is unknown and whether an admin is not visible yet are arbitrary tests on the error.
- Retries inside a member-access call: one request in the log stands for one retried operation, except the admin listing.
- Host names are taken after normalisation.
- Participant ids in `SeedingIsPartition` are trimmed; `SeedParticipants` compares raw ids, as the source does.
- Emails and huids in `CacheRefinesScanExactly` are taken as the directory keeps them, in normal form; `lower` is modelled on ASCII letters, `strip` on the usual blanks.
- Starts are atomic: the awaits between listing the active jobs and registering a new one do not interleave with other starts.
- The checks on existing import progress are one flag of a request.
- Leases are whole seconds; the truncation of microseconds is not modelled.
- A worker started again while it is being stopped, which would have two supervisors.
- Repository calls of the job worker are single steps that take effect or raise.
- Broker messages are handled one at a time by one consumer, whose worker id nobody else uses.
- Calls of the session service run one after the other; two completions of one challenge at the same time are not modelled.
- Encryption of sessions: a stored session is readable or not.
- A cell of a sheet is an optional text; formulas and the bytes of a workbook are not modelled.
- Migration use cases (backfill, delta, replay of failures), identity directory, user interface.
