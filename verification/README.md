# Voicebox backend: verified models

A Dafny model of the stateful parts of the Voicebox backend, and proofs of what they promise.  Each module
follows one source file or one protocol.  `dafny verify dfyconfig.toml` checks everything.

**Speech generation.** `ReferenceDecode` is the windowed decode that skips the windows lying wholly below the
caller's cut, with its one-shot handoff; it yields exactly the samples of the plain windowed decode after the cut.
`BatchGeneration` is the two-row generation loop over an abstract, row-local network; a row's codes are those it
produces alone, since the preparer gives every row one padding position of trailing text.  `RandomKeys` covers the text its random keys are hashed from.  `ReferenceCache` is the
four-entry, content-addressed cache of prepared references.

**The MCP shim.** `ResponseLines` reads bounded lines out of arbitrary network chunks, and `SsePayloads` reads
server-sent events from those lines (sections 9.2.5 and 9.2.6 of the WHATWG HTML Living Standard).

**Model lifecycle.** `Draining` is the helper that awaits an executor thread through a shield and drains it after
a cancellation, with thread, wrapper task and helper taking separate turns.  `LifecycleGuard` is the reentrant guard
as a transition system over all interleavings of claims, nested holds, cancelled waiters, calls of that helper, model
loads written field by field, and releases.  `ModelBinding` is the model that it guards.

**Audio publication and deletion.** `AudioJournal` holds the database rows, the files and the durable intents, the
invariant that every single effect keeps, and recovery.  `AudioStore` attempts effects one at a time: each may fail
before or after it took hold, the process may die at it, and other requests run in between.  `Publication`,
`CaptureCreation`, `CaptureDeletion` and `ImportAudio` are the requests, with their failure handlers.  Since every
effect keeps the invariant, recovery settles the disk from any crash point of any interleaving.

**Exact batches.** `ExactBatch` is the matching and the acceptance of caller-chosen ids; `ExactBatchRuns` is every
run of submissions, races, ambiguous commits, queue rejections and deletions.

**Storage and resources.** `StoragePaths`, `PermissionRepair`, `Refinement`, `RequestLimits`, `RequestAdmission`,
`DownloadOwnership`, `OwnerRecord` and `OwnerRaces` model the path resolvers, permission repair, the freshness of
refined transcripts, request admission, download ownership, the data-root lock's record, and the processes that race
for that lock.  `Decimal` prints and parses numerals; `Wrappers` holds the shared result types.

## Where the code and its claims part

Six properties do not hold of the code as stated.  Each is proved under its exact condition, with an input that
shows the need for it.

- *Resubmitting an accepted envelope returns its rows* (generations.py:664-680): exactly if the server still has the
  revision that the envelope was accepted under, and each request's engine is the one it is matched as.  A server of
  another revision refuses every envelope before looking for its rows; and a request that sends `engine: null` is
  matched as "qwen" although acceptance asked the profile first (`ExactBatch.ResubmissionReattaches`,
  `ExactBatch.RetryOnAnotherRevisionIsRefused`, `ExactBatch.RetryWithoutEngineIsRefused`).
- *An executor thread never outlives the guard* (mlx_tts_lifecycle.py:111-125): true however often the awaiting task
  is cancelled and whatever else happens, and false from every state with a thread at work whose wrapper task has been
  cancelled or may be (`LifecycleGuard.OutlivingExactly`, `LifecycleGuard.AnyThreadCanOutliveTheGuard`).
- *A cancelled caller is told so once its thread has ended* (mlx_tts_lifecycle.py:116-125): not if the operation fails
  and the draining loop is awaiting it at that moment, because that await raises the operation's own error, which the
  loop does not catch.  In every other case the helper ends as it owes its caller
  (`Draining.EndingIsAsOwed`, `Draining.CancellationCanBeLost`).
- *An oversized body is answered with 413 or 400* (request_limits.py:311-326): exactly if the application does not end
  in an error of its own, which is raised past the boundary's answer, and did not begin to answer while it had been
  sent no more than the bound, in which case the rejection is a second response
  (`RequestAdmission.OversizedIsRejectedOnce`, `RequestAdmission.RejectionIsSecondResponse`).
- *A cached reference is what preparing it afresh would give* (mlx_qwen_optimizations.py:331-346): exactly if decoding
  never looks at the file suffix, which the key leaves out (`ReferenceCache.FreshAnswersExactly`).
- *A written owner record is read back* (data_root_lock.py:96-120): exactly if it is at most 1025 bytes long, one more
  than is read (`OwnerRecord.RecordRoundTrip`), and no other process had found the file empty and not yet stamped it
  when the record was written; such a stamp overwrites the first letter of `pid=`
  (`OwnerRaces.ReadBackExactly`, `OwnerRaces.AnyOwnerCanLoseItsPid`).

## Model

| member | source | states |
|---|---|---|
| ReferenceDecode.ReferenceDecoder.Decode | backend/backends/mlx_qwen_optimizations.py:253-311 | the handoff is consumed whatever it held; the waveform has the plain decode's length and differs from it only in a silent prefix of whole windows, the longest that lies at or below the cut; without a proven reference prefix it is the plain decode |
| ReferenceDecode.ReferenceDecoder.RenderFromCut | backend/backends/mlx_qwen_optimizations.py:284-302 | the rendered windows are exactly the plain waveform from the skipped samples on, the skipped windows form a prefix, and something is always rendered, so the empty fallback is unreachable |
| ReferenceDecode.ReferenceDecoder.RenderWindow | backend/backends/mlx_qwen_optimizations.py:295-296 | decoding a window with its left context and dropping the context's samples yields the window's own samples |
| ReferenceDecode.ReferenceDecoder.StockDecode | backend/backends/mlx_qwen_optimizations.py:263-274 | the window loop fallen back to yields the concatenation of all windows |
| ReferenceDecode.ReferenceDecoder.DecodeWithReference | backend/backends/mlx_qwen_optimizations.py:620-626 | the handoff is armed for one decode and disarmed on return; everything from the cut on equals the plain decode |
| ReferenceDecode.ReferenceDecoder.DecodeRows | backend/backends/mlx_qwen_optimizations.py:629-659 | every row, after valid-length truncation and cut, is the same samples as the unskipped windowed decode gives, rows without codes are empty, and no handoff stays armed |
| ReferenceDecode.ReferenceDecoder.ClearHandoff | backend/backends/mlx_qwen_optimizations.py:56-59 | disarms the handoff |
| ReferenceDecode.RetainedAgrees | backend/backends/mlx_qwen_optimizations.py:650-656 | waveforms of one length that agree from a point at or below the cut are retained alike |
| ReferenceDecode.CutBelowLength | backend/backends/mlx_qwen_optimizations.py:278-281 | the cut lies within the effective samples whenever the reference is shorter than the sequence |
| BatchGeneration.GenerateBatch | backend/backends/mlx_qwen_optimizations.py:705-801 | each row of a batch of one or two ends with the codes of that row run on its own account, within its own token limit; rows as prepared end with exactly what each generates alone |
| BatchGeneration.PreparedRowsAreIndependent | backend/backends/mlx_qwen_optimizations.py:442-442 | for rows with the preparer's single padding position of trailing text the generation loop gives each row what it gives it alone, in every row-local network |
| BatchGeneration.OthersMatterByLengthOnly | backend/backends/mlx_qwen_optimizations.py:677-679 | however rows are prepared, exchanging the other row's seed, text, cache and limit changes nothing as long as its trailing text is as long |
| BatchGeneration.RunSteps | backend/backends/mlx_qwen_optimizations.py:718-798 | after every step of the shared loop each row is where it is alone after as many steps; the loop ends at the longest limit or when all rows have finished |
| BatchGeneration.AdvanceBatch | backend/backends/mlx_qwen_optimizations.py:719-788 | one step of the whole batch is one step of each row |
| BatchGeneration.DrawFirstTokens | backend/backends/mlx_qwen_optimizations.py:719-734 | the talker's draw for all rows is each row's own, and a finished row's token is replaced |
| BatchGeneration.DrawCodeGroups | backend/backends/mlx_qwen_optimizations.py:736-762 | the code groups drawn for all rows together are those each row draws alone, with its own counter |
| BatchGeneration.SampleRows | backend/backends/mlx_qwen_optimizations.py:586-611 | every row is drawn under its own seed and counter and only its own counter advances |
| BatchGeneration.RecordCodes | backend/backends/mlx_qwen_optimizations.py:780-788 | running rows append, ended rows do not, and a row that reaches its limit is finished |
| BatchGeneration.FinishedIsFinal | backend/backends/mlx_qwen_optimizations.py:733-734 | a finished row stays finished and its codes and token ids never change again |
| BatchGeneration.StopsAtItsLimit | backend/backends/mlx_qwen_optimizations.py:715-718 | a row has one code for every step it ran unfinished and stops at or before its own limit |
| BatchGeneration.KeySchedule | backend/backends/mlx_qwen_optimizations.py:602-611 | at the start of step n a row's counter is n times the number of groups, finished or not |
| BatchGeneration.GroupCounters | backend/backends/mlx_qwen_optimizations.py:742-762 | within a step, group k is drawn k counters later |
| BatchGeneration.TrailingIndependence | backend/backends/mlx_qwen_optimizations.py:765-772 | the text embeddings of a row are those of the row alone if and only if its trailing text is as long as the batch's or ends in padding |
| BatchGeneration.BatchNonInterference | backend/backends/mlx_qwen_optimizations.py:765-772 | under that condition a row's codes in a batch are its codes alone, whatever the other row |
| BatchGeneration.NonInterferenceExactly | backend/backends/mlx_qwen_optimizations.py:764-773 | a remark on the loop by itself: a row's codes are independent of the batch's padding length, for every network, if and only if its trailing text is as long, ends in padding, or is at least as long as its token limit |
| BatchGeneration.LongerCompanionShows | backend/backends/mlx_qwen_optimizations.py:764-773 | otherwise a network that echoes its text embedding tells the padding length; the cloned-voice preparer never produces such a row |
| RandomKeys.PayloadIsInjective | backend/backends/mlx_qwen_optimizations.py:528-530 | different seeds or counters are hashed from different texts |
| RandomKeys.DrawsHaveTheirOwnPayload | backend/backends/mlx_qwen_optimizations.py:528-536 | draws under different seeds, or of different steps or groups, are hashed from different texts; rows with one seed share theirs |
| ReferenceCache.ReferenceRegistry.PrepareReference | backend/backends/mlx_qwen_optimizations.py:319-369 | a call does to the registry what the step function of the run lemmas says, hit, miss or collision |
| ReferenceCache.ReferenceRegistry.Register | backend/backends/mlx_qwen_optimizations.py:372-377 | an entry is appended and only the last four are kept |
| ReferenceCache.ReferenceRegistry.Clear | backend/backends/mlx_qwen_optimizations.py:380-387 | empties the registry and tells how many entries it held |
| ReferenceCache.RegistryIsMostRecent | backend/backends/mlx_qwen_optimizations.py:331-338 | after any calls the registry holds exactly the four most recently served distinct keys, in recency order |
| ReferenceCache.HitEqualsMiss | backend/backends/mlx_qwen_optimizations.py:333-338 | after any history an answered call gets what preparing afresh would give, and a refusal means that the key is held under another transcript |
| ReferenceCache.FreshAnswersExactly | backend/backends/mlx_qwen_optimizations.py:331-346 | after every history every answered call gets what preparing afresh would give, if and only if preparation does not depend on the file suffix |
| ReferenceCache.EntriesWerePrepared | backend/backends/mlx_qwen_optimizations.py:360-369 | every entry was prepared by an earlier call with its own key and transcript |
| ReferenceCache.KeyAndTextFixAudio | backend/backends/mlx_qwen_optimizations.py:69-74 | key and transcript together determine the audio bytes |
| ReferenceCache.KeyAloneIsAmbiguous | backend/backends/mlx_qwen_optimizations.py:69-74 | the key alone does not: two references share one |
| ReferenceCache.SuffixIsIgnoredOnAHit | backend/backends/mlx_qwen_optimizations.py:342-346 | a hit returns what the first file suffix decoded to, since the key leaves the suffix out |
| ReferenceCache.TouchCommutesWithEviction | backend/backends/mlx_qwen_optimizations.py:374-377 | evicting down to four commutes with touching or adding an entry |
| ResponseLines.ReadLines | backend/mcp_shim/__main__.py:118-141 | for every cutting into chunks the lines are those of the newline-translated whole text without its unterminated tail; an oversized one raises after exactly the lines before it |
| ResponseLines.ReadChunk | backend/mcp_shim/__main__.py:124-137 | one chunk, slice by slice, moves the outcome of the text still to come along exactly |
| ResponseLines.ReadSlice | backend/mcp_shim/__main__.py:128-137 | complete lines are yielded, the incomplete one kept, and each is measured as it grows |
| ResponseLines.Finish | backend/mcp_shim/__main__.py:138-141 | a held-back carriage return ends its line, and what follows the last newline is dropped |
| ResponseLines.NewlineDecoder.Decode | backend/mcp_shim/__main__.py:121-128 | a piece contributes its translation except for a trailing carriage return, which is held back |
| ResponseLines.PieceTranslates | backend/mcp_shim/__main__.py:121-128 | what a piece releases and what it holds back translate together like the piece itself |
| ResponseLines.ReplacementsTranslate | backend/mcp_shim/__main__.py:121-121 | replacing CR LF and then CR is the translation of a text |
| ResponseLines.JoinSplit | backend/mcp_shim/__main__.py:128-128 | joining what was split at newlines gives the text back |
| SsePayloads.ReadPayloads | backend/mcp_shim/__main__.py:144-158 | for every cutting into chunks the payloads are those of the event grammar over the whole text's lines, within the size limit |
| SsePayloads.RoundTrip | backend/mcp_shim/__main__.py:144-158 | printing payloads free of CR, cutting the text anyhow and reading it returns them in order up to the first that does not fit, where it raises |
| SsePayloads.UnclosedEventIsDropped | backend/mcp_shim/__main__.py:148-152 | an event without its closing blank line is dropped |
| SsePayloads.ParseEvent | backend/mcp_shim/__main__.py:148-158 | one printed event is read back as its payload, or refused when a line or the event is too large |
| SsePayloads.ParsePrinted | backend/mcp_shim/__main__.py:144-158 | a printed list followed by anything is read as its fitting prefix and then what follows |
| Draining.LeavingMeansDrained | backend/backends/mlx_tts_lifecycle.py:111-125 | whatever the order of cancellations, thread end, wrapper end and wakings, the helper has left only if the wrapper is done, and only if the thread has ended unless the wrapper task was cancelled |
| Draining.CancellationsAreRemembered | backend/backends/mlx_tts_lifecycle.py:115-121 | until it leaves, the helper is in its loop exactly if a cancellation came before its last waking |
| Draining.EndingIsAsOwed | backend/backends/mlx_tts_lifecycle.py:113-125 | the caller gets its cancellation if one was delivered and the operation's own outcome otherwise, if and only if no failure of the operation is met by the loop's own await |
| Draining.CancellationCanBeLost | backend/backends/mlx_tts_lifecycle.py:117-121 | cancelled, drained, and then failing: the caller gets the operation's error |
| Draining.RunBlockingOperationCancellationSafe | backend/backends/mlx_tts_lifecycle.py:111-125 | for every schedule the nested try and loop do, event by event, what the transitions say, and end only when these have left |
| Draining.Operation.AwaitShielded | backend/backends/mlx_tts_lifecycle.py:114-119 | an await of the shielded task is suspended until woken, and then throws or gives the outcome |
| LifecycleGuard.StepKeepsInv | backend/backends/mlx_tts_lifecycle.py:48-101 | every atomic step of every task or thread keeps the invariant that ties owner, lock and frames together |
| LifecycleGuard.GuardSafety | backend/backends/mlx_tts_lifecycle.py:48-101 | over every interleaving at most one is inside, whoever is inside is the recorded owner and holds the real lock, the lock is never held by nobody, and no release is refused |
| LifecycleGuard.OnlyOutermostReleases | backend/backends/mlx_tts_lifecycle.py:84-88 | leaving an inner hold changes nothing but the frame |
| LifecycleGuard.WaiterLeavesNoTrace | backend/backends/mlx_tts_lifecycle.py:73-98 | a run in which an actor only asks, waiting or not, polls and gives up is, without that actor's events, still a run to the same guard and the same other actors |
| LifecycleGuard.CancelledWaiterLeavesNoTrace | backend/backends/mlx_tts_lifecycle.py:73-98 | in any run whatever, a waiter that gave up again and a `try_hold` that found the guard busy can be erased without changing the guard or anyone else |
| LifecycleGuard.CallFollowsHelper | backend/backends/mlx_tts_lifecycle.py:111-125 | within the guard's runs every call goes through the helper's own transitions |
| LifecycleGuard.ExecutorRunsUnderGuard | backend/backends/mlx_tts_lifecycle.py:111-125 | in every run in which the actor's wrapper task is not cancelled its executor thread works only while it owns the guard, because its helper has not left |
| LifecycleGuard.CancelledWrapperOutlivesGuard | backend/backends/mlx_tts_lifecycle.py:113-125 | from every state with a thread at work, cancelling its wrapper task and leaving all holds frees the guard under the running thread |
| LifecycleGuard.UncancelledThreadStaysGuarded | backend/backends/mlx_tts_lifecycle.py:111-125 | without that cancellation the thread does not outlive the guard in any continuation |
| LifecycleGuard.OutlivingExactly | backend/backends/mlx_tts_lifecycle.py:111-125 | in every state that satisfies the invariant, a thread at work can come to outlive the guard if and only if its wrapper task has been cancelled or may be |
| LifecycleGuard.AnyThreadCanOutliveTheGuard | backend/backends/mlx_tts_lifecycle.py:111-125 | from every initial state every actor can reach a thread that outlives the guard |
| LifecycleGuard.OthersCannotChangeTheModel | backend/backends/mlx_backend.py:175-197 | between entering and leaving the guard no step of another task or thread changes any of the model's fields, unless a thread had already outlived its guard |
| LifecycleGuard.RequestKeepsItsModel | backend/backends/mlx_backend.py:175-197 | so from the start on a request keeps its model in every run without cancelled wrapper tasks |
| LifecycleGuard.TtsLifecycleGuard.TryClaim | backend/backends/mlx_tts_lifecycle.py:48-58 | a claim is new, reentrant or busy and is a run of the transition system's steps |
| LifecycleGuard.TtsLifecycleGuard.Release | backend/backends/mlx_tts_lifecycle.py:60-66 | the owner's release frees the lock, anyone else's changes nothing |
| ModelBinding.MlxBackend.EnterRequest | backend/backends/mlx_backend.py:175-183 | a request that enters has its own size loaded, and the size check never fires |
| ModelBinding.MlxBackend.EnsureModelLoaded | backend/backends/mlx_backend.py:185-197 | the loader is called exactly when the wanted size is not the loaded one, and a failed load leaves no recorded size |
| ModelBinding.MlxBackend.LoadModelSync | backend/backends/mlx_backend.py:202-250 | a load does the field writes of the guard's transition system, all three, the first, or none; a failed one leaves the recorded size empty |
| ModelBinding.MlxBackend.UnloadModel | backend/backends/mlx_backend.py:252-264 | unloading is the unload step of that system: model and recorded size go, the selected one stays |
| AudioJournal.SafeEffectKeepsInv | backend/services/deletion_journal.py:549-612 | every safe single effect keeps: a row's audio is at its path or hidden under an intent that names both, audio without a row has an intent, and intents match their entries |
| AudioJournal.PutFileKeepsInv | backend/services/captures.py:56-66 | an empty placeholder under an unused name keeps the invariant |
| AudioJournal.FillKeepsInv | backend/services/captures.py:69-129 | writing audio into a file that an intent names keeps the invariant |
| AudioJournal.AddIntentKeepsInv | backend/services/deletion_journal.py:290-385 | recording an intent for an existing entry keeps the invariant |
| AudioJournal.MoveKeepsInv | backend/services/deletion_journal.py:207-229 | a rename between the two names of an intent keeps the invariant |
| AudioJournal.PutRowKeepsInv | backend/services/captures.py:502-504 | committing a row whose audio is in place keeps the invariant |
| AudioJournal.DropRowKeepsInv | backend/services/captures.py:578-583 | committing the deletion of a row whose audio is hidden, or owned by another row, keeps the invariant |
| AudioJournal.DropFileKeepsInv | backend/services/deletion_journal.py:257-278 | discarding what no row owns keeps the invariant |
| AudioJournal.DropIntentKeepsInv | backend/services/deletion_journal.py:388-409 | retiring a finished intent keeps the invariant |
| AudioJournal.ReconcileSucceeds | backend/services/deletion_journal.py:589-612 | under the invariant an intent can always be finished, without an identity error, and exactly it is retired |
| AudioJournal.Recover | backend/services/deletion_journal.py:630-651 | from every state that satisfies the invariant recovery ends with no intent, every row's audio at its path, and no other audio, with the rows unchanged |
| AudioJournal.SettledAudioIsDetermined | backend/services/deletion_journal.py:630-651 | the order in which intents are finished makes no difference to the audio |
| AudioStore.Store.Attempt | backend/services/captures.py:378-508 | a safe effect takes hold or not, whatever it reports, the invariant is kept and nothing else that the request sees changes |
| AudioStore.Store.PlaceFile | backend/services/captures.py:56-66 | a placeholder is created under an inode of its own |
| AudioStore.Store.ReconcileNow | backend/services/captures.py:222-234 | finishing an intent at run time passes only through the states of recovery's own rule, and reaches its end when nothing fails |
| AudioStore.EffectIsEnvStep | backend/services/captures.py:363-370 | what one request does is, to every request on other names and ids, a step that keeps the invariant and changes nothing it sees |
| AudioStore.ViewSafe | backend/services/captures.py:363-370 | what is safe on the names that a request owns is safe on the whole disk |
| Publication.ReconcileActive | backend/services/captures.py:534-543 | finishing the publications in reverse order keeps rows and their audio, and leaves no unowned file of theirs when nothing fails |
| Publication.DiscardUntracked | backend/services/captures.py:544-546 | discards only placeholders that no intent was recorded for |
| Publication.FinishQuietly | backend/services/captures.py:337-347 | a failure to retire the intent of a committed row does not revoke the success |
| Publication.ReconciledStaysCleanable | backend/services/captures.py:222-234 | finishing one publication leaves the handler able to deal with the rest |
| CaptureCreation.CreateCapture | backend/services/captures.py:350-556 | a creation that succeeds has its row committed and its audio at the public name; one that fails leaves every committed row with its audio, and after a clean handler no file without a row; without a fault it succeeds, any single fault is fully cleaned up after, and the invariant holds wherever it stops |
| CaptureCreation.TryCreate | backend/services/captures.py:378-508 | the steps before the handler reach the committed capture or a state that the handler can deal with |
| CaptureCreation.HandleFailure | backend/services/captures.py:509-549 | an ambiguous commit is proved or every publication is finished from the rows; rows are never lost, and a handler that meets no fault reports success exactly if the row is there and otherwise leaves no file |
| CaptureCreation.ProveCommit | backend/services/captures.py:516-533 | a commit counts as proved exactly on reading the row back with its audio; without a fault it is proved exactly if the row is there |
| CaptureCreation.CleanUp | backend/services/captures.py:534-546 | publications are finished and placeholders discarded in this session or an independent one, rows and their audio stay, and without a fault no unowned file does |
| CaptureCreation.StagePublication | backend/services/captures.py:379-392 | placeholder, intent and audio, in this order |
| CaptureCreation.Announce | backend/services/captures.py:379-386 | the intent is recorded before there is any audio |
| CaptureCreation.Transcode | backend/services/captures.py:424-461 | the WAV form is staged beside the upload before the upload and its intent go |
| CaptureCreation.DropUpload | backend/services/captures.py:459-461 | the upload and then its intent go, and the WAV form alone is left staged |
| CaptureCreation.Publish | backend/services/captures.py:463-508 | rename, commit and retirement of the intent, each of which may fail either way |
| CaptureCreation.NamesDiffer | backend/services/captures.py:363-370 | the names of one capture clash only when it is a WAV upload |
| CaptureCreation.Suffix | backend/services/captures.py:364-366 | an unknown extension is stored as WAV |
| CaptureDeletion.DeleteCapture | backend/services/captures.py:570-603 | a deletion removes exactly its own row, and the file unless another row is at the path; a failed one removes the row or nothing, and after a clean failure a surviving row has its files unchanged; without a fault it goes through and leaves nothing hidden, and after a single fault a failure is clean |
| CaptureDeletion.StageAudio | backend/services/captures.py:168-200 | the entry is hidden under its intent, or a failure puts the files back |
| CaptureDeletion.UndoStaging | backend/services/captures.py:190-199 | a rename that failed, perhaps after it took hold, is reversed |
| CaptureDeletion.CommitDeletion | backend/services/captures.py:583-603 | the row goes only once its audio is hidden or owned by another row; then the hidden audio is discarded, and a raised commit goes to the handler |
| CaptureDeletion.FinishDeletion | backend/services/captures.py:602-603 | once the row is gone its hidden audio goes, or is left to startup |
| CaptureDeletion.HandleFailure | backend/services/captures.py:584-600 | after a commit that raised, and may have taken hold, the hidden audio is dealt with in the rolled-back session or else an independent one; without a further fault the outcome is clean, and a surviving row then has its files unchanged |
| CaptureDeletion.UndoDeletion | backend/services/captures.py:584-600 | after a failed commit the audio is shown again exactly if the row stayed |
| CaptureDeletion.DiscardAudio | backend/services/captures.py:212-219 | the hidden audio of a deleted capture is discarded, or left to startup |
| ImportAudio.ImportFile | backend/routes/generations.py:1410-1629 | an import is committed with its audio in place, or fails with every committed row's audio in place; without a fault it succeeds, and a failure after a single fault leaves no file |
| ImportAudio.HandleFailure | backend/routes/generations.py:1543-1622 | for every failure point and every answer of the independent reads no audio of a committed row is discarded, nothing is discarded but the entry that the intent was written for, and an unknown answer changes nothing; without a further fault the answer is never unknown and nothing is left over |
| ImportAudio.ProveCommit | backend/routes/generations.py:1550-1566 | the first question proves the import exactly on finding row and audio |
| ImportAudio.AskOwner | backend/routes/generations.py:1568-1582 | the second question is answered by whether a row owns the target, or not at all |
| ImportAudio.CleanUp | backend/routes/generations.py:1583-1619 | what the answer allows: discard, keep, drop the placeholder, or touch nothing |
| ImportAudio.DiscardImport | backend/routes/generations.py:1583-1601 | only the entry whose inode matches the intent goes, and then the intent |
| ImportAudio.KeepImport | backend/routes/generations.py:1602-1615 | an owned import keeps its file and at most loses its intent |
| ImportAudio.DropPlaceholder | backend/routes/generations.py:1616-1619 | without an intent only the empty placeholder goes |
| ImportAudio.PublishImport | backend/routes/generations.py:1449-1542 | the upload is written under its intent, renamed, and committed |
| ImportAudio.Announce | backend/routes/generations.py:1438-1448 | the intent is recorded for the empty placeholder |
| ExactBatch.MatchingExistingBatch | backend/routes/generations.py:457-556 | all ids new, all stored under this very envelope, or refused; rows come back in the order of the submission |
| ExactBatch.ResubmissionReattaches | backend/routes/generations.py:664-680 | an accepted envelope, sent to any server, is answered with its own rows, whatever their status, if and only if that server has the revision of the one that accepted it and each unit names its engine or its profile's default is the presumed one; otherwise it is refused |
| ExactBatch.RetryOnAnotherRevisionIsRefused | backend/routes/generations.py:669-672 | a server of another revision refuses every accepted envelope |
| ExactBatch.RetryWithoutEngineIsRefused | backend/routes/generations.py:537-538 | a fine-tuned narrator addressed without an engine is refused on retry |
| ExactBatch.SuchARequestIsAccepted | backend/routes/generations.py:202-213 | that request is accepted the first time |
| ExactBatch.OnlyTheEnvelopeReattaches | backend/routes/generations.py:512-555 | what matches the rows of an accepted envelope is that envelope, not reordered, split, merged or changed in anything but the expected voice |
| ExactBatch.ModelIsPresumed | backend/routes/generations.py:191-213 | acceptance resolves engine and size to what matching presumes exactly if the engine is named or defaults to it |
| ExactBatch.SameVoice | backend/routes/generations.py:719-750 | the one frozen voice of a pair is the voice of each unit |
| ExactBatch.Accept | backend/routes/generations.py:762-812 | every stored contract names the whole ordered envelope, which fixes every digested field of every unit |
| ExactBatchRuns.StepKeepsInv | backend/routes/generations.py:660-919 | every step of every run keeps: stored rows come from accepted batches, none overwritten, each stored unit enqueued at most once |
| ExactBatchRuns.RunsBegin | backend/routes/generations.py:660-680 | runs start from an empty history |
| ExactBatchRuns.RunsGoOn | backend/routes/generations.py:660-919 | every run can go on, and the queue's tickets stay distinct |
| ExactBatchRuns.ContractsAreFixed | backend/routes/generations.py:762-812 | a stored contract never changes and disappears only when its row is deleted |
| ExactBatchRuns.ResubmittingIsIdempotent | backend/routes/generations.py:664-680 | after a stored envelope and any run without deletion of its rows, submitting it again leaves queue, history and other requests alone and returns its rows in order, if and only if the server's revision is still the same and the engines are the presumed ones; otherwise it changes nothing at all |
| ExactBatchRuns.InsertionCarries | backend/services/history.py:384-416 | a durable insertion stores every unit with its contract |
| ExactBatchRuns.OnlyAcceptedEnvelopesMatch | backend/routes/generations.py:457-556 | in every reachable state whatever is answered with rows is, unit for unit and in order, one envelope that was stored, all of it by one insertion |
| ExactBatchRuns.ExactBatchRoute.Submit | backend/routes/generations.py:664-812 | refuse what is stale or has no seed, reattach, refuse, or go on with a batch none of whose ids is stored |
| ExactBatchRuns.ExactBatchRoute.RequireCurrent | backend/routes/generations.py:665-672 | the checks before matching pass exactly if the ids differ and every request carries a seed and this server's revision |
| ExactBatchRuns.ExactBatchRoute.Reattach | backend/routes/generations.py:674-680 | the stored rows are returned in order, the active ones failed if nobody is going to run them |
| ExactBatchRuns.ExactBatchRoute.Insert | backend/routes/generations.py:813-843 | one transaction stores all rows or none; the loser of a race gets the winner's rows; an unproved commit is never enqueued |
| ExactBatchRuns.ExactBatchRoute.Enqueue | backend/routes/generations.py:900-919 | the queue takes all units as one job or every row is marked failed |
| ExactBatchRuns.ExactBatchRoute.FailUnownedBatch | backend/routes/generations.py:559-581 | active rows become failed exactly if no id of the envelope is live in the queue |
| StoragePaths.ResolversAgree | backend/config.py:117-164 | for every path and every answer about existence, the lexical path is the part below the root of what the resolver returns, and there is none exactly when that is not strictly below the root |
| StoragePaths.ManagedPathsAreConfined | backend/config.py:117-164 | a returned path is not empty, has no dot parts, and joined to the root is what the resolver returns |
| StoragePaths.StorageRoundTrip | backend/config.py:200-256 | storing and resolving an absolute path gives it back if and only if it is strictly below the root with a first part other than data, or outside it without a data part |
| StoragePaths.StoredFormsDiffer | backend/config.py:200-225 | the stored forms of different files below the root differ |
| StoragePaths.PathRelativeToAnyDataDir | backend/config.py:102-114 | the search stops at the first part called data |
| StoragePaths.LegacyTailIsFirst | backend/config.py:102-114 | what it returns follows the first such part, and nothing is returned without one |
| StoragePaths.CollapseIsPlain | backend/config.py:32-34 | collapsing leaves no dot parts |
| PermissionRepair.Repair.RepairDataPermissions | backend/data_permissions.py:377-420 | exactly the targets get their required modes, the repaired count is the number of inodes whose mode changed, the skipped count is as specified, and every descriptor is closed |
| PermissionRepair.Repair.RepairTree | backend/data_permissions.py:271-322 | the entries of a directory, recursively, with the counts |
| PermissionRepair.Repair.RepairDirectory | backend/data_permissions.py:285-300 | a directory is repaired before its entries, which are visited only if the process owns it |
| PermissionRepair.Repair.RepairFile | backend/data_permissions.py:307-320 | only owned single-link regular files are repaired |
| PermissionRepair.Repair.RepairName | backend/data_permissions.py:325-374 | a name below the root is repaired by its own policy, skipped, or absent |
| PermissionRepair.Repair.RepairOpenFd | backend/data_permissions.py:142-149 | an owned inode gets the expected mode and counts as repaired exactly if it changed |
| PermissionRepair.ReachedIsTarget | backend/data_permissions.py:271-322 | whatever a chain of passable owned directories leads to is repaired to the mode of its kind |
| PermissionRepair.TargetIsReached | backend/data_permissions.py:271-322 | and only that is |
| PermissionRepair.SecondRepairChangesNothing | backend/data_permissions.py:142-149 | a second repair of a directory finds the same targets and changes nothing |
| PermissionRepair.SecondRootRepairChangesNothing | backend/data_permissions.py:377-420 | nor does a second repair of the whole root |
| PermissionRepair.RootFirst | backend/data_permissions.py:387-392 | repairing the root's own mode does not affect what is repaired below it |
| PermissionRepair.TasksAreOrderly | backend/data_permissions.py:24-39 | the managed names differ and every required mode leaves its owner able to read |
| Refinement.CaptureTable.RefineCapture | backend/services/captures.py:606-661 | with any requests in between, a committed refinement comes from one run over the current raw transcript; an answered row is stored and holds this run's output, and an error without a fault means that the row was changed again |
| Refinement.CaptureTable.RetranscribeCapture | backend/services/captures.py:664-711 | a new transcript takes the refined text, its model and flags with it; a row whose audio is missing is reported as such, without a transcription |
| Refinement.CaptureTable.UpdateIfUnchanged | backend/services/captures.py:627-641 | the update counts one row exactly if the transcript is still the refined one, and changes nothing otherwise |
| Refinement.CaptureTable.UpdateTranscript | backend/services/captures.py:685-705 | replaces the transcript of an existing row and nothing else |
| Refinement.CaptureTable.Acknowledge | backend/services/captures.py:301-334 | a row is returned only if, read back, it is what was written |
| Refinement.UnconditionalUpdateIsStale | backend/services/captures.py:629-632 | without the condition on the transcript a stale refinement would be stored |
| RequestLimits.LargeRoutesAreAdmissionControlled | backend/request_limits.py:46-94 | a route's limit exceeds the admission threshold if and only if it is a large upload or an MCP route, never both |
| RequestLimits.DeclaredLengths | backend/request_limits.py:101-121 | every length below ten to the twentieth can be declared, and no larger one is ever accepted |
| RequestAdmission.Admission.Admit | backend/request_limits.py:186-255 | a large request is admitted exactly if its kind has room and two copies fit on disk; the counters are those of the requests in flight and within their limits |
| RequestAdmission.Admission.Release | backend/request_limits.py:265-280 | a release gives back exactly its own ticket, and the underflow error is unreachable |
| RequestAdmission.RunBoundedRequest | backend/request_limits.py:282-326 | whatever the application does and however it ends, it is handed every chunk up to the first that crosses the bound and none after, and messages are passed on only before; only the boundary's own error is suppressed, and any other is raised in the place of the verdict |
| RequestAdmission.HandedIsBounded | backend/request_limits.py:295-311 | at most the smaller of limit and declared length is handed over, and the whole body if it is within |
| RequestAdmission.OversizedIsRejectedOnce | backend/request_limits.py:311-326 | an oversized body is answered by the rejection alone if and only if the application neither ends in an error of its own nor began to answer after events that sent it no more than the bound |
| RequestAdmission.RejectionIsSecondResponse | backend/request_limits.py:311-326 | the rejection is a second response if and only if the application began to answer within the bound and does not end in an error of its own |
| RequestAdmission.AnswersArePassed | backend/request_limits.py:311-326 | an answer of the application gets through exactly in that case |
| RequestAdmission.AnsweringBeforeReading | backend/request_limits.py:311-326 | an application that answers first and then reads too much gets a second response sent, and one that fails of itself on reading too much gets none sent |
| DownloadOwnership.ModelTasks.Start | backend/routes/models.py:68-101 | a download starts exactly if no live task owns the model, and then owns it |
| DownloadOwnership.ModelTasks.Finish | backend/routes/models.py:46-60 | ownership, and the entry of a cancelled download, go only on behalf of the task that still owns them |
| DownloadOwnership.ModelTasks.RunCallback | backend/routes/models.py:91-98 | a late callback changes nothing that belongs to a live task |
| DownloadOwnership.ModelTasks.Report | backend/routes/models.py:649-655 | a download that succeeds takes its own entry off the list and nothing else |
| DownloadOwnership.ModelTasks.End | backend/routes/models.py:91-98 | a task that ends stays registered until its callback runs |
| DownloadOwnership.ModelTasks.BeginCancel | backend/routes/models.py:686-727 | a live task stays owned and listed until it has ended; without one the leftovers are dismissed |
| DownloadOwnership.ModelTasks.FinishCancel | backend/routes/models.py:695-710 | after the wait a task that took over is left alone |
| DownloadOwnership.ModelTasks.ClearMetadata | backend/routes/models.py:122-143 | everything is cleared or nothing, and exactly the live purposes are reported |
| DownloadOwnership.ModelTasks.LiveTasksAreOwned | backend/routes/models.py:127-133 | the registries show all that is live |
| DownloadOwnership.ModelTasks.AtMostOneLive | backend/routes/models.py:77-83 | two live tasks never serve one purpose |
| DownloadOwnership.ModelTasks.StartMigration | backend/routes/models.py:394-408 | at most one migration is live |
| OwnerRecord.RecordRoundTrip | backend/data_root_lock.py:114-120 | the reader of an undisturbed record finds exactly the pid, host and port written if and only if it is at most 1025 bytes long |
| OwnerRecord.LockFile.Acquire | backend/data_root_lock.py:96-120 | an acquisition that no other process disturbs: a new owner's record replaces whatever the file held; a refused one is told the present owner |
| OwnerRecord.LockFile.ReadOwnerDetails | backend/server_discovery.py:10-25 | the fields of the first 1024 bytes, each within its range or missing |
| OwnerRecord.LockFile.Write | backend/data_root_lock.py:117-119 | a write overwrites from the position on and leaves what lies beyond, which is why the file is truncated first |
| OwnerRecord.LongRecordIsMisread | backend/server_discovery.py:14-14 | a longer record never yields its port |
| OwnerRecord.ShortRecordIsRead | backend/server_discovery.py:10-25 | a record that fits, or lost only its final line end, is read whole |
| OwnerRecord.DataRootLock.Release | backend/data_root_lock.py:48-64 | only the first release gives up the lock, and the record stays |
| OwnerRaces.HolderIsOnRecord | backend/data_root_lock.py:96-120 | in every run of any processes, step by step, at most one holds the lock, and from its write on the file holds its record, whole or stamped |
| OwnerRaces.RecordStands | backend/data_root_lock.py:96-120 | as long as the owner stays, the file is its record, stamped exactly if some process has stamped it since |
| OwnerRaces.ToldExactly | backend/data_root_lock.py:109-112 | a refused process is told exactly the owner's pid, host and port if and only if the record fits and nobody has stamped it since it was written |
| OwnerRaces.StampedExactly | backend/data_root_lock.py:96-97 | a record can come to be stamped if and only if some process had found the file empty, and not yet stamped it, when the record was written |
| OwnerRaces.ReadBackExactly | backend/data_root_lock.py:96-120 | a record is read back in every continuation while its owner stays if and only if it fits and no process is about to stamp when it is written |
| OwnerRaces.StampedPidIsLost | backend/data_root_lock.py:96-97 | a stamped record has no pid, however long it is |
| OwnerRaces.AnyOwnerCanLoseItsPid | backend/data_root_lock.py:96-120 | from an empty file any two processes and any owner can come to that |
| OwnerRaces.UndisturbedAcquisition | backend/data_root_lock.py:96-120 | steps with nobody in between do what the undisturbed acquisition does |
| Decimal.ParsePrint | backend/server_discovery.py:19-22 | parsing undoes printing |

## Left out

- Tensor contents, attention, sampling filters and voice conditioning: the window decoder, the row-local network and the conditioning function are parameters.  That a batch of one passes no attention mask is part of the network.
- BatchGeneration.PreparedRowsAreIndependent: the prompts' left padding and the attention mask, as wide as the batch's longest prompt (mlx_qwen_optimizations.py:493-509), are part of a row's initial cache and input; that masked padding does not show in a row's results belongs to the assumption that the network is row-local.
- The cut is computed over the reals: both sides evaluate the same expression, and floating-point rounding is not modelled.
- The digests of cache keys, requests and envelopes are represented by what they are computed from, which is what having no collisions means; the random-key digest is a parameter.
- Bytes of the shim's stream: chunks are character sequences and slices are counted in characters; UTF-8 decoding and the byte-order mark are not modelled.
- The shim's whole-body reader, its stdin reader and its request dispatch.
- Wall-clock time: the guard's polling is a retry step, and a suspended await may be woken after any number of events.
- The other kinds of journal intent (generation versions, generation publication, samples, profile directories) and the malformed journal entries that recovery only reports.
- AudioStore.Store.Attempt: an effect of one request concerns names that no other request works on, because they contain a random identifier; rows with the same path are held by the open write transaction.
- Rows whose stored path lies outside managed storage, which deletion commits without touching a file, and hard links or symbolic links among audio files.
- A process interrupt raised inside the best-effort retirement of an intent, which the code does not catch.
- ExactBatch.MatchingExistingBatch: stored effects and snapshots are values, so a stored text that is not in canonical form is not told from one that is.
- ExactBatchRuns.ExactBatchRoute.Submit: the status codes and texts of the refusals are not modelled, only which requests are refused.
- StoragePaths.StorageRoundTrip: the file system has no symbolic links, and the permission hardening that storing a path performs first is not modelled.
- PermissionRepair.Repair.RepairDataPermissions: a process with all privileges, which opens its own entries whatever their read bits, is not modelled.
- Refinement.CaptureTable.RefineCapture: a run of the language or speech model that raises ends its request before it writes anything.
- Directory creation, the hardening of newly written files, and the fallbacks for systems without descriptor-relative calls.
- RequestAdmission.Admission.Release: a request cancelled while it waits for the admission lock never releases; the invariant speaks of the tickets not yet given back.
- RequestLimits.LargeRoutesAreAdmissionControlled: limits configured per instance are not modelled.
- DownloadOwnership.ModelTasks.BeginCancel: the progress manager's entries go together with the listed downloads and are not a map of their own.
- OwnerRecord.LockFile.Acquire: one step, without other processes in between, which OwnerRaces models; the checks that the lock file is a private regular file, short writes, and the mandatory byte lock of Windows, which lets no one else write or read the first byte, are in neither.
- Effect publication, settings, the story, channel and cloud routes, the engine wrappers other than the MLX backend, the database schema, packaging and the user interface: they would add members of kinds already here.
