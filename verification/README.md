# ClipCascade desktop, in Dafny

This project models the parts of the ClipCascade desktop client that are hard to get right and proves
what they guarantee: the resumable file transfer (sender, channel, receiver and the outgoing archive's
lifetime), the history list and its state machine, the archive and signature encodings of a file
selection, the peer-to-peer fragmenter, the STOMP frame format, the clipboard monitor's echo
suppression over many devices, the replay decisions, and single-flight image writing.

`dafny verify dfyconfig.toml` checks everything.

## How it is built

- Each stateful core has a *specification on values* (a datatype and functions such as
  `Receiver.ChunkStep`), a *class* with the program's fields and loops whose methods are proved equal to
  those functions, and *runs*: sequences of steps in any order, over which the main results are proved.
- `History` / `HistoryManager` / `HistoryRuns`: the list, its transition table, eviction, whole runs.
- `Archive`, `Sender`, `Receiver`, `ReceiverHandlers`, `TransferRuns`, `ChunkFacts`, `TransferFacts`, `LandingFacts`,
  `Resume`: chunks and digests; the sending loop; the receiver's handlers; runs over a channel that loses,
  repeats, reorders and corrupts; what one chunk and one completion do exactly; delivery, outstanding
  requests, and where the code falls short; completeness of resume.
- `FileMessages`: requests and replies by transfer id and session, between many transfers of both sides.
- `Provenance`: sender runs and receiver composed.
- `OutgoingArchive` / `OutgoingRuns`: the shared archive of one outgoing transfer under interleaved request
  handlers, timers and releases.
- `Forest`, `Signature`: ordered trees and the byte stream that is hashed to recognise a selection.
- `FileNames`, `ZipArchive`, `ZipRoundTrip`, `ZipExtract`: sanitising, archive entries, extraction, the
  round trip, and the 64-bit accounting of the extraction loops.
- `Utf8`, `P2P`, `P2PRuns`: what JSON does to byte strings, fragmenting, reassembly, packet streams.
- `Monitor` / `EchoRuns`: one device's suppression counter; any number of devices.
- `Replay` / `ReplayRuns`: how items enter the history and what a replay hotkey may do with them.
- `ImageJobs` / `ImageRuns`: one writer per image item.
- `Stomp`: printing and parsing frames.

## Reading conventions

- A byte string is a Dafny `string` whose characters stand for bytes; in `Stomp` characters are code
  points. SHA-256 is injective (`Digest` remembers its input). Encryption accepts a box bound to this
  transfer id and chunk index and rejects anything else. Time is a number of nanoseconds.
- In `OutgoingRuns` and `ImageRuns` each critical section is its own step and threads interleave between
  them. Elsewhere a handler is one step, also where it takes the lock several times (`handleFileComplete`,
  `requestFileTransfer`, `RegisterOutgoing`, `Paste`); what that leaves unmodelled is under "Left out".
- Nothing is assumed of the messages in a run: a chunk may hold anything. What is assumed of the
  program's own calls in `TransferRuns` and `TransferFacts` is spelled out in the predicates `Lawful` and
  `Proper` there.
- `EchoRuns` lets a user copy cause any number of change events and counts them; a program write causes at
  most as many as it armed suppressions, and they arrive within five seconds (`Enabled`).
- A chunk, completion or error of one transfer carries its addresses only in `FileMessages`; elsewhere
  it has reached its transfer.
- File operations are all or nothing, except where the program itself leaves a partial file behind (a
  failed build of an outgoing archive). Temporary files and target files are two disjoint maps. Only the
  application deletes its temporary files. A new temporary directory has a name not in use.
- What the platform decides (does this write succeed, does this digest succeed, which path does
  normalising give) is a parameter of the step, so every theorem holds for every such outcome.
- The clipboard hash is an arbitrary function: no result relies on it being free of collisions.

## What the code does where one would expect something else

The code is modelled as it is. Each of these is proved, with the exact condition where there is one.

- A `file_request` that cannot be sent tries to put the item's state back; the transition table refuses
  that from Offered and Consumed, which stay Downloading (`RollbackWorksIff`).
- A chunk 0 that restarts a transfer and is then not stored resets only the transfer record, so history
  stays ahead of it (`ProgressAgreesIff`). From there requests ask for a chunk the receiver cannot take,
  and no request, error, higher chunk or completion recovers (`FailedRestartStalls`, `StalledForGood`) -
  except a completion that names the old payload file, which a failed restart in disk mode leaves in
  place (`LeftoverEndsStallIff`).
- `Completed` is set even when history refuses ReadyToPaste, and is never cleared
  (`ClosingReachesHistoryIff`, `LateCompletionIsDead`, `DeadForGood`).
- A completion that fails while the item is evicted leaves `Completing` set, and every later completion is
  ignored (`FailedWithoutItemBlocks`, `RunsEndCompleting`).
- The sender keeps a resume index whenever *some* archive is there, not the one the index is for
  (`OtherArchiveIsStreamedFromK`). So a resume at chunk k > 0 passes its check exactly when the sender built
  its archive anew for this request, or the archive it held agrees with the stored one up to chunk k and
  either no chunk is left to send or the archive mode is still the same (`ResumeChecksIff`,
  `ResumeIsCompleteIff`).
- The cleanup timer does not look at `sendingTargets`: it can empty the archive under another target's
  send, whose completion then names nothing, or whatever was built since (`CompletionNamesIff`,
  `AnotherTargetsTimerCutsASend`).
- A build in memory clears `BaseDir` without removing the directory: one that a failed build on disk left
  behind is never removed (`DirectoriesAreAccounted`, `ADirectoryIsForgotten`).
- An empty raw file archived in memory can never be sent: with no bytes in memory the reader opens the
  empty path (`PreparedStreamsIff`, `EmptyFileInMemoryCannotBeSent`).
- `sanitizeFileName` strips leading dots, spaces and trailing ones, so such names do not survive the
  archive (`RoundTripIffNamesFixed`, `DotFileIsNotRebuilt`).
- Peer-to-peer fragments are cut at byte positions but travel as JSON strings; a text survives exactly
  when every cut falls on a code point boundary (`ExactIffCutsOnBoundaries`). `Send` counts a peer that took
  at least one fragment, not one that took all (`P2P.Client.Send`).
- A user copy may use up a suppression meant for a program write and let one echo through; the number of
  broadcasts still never exceeds the number of user copies (`NoBroadcastLoop`, `UserCopyLetsAnEchoThrough`).
- `canReplayHistoryItem` accepts a reserved path, the replay itself wants a local path; the two agree only
  because no reachable ready file lacks a local path (`OfferedIffNotRefused`, `ReservedPathIsNotEnough`).

## Model

| member | source | states |
|---|---|---|
| HistoryManager.Manager.AddItem | desktop/history/history.go:122-173 | the in-place insertion and eviction change the list and the active id exactly as drop-old, insert-by-age, evict-from-the-old-end; an item in an invalid initial state changes nothing |
| HistoryManager.Manager.EvictOverflow | desktop/history/history.go:412-441 | the nested backward loops remove exactly the last min(overflow, evictable) Consumed or Failed items, keep the order of the rest, and clear the active id exactly when its item went |
| HistoryManager.Manager.FindInsertIndex | desktop/history/history.go:402-410 | the first position with a strictly older item |
| HistoryManager.Manager.RemoveIndex | desktop/history/history.go:459-463 | shifting the tail left removes that one item |
| HistoryManager.Manager.LastEvictableIndex | desktop/history/history.go:415-424 | the evictable item nearest to the old end, or -1 exactly when there is none |
| HistoryManager.Manager.UpdateState | desktop/history/history.go:255-301 | reports success exactly for a present id, a known state and an edge of the table; then changes that item's state and time only, otherwise nothing |
| HistoryManager.Manager.Mutate | desktop/history/history.go:303-339 | a rejected edit leaves the list unchanged; an accepted one replaces that item and stamps it |
| HistoryManager.Manager.MutateByTransferID | desktop/history/history.go:341-359 | the same for the first item with this transfer id |
| HistoryManager.Manager.SetActive | desktop/history/history.go:195-222 | the active id moves exactly to ids in the list |
| HistoryManager.Manager.GetActive | desktop/history/history.go:176-191 | the item with the active id if there is one, else the first item |
| History.EvictionCount | desktop/history/history.go:412-441 | evicting n removes n items or all evictable ones, whichever is less |
| History.EvictionKeepsOrder | desktop/history/history.go:412-441 | what survives is the old list read at increasing positions, every non-evictable item among them |
| History.EvictedAreEvictable | desktop/history/history.go:412-441 | every evicted item was Consumed or Failed, and every item is kept or evicted |
| History.OldestAreEvicted | desktop/history/history.go:412-441 | eviction starts at the old end: with a spent item every spent item behind it goes too |
| History.AddKeepsListSound | desktop/history/history.go:122-173 | adding keeps ids unique, the list newest first, and the active id empty or present |
| History.AddMembership | desktop/history/history.go:122-173 | after adding the list holds only old items and the newcomer; an old item that left was evictable or had the newcomer's id |
| History.TakenUpIff | desktop/history/history.go:122-173 | an item is taken up exactly as a ready text or image or an offered or failed file, with missing id and times filled in and all else kept |
| History.AllEvictedWhenShort | desktop/history/history.go:412-441 | if fewer items are evictable than overflow, none evictable is left |
| HistoryRuns.RunsAreSound | desktop/history/history.go:34-67 | main result: in every run of adds, state updates, edits and activations, accepted or rejected, ids stay unique, order and active id stay sound, and a file item is never beyond Offered or Failed unless it was Downloading earlier |
| HistoryRuns.WasDownloadingIsReal | desktop/history/history.go:255-339 | "was Downloading" means that some earlier list of the run held the id in that state |
| HistoryRuns.OnlySpentItemsDisappear | desktop/history/history.go:412-441 | an item leaves the list only in an add, and only if it was Consumed or Failed or was replaced by a Failed newcomer of its own id |
| HistoryRuns.MovesAlongTheTable | desktop/history/history.go:34-67 | no call takes a listed item to a state that cannot follow the one before, unless the item is added anew; the table read by what a state can come from |
| HistoryRuns.SetsStateIff | desktop/history/history.go:255-301 | setting a state succeeds exactly for a listed id whose state it can come from |
| Archive.ChunkGeometry | desktop/app/file_transfer.go:1078-1087 | chunk k exists exactly when its offset is inside the archive; the bytes before chunk k+1 are those before k plus chunk k; before chunk count they are everything |
| Archive.OpensWhereItBelongs | desktop/app/file_transfer.go:1272-1292 | an encrypted chunk opens only in its own transfer, at its own index, where encryption is on |
| Sender.ReadFull | desktop/app/file_transfer.go:1101-1108 | a full buffer, the last partial one, or the end of input |
| Sender.SendArchiveChunks | desktop/app/file_transfer.go:1094-1148 | what goes out is the start of the numbered chunk sequence from the resume index, all of it exactly when the call succeeds |
| Sender.SendsTheRest | desktop/app/file_transfer.go:1094-1173 | from resume index k the sender emits exactly chunk messages k to the last |
| ReceiverHandlers.Application.HandleFileChunk | desktop/app/file_transfer.go:1216-1337 | the handler, with every failure midway, does to record, files and history item exactly what `ChunkStep` says |
| ReceiverHandlers.Application.AcceptChunk | desktop/app/file_transfer.go:1246-1336 | repeat, mode change, gap, bad data and next chunk are told apart in the program's order, with the restart from chunk 0 |
| ReceiverHandlers.Application.Store | desktop/app/file_transfer.go:1292-1324 | a chunk goes to memory while the threshold allows, else memory is spilled and the chunk appended to the file; a failed write leaves the index alone |
| ReceiverHandlers.Application.PrepareStorage | desktop/app/file_transfer.go:1226-1245 | the first chunk decides directory, archive mode and storage mode |
| ReceiverHandlers.Application.Restart | desktop/app/file_transfer.go:1257-1268 | a chunk 0 forgets what was stored |
| ReceiverHandlers.Application.HandleFileComplete | desktop/app/file_transfer.go:1346-1468 | the handler, through all branches and failures, does exactly what `CompleteStep` says |
| ReceiverHandlers.Application.IncomingArchiveCopy | desktop/app/file_transfer.go:1533-1546 | memory first, then nothing for an empty raw payload, then the file |
| ReceiverHandlers.Application.TryReuse | desktop/app/file_transfer.go:1470-1508 | the reserved file is reused exactly when it has the archive's length and digest |
| ReceiverHandlers.Application.Deliver | desktop/app/file_transfer.go:1398-1423 | reuse or materialise, and which paths result |
| ReceiverHandlers.Application.WriteRaw | desktop/app/file_transfer.go:1584-1606 | memory is written, a spilled file moved, an empty payload created, at the first reserved path |
| ReceiverHandlers.Application.CloseTransfer | desktop/app/file_transfer.go:1424-1467 | the transfer closes whatever history answers; the pending replay only when history accepted |
| ReceiverHandlers.Application.CompletePendingReplayMode | desktop/app/replay_targets.go:161-232 | a pasted path and staged real content consume the item, immediate replay only clears the wish, failed staging keeps both |
| ReceiverHandlers.Application.RequestFileTransfer | desktop/app/file_transfer.go:701-776 | for any copy of the item, also one the list has since changed or lost: which request is handed to the transport and what is left in record and item when it is refused or fails |
| ReceiverHandlers.Application.FailIncomingTransfer | desktop/app/file_transfer.go:2097-2116 | the request flags are cleared only when history could record the failure |
| TransferRuns.StoredBytesAreThePrefix | desktop/app/file_transfer.go:1216-1337 | main result: if every chunk since the last restart is one of the archive being sent, or noise - earlier chunks may be of anything - and chunk k was the last accepted, the kept copy is exactly the archive's bytes before chunk k+1 and is what the completion check digests |
| TransferRuns.RunsAreSafe | desktop/app/file_transfer.go:1216-1468 | the invariant behind it holds in every run of chunks of any content, with restarts, failing handlers, completions, errors, requests, edits and eviction |
| TransferRuns.StoredBytesAreWhatWasAccepted | desktop/app/file_transfer.go:1216-1337 | main result: in every run, whatever chunks came, the copy that StorageMode names is exactly the bodies accepted since the last restart, one for each index; memory stays within the threshold; the completion check digests that same copy |
| TransferRuns.AcceptedBodiesArrived | desktop/app/file_transfer.go:1246-1336 | each accepted body came, digest-checked, in a chunk message of its own index after the last restart |
| TransferRuns.RepeatsAreInvisible | desktop/app/file_transfer.go:1221-1253 | main result: in every run, taking out every repeat of an accepted chunk - chunk 0 unless the run so far ends with a resume request no chunk answered yet - and everything after Completed gives the same record, files and history item |
| TransferRuns.FlagIsResumePending | desktop/app/file_transfer.go:701-722 | in every run the resume index of an open record is set exactly from a request for a chunk above 0 to the next stored chunk |
| TransferRuns.StoredChunkEndsResume | desktop/app/file_transfer.go:1246-1319 | once any chunk has been stored, a repeat of chunk 0 changes nothing, whatever was pending before |
| ChunkFacts.StoredIff | desktop/app/file_transfer.go:1216-1318 | a chunk is stored exactly when it is the next one, or chunk 0 of a pending resume, keeps the mode, is genuine, and every write its place needs succeeds |
| ChunkFacts.StoredChunk | desktop/app/file_transfer.go:1226-1336 | main result: where every byte of a stored chunk is afterwards - memory up to the threshold, else the named payload file - and what record and item say |
| ChunkFacts.OtherChunk | desktop/app/file_transfer.go:1222-1336 | main result: any other chunk is a repeat and leaves files, item and progress alone, or fails the transfer; only a chunk 0 forgets what was stored |
| TransferFacts.RawSuccessDeliversTheArchive | desktop/app/file_transfer.go:1346-1440 | main result: a raw transfer that closes has left exactly the bytes the accepted file_complete names at the reserved path, through every branch and whatever the chunks came from, and changed no other target |
| TransferFacts.RequestIff | desktop/app/file_transfer.go:701-776 | a request goes out exactly when none is outstanding and the listed item can become Downloading or the copy already is; what it carries; a copy that is not listed changes no item |
| TransferFacts.ZipPathsAreThere | desktop/app/file_transfer.go:1607-1682 | the paths history is told for a packed payload are what unpacking and moving left there: all of a bundle, the one folder, the one file |
| LandingFacts.ClosesIff | desktop/app/file_transfer.go:1346-1440 | main result: a completion closes its transfer exactly when none is at work, the kept copy can be read and is what the message names, the item has or gets paths inside the root, and the payload is already there or can be written, moved or unpacked |
| LandingFacts.OtherCompletion | desktop/app/file_transfer.go:1346-1423 | a completion that does not close the transfer fails it, or finds another one at work; the kept copy and the progress stay, and no target but the first planned one changes |
| TransferFacts.OneOutstandingRequest | desktop/app/file_transfer.go:701-776 | main result: requests handed to the transport exceed the failed sends, recorded failures and completions that end one by at most one, and by one exactly while RequestActive is set |
| TransferFacts.StepAndRequest | desktop/app/file_transfer.go:2097-2116 | each of these causes clears the flag, nothing else does, only a request that the transport took sets it, and none is handed over while it is set |
| TransferFacts.OutstandingMeansDownloading | desktop/app/file_transfer.go:2097-2116 | main result: in every run of the program an outstanding request has a listed item in Downloading, which the list never evicts, so every reported failure ends the request |
| TransferFacts.RunStatesFit | desktop/history/history.go:34-67 | in every run of the program the item of an open transfer is Offered, Downloading or Failed |
| TransferFacts.RunsEndCompleting | desktop/app/file_transfer.go:1350-1365 | no run of the program whose completions find the item listed leaves Completing set |
| TransferFacts.FailedWithoutItemBlocks | desktop/app/file_transfer.go:2102-2116 | a completion that fails its check while the item is gone makes every later one a no-op |
| TransferFacts.RollbackWorksIff | desktop/app/file_transfer.go:767-772 | after a failed send the item is back in its state exactly if it was Failed or Downloading; any other stays Downloading |
| TransferFacts.ProgressAgreesIff | desktop/app/file_transfer.go:1257-1262 | at any point of any run, history and an open record that agree on the last index agree after the next chunk exactly unless it starts over and is not stored |
| TransferFacts.FailedRestartStalls | desktop/app/file_transfer.go:1257-1262 | a run from the start into that state, in both archive modes, and what is left of the old payload |
| TransferFacts.StalledForGood | desktop/app/file_transfer.go:709-712 | from there no sequence of requests, errors, chunks above 0 and completions that do not name the leftover payload recovers |
| TransferFacts.CompletionLeavesStallIff | desktop/app/file_transfer.go:1346-1440 | a completion leaves the stall exactly if it closes the transfer, and then it names the leftover payload |
| TransferFacts.LeftoverEndsStallIff | desktop/app/file_transfer.go:1346-1440 | when the files can be written, a raw stalled transfer is closed exactly by a completion that names the leftover |
| TransferFacts.StalledAsksPastZero | desktop/app/file_transfer.go:709-712 | the next request of a stalled transfer asks for a chunk above 0 |
| TransferFacts.ChunkZeroEndsStallIff | desktop/app/file_transfer.go:1246-1268 | a chunk 0 brings record and history together again exactly when it is stored, and then ends the stall |
| TransferFacts.ClosingReachesHistoryIff | desktop/app/file_transfer.go:1424-1440 | a closing transfer makes its item ready exactly when the table allows ReadyToPaste from its state |
| TransferFacts.LateCompletionIsDead | desktop/app/file_transfer.go:1424-1440 | a run from the start into that state: chunks, an error, then the completion |
| TransferFacts.DeadForGood | desktop/app/file_transfer.go:1222-1225 | a closed transfer whose item was refused stays so through everything the program does while the item is listed |
| Resume.ResumeChecksIff | desktop/app/file_transfer.go:808-850 | main result: from any stored bytes and any state of the sender, one undisturbed request, send and delivery passes the completion check exactly if the sender built the archive for it, or nothing was stored, or the stored bytes are the start of the archive it held up to chunk k and the mode is kept (or it is all there already) |
| Resume.ResumeIsCompleteIff | desktop/app/file_transfer.go:1094-1173 | for chunks of one archive: a rebuilt archive always passes; a held one exactly if the two archives agree up to chunk k and the mode is kept or no chunk is left |
| Resume.UndisturbedTransferArrives | desktop/app/file_transfer.go:1346-1440 | main result, end to end: request, sender loop, delivery and completion of a raw transfer leave exactly the sender's archive at the reserved path, no other target changed, and the item Consumed exactly if a path was pasted ahead or its real content could be staged, else ready to paste |
| FileMessages.TransferManager.HandleFileRequest | desktop/app/file_transfer.go:778-859 | a request is served from the transfer it names and by that one only; an unknown one, or a target already served, gets nothing; all that goes out is addressed to the requester |
| FileMessages.AnsweredIff | desktop/app/file_transfer.go:778-859 | nothing is said about an unknown transfer or to a target already served; otherwise the chunks and the reply of this one transfer, addressed to the requester |
| FileMessages.LettersStayApart | desktop/app/file_transfer.go:635-699 | a letter changes only the transfer it names, and only if it is for this session |
| FileMessages.ChunksReachTheirTransfer | desktop/app/file_transfer.go:635-699 | chunks addressed to this session run through their own transfer and touch no other |
| FileMessages.RequestedTransferArrives | desktop/app/file_transfer.go:736-741 | main result, over the addresses: the request a hotkey hands over, served from the sender's table and delivered back by address, leaves the announced archive at the reserved path and touches no other transfer of either side |
| Resume.SendStoresTheRest | desktop/app/file_transfer.go:1094-1173 | a send from chunk k onto any stored bytes leaves these followed by the rest of the archive |
| Resume.EmptySendChecksIff | desktop/app/file_transfer.go:1533-1546 | an empty archive, sent as no chunks at all, passes exactly when nothing was stored and there is no payload file of a raw transfer, or an empty one |
| Resume.FailedTransfersAreResumable | desktop/app/file_transfer.go:1216-1337 | every open transfer of a run of the program whose item is Failed and agrees with it meets the hypotheses above, if every completion found the item listed |
| Resume.ChunkIsAccepted | desktop/app/file_transfer.go:1246-1336 | one delivered next chunk appends its body to the stored bytes and moves record and item on by exactly one |
| Resume.ResumeWorksIffModeKept | desktop/app/file_transfer.go:1254-1256 | with the very same archive still there, a resume from the middle passes the check exactly when the archive mode is the one it was started in |
| Resume.OtherModeIsRefused | desktop/app/file_transfer.go:1254-1256 | in another mode every further chunk leaves the stored bytes alone |
| OutgoingArchive.OutgoingTransfer.Prepare | desktop/app/file_transfer.go:875-901 | reuse, memory build, fall back to disk, and every failure midway |
| OutgoingArchive.OutgoingTransfer.PrepareInMemory | desktop/app/file_transfer.go:913-962 | all fields are set together or none |
| OutgoingArchive.OutgoingTransfer.PrepareOnDisk | desktop/app/file_transfer.go:964-1013 | a failure may leave a directory and a partial file but no archive path, hash, size or count |
| OutgoingArchive.OutgoingTransfer.HasReusableArchive | desktop/app/file_transfer.go:861-873 | true exactly when a reader could be opened |
| OutgoingArchive.OutgoingTransfer.ScheduleCleanup | desktop/app/file_transfer.go:541-551 | a new generation, remembered by the new timer |
| OutgoingArchive.OutgoingTransfer.FireCleanup | desktop/app/file_transfer.go:552-573 | clears everything exactly when the generation is still the timer's |
| OutgoingArchive.OutgoingTransfer.Release | desktop/app/file_transfer.go:578-605 | nothing while a target is sending, else everything is cleared under a new generation |
| OutgoingArchive.OutgoingTransfer.OpenReader | desktop/app/file_transfer.go:1150-1173 | bytes in memory, else the file, else failure |
| OutgoingArchive.OutgoingTransfer.HandleFileRequest | desktop/app/file_transfer.go:778-859 | undisturbed, one request sends the chunks of one archive, from the resume index only if that archive was already there, then a completion naming it; a target already being served gets nothing |
| OutgoingArchive.PreparedDescribes | desktop/app/file_transfer.go:875-1013 | any preparation keeps hash, size and chunk count describing the archive held, reuses what is held, and on failure leaves all of them as they were |
| OutgoingArchive.PreparedIff | desktop/app/file_transfer.go:875-1013 | a preparation succeeds exactly when an archive is held, or fits in memory with a peer ready, or a directory can be had and every disk step works; which of the three decides mode, bytes and paths, and no other directory is touched |
| OutgoingArchive.PreparedStreamsIff | desktop/app/file_transfer.go:1150-1159 | a prepared archive can be streamed exactly unless it is an empty one in memory |
| OutgoingArchive.ReplyIff | desktop/app/file_transfer.go:778-859 | main result for one undisturbed request: exactly when it is answered by which error, by nothing, or by a completion, and which chunks went out before |
| OutgoingRuns.RunsAreSound | desktop/app/file_transfer.go:541-605 | main result: in every interleaving hash, size and count describe the archive held or are all cleared, at most one send runs per target, the claimed targets are exactly those of the running handlers, the directory in use exists and is not about to be removed |
| OutgoingRuns.DirectoriesAreAccounted | desktop/app/file_transfer.go:541-605 | main result: in every interleaving the temporary directories that exist are exactly the one in use, those about to be removed, and those that a build in memory forgot |
| OutgoingRuns.ADirectoryIsForgotten | desktop/app/file_transfer.go:913-962 | a run in which that happens: a build on disk fails, and the next one fits in memory |
| OutgoingRuns.ExchangeIsARun | desktop/app/file_transfer.go:778-859 | an undisturbed request is the run of its own steps: same archive, same announced message, and a timer armed exactly when a completion went out |
| OutgoingRuns.ReleaseClearsIff | desktop/app/file_transfer.go:578-587 | a release clears the archive exactly when no handler is between its claim and its end |
| OutgoingRuns.TimerClearsIff | desktop/app/file_transfer.go:541-573 | main result: a timer clears the archive exactly when no preparation, effective release or newer timer happened since it was armed |
| OutgoingRuns.CompletionNamesIff | desktop/app/file_transfer.go:836-850 | main result: in every interleaving a handler's completion names the bytes it streamed exactly when the last step that cleared or built the archive meanwhile, if any, built those very bytes; after a clear it names nothing |
| OutgoingRuns.AnotherTargetsTimerCutsASend | desktop/app/file_transfer.go:552-573 | whenever another handler has announced its completion, its timer can empty this one's |
| OutgoingRuns.SuchASendExists | desktop/app/file_transfer.go:778-859 | two targets asking for any nonempty archive reach that situation |
| OutgoingRuns.OtherArchiveIsStreamedFromK | desktop/app/file_transfer.go:808-821 | a run in which a target resumes at chunk k and is streamed another archive, built for another target in between |
| OutgoingRuns.EmptyFileInMemoryCannotBeSent | desktop/app/file_transfer.go:1150-1162 | a run in which an empty file is prepared in memory and then cannot be opened |
| Provenance.ClosedTransferIsABuiltArchive | desktop/app/file_transfer.go:836-850 | main result: after any run of the sender and in any state of a receiver, a raw transfer that closes on an announced completion leaves at its target an archive the sender built in that run, and changes no other target |
| Provenance.BuiltInIsReal | desktop/app/file_transfer.go:875-1013 | "built in that run" means that some preparation of the run built it |
| Signature.HashWriter.Append | desktop/app/file_transfer.go:346-386 | the recursive walk writes exactly the specified byte stream, and fails exactly on a tree with links |
| Signature.TransferManager.SourcePathsSignature | desktop/app/file_transfer.go:327-344 | the digest of the concatenated streams, or nothing |
| Signature.TransferManager.RegisterOutgoing | desktop/app/file_transfer.go:392-427 | the id already holding the signature, or a fresh one |
| Signature.SignatureIsExact | desktop/app/file_transfer.go:327-386 | main result: two selections have the same signature exactly when they are the same ordered forest of names and contents, same-named top-level directories included |
| Signature.SameIDIffSameForest | desktop/app/file_transfer.go:396-411 | main result: in every run of registrations, one after another, a selection gets an id exactly if it is not empty and free of links, and two share one exactly when they are equal |
| FileNames.SanitizeFileName | desktop/app/file_transfer.go:1927-1943 | the loops compute the specified cleaning |
| FileNames.SanitizedIsSafe | desktop/app/file_transfer.go:1927-1943 | every result is a component of 1 to 255 bytes without NUL, separator or other replaced character, and starts with neither space nor dot |
| FileNames.FixedNames | desktop/app/file_transfer.go:1927-1943 | a name is left alone exactly when it is such a component and does not end in a space or dot |
| FileNames.SanitizedSafeIsFixed | desktop/app/file_transfer.go:1927-1943 | sanitising a safe name twice is sanitising it once |
| ZipArchive.ZipWriter.AddPath | desktop/app/file_transfer.go:1015-1062 | the walk appends exactly the specified entries, directory entries first, and fails exactly on a tree with links |
| ZipArchive.ExtractionStaysInside | desktop/app/file_transfer.go:1844-1953 | an archive that unpacks, whatever it is, leaves only paths with safe components below the target |
| ZipArchive.UnpacksIff | desktop/app/file_transfer.go:1862-1905 | one entry unpacks exactly when its name has a place, it is no link, nothing of the other kind is in its way, and its bytes are as many as it says |
| ZipArchive.NoWayOut | desktop/app/file_transfer.go:2008-2015 | a name with a parent step, wherever it stands and whichever separator writes it, has no place |
| ZipArchive.UnpackedAsListed | desktop/app/file_transfer.go:1844-1953 | main result: an archive that unpacks holds no link and no refused name; each directory is there, each path holds what its last file entry held, and nothing else changed |
| ZipArchive.MkdirIff | desktop/app/file_transfer.go:1862-1892 | the folders of an entry are made exactly when no file is in the way, and nothing else changes |
| ZipArchive.WrittenIsAdvertised | desktop/app/file_transfer.go:1893-1911 | a successful extraction writes exactly the advertised total |
| ZipRoundTrip.RoundTripIffNamesFixed | desktop/app/file_transfer.go:1015-1062 | main result: for a forest without links or same-named siblings, archiving and extracting rebuilds exactly it, empty directories included, if and only if sanitising leaves every name alone |
| ZipRoundTrip.TopNamesOfForest | desktop/app/file_transfer.go:1912-1923 | the returned top-level names are exactly the names of the selection |
| ZipRoundTrip.DotFileIsNotRebuilt | desktop/app/file_transfer.go:1932 | a file with a leading dot does not come back under its name |
| ZipExtract.CopyReaderWithLimit | desktop/app/file_transfer.go:2055-2080 | never more than the limit; what is written is the start of the content; success exactly when all of it was written within limit and room; no 64-bit subtraction underflows |
| ZipExtract.AdvertisedBytes | desktop/app/file_transfer.go:2017-2032 | the exact sum of the advertised sizes, refused exactly when it passes 64 bits |
| ZipExtract.ExtractTarget.ExtractZipReaderSafely | desktop/app/file_transfer.go:1844-1924 | the loop succeeds exactly when the specification does and space suffices; then bytes written equal the advertised total, so the running guards never fire, and the tops come back sorted; also when it refuses midway, whatever it has written is below the target under safe names |
| ZipExtract.ExtractTarget.UnpackEntry | desktop/app/file_transfer.go:1862-1911 | one entry: links and names that sanitise away are refused, a file gets its advertised size or the call fails, and either way only safe names below the target are written |
| ZipExtract.ExtractTarget.SortNames | desktop/app/file_transfer.go:1917-1922 | the set of names as one sorted list |
| Utf8.JsonExactIffValid | desktop/transport/p2p_client.go:125-131 | a byte string survives JSON exactly when it is valid UTF-8, and otherwise grows |
| Utf8.ValidIffEncoding | desktop/transport/p2p_client.go:125-131 | main result: the byte strings called valid are exactly the encodings of Unicode values by section 3 of RFC 3629 |
| P2P.Client.Send | desktop/transport/p2p_client.go:94-147 | every meant open peer gets, in order, the fragments it did not refuse; the count is the number of peers that took at least one |
| P2P.Client.UnrefusedGetsAll | desktop/transport/p2p_client.go:94-147 | a meant open peer that refuses nothing gets all fragments, in order |
| P2P.Client.OnMessage | desktop/transport/p2p_client.go:481-534 | the handler changes the table and delivers exactly as specified, through malformed, single, first, repeated and last fragments |
| P2P.PanicsIff | desktop/transport/p2p_client.go:505-520 | the handler fails exactly on a fragment whose index has no slot; messages of other ids keep their slots |
| P2P.PiecesJoin | desktop/transport/p2p_client.go:100-123 | the pieces cut out join to the message |
| P2P.ExactIffCutsOnBoundaries | desktop/transport/p2p_client.go:119-131 | main result: a valid text is rejoined exactly when every cut falls on a code point boundary |
| P2P.AsciiIsExact | desktop/transport/p2p_client.go:119-131 | every ASCII message is rejoined exactly |
| P2PRuns.NeverMoreThanArrived | desktop/transport/p2p_client.go:481-534 | main result: under any order and repetition every delivery is a whole message, and none is delivered more often than its least repeated fragment arrived |
| P2PRuns.RepeatFreeDeliversOnce | desktop/transport/p2p_client.go:481-534 | main result: a repeat-free stream delivers each message exactly once, when its last missing fragment arrives |
| P2PRuns.DeliversWhenLast | desktop/transport/p2p_client.go:513-533 | an arriving fragment delivers exactly when every other fragment of its message already waits |
| P2PRuns.DeliveredAsSent | desktop/transport/p2p_client.go:94-147 | main result: for any order and interleaving of the fragments that `Send` leaves at peers, of many texts cut on boundaries, every delivered body is the text sent under that id |
| P2PRuns.SentOnceDeliveredOnce | desktop/transport/p2p_client.go:94-147 | main result: the fragments `Send` leaves at a peer that refuses none, put through the handler in any order and among other messages, deliver exactly that text, once |
| Monitor.Manager.HandleChange | desktop/clipboard/monitor.go:392-431 | a suppressed or unchanged capture is swallowed, any other emitted; the counter and hash move accordingly |
| Monitor.Manager.Paste | desktop/clipboard/monitor.go:434-520 | per payload type which suppressions are armed; a failing call restores hash, counter and time |
| Monitor.Manager.StageText | desktop/clipboard/monitor.go:522-534 | one suppression, and two more when the native writer took the text |
| Monitor.Manager.StageImageFile | desktop/clipboard/monitor.go:536-555 | three suppressions, or the state restored |
| Monitor.Manager.StageFilePaths | desktop/clipboard/monitor.go:558-581 | three suppressions, or the state restored |
| Monitor.WritesArm | desktop/clipboard/monitor.go:583-622 | every write that reached the clipboard armed at least one suppression stamped now; every failing call left no trace |
| Monitor.WriteArmsExactly | desktop/clipboard/monitor.go:434-622 | each kind of write reaches the clipboard, fails, or arms one or three suppressions exactly in these cases |
| Monitor.EmittedIff | desktop/clipboard/monitor.go:392-431 | a capture is emitted exactly when it differs from the last one seen and no suppression of the last five seconds is left |
| Monitor.WriteSwallowsExactly | desktop/clipboard/monitor.go:392-622 | a write to a quiet monitor swallows as many captures as it armed, of any content, not one more, and none after five seconds |
| EchoRuns.Application.IsDuplicateReceipt | desktop/app/application.go:573-583 | over all receipts so far: drops a message exactly when the last one let through was the same and less than half a second before |
| EchoRuns.Application.ShouldSuppressDuplicateMonitorCapture | desktop/app/application.go:709-724 | over all captures so far: drops a capture exactly when the last one let through was the same and less than ten seconds before |
| EchoRuns.Application.ShouldSuppressReplayCapture | desktop/app/send_current.go:90-109 | over all writes and captures so far: drops a capture exactly when it matches the last replay write, that write is at most five seconds old, and no capture matched it before |
| EchoRuns.DroppedIffTwin | desktop/app/application.go:573-583 | an attempt is dropped exactly when a twin passed less than a window before and nothing passed since |
| EchoRuns.TwinsAreApart | desktop/app/application.go:709-724 | of one key alone, what passes is at least a window apart |
| EchoRuns.TwiceReceivedWrittenOnce | desktop/app/application.go:568-583 | in every run, the same message arriving twice at a device within half a second, over both channels say, with no other message of any type in between, is written at most once |
| EchoRuns.NoBroadcastLoop | desktop/clipboard/monitor.go:392-477 | main result: among any number of devices, in every run in which a program write causes at most as many change events as it armed suppressions and they arrive within five seconds, broadcasts never exceed the change events users caused, pending ones included, and so never the user copies if each causes at most one event |
| EchoRuns.EventPays | desktop/clipboard/monitor.go:392-431 | a change event never raises a device's potential and lowers it when emitted |
| EchoRuns.WriteIsCovered | desktop/clipboard/monitor.go:583-622 | a program write never raises the potential |
| EchoRuns.UserCopyLetsAnEchoThrough | desktop/clipboard/monitor.go:392-431 | a run in which a user copy uses up a suppression and the second broadcast is an echo |
| EchoRuns.CopiesGetThrough | desktop/clipboard/monitor.go:392-431 | main result, the other half: in every run the differing captures a device swallows are at most the suppressions its writes armed, and one more than five seconds after the latest of these writes is always emitted |
| EchoRuns.BroadcastIff | desktop/app/application.go:690-708 | a capture is broadcast exactly when the monitor emits it, it is no recent twin, no recognised replay write, and the transport takes it |
| EchoRuns.WrittenIff | desktop/app/application.go:568-630 | a received message is written exactly when it is a text or readable image of another session or of none, no echo and no recent twin |
| Replay.Application.AdmitReceivedClipboardData | desktop/app/receive_history.go:91-150 | ignored, reused as echo, recognised by transfer id, or added; and which ids become shared |
| ReplayRuns.ReceivedIsShared | desktop/app/receive_history.go:14-200 | main result: a received text, image or file stub always ends as the shared and active item - the one it echoes, the file already known by its transfer id, or a new item of its type, content and initial state; anything else changes nothing |
| ReplayRuns.EchoMeaning | desktop/app/receive_history.go:152-200 | what is taken for an echo: the same content, in a message this session sent itself or within two seconds of an item of this session |
| ReplayRuns.OwnMessageIsNotListedTwice | desktop/app/receive_history.go:99-101 | a text or image this session recorded and hears back is reused, and the list stays as it is |
| Replay.Application.FindEcho | desktop/app/receive_history.go:152-200 | the first matching item of the local echo, if any |
| Replay.Application.ReplayItem | desktop/app/replay_history.go:250-348 | what an immediate replay leaves in the history and whether it was carried out |
| ReplayRuns.ReplayConsumes | desktop/app/replay_history.go:250-348 | in a sound list a replay is carried out exactly for an item with something to paste, and leaves it Consumed; no other item changes |
| ReplayRuns.RunsStaySound | desktop/app/replay_history.go:81-109 | main result: in every reachable state a file item in ReadyToPaste or Consumed has a local path and no two items share a non-empty transfer id |
| ReplayRuns.PlannedPathsStay | desktop/app/replay_targets.go:20-52 | main result: once a file item has target paths no step of any run changes them, so a path pasted ahead is where the file lands |
| ReplayRuns.WishIsHonoured | desktop/app/replay_targets.go:43-232 | a replay asked for while the file is away: after the landing the item is Consumed exactly if its path was pasted ahead or its content could be staged, and the planned paths are kept |
| ReplayRuns.OfferedIffNotRefused | desktop/app/replay_history.go:310-473 | hence replay is offered exactly when immediate (and, for files and images, real-content) replay is not refused for the item's state |
| ReplayRuns.DisagreeIff | desktop/app/replay_history.go:81-109 | over all items, reachable or not: exactly where the availability check and the replay decision part |
| ReplayRuns.PlannedRequestsAreLawful | desktop/app/replay_history.go:310-473 | in a reachable state a replay asks the sender for exactly the offered and failed files, waits for those on their way, and pastes text as text only |
| ReplayRuns.ReservedPathIsNotEnough | desktop/app/replay_history.go:81-109 | without the invariant it fails: a ready file with only a reserved path is offered and refused |
| ReplayRuns.TransferEditIsLocal | desktop/history/history.go:341-359 | in a reachable list an edit by transfer id is that edit of the one item carrying it, which links the receiver's single item to the list |
| ReplayRuns.RequestIsTheReceivers | desktop/app/file_transfer.go:701-776 | and a request for a listed file changes the list exactly as the receiver's request changes its one item |
| ImageJobs.Application.BeginImageMaterializeJob | desktop/app/receive_image.go:167-183 | joins the listed job or makes and lists a new one |
| ImageJobs.Application.FinishImageMaterializeJob | desktop/app/receive_image.go:185-199 | stores the result, closes the job, then drops its own entry only |
| ImageRuns.EntersIff | desktop/app/receive_image.go:167-183 | in a sound state a thread becomes a writer exactly when nobody writes its item, else it waits for the one who does |
| ImageRuns.LeaderEndsAndFollowersWake | desktop/app/receive_image.go:185-199 | nobody gets stuck: a writer can finish with any result, its job is then closed and unlisted, and whoever waits returns with that result |
| ImageRuns.OneWriterPerItem | desktop/app/receive_image.go:29-84 | main result: in every interleaving at most one thread writes a given image |
| ImageRuns.OneLeaderPerJob | desktop/app/receive_image.go:167-199 | main result: every job has exactly one leader, and is listed exactly while that leader has not left |
| ImageRuns.FollowersGetTheLeadersResult | desktop/app/receive_image.go:38-47 | main result: whoever returns from a job has the result its leader stored |
| ImageRuns.FollowersWakeIff | desktop/app/receive_image.go:39-40 | a follower can go on exactly when its leader has closed the job |
| ImageRuns.ClosedOnceAndDropsItsOwn | desktop/app/receive_image.go:185-199 | no job is closed twice, and the entry dropped is the leader's own |
| Stomp.Encode | pkg/protocol/stomp.go:41-58 | the loop prints the frame with its headers in some order of the map |
| Stomp.ParseFrame | pkg/protocol/stomp.go:61-106 | the line loop computes the specified frame, for every input |
| Stomp.RoundTrip | pkg/protocol/stomp.go:41-106 | main result: parsing undoes printing for every order of the headers |
| Stomp.RoundTripIffClean | pkg/protocol/stomp.go:41-106 | main result: exactly the frames with trimmed one-line headers, non-empty colon-free keys and a body not ending in NUL survive |
| Stomp.ParsedIsClean | pkg/protocol/stomp.go:61-106 | whatever bytes come in, the parsed frame is one the format can carry |
| Stomp.RelayIsStable | pkg/protocol/stomp.go:41-106 | a frame once received can be relayed without change |

## Left out

- Platform and network: operating system clipboards, WebSocket, WebRTC, discovery, login, disk-space queries, the user interface, the server and the mobile clients are not part of this model.
- Cryptography, zip compression, JSON syntax, base64 and image decoding are replaced by injective or accept/reject stand-ins.
- Error texts, log lines and size formatting; an error keeps its kind, not its words.
- Data races below the critical sections: `prepareOutgoingArchive` runs under its own lock, and is one step here.
- Wrap-around of the 64-bit cleanup generation.
- Loss of temporary files to anyone but the application.
- Interleavings inside handlers that take the lock several times and are one step here: a chunk that arrives while `handleFileComplete` is between its sections, or two clipboard writes whose `Paste` sections mix.
- Signature.TransferManager.RegisterOutgoing: one step, while the program looks up and inserts under two separate locks: two registrations of equal selections at the same moment get two ids.
- Signature.TransferManager.SourcePathsSignature: takes the source paths as already cleaned and sorted, because path cleaning belongs to the platform and the order of the forest is what the stream encodes.
- Replay.Application.AdmitReceivedClipboardData: does not register the incoming transfer, because module TransferRuns models that step.
- ZipExtract.ExtractTarget.UnpackEntry: does not model failing file operations other than obstacles in the way and a full disk, because they only add failing branches.
- ReceiverHandlers.Application.Deliver: does not model what unpacking a folder or bundle writes, because extraction clears the shared parent directory; which paths it yields is a parameter and a digest-checked raw payload is modelled in full.
- OutgoingArchive.OutgoingTransfer.HandleFileRequest: the chunk count and mode are read once, while the program reads them for every chunk; the interleaved steps model the completion, which is what the receiver checks.
- ZipRoundTrip.RoundTripIffNamesFixed: does not cover selections with same-named top-level paths, because their entries collide in the archive.
- ZipExtract.ExtractTarget.ExtractZipReaderSafely: does not model disk faults during extraction other than a full disk, because they only add failing branches.
- EchoRuns.Application.ShouldSuppressDuplicateMonitorCapture: the digest of a capture (an image's pixels, or type and payload) is a parameter, because decoding images is not part of this model.
- EchoRuns.NoBroadcastLoop: whether a capture matches the remembered replay write is a parameter, because the text and path comparison only suppresses more.
- Replay.Application.ReplayItem: covers immediate replay with staging that works; placeholder replay, background image saving and failing staging act on the history only through the steps SaveImage, Reserve, StorePending, Request and MarkConsumed of ReplayRuns, which may come in any order.
- Liveness when messages are lost for good, and a transfer announced again after its item was evicted.
- `replayHistoryItem` with its injected executor, the eager file path of old clients, and the recording wrappers around `AddItem`.
- A source path that is the root directory or the current directory, whose base name is not a plain name.
