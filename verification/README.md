# Verification of the recorder port

Dafny models of the stateful parts of a screen recorder's Windows port and of its overlay UI,
with proofs about whole runs. The models follow the source branch by branch. What the source
cannot decide itself (what a pipe delivers, when the recorder thread reports a result, which
window event comes next) is an argument of the model, so a theorem speaks about every such
behaviour. Every object that the source updates in place is a class with the same fields and
loops; its methods are proved to do what the functions of its model module say, and the
theorems are about those functions.

| Part | Modules |
|---|---|
| Engine's named-pipe server, two threads, deferred replies | `IpcProtocol`, `IpcInvariant`, `IpcSteps`, `IpcFirstRead`, `IpcRuns`, `IpcFailures`, `IpcFraming`, `IpcCalls`, `IpcReads`, class in `IpcServer`, byte transport in `IpcTransport` |
| WASAPI ring buffer and sample pipeline | `AudioQueue`, `AudioRing`, `AudioConvert`, `AudioCapture` |
| UI config file | `UiConfig`, `UiConfigRoundTrip`, class in `UiConfigStore` |
| Schema-driven config file | `ConfigSchema`, `ConfigProofs`, `ConfigLoads`, `ConfigUiSchema`, class in `ConfigStore` |
| SafeVector | `SafeVectorModel`, `SafeVectorProofs`, `SafeVectorList`, class in `SafeVectorClass` |
| Incremental clipboard transfers | `ClipboardModel`, `ClipboardTransfers`, class in `ClipboardFile` |
| Desktop duplication recovery | `DxgiRecovery` |
| Overlay session: which engine runs, pause accounting | `SessionModel`, `SessionFailures`, class in `OverlaySession` |
| UI command pipe | `UiRpc` |
| File name sanitizer, scaling and placement | `FilenameSanitizer`, `Geometry` |
| Shared: lines of text, C number conversions, exact reals | `TextLines`, `CText`, `Arithmetic`, `Options` |

`dafny verify dfyconfig.toml` checks everything.

## What the code does not do

Where a promise fails, the code is modelled as it is, the exact condition is proved, and a
concrete run shows that it happens.

- `ipc_add_client` closes the pipe of a client whose first read ends, but leaves the deferred
  requests that this read registered. `IpcFirstRead.AcceptOrphansExactly` says which, from the
  arriving bytes; `IpcRuns.RepliesGoAstrayExactly` says that exactly their replies go to another
  connection, one that got the same pipe handle later
  (`IpcFailures.OrphanReachesTheWrongClient`). Everything else holds with such strays around.
- A result that lands after the last drain has passed its slot and before the fail pass reaches
  it is dropped without a reply: `IpcRuns.ShutdownAnswersExactly` and
  `IpcRuns.ThreadAnswersExactly` (`IpcFailures.LateResultIsLost`).
- `SafeVector::pop_back` on a dead last item lowers the live count a second time. The count is
  right exactly when that has not happened since the last `clear`:
  `SafeVectorProofs.EveryProgramKeepsTheVector` (`SafeVectorProofs.PopOfADeadItemDrifts`).
- A property event that matches no clipboard entry returns from the event thread's function and
  silences the clipboard: `ClipboardTransfers.ThreadEndsExactly`
  (`ClipboardTransfers.StrayEventHappens`). After an I/O error a transfer starts over in the
  middle of the data already sent. A finished transfer sent the whole file exactly when no error
  had hit it behind its first chunk since its last start:
  `ClipboardTransfers.FinishedWholeExactly` (`ClipboardTransfers.ErrorMidwaySpoilsTheTransfer`).
- The resampler keeps its position modulo the chunk. That goes on where the last output frame ended
  exactly when that frame ended in the next chunk; rounding the frame count can stop it short, and
  then the next chunk can come out as nothing but its last sample: `AudioConvert.ChunkContinuesExactly`
  (`AudioConvert.ChunkRepeatsItsLastSample`).
- The UI's command pipe handles one line per read; a second line in the same read waits until the
  client sends more: `UiRpc.OneLinePerRead`, `UiRpc.WaitingLineWaits`.
- A visible overlay resets its pause counters at a video line and again at the exit of the engine,
  so the exit announces the pauses as recorded time, and after the line the overlay may take a
  paused engine for a running one: `SessionModel.RecordingAnnouncedExactly`,
  `SessionModel.PauseAgreesExactly` (`SessionFailures.PausedStopMisleads`).
- The duration clock of a clip inside a replay session starts at a press that finds no note of a
  clip. A note left over by a hidden overlay, or ended early by the line of an earlier clip, makes
  the announced length wrong: `SessionModel.ClipAnnouncedExactly`, `SessionModel.NotedExactly`
  (`SessionFailures.LeftOverNoteMisleads`, `SessionFailures.SecondClipMisleads`). A recording of
  its own is not affected, because its start sets the clock.
- A reserved device name whose cleaned form fills the local buffer is written one byte beyond it
  by the prefix: `FilenameSanitizer.ResultFitsExactly` (`FilenameSanitizer.PrefixOverflows`). A
  small output buffer can cut a good name down to a device name:
  `FilenameSanitizer.CroppedIsOpenableExactly` (`FilenameSanitizer.CropMakesADeviceName`).

## Model

| member | source | states |
|---|---|---|
| IpcProtocol.OnRequestShape | platform/windows/gsr_ipc_win32.c:331-363 | whatever a request turns out to be, it is dispatched once and leaves the client table and the number of slots as they are |
| IpcInvariant.CompletionsLand | platform/windows/gsr_ipc_win32.c:876-894 | completions of the recorder thread, in any number and at any point, keep slot ownership and the balance of answered and held requests |
| IpcInvariant.Removed | platform/windows/gsr_ipc_win32.c:399-426 | removing a client releases exactly its slots: what was owed to it is settled and every other client keeps its slots and answers |
| IpcSteps.OnRequestKeeps | platform/windows/gsr_ipc_win32.c:331-363 | after a request either the full invariant holds, or the client is to be disconnected and only this request is owed |
| IpcSteps.OnBytesKeeps | platform/windows/gsr_ipc_win32.c:367-385 | a chunk of bytes touches no other client and leaves at most one request of this client owed, none when the client is kept |
| IpcSteps.StartReadKeeps | platform/windows/gsr_ipc_win32.c:433-474 | the same for any chain of reads that complete synchronously |
| IpcSteps.ReadClientKeeps | platform/windows/gsr_ipc_win32.c:724-757 | looking at one client in the read pass keeps the invariant and removes at most that client from the table |
| IpcSteps.ReadPassVisitsEveryClientOnce | platform/windows/gsr_ipc_win32.c:724-757 | the read pass looks at every client it started with exactly once and in order, although removals shift the table under it |
| IpcSteps.DrainSlotKeeps | platform/windows/gsr_ipc_win32.c:566-586 | replying to a completed request, or dropping the client that cannot be written to, keeps the invariant |
| IpcSteps.FailSlotKeeps | platform/windows/gsr_ipc_win32.c:588-605 | the fail pass answers a pending request and leaves a completed one owed |
| IpcFirstRead.BytesFollow | platform/windows/gsr_ipc_win32.c:367-385 | from an empty buffer, the bytes of a read leave exactly the slots and the verdict that following their lines gives: a line takes its free slot when its handler accepts, any other line ends the connection when its answer cannot be written |
| IpcFirstRead.FollowDescribes | platform/windows/gsr_ipc_win32.c:331-363 | following the lines, in closed form: a line registers when its slot is free and no line before it took it, and counts while no answer before it failed |
| IpcFirstRead.FirstReadFollows | platform/windows/gsr_ipc_win32.c:433-474 | the same for the whole chain of a first read, which is kept exactly when no line ends it and its last read stays pending |
| IpcFirstRead.AcceptOrphansExactly | platform/windows/gsr_ipc_win32.c:476-500 | accepting a client keeps the invariant and strands exactly the requests that the arrival says: a line in the first read parses to a deferred type whose slot is free, its handler accepts, the answers in front of it got out, and the read ends at a later line or with the script |
| IpcFailures.OrphanReachesTheWrongClient | platform/windows/gsr_ipc_win32.c:487-497 | a concrete run in which the reply to one connection's request is written to another connection |
| IpcFailures.LateResultIsLost | platform/windows/gsr_ipc_win32.c:760-761 | a concrete whole run in which a result lands between the last drain and the fail pass and the connected client is never answered |
| IpcRuns.EveryRunKeepsTheInvariant | platform/windows/gsr_ipc_win32.c:641-763 | in every run: distinct pipes; every occupied slot holds the request of the connected client that owns its pipe, or a stray one, whose client is gone; no request is answered or held twice, and one of a connected client exactly once |
| IpcRuns.RepliesGoAstrayExactly | platform/windows/gsr_ipc_win32.c:566-605 | over a whole run of the thread every reply carries the id and goes to the pipe of its request; it goes to another connection if and only if the request was stranded by a first read that ended, and then to one that connected later on the same pipe |
| IpcRuns.FirstCompletionWins | platform/windows/gsr_ipc_win32.c:876-894 | after any sequence of completions a slot holds the first of its kind, and only if it was pending: a completed result is never overwritten |
| IpcRuns.DrainFollows | platform/windows/gsr_ipc_win32.c:566-586 | for any request a slot holds, the drain answers it exactly when a result is there by the time its section comes up, whatever lands in between |
| IpcRuns.FailFollows | platform/windows/gsr_ipc_win32.c:588-605 | the same for the fail pass: a request still pending at its section is answered |
| IpcRuns.FailDrops | platform/windows/gsr_ipc_win32.c:588-605 | a request whose result is there when its section of the fail pass comes up is never answered |
| IpcRuns.ShutdownAnswersExactly | platform/windows/gsr_ipc_win32.c:760-763 | when the thread ends all slots are empty, nothing was answered twice, and a request of a connected client was answered exactly once if and only if its result did not land between the last drain and the fail pass |
| IpcRuns.ThreadAnswersExactly | platform/windows/gsr_ipc_win32.c:641-763 | over every whole run of the thread no request is answered twice, and a request of a client that is still connected is answered exactly once if and only if it was not held with a late result when the last drain began |
| IpcFraming.SplitIsFaithful | platform/windows/gsr_ipc_win32.c:367-385 | the reference split into lines loses nothing, invents nothing and cuts at every newline |
| IpcFraming.EveryRunDispatchesTheLines | platform/windows/gsr_ipc_win32.c:367-385 | in every run the requests dispatched for a connected client are the lines of the bytes it sent, whole when they fit 4096 bytes and flagged too large otherwise, and the buffer holds the unfinished line, independent of the read boundaries |
| IpcFraming.ChunksConcatenate | platform/windows/gsr_ipc_win32.c:367-385 | processing two chunks does what processing their concatenation does, including where it stops |
| IpcFraming.OccupiedSlotRefuses | platform/windows/gsr_ipc_win32.c:345-352 | a deferred request whose slot is occupied calls no handler, leaves the slot to its owner and is answered with the fitting error |
| IpcFraming.ResultSurvivesInput | platform/windows/gsr_ipc_win32.c:224-243 | whatever bytes a client sends, a completed result waiting in a slot stays as it is |
| IpcCalls.ParsedIsHonest | platform/windows/gsr_ipc_win32.c:345-362 | whatever a parsed request comes to, every answer given so far is the right one, and a slot holds an accepted request of its kind with the first report of that kind since |
| IpcCalls.EveryRunIsHonest | platform/windows/gsr_ipc_win32.c:293-363 | in every run, without any condition: no request has its handler called twice, handlers run in request order, and "ok" is only ever told about a request whose handler was called and accepted |
| IpcCalls.EveryReplyIsRight | platform/windows/gsr_ipc_win32.c:268-605 | in every run, without any condition, every reply is the right one to its request: the error that fits a line that cannot be handled, the handler's verdict, and for a request that is answered later the outcome of the first report of its kind between request and reply, "ok" with its path cut to the room for it exactly when that report is a success, the error text of the kind when it is not, and the exit error when there is none |
| IpcReads.EveryByteIsTaken | platform/windows/gsr_ipc_win32.c:433-757 | in every run a connected client waits for its next read, and the server has taken exactly the bytes delivered on its connection, whatever was removed, accepted and answered in between |
| IpcReads.ClientStaysExactly | platform/windows/gsr_ipc_win32.c:724-757 | a client whose read has come up stays if and only if the read brought bytes, the reads after it end with one that stays pending, and every request on the way is answered or will be |
| IpcReads.ArrivalStaysExactly | platform/windows/gsr_ipc_win32.c:476-500 | an arriving client joins the table if and only if fewer than eight are there, its first reads end with one that stays pending, and every request in them is answered or will be |
| IpcServer.Server.constructor | platform/windows/gsr_ipc_win32.c:778-840 | starts with an empty table and three free slots |
| IpcServer.Server.CompleteRequest | platform/windows/gsr_ipc_win32.c:876-894 | only a pending slot takes the result |
| IpcServer.Server.SetPending | platform/windows/gsr_ipc_win32.c:224-237 | registers in an empty slot, otherwise changes nothing and says so |
| IpcServer.Server.ClearSlot | platform/windows/gsr_ipc_win32.c:239-243 | empties one slot and no other |
| IpcServer.Server.IsOnlyWhitespace | platform/windows/gsr_ipc_win32.c:249-255 | true exactly when every character is a space, tab or carriage return |
| IpcServer.Server.FindClient | platform/windows/gsr_ipc_win32.c:391-397 | the first client with the pipe, or -1 when there is none |
| IpcServer.Server.Remove | platform/windows/gsr_ipc_win32.c:399-426 | the shift loop over the array removes exactly entry i and releases exactly its slots |
| IpcServer.Server.HandleRequest | platform/windows/gsr_ipc_win32.c:331-363 | refines the request step of the protocol on the in-place table |
| IpcServer.Server.HandleBytes | platform/windows/gsr_ipc_win32.c:367-385 | refines the byte step and changes no other table entry |
| IpcServer.Server.StartReading | platform/windows/gsr_ipc_win32.c:433-474 | refines the chain of synchronous reads and changes no other table entry |
| IpcServer.Server.AddClient | platform/windows/gsr_ipc_win32.c:476-500 | refines accepting a client, which reads before it is counted |
| IpcServer.Server.SendCompleted | platform/windows/gsr_ipc_win32.c:566-586 | refines the drain pass, with completions between its sections |
| IpcServer.Server.FailPending | platform/windows/gsr_ipc_win32.c:588-605 | refines the fail pass |
| IpcServer.Server.ReadPass | platform/windows/gsr_ipc_win32.c:724-757 | the index loop that steps back after a removal refines the read pass and visits what it visits |
| IpcServer.Server.Run | platform/windows/gsr_ipc_win32.c:641-763 | the whole thread refines the protocol's run, to which the theorems above apply |
| IpcTransport.WriteAll | platform/windows/gsr_ipc_win32.c:257-266 | what reaches the pipe is a prefix of the data, all of it exactly on success, and always all of it when writes make progress |
| IpcTransport.ReceiveReply | platform/windows/gsr_ipc_win32.c:976-1002 | success returns the text before the first newline, and success depends only on the stream and the capacity, not on the chunking |
| IpcTransport.Exchange | platform/windows/gsr_ipc_win32.c:257-266 | for any cutting of writes and reads a reply comes out byte for byte exactly when it and its newline fit the client's buffer |
| AudioQueue.EveryRunAccounts | platform/windows/audio_wasapi.c:502-513 | over any interleaving of pushes, reads and flushes on an empty queue: pushed = read + dropped + flushed + held, the held frames are the newest, and the frames read are an in-order subsequence of the frames pushed before them |
| AudioQueue.ReadTakesTheOldest | platform/windows/audio_wasapi.c:502-513 | a read takes exactly the oldest period when there is one and otherwise nothing; a push drops frames exactly when not all fit |
| AudioQueue.PushStep | platform/windows/audio_wasapi.c:502-513 | keeping the newest frames after each single frame keeps the newest frames of everything pushed |
| AudioRing.ReaderIsServedExactly | platform/windows/audio_wasapi.c:848-858 | a waiting reader gets its period if and only if it is not stopped and, before a stop and before the sleep times out, a period has come since the ring was last emptied by a flush or an endpoint switch, whatever the ring drops meanwhile |
| AudioRing.Ring.constructor | platform/windows/audio_wasapi.c:705-711 | the ring is empty and holds at least 32 periods and 4096 frames |
| AudioRing.Ring.PushOne | platform/windows/audio_wasapi.c:502-513 | one round of the push loop: the oldest frame is dropped when the ring is full, and the newest frames of all stay |
| AudioRing.Ring.PushAll | platform/windows/audio_wasapi.c:502-513 | the circular push loop refines the bounded queue: the last capacity frames of what was held and what came |
| AudioRing.Ring.Flush | platform/windows/audio_wasapi.c:827-835 | empties the ring |
| AudioRing.Ring.TakePeriod | platform/windows/audio_wasapi.c:860-873 | the copy loop returns and removes exactly the oldest period, also across the wrap point |
| AudioRing.Ring.ReadNextChunk | platform/windows/audio_wasapi.c:837-877 | a read waits through frames, flushes, endpoint switches and stops, then returns the oldest period, or returns -1 and takes nothing on a timeout or stop |
| AudioRing.Ring.Perform | platform/windows/audio_wasapi.c:502-513 | any sequence of pushes, reads and flushes on the ring is a run of the bounded queue, to which the accounting applies |
| AudioConvert.SamplesFollowEachOther | platform/windows/audio_wasapi.c:321-322 | the samples that are decoded lie one behind the other, channel by channel and frame by frame |
| AudioConvert.DecodesExactly | platform/windows/audio_wasapi.c:321-353 | every sample width decodes to its two's complement number over full scale, also 24 bits in a 32-bit container; other widths are silence |
| AudioConvert.DownmixIsTheMix | platform/windows/audio_wasapi.c:358-373 | each side of the mix is the sum of the speakers of its side and of the middle, at the gain of each speaker, for every layout |
| AudioConvert.BlendIsBetween | platform/windows/audio_wasapi.c:479-487 | every resampled value lies between the two input samples it blends, also where the position has run past the chunk |
| AudioConvert.BaseIndex | platform/windows/audio_wasapi.c:479-482 | the input index read is inside the chunk for every position |
| AudioConvert.NextIndex | platform/windows/audio_wasapi.c:484-484 | so is its neighbour |
| AudioConvert.OutFramesIsClose | platform/windows/audio_wasapi.c:471-471 | the output frame count differs from the exact one by at most half a frame |
| AudioConvert.DriftIsBounded | platform/windows/audio_wasapi.c:471-471 | k chunks differ in all by at most k/2 frames |
| AudioConvert.PhaseInRange | platform/windows/audio_wasapi.c:489-490 | the kept position lies in the chunk's range and differs from the true one by whole chunks |
| AudioConvert.ResamplesTheLine | platform/windows/audio_wasapi.c:469-491 | what an output frame is, without naming the blend: the sample at its position, a point on the line through the two samples around it, or the last sample from there on |
| AudioConvert.LinesStayLines | platform/windows/audio_wasapi.c:469-491 | a chunk on a line comes out on the same line, up to its last sample |
| AudioConvert.StreamContinuesExactly | platform/windows/audio_wasapi.c:489-490 | the kept position is the place in the next chunk if and only if the last output frame ended in that chunk |
| AudioConvert.ChunkContinuesExactly | platform/windows/audio_wasapi.c:469-491 | the same for a whole chunk, in terms of its length, the mix rate and the position it started from |
| AudioConvert.ChunkRepeatsItsLastSample | platform/windows/audio_wasapi.c:469-491 | a concrete run: 102 frames at 44.1 kHz leave the position 101.98125, and all 111 outputs of the next 102 frames are their last sample |
| AudioConvert.QuantizersAreMonotoneInRange | platform/windows/audio_wasapi.c:391-432 | both integer quantizers are monotone and stay in the target range for all sample values |
| AudioConvert.QuantizesTowardsZero | platform/windows/audio_wasapi.c:391-432 | both integer quantizers cut the scaled sample towards zero and at full scale, for all sample values |
| AudioConvert.PcmIsExact | platform/windows/audio_wasapi.c:321-353 | decoding and quantizing a 16-bit sample gives it back, a 24-bit sample comes back times 256 |
| AudioConvert.NativeFormatsPassThrough | platform/windows/audio_wasapi.c:438-517 | for a stereo 48 kHz mix, 16-bit input to S16 pushes exactly the samples in the input bytes, packed 24-bit input to S32 exactly 256 times them |
| AudioCapture.DownmixToStereo | platform/windows/audio_wasapi.c:358-373 | the loop over interleaved channels fills both halves of the buffer with the downmix of each frame |
| AudioCapture.DecodeAll | platform/windows/audio_wasapi.c:455-459 | the nested loops decode every channel of every frame, in order and in bounds |
| AudioCapture.Resample | platform/windows/audio_wasapi.c:469-491 | the accumulating loop yields the blend at start + i * stride for each output frame and the position for the next chunk |
| AudioCapture.EncodeStereo | platform/windows/audio_wasapi.c:377-434 | encodes every frame in order |
| AudioCapture.Device.ConvertChunk | platform/windows/audio_wasapi.c:438-517 | after a chunk the ring holds the newest frames of what it held and the converted chunk, and the position is usable for the next one |
| AudioCapture.Device.ForgetEndpoint | platform/windows/audio_wasapi.c:647-654 | switching the endpoint empties the ring and starts the resampler over |
| CText.ScanPrinted | ui/src/Config.cpp:411-429 | a printed integer, followed by nothing or by a space, is read back by both scan formats |
| CText.PrefixesAreRead | ui/src/Config.cpp:411-426 | a number in the file may also be written in base 16 or base 8, as the scan format takes it |
| CText.DigitsOfSixteen | ui/src/Config.cpp:411-426 | the digits of such a number, what they count, and that nothing else is one |
| UiConfigRoundTrip.HotkeyComesBack | ui/src/Config.cpp:418-426 | a hotkey comes back over its whole 64-bit and 32-bit ranges |
| UiConfigRoundTrip.StringComesBack | ui/src/Config.cpp:409-411 | a string without line breaks and NULs comes back exactly when it does not end in a carriage return and is not empty over a non-empty default |
| UiConfigRoundTrip.TagsOpenTracks | ui/src/Config.cpp:440-450 | every input that starts with the tag opens one more track on the way back |
| UiConfigRoundTrip.TracksComeBack | ui/src/Config.cpp:430-452 | a nested track list, with names, inputs and invert flags, comes back from its tagged lines exactly when every name and input is plain |
| UiConfigRoundTrip.BlocksApply | ui/src/Config.cpp:394-456 | reading the blocks of the options gives every option the result of its own block, whatever the order of the blocks |
| UiConfigRoundTrip.ReadAvoids | ui/src/Config.cpp:379-465 | nothing read from any file contains a line break |
| UiConfigRoundTrip.RoundTripExactly | ui/src/Config.cpp:379-520 | reading what was saved restores the whole config, with the version of the format in it, in whatever order the options are written, if and only if every option value survives |
| UiConfigRoundTrip.OldReplayModeComesBackRenamed | ui/src/Config.cpp:460-462 | a saved old replay mode comes back under its new name, and every other option that survives beside it |
| UiConfigRoundTrip.OddLinesChangeNothing | ui/src/Config.cpp:394-400 | a line without a space, with an unknown key or without a value changes nothing |
| UiConfigRoundTrip.GarbageIsNothing | ui/src/Config.cpp:403-426 | a text that is no number is read as zero, a hotkey without one of its numbers as none, and only "true" as true |
| UiConfigStore.Store.ReadLine | ui/src/Config.cpp:394-456 | one line of the file changes the option it names and no other |
| UiConfigStore.Store.ReadFile | ui/src/Config.cpp:379-465 | the splitting loop with its callback refines the reading function, from cleared track lists through the migration |
| UiConfigStore.Store.SaveFile | ui/src/Config.cpp:467-520 | the printing loops bump the version in the object and write every option's lines |
| ConfigProofs.EveryRunStaysSchemaValid | platform/windows/gsr_config_win32.c:92-294 | over every sequence of loads of any files and setters with any arguments, ranged integers stay in range and restricted strings in their list |
| ConfigProofs.LoadChangesOnlyNamed | platform/windows/gsr_config_win32.c:92-198 | a load leaves every option alone that no line of the file names |
| ConfigProofs.SavedLineLoads | platform/windows/gsr_config_win32.c:100-198 | a saved line, loaded, restores its own option from its text and touches no other |
| ConfigProofs.NumbersAreRestored | platform/windows/gsr_config_win32.c:147-171 | every boolean and every 64-bit integer comes back from its line |
| ConfigProofs.RoundTripExactly | platform/windows/gsr_config_win32.c:92-221 | saving and loading into a fresh config restores all values if and only if every string is trimmed, on one line and shorter than the value buffer |
| ConfigProofs.SettersStoreExactly | platform/windows/gsr_config_win32.c:252-294 | a setter succeeds if and only if there is an option of that name and the value fits it; then the option has the value and every other keeps its own |
| ConfigLoads.LoadTakesTheLastWord | platform/windows/gsr_config_win32.c:92-198 | a load of any file leaves in every option the value of the last line that has a readable text for it, or its own, and counts exactly the lines with an unreadable text for an option |
| ConfigLoads.EveryRunTakesTheLastWord | platform/windows/gsr_config_win32.c:92-294 | over every sequence of loads and setter calls every option ends with the last word on it |
| ConfigLoads.AcceptExactly | platform/windows/gsr_config_win32.c:147-192 | an option takes exactly the texts that stand for a value of its type, range and list |
| ConfigLoads.ParseIntExactly | platform/windows/gsr_config_win32.c:158-171 | a text is taken for a number if and only if it is white space, a sign or none, and decimal digits to its end, of 64 bits |
| ConfigLoads.TrimExactly | platform/windows/gsr_config_win32.c:111-123 | what is left of a key or a value has lost all blanks around it and nothing else |
| ConfigLoads.LineLengthExactly | platform/windows/gsr_config_win32.c:100-101 | a line is read through its newline or to the end of the file, but at most 4095 characters at once |
| ConfigLoads.EolExactly | platform/windows/gsr_config_win32.c:102-104 | a line loses exactly the newlines and carriage returns at its end |
| ConfigLoads.SavedFileIsOneLineEach | platform/windows/gsr_config_win32.c:200-221 | the saved file has one line per option, in the order of the schema, with its name and the text of its value |
| ConfigUiSchema.UiSchemaIsGood | platform/windows/gsr_config_win32.c:298-324 | the shipped table has distinct names the format can carry, admitted defaults and clean fixed texts |
| ConfigUiSchema.UiConfigRoundTrips | platform/windows/gsr_config_win32.c:298-324 | the round trip condition holds for the shipped table without further assumptions |
| ConfigStore.TrimSpan | platform/windows/gsr_config_win32.c:111-123 | the moving pointers cut out exactly the trimmed text |
| ConfigStore.Config.constructor | platform/windows/gsr_config_win32.c:44-75 | every option starts with its default |
| ConfigStore.Config.Find | platform/windows/gsr_config_win32.c:31-40 | the first option of that name, or -1 when there is none |
| ConfigStore.Config.TakeText | platform/windows/gsr_config_win32.c:144-192 | a text is stored in the array of the option's type exactly when the option accepts it |
| ConfigStore.Config.LoadFile | platform/windows/gsr_config_win32.c:92-198 | the line loop refines loading, including the number of errors |
| ConfigStore.Config.SaveFile | platform/windows/gsr_config_win32.c:200-221 | writes one line per option from the array of its type |
| ConfigStore.Config.SetBool | platform/windows/gsr_config_win32.c:252-259 | sets an existing boolean option, otherwise refuses and changes nothing |
| ConfigStore.Config.SetInt | platform/windows/gsr_config_win32.c:261-270 | sets an integer option within its range, otherwise refuses and changes nothing |
| ConfigStore.Config.SetString | platform/windows/gsr_config_win32.c:272-294 | sets a string option within its list, otherwise refuses and changes nothing |
| ConfigStore.Config.Perform | platform/windows/gsr_config_win32.c:92-294 | any sequence of loads and setter calls on the object is a run of the model, to which the schema theorem applies |
| SafeVectorProofs.EveryProgramKeepsTheVector | ui/include/SafeVector.hpp:27-138 | after any nesting of loops and mutations no dead item and no pending purge is left outside loops; size(), wherever it is called, in any callback or outside, answers with the number of live items if and only if no pop_back since the last clear hit a dead item; and no loop over live items showed an item after it was taken out |
| SafeVectorProofs.PopOfADeadItemDrifts | ui/include/SafeVector.hpp:34-40 | a concrete program after which the live count is -1 |
| SafeVectorProofs.PurgeKeepsLive | ui/include/SafeVector.hpp:171-184 | removing dead items keeps exactly the live ones |
| SafeVectorProofs.RemoveInLoopKeepsStorage | ui/include/SafeVector.hpp:44-56 | inside a loop remove moves nothing and marks the item dead |
| SafeVectorProofs.ReverseIndicesDecrease | ui/include/SafeVector.hpp:97-124 | the reverse loop calls back at strictly decreasing indices, each at most once, whatever the callback does, so it ends |
| SafeVectorProofs.QuietLoopSeesLiveItems | ui/include/SafeVector.hpp:77-94 | a loop whose callback changes nothing shows exactly the live items in order |
| SafeVectorList.ChangesWorkOnTheList | ui/include/SafeVector.hpp:27-160 | in any state and at any depth: push appends to the list of live pointers, remove takes out the first occurrence, replace puts the new one in its place, pop drops the last; a change misses only when the cell it is about is missing or dead |
| SafeVectorList.EveryProgramEditsTheList | ui/include/SafeVector.hpp:27-184 | after any nesting of loops and changes the vector holds exactly the list that its changes make of the empty one, applied one after the other as if nothing were ever only marked |
| SafeVectorList.PlainProgramIsDone | ui/include/SafeVector.hpp:27-74 | a program without loops performs exactly its changes, in order |
| SafeVectorList.ForwardShowsSurvivors | ui/include/SafeVector.hpp:77-94 | unless a callback ends it, and whatever the callbacks do, a loop shows every item that is alive at its start and not taken out before its end, and none of them moves meanwhile |
| SafeVectorList.BackwardShowsSurvivors | ui/include/SafeVector.hpp:97-124 | the same for the reverse loop |
| SafeVectorList.ForwardIndicesIncrease | ui/include/SafeVector.hpp:77-94 | a loop calls back at strictly increasing indices, so at each at most once |
| SafeVectorClass.SafeVector.Add | ui/include/SafeVector.hpp:27-30 | appends one live item |
| SafeVectorClass.SafeVector.DropLast | ui/include/SafeVector.hpp:34-40 | removes the last item, dead or alive, and lowers the count |
| SafeVectorClass.SafeVector.Delete | ui/include/SafeVector.hpp:44-56 | erases outside loops and marks inside them |
| SafeVectorClass.SafeVector.Back | ui/include/SafeVector.hpp:59-65 | the last live item, or none when there is none |
| SafeVectorClass.SafeVector.RemoveEverything | ui/include/SafeVector.hpp:68-74 | takes out every item and resets the count |
| SafeVectorClass.SafeVector.Count | ui/include/SafeVector.hpp:136-138 | answers with the kept count and puts the call on record |
| SafeVectorClass.SafeVector.ReplaceItem | ui/include/SafeVector.hpp:144-150 | replaces a live item in place, and reports a missing one, on which the source dereferences null |
| SafeVectorClass.SafeVector.RemoveDeadItems | ui/include/SafeVector.hpp:171-184 | the erase-while-walking loop leaves exactly the live items |
| SafeVectorClass.SafeVector.ForEachItem | ui/include/SafeVector.hpp:77-94 | the re-entrant loop refines its model, including what it returns |
| SafeVectorClass.SafeVector.ForEachItemReverse | ui/include/SafeVector.hpp:97-124 | the same for the reverse loop with its clipped index |
| SafeVectorClass.SafeVector.PerformAll | ui/include/SafeVector.hpp:27-150 | any nesting of calls and loops on the object is a run of the model, to which the program theorem applies |
| ClipboardModel.EveryRunServesTheFile | ui/src/ClipboardFile.cpp:137-264 | under any interleaving of requestors on one file cursor: what a requestor was sent since its start is the file up to its offset if and only if its transfer is intact, and a finished transfer sent the whole file in non-empty chunks and one empty one if and only if it was intact |
| ClipboardTransfers.IntactExactly | ui/src/ClipboardFile.cpp:212-241 | in every run a transfer under way is intact if and only if no seek or read error has hit it behind its first chunk since its last start |
| ClipboardTransfers.FinishedWholeExactly | ui/src/ClipboardFile.cpp:212-241 | in every run, for every finished transfer: it sent the whole file if and only if no error had hit it behind its first chunk between its last start and the event that finished it |
| ClipboardTransfers.TheLastFileIsServed | ui/src/ClipboardFile.cpp:266-315 | in every run the file served is the one set last |
| ClipboardTransfers.UnderWayExactly | ui/src/ClipboardFile.cpp:137-264 | in every run a requestor is being served if and only if an image request of its own started its transfer, and neither another file nor the end of the transfer came since; it is served on the property and for the target of its last such request |
| ClipboardTransfers.EveryTransferEnds | ui/src/ClipboardFile.cpp:187-264 | a whole transfer among any others, undisturbed by errors, restarts and stray events: the requestor asks at most once per byte left and once more; having asked that often its entry is gone; and once it is gone the whole file is on record as sent, if the transfer was on track |
| ClipboardTransfers.ThreadEndsExactly | ui/src/ClipboardFile.cpp:69-74 | the event thread is dead if and only if some property event it handled matched no entry |
| ClipboardTransfers.DeadThreadStaysDead | ui/src/ClipboardFile.cpp:69-74 | once it is dead, no window event changes anything |
| ClipboardTransfers.StrayEventHappens | ui/src/ClipboardFile.cpp:69-74 | a concrete run: in the middle of a transfer the requestor deletes another property of its window, and neither it nor the next requestor is served any more |
| ClipboardTransfers.ErrorMidwaySpoilsTheTransfer | ui/src/ClipboardFile.cpp:219-232 | a concrete run: an error before the empty chunk, and the file is sent twice |
| ClipboardFile.Clipboard.SetCurrentFile | ui/src/ClipboardFile.cpp:266-315 | a new file drops all transfers and starts with a fresh cursor |
| ClipboardFile.Clipboard.SendStart | ui/src/ClipboardFile.cpp:137-210 | an image request starts the requestor's transfer over; other requests change nothing |
| ClipboardFile.Clipboard.TransferData | ui/src/ClipboardFile.cpp:212-241 | seeks, reads one chunk through the shared cursor, sends it and advances only this requestor |
| ClipboardFile.Clipboard.RemoveCopy | ui/src/ClipboardFile.cpp:251-264 | erases the first entry of the requestor and no other |
| ClipboardFile.Clipboard.OnPropertyDelete | ui/src/ClipboardFile.cpp:69-86 | serves the matching entry or ends the thread |
| ClipboardFile.Clipboard.PerformAll | ui/src/ClipboardFile.cpp:69-315 | any sequence of events on the object is a run of the model, to which the theorems above apply |
| DxgiRecovery.EveryRunRecoversInTime | platform/windows/gsr_capture_dxgi.c:326-400 | on a monotone clock: a stop is an error stop, at most 20 failures are counted, a frame is held only with a duplication, attempts are at least 500 ms apart, and giving up comes at least 10 s after access was lost |
| DxgiRecovery.StopsExactly | platform/windows/gsr_capture_dxgi.c:149-177 | in every run the failures counted are the attempts since access was last lost, and the capture has stopped if and only if a tick it handled met a removed device or a failed acquire, or the last 20 attempts have failed |
| DxgiRecovery.RetriesExactly | platform/windows/gsr_capture_dxgi.c:326-400 | in every run, a tick without a duplication makes exactly one attempt if its clock is 500 ms past the loss and past the last attempt since, and else does nothing, and the duplication is back exactly when the attempt succeeds; a tick with one loses it exactly when access is lost, and holds a frame exactly when it has acquired a texture |
| DxgiRecovery.DueExactly | platform/windows/gsr_capture_dxgi.c:152-177 | on a monotone clock that is 500 ms after the loss and after every attempt since |
| DxgiRecovery.StopIsFinal | platform/windows/gsr_capture_dxgi.c:328-329 | after a stop no tick changes anything |
| DxgiRecovery.Capture.TryRecreate | platform/windows/gsr_capture_dxgi.c:152-177 | counts and delays a failure, gives up at 20, and starts over on success |
| DxgiRecovery.Capture.DoTick | platform/windows/gsr_capture_dxgi.c:326-400 | one tick in the source's order: stop, device loss, retry, release, acquire |
| DxgiRecovery.Capture.DoTicks | platform/windows/gsr_capture_dxgi.c:326-400 | any sequence of ticks on the object is a run of the model, to which the theorems above apply |
| SessionModel.EveryRunKeepsTheSession | ui/src/Overlay.cpp:3516-4137 | in every run a live engine goes with exactly one mode, modes are entered from none and left for none, every order goes to the pipe of the engine that runs, and the clocks of the overlay stand to those of the engine as the invariant says |
| SessionModel.ModeFollowsThePresses | ui/src/Overlay.cpp:3516-4137 | in every run a running engine keeps its mode until it exits, and without one a mode is entered exactly by the press on its own button that launches the engine |
| SessionModel.EngineIsToldExactly | ui/src/Overlay.cpp:2020-4137 | in every run the running engine has been told exactly what the presses since its start asked: to stop, which lengths to save, and how often to switch the pause and the recording inside a session |
| SessionModel.StopsExactly | ui/src/Overlay.cpp:3516-4137 | in every run a running engine has been told to stop if and only if the button of its own mode was pressed, not during a selection, while it ran |
| SessionModel.OverlayRemembersExactly | ui/src/Overlay.cpp:3313-3545 | in every run the overlay remembers whether it is shown, whether the replay was launched by hand, since when its buffer fills, and what the last save asked for |
| SessionModel.SavedReplayIsAnnounced | ui/src/Overlay.cpp:2435-2442 | in every run a saved replay is announced with the time its buffer had filled, but no more than it holds and than was asked |
| SessionModel.UiStaysCoupled | ui/src/Overlay.cpp:2020-4137 | every handler moves the process and the mode together, keeps a mode while its process lives, and sends at most one order |
| SessionModel.StepKeepsCounted | ui/src/Overlay.cpp:2020-2051 | every event keeps the tie between the pauses the overlay counts and those of the engine, also after a visible overlay has reset its counters in the middle of a recording |
| SessionModel.StepKeepsClipped | ui/src/Overlay.cpp:3709-3769 | every event keeps the duration clock of a session where the presses and notes have put it |
| SessionModel.RecordingAnnouncedExactly | ui/src/Overlay.cpp:2752-2812 | in every run, while a recording runs: a video line announces the time recorded if and only if the overlay remembers its pauses; the exit does if and only if a hidden overlay remembers them or a visible one had none to forget |
| SessionModel.StopAnnouncesTwice | ui/src/Overlay.cpp:2926-2957 | the usual stop in every run: the video line announces the time recorded, and the exit the same for a hidden overlay but the pauses on top for a visible one |
| SessionModel.ClipAnnouncedExactly | ui/src/Overlay.cpp:3709-3769 | in every run, in a replay session: a video line announces the length of the clip if and only if the clock was not behind at its start, the clip was noted at its end and no time has passed since, or, unnoted, as much time has passed as it is long |
| SessionModel.OnlyTheseAnnounce | ui/src/Overlay.cpp:2926-2957 | a duration is announced exactly by a video line in a recording or replay session and by the successful exit of a recording |
| SessionModel.PauseAgreesExactly | ui/src/Overlay.cpp:2926-3002 | in every run: after a video line overlay and engine agree on the pause if and only if the engine was not paused, for a visible overlay, or they agreed before, for a hidden one |
| SessionModel.NotedExactly | ui/src/Overlay.cpp:2988-3002 | in every run a clip is noted if and only if a press in a session noted it and no line or exit has ended it since, where a hidden overlay lets the exit of a session pass |
| SessionFailures.LeftOverNoteMisleads | ui/src/Overlay.cpp:3712-3732 | a concrete run with a note left over: two seconds are announced as seven |
| SessionFailures.SecondClipMisleads | ui/src/Overlay.cpp:3712-3732 | a concrete run with a second clip before the line of the first: two seconds are announced as one |
| SessionFailures.PausedStopMisleads | ui/src/Overlay.cpp:2752-2812 | a concrete run with a pause and the usual stop: four seconds are announced, then eight, and in between the overlay takes the paused engine for a running one |
| OverlaySession.Overlay.ToggledPause | ui/src/Overlay.cpp:2020-2045 | sends the toggle and moves the pause clocks, only while a recording runs |
| OverlaySession.Overlay.OnPressStartReplay | ui/src/Overlay.cpp:3516-3672 | refuses, stops or starts a replay |
| OverlaySession.Overlay.OnPressStartRecord | ui/src/Overlay.cpp:3700-3943 | toggles recording inside a session, stops or starts a recording |
| OverlaySession.Overlay.OnPressStartStream | ui/src/Overlay.cpp:3993-4137 | refuses, stops or starts a stream |
| OverlaySession.Overlay.OnPressSaveReplay | ui/src/Overlay.cpp:3313-3368 | the three save handlers: only in a running replay that is long enough |
| OverlaySession.Overlay.OnStopRecording | ui/src/Overlay.cpp:2926-2957 | computes the announced duration before it resets the counters |
| OverlaySession.Overlay.UpdateProcessStatus | ui/src/Overlay.cpp:2752-2812 | finalizes the session once the engine has exited |
| OverlaySession.Overlay.PerformAll | ui/src/Overlay.cpp:2020-4137 | any sequence of presses, lines and exits on the object is a run of the session model, to which the theorems above apply |
| UiRpc.PollVisitsEveryClientOnce | ui/src/Rpc.cpp:228-259 | one poll looks at every connected entry exactly once, however many swap-removals it makes |
| UiRpc.PollServesEveryClient | ui/src/Rpc.cpp:228-259 | a poll, for all its removals by swapping, does to the clients what looking at each on its own would: it takes the bytes that fit its buffer, stays as it is, or is dropped |
| UiRpc.EightAreAccepted | ui/src/Rpc.cpp:103-116 | a connection joins with an empty buffer exactly if fewer than eight are there |
| UiRpc.EveryRunIsFaithful | ui/src/Rpc.cpp:210-278 | in every run from the empty table each pipe keeps its own buffer of at most 128 bytes, and the lines handled, each with its newline, followed by the buffer are the bytes received |
| UiRpc.OneLinePerRead | ui/src/Rpc.cpp:262-278 | a read handles one line when the buffer then holds one, and leaves a complete line waiting if and only if it holds another |
| UiRpc.WaitingLineWaits | ui/src/Rpc.cpp:228-259 | whatever happens to other pipes, a pipe that brings nothing keeps its buffer, so a waiting line waits |
| UiRpc.Rpc.AcceptClient | ui/src/Rpc.cpp:103-116 | adds a client with an empty buffer, or drops the connection when the table is full |
| UiRpc.Rpc.Remove | ui/src/Rpc.cpp:233-237 | moves the last pipe and the last buffer together into the gap |
| UiRpc.Rpc.HandleData | ui/src/Rpc.cpp:262-278 | shifts exactly the first line out of the buffer |
| UiRpc.Rpc.PollAll | ui/src/Rpc.cpp:228-259 | the index loop refines the poll |
| UiRpc.Rpc.Perform | ui/src/Rpc.cpp:103-278 | any sequence of connections and polls on the object is a run of the model, to which the theorems above apply |
| FilenameSanitizer.SanitizedIsOpenable | platform/windows/gsr_filesystem_win32.c:37-82 | every result, before the caller's buffer crops it, is non-empty, without forbidden bytes, trailing dots or spaces, and not a reserved device name |
| FilenameSanitizer.SanitizedExactly | platform/windows/gsr_filesystem_win32.c:37-82 | what comes out, character by character: the name as far as it is looked at, without the dots and spaces at its end, illegal bytes as underscores, and one underscore in front exactly if it would be a device |
| FilenameSanitizer.OpenableExactly | platform/windows/gsr_filesystem_win32.c:20-60 | what counts as a name Win32 opens, spelled out: the bytes it may not hold, how it may not end, and the device names up to case |
| FilenameSanitizer.NothingLeftExactly | platform/windows/gsr_filesystem_win32.c:73-76 | the call fails exactly when the part looked at is all dots and spaces |
| FilenameSanitizer.SanitizingTwiceIsSanitizingOnce | platform/windows/gsr_filesystem_win32.c:37-82 | sanitizing a result that fits the buffer changes nothing |
| FilenameSanitizer.ResultFitsExactly | platform/windows/gsr_filesystem_win32.c:63-78 | the local buffer is large enough exactly when no prefix is added to a name that fills it, in particular for names of at most 258 bytes |
| FilenameSanitizer.PrefixOverflows | platform/windows/gsr_filesystem_win32.c:67-78 | a device name with a long extension for which it is not |
| FilenameSanitizer.CroppedIsOpenableExactly | platform/windows/gsr_filesystem_win32.c:78-80 | what fits the caller's buffer can be opened if and only if it is the whole name, or is cut behind a character that may end a name and is not a device name |
| FilenameSanitizer.CropMakesADeviceName | platform/windows/gsr_filesystem_win32.c:78-80 | "console" in a buffer of four bytes comes out as a device name |
| FilenameSanitizer.NameIsReserved | platform/windows/gsr_filesystem_win32.c:20-35 | true exactly for the 22 device names, ignoring case |
| FilenameSanitizer.Sanitize | platform/windows/gsr_filesystem_win32.c:37-82 | the byte loops, the trimming and the shift by one compute the sanitized name and crop it to the caller's buffer, for every name; the one case in which the terminator lands behind the local buffer is reported |
| Geometry.ScaleKeepAspectRatio | platform/windows/gsr_utils_win32.c:115-136 | the result is at least 1 by 1, lies in the box and touches one of its sides, and its ratio is off by less than one step of the longer source side |
| Geometry.FittedKeepsRatio | platform/windows/gsr_utils_win32.c:115-136 | the bound on the ratio, including the sides that are raised to 1 |
| Geometry.WidthIsUsedExactly | platform/windows/gsr_utils_win32.c:115-136 | the whole width is used if and only if the height that goes with it, cut to a whole number, fits |
| Geometry.GetTargetPosition | platform/windows/gsr_utils_win32.c:138-166 | the aligned position plus the offset, per axis |
| Geometry.PlacedInsideExactly | platform/windows/gsr_utils_win32.c:138-166 | without an offset the output lies inside the video if and only if it fits; it has no margin in front at the start and none behind at the end, and in the centre the margins differ exactly as the odd pixels do |

## Left out

- JSON parsing and escaping in the IPC server: parsing is an arbitrary function from the line to an id, a name and a complaint; a reply is a value, not a text, and reply buffers that are too small count as failed writes.
- Error and reply texts cut by snprintf; the file path of a completed request is cropped as in the source.
- IPC: completions land before a request's slot is looked at, while its handler runs, and before each section of a pass; these are all the points where the server looks at the slots.
- IPC: the arguments that a handler is called with, and which handler has which name.
- IPC: ipc_close from inside the thread when the listen pipe cannot be re-armed, a failed wait, failed allocations, and the client's connect retries.
- IpcRuns.EveryRunKeepsTheInvariant: assumes, like the other theorems about runs, that the operating system does not hand out the handle of a pipe that is still open.
- IEEE rounding: float and double samples, positions and clocks are real numbers, so exactness of 32-bit samples and the count of output frames hold in exact arithmetic. Reading the four bytes of an IEEE sample is an arbitrary function.
- AudioCapture.Device.ConvertChunk: a mix rate of zero, and an empty chunk while resampling, are not modelled: both divide by zero in the source, and the capture loop passes no empty chunk (platform/windows/audio_wasapi.c:560).
- AudioCapture: failed allocations, and the capture thread's packet loop. Frames with more than two output channels are not modelled; the engine asks for stereo.
- UI config: file and directory errors, warnings, the list-of-strings option type that no option uses, and Config::operator==, which ignores track names; the round trip here is equality of everything including the names. A number too large for sscanf's target wraps.
- ConfigSchema: text-mode translation of line ends by the C runtime, NUL bytes in a file, failed allocations and file errors; a null default or value is the empty string.
- SafeVectorClass.SafeVector.ReplaceItem: reports an item that is not there and says nothing of what the source does after dereferencing null.
- SafeVectorClass.SafeVector.Count: answers with the count itself; size() casts it to size_t, so a negative one comes out huge.
- SafeVector: references to items that a push invalidates, the deletion of widgets, and int overflow.
- Clipboard: X11 calls, the pending clear after another program takes the selection, which would lock a held mutex again, and an unreadable new file.
- DXGI: start and teardown, textures and damage, and the frame that stays acquired when it is not a texture.
- Overlay: widgets, notifications other than the announced duration, LEDs, region selection, the arguments of the engine, the 15 second wait in the destructor, orders that the control process fails to deliver, and time spent inside a handler.
- UI command pipe: which handler a line calls, pipe creation and failures to listen again, and the POSIX half.
- FilenameSanitizer.Sanitize: reports the overflow of the local buffer and says nothing about the result then; a null name or buffer is not modelled.
- Geometry.ScaleKeepAspectRatio: a scaled length beyond the range of int, which the conversion leaves undefined in the source, is not cut off.
- GUI, hotkeys, capture sources, codecs, upstream recorder code and one-branch lookup tables, which would only add easy members.
