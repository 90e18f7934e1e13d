# A verified model of the cocktail station

This project models the state machines and transformations at the core of the station in Dafny and proves what they
promise, for every input, every run and every interleaving. `dafny verify dfyconfig.toml` checks all of it.

| file | what it models |
|---|---|
| `Frames.dfy` | the wire frame of the pod protocol, and what the read loop needs from a frame reader |
| `ReadLoop.dfy` | the session's receive buffer, a growing array that cuts the byte stream into frames |
| `Dispatch.dfy` | the dispatch map from 8-bit transaction ids to response channels, and the registrations behind it |
| `Session.dfy` | the read loop and the dispatch map together, from bytes to channels |
| `Exchanges.dfy` | request/response exchanges over a session, with ids that wrap around |
| `RunAll.dfy` | `run_all`, behind `join_all` and `gather_all` |
| `ExecuteCommands.dfy` | the execution of a recipe on top of `join_all`, with its status updates |
| `AwaitableBool.dfy` | the flag that coroutines wait on |
| `WaitHistory.dfy` | what becomes of each wait on the flag, told from the events alone |
| `Popup.dfy` | the manual-command popup, raced for by the io thread and the Slint thread |
| `Recipe.dfy`, `RecipeScale.dfy`, `RecipeBoost.dfy` | the command tree, scaling and boosting |
| `SerialText.dfy` | the line assembler and the removal of escape sequences (control sequences of section 5.4 of ECMA-48) |
| `Discovery.dfy` | the tables of open pod ports, driven by scan, add and remove events |
| `PodUi.dfy` | the pod list of the user interface, updated through the Slint event queue |
| `Sequences.dfy` | filtering, used where the program erases from vectors |
| `VolumeLists.dfy`, `Glasses.dfy` | sorted volume lists, the glass store and the list that mirrors it |
| `OperatorAuth.dfy` | the operator PIN with its lockout |

A component that changes its fields in place is a class. The methods of `PodProtocolSession`, `RunAllFrame`, `Execution`,
`Flag`, `PopupOperation`, `StationStateBridge` and `Authenticator`, but for the helpers they call, are proved to take
exactly one step of a transition function on values (`View() == Step(old(View()), …)`), and those of `DiscoveryState` one step of a transition relation; the
lemmas prove what every run of these steps keeps. The methods of `ReceiveBuffer`, `PortTable`, `Claim`, `LineAssembler`,
`PodUiModel`, `GlassStore`, `VolumeModel`, `GlassListModel` and `GlassContextBridge` are proved against functions or
predicates on their contents before and after. Concurrency is the free choice of the next event. Where a property needs an
assumption about the surroundings, the assumption is a named predicate on the run, and a lemma shows what goes wrong
without it.

## How the surroundings enter the model

- The shared protocol schema is not part of this model. `Frames.Wire` takes from it, as parameters, the byte order, the
  checksum function, which payloads a message id accepts and how far the reader moves over bytes that it rejects. The
  read loop is proved for any reader that is `Lawful`, and the frame reader is proved to be one.
- The serial stream chooses the size of every read and when reading fails. `ReceiveBuffer.Run` makes at most `rounds`
  reads, for any number of rounds.
- Channels, registrations, waits and pod states are named by numbers where the program has pointers.
- Volumes are exact real numbers of millilitres. Times are integers. Counters do not overflow, except the 8-bit
  transaction id, which wraps around as in the program.
- `Discovery.OneTtyPerDevnode`: a devnode names one tty between its add and its remove
  (without: `Discovery.SharedDevnodeLeavesEntry`).
- `PodUi.Enabled`: a pod state gets its id once, the ids of live pod states are distinct, and an info that is sent again
  has counts that the row can follow (without the first part: `PodUi.RenamedRowStays`; without the second: `PodUi.SharedIdLosesRow`; without the third:
  `PodUi.ResentSplitIsStale`). These are exactly the runs on which user interface and pods agree throughout
  (`PodUi.AgreesExactly`).
- `Exchanges.WindowKept`: no exchange outlives 255 further generated ids (without: `Exchanges.WindowIsReached`).
- `RunAll.ObeyingRun` and `ExecuteCommands.ObeyingRun`: a task ends stopped only when it is asked to (without:
  `RunAll.UnaskedStopIsPassedOver`, `ExecuteCommands.UnaskedStopIsPassedOver`). Only the results that name it use it.

## Where the code and its documentation disagree

`LineAssembler::feed` is documented to strip a trailing `\r` from every line, a forced flush included
(`cocktail-maker/serial.cppm:352-354`); the code does not strip it on a forced flush (`:377-380`). The model follows the
code. `SerialText.FlushKeepsCr` says exactly when a `\r` stays and `SerialText.FlushedCrExample` gives an input.

## Where a plausible claim fails

Each of these has an exact condition, proved for all inputs, and an input on which the claim fails.

| claim | holds exactly when | fails for |
|---|---|---|
| a registered response keeps its entry whichever registration is destroyed next | the id had no entry (`Dispatch.SafeExactlyWhenFresh`) | `Dispatch.SharedIdLosesResponse` |
| the next exchange overlaps with the others without anybody losing an entry, whichever is over first | no exchange that still waits is exactly 256 ids older (`Exchanges.OverlapIsSafeExactly`) | `Exchanges.WindowIsReached` |
| a message that is legal on the wire is handed over once it has arrived | its frame has at most 65536 bytes (`ReadLoop.ReceiveBuffer.ReceiveFirst`) | `ReadLoop.LongMessageExample` |
| a successful `run_all` means a value from every child | no child stops unasked (`RunAll.SuccessMeansValues`) | `RunAll.UnaskedStopIsPassedOver` |
| a successful recipe has reported every command as finished | no command stops unasked (`ExecuteCommands.SuccessIsReported`) | `ExecuteCommands.UnaskedStopIsPassedOver` |
| every emitted line lacks its trailing carriage return | no forced flush ends with one (`SerialText.FlushKeepsCr`) | `SerialText.FlushedCrExample` |
| chunking does not change the lines | no chunk boundary leaves more than the limit unterminated (`SerialText.ChunkingIsInvisibleWithinLimit`) | `SerialText.ChunkingShowsExample` |
| boosting changes a recipe that counts as boostable | both categories have volume (`RecipeBoost.ChangedExactlyWithBothVolumes`), which positive volumes ensure (`RecipeBoost.ChangedExactlyWhenBoostable`) | `RecipeBoost.BoostableUnchangedExample` |
| a glass is shown with the stored list of volumes | that list is sorted (`Glasses.VolumeModel.constructor`) | `Glasses.UnsortedIsShownOtherwise` |
| the row of a pod survives the destruction of another | their ids differ (`PodUi.SharedIdLosesRow`) | `PodUi.SharedIdExample` |
| an info comes to be shown | no other live pod has its id, and the pod had no id yet or keeps its id while the number of dispensers changes or that of pumps does not (`PodUi.InfoIsShownExactly`) | `PodUi.ResentSplitIsStale`, `PodUi.RenamedRowExample` |
| removing a devnode leaves no entry for it | at most one entry has it (`Discovery.ReleaseIsExactWhenUnique`) | `Discovery.SharedDevnodeLeavesEntry` |

## Model

| member | source | states |
|---|---|---|
| Frames.DroppedBounds | cocktail-maker/pod_protocol_session.cpp:217-243 | A decided read drops what the reader consumed, or one byte if that is nothing: so at least one byte, none that is not buffered, and the inner loop makes progress |
| Frames.DrainAppend | cocktail-maker/pod_protocol_session.cpp:204-244 | Parsing a stream in two cuts hands over the same messages and leaves the same tail as parsing it at once |
| Frames.DrainFrames | cocktail-maker/pod_protocol_session.cpp:206-244 | Frames back to back come out as the messages that went in, in order, and what follows is parsed as if alone |
| Frames.CutFrames | cocktail-maker/pod_protocol_session.cpp:206-244 | A stream of frames cut anywhere yields the messages of the whole frames and keeps the rest byte for byte, less than one frame |
| Frames.Wire.ReadIsLawful | docs/system/modules/ROOT/pages/protocol.adoc:17-50 | The frame reader never changes its mind when more bytes arrive and never claims bytes that are not there |
| Frames.Wire.ReadIsStable | docs/system/modules/ROOT/pages/protocol.adoc:17-50 | A decided frame is decided the same way whatever follows it |
| Frames.Wire.CoveredLayout | docs/system/modules/ROOT/pages/protocol.adoc:29-48 | Size counts what follows it, and MsgId, TransactionId and payload lie behind it in this order |
| Frames.Wire.ReadEncoded | docs/system/modules/ROOT/pages/protocol.adoc:17-50 | Round trip: reading gives back the message that was framed, whatever follows it, and consumes its frame |
| Frames.Wire.ByteOrder | docs/system/modules/ROOT/pages/protocol.adoc:24-36 | A 16-bit field takes two bytes, the high one first exactly if the byte order is big-endian |
| Frames.Wire.FrameLayout | docs/system/modules/ROOT/pages/protocol.adoc:17-48 | The bytes of a frame, each in its place: 0xabcd, Size, MsgId, TransactionId, payload, and the checksum of all from Size through payload |
| Frames.Wire.ReadIsEncoded | docs/system/modules/ROOT/pages/protocol.adoc:17-50 | Converse of the round trip, for all bytes: what is read as a message is the frame of that message, its checksum included |
| Frames.Wire.ReadExactly | docs/system/modules/ROOT/pages/protocol.adoc:17-50 | A message is read if and only if the bytes begin with its frame |
| Frames.Wire.WaitsExactly | docs/system/modules/ROOT/pages/protocol.adoc:17-50 | More data is asked for if and only if there are fewer than two bytes, or they begin with the marker and the Size, or some of what it counts, has not arrived |
| Frames.Wire.HandedWereFrames | cocktail-maker/pod_protocol_session.cpp:206-244 | Of any bytes: every message the loop hands over was a frame in them, each behind the one before |
| Frames.Wire.EncodeAllAreFrames | docs/system/modules/ROOT/pages/protocol.adoc:17-50 | What the sender writes are frames the reader recognises |
| ReadLoop.CapacityDoubles | cocktail-maker/pod_protocol_session.cpp:164-194 | Every capacity is 4096 doubled up to four times: between 4096 and 65536, doubled to one again while below 65536 |
| ReadLoop.ByteStream.Read | cocktail-maker/pod_protocol_session.cpp:196-204 | A read targets a non-empty region and returns the next bytes of the input, however many, or fails |
| ReadLoop.DrainOne | cocktail-maker/pod_protocol_session.cpp:210-243 | One round of the inner loop hands over one message or none and leaves the outcome of the whole parse unchanged |
| ReadLoop.DrainMore | cocktail-maker/pod_protocol_session.cpp:187-244 | Parsing goes on where it stopped when more of the input has arrived |
| ReadLoop.ReceiveBuffer.ConsumeFront | cocktail-maker/pod_protocol_session.cpp:169-183 | Moves the rest down in place: the buffered bytes lose exactly their first `count`, or all |
| ReadLoop.ReceiveBuffer.MakeRoom | cocktail-maker/pod_protocol_session.cpp:188-194 | Doubles a full buffer keeping its bytes, so that the next read has room; gives up only when 65536 bytes are buffered |
| ReadLoop.ReceiveBuffer.Store | cocktail-maker/pod_protocol_session.cpp:196-204 | The read bytes arrive behind the valid ones and nothing else changes |
| ReadLoop.ReceiveBuffer.Fill | cocktail-maker/pod_protocol_session.cpp:188-204 | Room and one read: the bytes read arrive behind the valid ones, or the loop ends at the limit or with the failure |
| ReadLoop.ReceiveBuffer.NextFrame | cocktail-maker/pod_protocol_session.cpp:207-243 | One frame read at the front; what it consumed, or one byte, is dropped, and an undecided front stays |
| ReadLoop.ReceiveBuffer.ParseBuffered | cocktail-maker/pod_protocol_session.cpp:206-244 | Terminates, with the messages and the tail of parsing the buffered bytes at once |
| ReadLoop.ReceiveBuffer.Run | cocktail-maker/pod_protocol_session.cpp:162-246 | For any sizes of reads: the messages handed over are those of the consumed input parsed at once and the buffer is exactly the unparsed tail; the limit exit is taken only with 65536 undecided bytes |
| ReadLoop.ReceiveBuffer.RunOnWire | cocktail-maker/pod_protocol_session.cpp:162-246 | On the wire format, for any bytes: the messages handed over stood in the read bytes as frames with their checksums, one behind the other, and the loop ends at the buffer limit only with a synced frame in front whose Size exceeds 65532 |
| ReadLoop.ReceiveBuffer.ReceiveFrames | cocktail-maker/pod_protocol_session.cpp:162-246 | On frames of at most 65536 bytes the loop hands over the messages in order, all of them once everything is read, and never ends at the buffer limit |
| ReadLoop.ReceiveBuffer.ReceiveFirst | cocktail-maker/pod_protocol_session.cpp:162-246 | A frame in front of at most 65536 bytes is handed over first, exactly once it has arrived; a longer one never is, and nothing behind the first 65536 bytes is read |
| ReadLoop.LongMessageExample | docs/system/modules/ROOT/pages/protocol.adoc:29-31 | A message that is legal on the wire and one byte too long for the buffer |
| ReadLoop.DrainRest | cocktail-maker/pod_protocol_session.cpp:213-215 | What stays in the buffer is a tail the reader cannot decide yet |
| ReadLoop.FramesAreDelivered | cocktail-maker/pod_protocol_session.cpp:187-245 | The reference parse of such a stream, cut anywhere: the whole frames in order, and less than 65536 bytes kept |
| ReadLoop.LimitMeansLongFrame | cocktail-maker/pod_protocol_session.cpp:188-192 | With 65536 bytes buffered the reader wants more exactly when the frame in front has a Size above 65532 |
| Dispatch.StepKeepsInv | cocktail-maker/pod_protocol_session.cpp:122-139 | Registering, moving, destroying, delivering, receiving and shutting down keep the session's invariant |
| Dispatch.ReachableIsSafe | cocktail-maker/pod_protocol_session.cpp:226-241 | In every reachable state: sending on dispatch never failed, every entry is an open empty channel of its own id backed by a live registration, and each channel got at most one message, with its id |
| Dispatch.ChannelsAreNotShared | cocktail-maker/pod_protocol_session.cpp:122-130 | No two ids share a channel |
| Dispatch.DestroySparesOthers | cocktail-maker/pod_protocol_session.cpp:264-274 | Destroying a registration removes an entry exactly if it holds that entry's channel, so never a newer one's |
| Dispatch.EntryIffWaiting | cocktail-maker/pod_protocol_session.cpp:122-130 | An id has an entry exactly when a live registration of it still waits for its message |
| Dispatch.FreshRunsAreExact | cocktail-maker/pod_protocol_session.cpp:122-139 | If every registration finds its id free, each waiting registration has an entry of its own in every reachable state, and nobody else has one |
| Dispatch.SharingLosesEntry | cocktail-maker/pod_protocol_session.cpp:264-274 | In every state, a second registration of a waiting id waits without any entry once the first one is destroyed |
| Dispatch.RegisterKeepsEntries | cocktail-maker/pod_protocol_session.cpp:122-130 | Registering alone, shared or not, costs nobody an entry |
| Dispatch.RegisterGivesEntry | cocktail-maker/pod_protocol_session.cpp:122-130 | Whoever registers, for a free id or a taken one, waits and has an entry |
| Dispatch.SafeExactlyWhenFresh | cocktail-maker/pod_protocol_session.cpp:122-130 | After a registration every waiting registration keeps its entry, whichever one is destroyed next, if and only if the id had no entry |
| Dispatch.SharedIdLosesResponse | cocktail-maker/pod_protocol_session.cpp:264-274 | A concrete run in which a waiting registration has lost its entry |
| Dispatch.FirstReplyArrives | cocktail-maker/pod_protocol_session.cpp:226-241 | In every run of session events the channel of a waiting id gets exactly the first message with its id that arrives before its registration is destroyed or the session shut down, and nothing if there is none |
| Dispatch.ReplyWhileWaiting | cocktail-maker/pod_protocol_session.cpp:226-241 | While the wait is not ended that is the first message with the id of all that arrive |
| Dispatch.UnmappedStays | cocktail-maker/pod_protocol_session.cpp:226-241 | A channel that lost its entry, by its message or by the end of its wait, gets nothing more in any run |
| Dispatch.ReceivedOnce | cocktail-maker/pod_protocol_session.cppm:212 | What is received is what was sent, and afterwards the channel is empty in every run |
| Dispatch.QueueClosesOnShutdown | cocktail-maker/pod_protocol_session.cpp:132-139 | In every run the write queue is open until the first shutdown and closed from then on |
| Session.RepliesArrive | cocktail-maker/pod_protocol_session.cpp:226-241 | Whatever the program does to the session in between: when a beginning of the pod's messages has been dispatched, every registration that waits has got nothing or the first message with its id dispatched since, and exactly that, if there is one, once all have been dispatched |
| Session.DispatchBuffered | cocktail-maker/pod_protocol_session.cpp:206-244 | The inner loop leaves the session as delivering, in order, the messages of the buffered bytes parsed at once |
| Session.ReadAndDispatch | cocktail-maker/pod_protocol_session.cpp:162-246 | The whole loop, with any other events on the session during each read: the session's history is an interleaving of those events, in order, with the messages of the consumed input parsed at once, in order; the buffer holds the tail |
| Session.ReceiveAnswers | cocktail-maker/pod_protocol_session.cpp:162-246 | End to end, on frames of at most 65536 bytes with any other events in between: the running loop answers every registration that waits, at every point of its history, as far as the bytes have been read, and never ends at the buffer limit |
| Dispatch.PodProtocolSession.GenerateNewTransactionId | cocktail-maker/pod_protocol_session.cpp:99-102 | The next id, wrapping around after 255, and no other change |
| Dispatch.PodProtocolSession.Handle | cocktail-maker/pod_protocol_session.cpp:99-139 | Any event of the session, by the method that stands for it |
| Dispatch.PodProtocolSession.RegisterResponse | cocktail-maker/pod_protocol_session.cpp:122-130 | Takes the register step: an id without entry gets a new channel, one with an entry shares it |
| Dispatch.PodProtocolSession.MoveRegistration | cocktail-maker/pod_protocol_session.cpp:257-262 | The new registration takes over channel and id, and the old one is detached |
| Dispatch.PodProtocolSession.DestroyRegistration | cocktail-maker/pod_protocol_session.cpp:264-274 | A detached registration changes nothing; an attached one erases the entry only if it still is its own |
| Dispatch.PodProtocolSession.DispatchMessage | cocktail-maker/pod_protocol_session.cpp:226-241 | Erases the entry of the message's id and puts the message into its channel, which is empty and open; without an entry discards it |
| Dispatch.PodProtocolSession.ReceiveFrom | cocktail-maker/pod_protocol_session.cppm:212 | Takes at most one message, with the id the channel was registered for, and leaves the channel empty |
| Dispatch.PodProtocolSession.ShutdownChannels | cocktail-maker/pod_protocol_session.cpp:132-139 | Closes the write queue and every channel in the map, no other, and empties the map |
| Dispatch.PodProtocolSession.CloseMapped | cocktail-maker/pod_protocol_session.cpp:135-137 | The loop closes exactly the channels in the map, in whatever order |
| Exchanges.LiveIdsAreDistinct | cocktail-maker/pod_protocol_session.cpp:99-102 | Within the window two running exchanges have different 8-bit ids |
| Exchanges.ListenIsFresh | cocktail-maker/pod.cpp:117-164 | An exchange that waits on nothing finds its id free, before its second receive too |
| Exchanges.PendingIdsAreDistinct | cocktail-maker/pod_protocol_session.cpp:99-130 | If no exchange outlives 255 further ids, in every reachable state running ids are pairwise distinct, each waiting registration has an entry of its own, and nobody else has one |
| Exchanges.WindowIsTight | cocktail-maker/pod_protocol_session.cpp:99-102 | If one exchange still waits at the 256th further id, the newest exchange waits without an entry when that one is over |
| Exchanges.OverlapIsSafeExactly | cocktail-maker/pod_protocol_session.cpp:99-130 | The next exchange overlaps with all others without anybody losing an entry, whichever is over first, if and only if no exchange that still waits is exactly 256 ids older |
| Exchanges.WindowIsReached | cocktail-maker/pod_protocol_session.cpp:99-102 | A run from the start that keeps the window through 255 further ids and gets there with the next |
| RunAll.JoinedScopeIsEmpty | core/async_algorithms.cpp:29-48 | When the scope's counter is zero at the join, every task was spawned and has ended |
| RunAll.StepKeepsScope | core/async_algorithms.cpp:29-48 | The scope's counter is the number of running children, through every step |
| RunAll.RunAllOutcome | core/async_algorithms.cpp:18-54 | For every interleaving: ends only after all children were spawned and ended, with the first error in completion order or else stopped exactly if the caller was; siblings are asked to stop only by the caller or, under `stop_on_error`, by an error |
| RunAll.SuccessMeansValues | core/async_algorithms.cpp:47-53 | On success every child completed with a value if and only if no child stopped unasked |
| RunAll.UnaskedStopIsPassedOver | core/async_algorithms.cpp:47-53 | A run that ends in success although its child stopped |
| RunAll.GatherAllStopsNobody | core/async_algorithms.cpp:64-69 | Without a stop of the caller `gather_all` asks nobody to stop, whatever fails |
| RunAll.RunAllFrame.constructor | core/async_algorithms.cpp:23-27 | A caller that is already stopped is forwarded to the children at once |
| RunAll.RunAllFrame.SpawnNext | core/async_algorithms.cpp:33-45 | One more child runs and is counted by the scope |
| RunAll.RunAllFrame.OnAllSpawned | core/async_algorithms.cpp:47-48 | The join is awaited only after the spawn loop |
| RunAll.RunAllFrame.OnParentStop | core/async_algorithms.cpp:25-27 | A stop of the caller reaches the children |
| RunAll.RunAllFrame.OnChildCompleted | core/async_algorithms.cpp:35-42 | The scope counts one less; keeps the first error only, and asks the siblings to stop only under `stop_on_error` |
| RunAll.RunAllFrame.OnJoined | core/async_algorithms.cpp:47-53 | The result after the join: the first error, else stopped if the caller was, else success |
| ExecuteCommands.RecipeIsReported | cocktail-maker/execute_recipe.cpp:12-43 | For every recipe and interleaving: updates of an item precede those of the next, in progress precedes finished and each comes at most once, nothing is reported of items not reached, past items are fully reported if tasks stop only when asked, the recipe fails with its first failure, every failing task belongs to the item at which the run ends, and success means that all items are past |
| ExecuteCommands.FailureIsLast | cocktail-maker/execute_recipe.cpp:29-42 | After a failure no later item is ever entered |
| ExecuteCommands.StoppedWasAsked | cocktail-maker/execute_recipe.cpp:12-43 | A recipe ends stopped only if its caller was stopped, before or during it, or one of its commands ended stopped |
| ExecuteCommands.NextIsEnabled | cocktail-maker/execute_recipe.cpp:29-42 | A recipe that is not over is never stuck: something other than a stop or a failure can happen next |
| ExecuteCommands.CanEnd | cocktail-maker/execute_recipe.cpp:29-42 | From every state there is a run without further stops or failures to the end, and to success if there were none before |
| ExecuteCommands.RecipeCanSucceed | cocktail-maker/execute_recipe.cpp:12-43 | Every recipe has a run without stops or failures that ends in success with every command that does something reported in progress and then finished |
| ExecuteCommands.PastIsReported | cocktail-maker/execute_recipe.cpp:15-39 | If tasks stop only when asked, every command of a past item was reported in progress and then finished, once each |
| ExecuteCommands.SuccessIsReported | cocktail-maker/execute_recipe.cpp:12-43 | A successful recipe has reported every command that does something in progress and then finished, once each, if and only if none stopped unasked |
| ExecuteCommands.UnaskedStopIsPassedOver | cocktail-maker/execute_recipe.cpp:32-39 | A recipe that succeeds without a report of its only command |
| ExecuteCommands.RunFailure | cocktail-maker/execute_recipe.cpp:29-42 | The failure the recipe ends with is the first failure of any of its tasks |
| ExecuteCommands.JoinedWithValue | cocktail-maker/execute_recipe.cpp:32-39 | A group whose tasks stop only when asked and that is joined with success has finished every one of its commands |
| ExecuteCommands.StepKeepsOrder | cocktail-maker/execute_recipe.cpp:29-42 | Every update names a command of an item already reached, and items are reported in order |
| ExecuteCommands.StepKeepsPlace | cocktail-maker/execute_recipe.cpp:15-27 | What is reported of a command matches how far its task has come |
| ExecuteCommands.Execution.UpdateCommandStatus | cocktail-maker/execute_recipe.cpp:15-27 | Reports a command that does something, and nothing for an empty one |
| ExecuteCommands.Execution.EnterItem | cocktail-maker/execute_recipe.cpp:29-41 | The loop head: awaits a command directly, a group under `join_all`, or ends the recipe |
| ExecuteCommands.Execution.SpawnNext | cocktail-maker/execute_recipe.cpp:35-38 | The next task of a group is spawned |
| ExecuteCommands.Execution.OnAllSpawned | cocktail-maker/execute_recipe.cpp:38 | The group's join is awaited |
| ExecuteCommands.Execution.OnStopRequested | cocktail-maker/execute_recipe.cpp:30-38 | A stop of the caller reaches a group that is under way |
| ExecuteCommands.Execution.StartCommand | cocktail-maker/execute_recipe.cpp:15-24 | A task reports in progress when it starts |
| ExecuteCommands.Execution.CompleteCommand | cocktail-maker/execute_recipe.cpp:18-25 | A task reports finished only on success; a sequential failure ends the recipe, one in a group goes to the group |
| ExecuteCommands.Execution.JoinGroup | cocktail-maker/execute_recipe.cpp:38 | The next item is entered only after a successful join |
| AwaitableBool.StepKeepsOccurrences | core/awaitable_bool.cppm:34-50 | Conservation: each started wait is in exactly one place, once: queued at the flag, posted, or completed |
| AwaitableBool.ReachableIsOrderly | core/awaitable_bool.cppm:34-121 | In every run a true flag has no queued waiters and each wait completes at most once |
| AwaitableBool.WokenEndsWithValue | core/awaitable_bool.cppm:104-115 | A posted wake-up keeps its turn through stops and resets and completes with a value exactly then |
| AwaitableBool.PendingWaitIsWoken | core/awaitable_bool.cppm:34-50 | A wait pending when the flag goes to true never ends stopped, and ends with a value once the executor has got to it |
| AwaitableBool.StoppedWaitIsUnqueued | core/awaitable_bool.cppm:111-120 | A stop before that ends the wait at once, stopped, unqueued and for good |
| WaitHistory.WaitsAsTold | core/awaitable_bool.cppm:34-121 | For every run, from its events alone: the flag has the value last assigned; a started wait is pending exactly if the flag was false and no stop was asked for when it started, and neither came since; it has ended or is posted to end with a value exactly if the flag was true when it started or became true while it was pending; and it has ended stopped exactly if a stop came first |
| WaitHistory.FatesDiffer | core/awaitable_bool.cppm:89-120 | Of the three fates that the events tell, a wait has at most one |
| AwaitableBool.Flag.Set | core/awaitable_bool.cppm:34-50 | Takes the assign step: only false to true posts wake-ups, for all waiters in order |
| AwaitableBool.Flag.WakeAll | core/awaitable_bool.cppm:40-43 | The loop marks every waiter as woken and posts it, in the order of the queue |
| AwaitableBool.Flag.StartWait | core/awaitable_bool.cppm:89-102 | Completes at once if the flag is true or else the wait was stopped before, and queues otherwise |
| AwaitableBool.Flag.Wake | core/awaitable_bool.cppm:104-109 | The posted wake-up in front completes with a value |
| AwaitableBool.Flag.CompleteStopped | core/awaitable_bool.cppm:111-120 | Leaves a woken wait to its wake-up; otherwise unqueues it and completes it as stopped |
| Popup.StepKeepsInv | gui/src/async_ui.cppm:40-143 | Whoever claims the completion holds it in one place at a time, and the closing task is queued behind the opening task |
| Popup.PopupCompletesOnce | gui/src/async_ui.cppm:40-69 | Under every interleaving the receiver completes at most once, only on the io thread, a posted completion never touches a completed operation, and once completed with the queue drained the popup is closed and its callback cleared |
| Popup.PopupOpens | gui/src/async_ui.cppm:101-111 | In every run: once the Slint thread has run its tasks, an operation that nobody has claimed or completed shows its popup with the callback set, so that it can be confirmed |
| Popup.CanSettle | gui/src/async_ui.cppm:52-68 | From every state the threads come to rest by their own steps, within a number of steps that the state bounds |
| Popup.DecisionIsFinal | gui/src/async_ui.cppm:128-143 | A decided outcome stays the only one that can be delivered |
| Popup.ClaimDecides | gui/src/async_ui.cppm:38-48 | The thread that claims first decides the outcome, whatever the other one does later |
| Popup.EndsAsDecided | gui/src/async_ui.cppm:61-143 | An operation that nobody has claimed ends with a value once confirmed, and as stopped once that is asked for, by the threads' own steps, and its popup is closed |
| Popup.PopupOperation.ClaimCompletion | gui/src/async_ui.cppm:40-48 | Exactly the first caller wins |
| Popup.PopupOperation.StartOperation | gui/src/async_ui.cppm:91-112 | Completes at once if stopped before; otherwise installs the stop callback and queues the opening of the popup |
| Popup.PopupOperation.OnStopRequested | gui/src/async_ui.cppm:135-139 | The stop callback claims, and goes on only if it won |
| Popup.PopupOperation.FinishStopped | gui/src/async_ui.cppm:140-142 | The winner queues the closing task and then completes as stopped |
| Popup.PopupOperation.FinishConfirmed | gui/src/async_ui.cppm:128-133 | The posted completion resets the stop callback and completes with a value |
| Popup.PopupOperation.RunFrontTask | gui/src/async_ui.cppm:102-108 | A popup whose operation was completed before is not opened |
| Popup.PopupOperation.ContinueOnSlint | gui/src/async_ui.cppm:52-68 | The remaining steps of opening, closing and confirming, one at a time |
| Popup.PopupOperation.OnConfirmed | gui/src/async_ui.cppm:61-65 | Confirming goes on only if it won the claim |
| Recipe.FoldLeaves | cocktail-maker/recipe_boost.cppm:27-47 | The fold over the nested tree is the fold over its commands from left to right |
| Recipe.MapCommandsAt | cocktail-maker/recipe_boost.cppm:128-152 | Each item of the transformed tree is the item in its place with its commands transformed |
| Recipe.MapTwice | cocktail-maker/recipe_scale.cppm:27-51 | Two passes over the tree are one pass with the composed function |
| Recipe.MapCommandsFixed | cocktail-maker/recipe_boost.cppm:128-152 | A pass leaves the tree unchanged if and only if it leaves every command unchanged |
| Recipe.TotalMapped | cocktail-maker/recipe_scale.cppm:27-51 | An additive change of every volume changes the total volume in the same way |
| RecipeScale.ScaledTotal | cocktail-maker/recipe_scale.cppm:73-91 | The scaled recipe dispenses its total times target over nominal, or its total in the near-identity case |
| RecipeScale.OrdinaryTargetIsScaled | cocktail-maker/recipe_scale.cppm:73-91 | For a target that differs from the nominal volume by a thousandth or more, each dispensed volume is multiplied by target over nominal, and nothing else differs |
| RecipeScale.ScaleKeepsShape | cocktail-maker/recipe_scale.cppm:53-58 | Scaling changes nothing but the volumes of dispense commands |
| RecipeScale.ScaleKeepsNonNegative | cocktail-maker/recipe_scale.cppm:73-91 | Scaling keeps volumes non-negative |
| RecipeBoost.VolumesAreTotals | cocktail-maker/recipe_boost.cppm:49-71 | The accumulated volumes are the sums over all commands of each category |
| RecipeBoost.BoostableHasBoth | cocktail-maker/recipe_boost.cppm:189-227 | The check is true if and only if the tree has a boostable and a reducible command, in spite of stopping early |
| RecipeBoost.BoostableHasBothKinds | cocktail-maker/recipe_boost.cppm:189-227 | The same by what the store says of each ingredient |
| RecipeBoost.FactorsShift | cocktail-maker/recipe_boost.cppm:73-102 | The two factors move the share p between the categories and keep their sum |
| RecipeBoost.BoostConserves | cocktail-maker/recipe_boost.cppm:156-187 | Boosting conserves the total volume and moves exactly the share p of the reducible, or -p of the boostable, volume |
| RecipeBoost.BoostMovesShare | cocktail-maker/recipe_boost.cppm:156-187 | By what the store says of each ingredient: the boostable volume grows by the share p of the reducible, which shrinks by as much, or for a negative p the other way; nothing moves to where there is nothing |
| RecipeBoost.WholePercentMoves | cocktail-maker/recipe_boost.cppm:170-187 | The same for every whole percent, none of which is too small to count |
| RecipeBoost.BoostLeavesOthers | cocktail-maker/recipe_boost.cppm:104-126 | Every command that dispenses what the store calls neither boostable nor reducible, or does not know, stays as it was, in its place |
| RecipeBoost.BoostKeepsRest | cocktail-maker/recipe_boost.cppm:104-152 | Boosting keeps the tree, ids and all fixed, unknown and manual commands, and keeps volumes non-negative |
| RecipeBoost.BoostAndScaleCommute | cocktail-maker/recipe_scale.cppm:60-64 | Scaling before or after boosting gives the same tree, for all volumes, boosts and targets, the early returns included |
| RecipeBoost.GlassDoesNotOverflow | gui/src/process_context_bridge.cpp:398-399 | A recipe of at most its nominal volume, scaled and then boosted, dispenses at most the target, plus four epsilon of nominal in the near-identity case only |
| RecipeBoost.ChangedExactlyWithBothVolumes | cocktail-maker/recipe_boost.cppm:170-187 | For non-negative volumes a boost of at least epsilon changes the commands if and only if both categories have volume |
| RecipeBoost.ChangedExactlyWhenBoostable | cocktail-maker/recipe_boost.cppm:170-227 | For positive volumes a boost of at least epsilon changes the commands if and only if the recipe is boostable |
| RecipeBoost.BoostableUnchangedExample | cocktail-maker/recipe_boost.cppm:170-227 | A recipe that counts as boostable and is left unchanged by a boost of 50 percent |
| SerialText.CutAppend | cocktail-maker/serial.cppm:362-375 | Cutting a text into lines in two steps is cutting it at once |
| SerialText.PendingIsBounded | cocktail-maker/serial.cppm:377-380 | In every run the held-back text has no newline and is within the limit |
| SerialText.FlushKeepsCr | cocktail-maker/serial.cppm:351-381 | Every emitted line lacks its trailing carriage return if and only if no forced flush ends with one |
| SerialText.LimitIs | cocktail-maker/serial.cppm:377-380 | An unterminated line of the pod's log is held back up to 4096 characters and flushed beyond |
| SerialText.FlushedCrExample | cocktail-maker/serial.cppm:377-380 | At the limit of 4096 a carriage return that stays |
| SerialText.ChunkingIsInvisibleWithinLimit | cocktail-maker/serial.cppm:359-381 | The emitted lines are those of the whole text if and only if no chunk boundary leaves more than the limit unterminated |
| SerialText.ChunkingShowsExample | cocktail-maker/serial.cppm:359-381 | At the limit of 4096 a chunking that changes the lines |
| SerialText.JoinedLinesComeBack | cocktail-maker/serial.cppm:359-381 | Round trip: lines joined with either line ending come back from every chunking whose boundaries leave no more than the limit unterminated |
| SerialText.LineAssembler.FindNewline | cocktail-maker/serial.cppm:365 | The first newline from a position on, or the end |
| SerialText.LineAssembler.TakeLines | cocktail-maker/serial.cppm:364-375 | The loop emits exactly the terminated lines, each without its carriage return, and consumes up to the last newline |
| SerialText.LineAssembler.Feed | cocktail-maker/serial.cppm:359-381 | Emits the lines of held-back text and chunk, flushes an overlong rest, and holds back the rest otherwise |
| SerialText.StrippedIsPlain | cocktail-maker/serial.cppm:268-270 | No escape character is left, and a text is changed if and only if it has one, so the shortcut is right |
| SerialText.StrippedRendering | cocktail-maker/serial.cppm:259-297 | Round trip: stripping a rendering of text and control sequences gives back the text, where a sequence is an escape character, `[`, bytes from 0x20 to 0x3f and a byte from 0x40 to 0x7e |
| SerialText.SkipParameters | cocktail-maker/serial.cppm:289-292 | The end of the run of parameter bytes |
| SerialText.StripOne | cocktail-maker/serial.cppm:278-294 | One round of the loop emits what the stripped rest begins with, and makes progress |
| SerialText.StripAnsi | cocktail-maker/serial.cppm:266-298 | The loop computes the stripped text |
| Discovery.TableIsHistory | cocktail-maker/serial.cpp:265-371 | Over all event sequences with arbitrary open failures a pod is in a table if and only if an event opened its port and that devnode was not removed since; a port that is seen is opened if and only if it can be and is not open, so every earlier opening of it was removed |
| Discovery.PodPortIs | cocktail-maker/serial.cppm:94-138 | The protocol and the log port of a pod by vendor, product and interface name, or by interface number exactly where there is no name; the identity is the serial, or the devnode where there is none |
| Discovery.OneTableHoldsDevnode | cocktail-maker/serial.cpp:365-370 | Protocol and log table never have an open port at the same devnode |
| Discovery.ReleaseIsExact | cocktail-maker/serial.cppm:222-232 | Removing a devnode takes away exactly the pod held there, so the search order does not matter |
| Discovery.ReleaseIsExactWhenUnique | cocktail-maker/serial.cppm:222-232 | A removal leaves no entry for the devnode behind if and only if at most one had it |
| Discovery.SharedDevnodeLeavesEntry | cocktail-maker/serial.cppm:222-232 | A run in which a pod stays in the table although its devnode is gone |
| Discovery.PortTable.StakeClaim | cocktail-maker/serial.cppm:208-215 | Refuses an identity that has an entry, committed or not, and otherwise reserves it |
| Discovery.PortTable.ReleaseByDevnode | cocktail-maker/serial.cppm:222-232 | Removes one entry with the devnode if there is one, and otherwise nothing |
| Discovery.Claim.Commit | cocktail-maker/serial.cppm:183-187 | The claim lets go of its table |
| Discovery.Claim.Drop | cocktail-maker/serial.cppm:176-181 | An uncommitted claim releases its entry, a committed one changes nothing |
| Discovery.DiscoveryState.OpenPort | cocktail-maker/serial.cpp:265-341 | Opens a port exactly if the pod had no entry and opening works; a failure leaves the table as it was |
| Discovery.DiscoveryState.HandlePort | cocktail-maker/serial.cpp:344-352 | Takes the step of a seen tty, in the table of its role only |
| Discovery.DiscoveryState.ForgetRemovedPort | cocktail-maker/serial.cpp:358-371 | Takes the step of a vanished devnode, in both tables |
| PodUi.UpdateIsExpected | gui/src/station_state_bridge.cpp:88-139 | Applying a pod's update brings the rows from its old data to its new data, for a first id, and for the same id with counts the row can follow |
| PodUi.RemoveIsExpected | gui/src/station_state_bridge.cpp:141-156 | Applying a removal takes away exactly the row of the destroyed pod |
| PodUi.StepKeepsInv | gui/src/station_state_bridge.cpp:186-240 | Every change of a pod state and every Slint event keeps the pending events replaying to the expected rows |
| PodUi.UiAgreesWithPods | gui/src/station_state_bridge.cpp:88-240 | In every run the pending events replayed on the rows shown give exactly one row per live pod with an id, in the order of naming, with its latest connection and its pumps and then valves, and none for a destroyed pod |
| PodUi.RowsTellThePods | gui/src/station_state_bridge.cpp:88-240 | The same from the events alone: the live pods with an id, in the order they got it, have one row each and nobody else has one, with the last id and connection, pumps with the first numbers and valves with the rest |
| PodUi.LiveIsAsTold | gui/src/station_state_bridge.cpp:186-211 | A pod state exists between its creation and its destruction, with the last info and the last connection it got |
| PodUi.AgreesExactly | gui/src/station_state_bridge.cpp:88-240 | On any possible run rows and pods agree at every point if and only if each info was a first id that no other live pod has, or the same id with counts the row can follow |
| PodUi.InfoIsShownExactly | gui/src/station_state_bridge.cpp:88-139 | Rows and pods agree after any info for any pod if and only if no other live pod has its id, and the pod had no id yet or keeps its id with counts the row can follow |
| PodUi.ResentSplitIsStale | gui/src/station_state_bridge.cpp:101-117 | A run in which the row keeps an outdated split into pumps and valves |
| PodUi.RenamedRowStays | gui/src/station_state_bridge.cpp:120-155 | The row under a pod's first id outlives the pod that took another id, in every state |
| PodUi.RenamedRowExample | gui/src/station_state_bridge.cpp:120-155 | A run after which no pod is live and a row is shown |
| PodUi.DestroyShows | gui/src/station_state_bridge.cpp:205-211 | The destruction of a pod takes away the rows with its id and no other |
| PodUi.SharedIdLosesRow | gui/src/station_state_bridge.cpp:205-211 | A row with another live pod's id survives the destruction of a pod if and only if their ids differ, in every state |
| PodUi.SharedIdExample | gui/src/station_state_bridge.cpp:205-211 | A run in which a live pod is left without a row |
| PodUi.PodUiModel.BuildDispensers | gui/src/station_state_bridge.cpp:104-115 | The loops list as many dispensers as there are pumps and valves: `Pump` 0 and up, then `Valve` from the number of pumps on |
| PodUi.PodUiModel.Find | gui/src/station_state_bridge.cpp:64-72 | The first row with the id |
| PodUi.PodUiModel.RefreshRow | gui/src/station_state_bridge.cpp:90-119 | Takes over id and connection, and rebuilds the dispensers only if their number does not fit |
| PodUi.PodUiModel.Update | gui/src/station_state_bridge.cpp:88-139 | Refreshes the row in place, appends one for a new pod, and ignores a pod without id |
| PodUi.PodUiModel.RemoveRows | gui/src/station_state_bridge.cpp:141-156 | Removes every row with the id and keeps the order of the others |
| PodUi.StationStateBridge.CreatePodState | gui/src/station_state_bridge.cpp:186-191 | A new pod has no id and no event |
| PodUi.StationStateBridge.UpdateInfo | gui/src/station_state_bridge.cpp:350-356 | Stores the info and queues an update with the data of that moment; rows and pods agree afterwards exactly if the info can come to be shown |
| PodUi.StationStateBridge.UpdateState | gui/src/station_state_bridge.cpp:331-348 | Stores the mapped connection state and queues an update with the data of that moment |
| PodUi.StationStateBridge.DestroyPodState | gui/src/station_state_bridge.cpp:205-211 | Forgets the pod and queues an update and then the removal |
| PodUi.StationStateBridge.RunFrontEvent | gui/src/station_state_bridge.cpp:237-240 | The Slint thread applies the oldest event |
| VolumeLists.LowerBound | gui/src/glass_context_bridge.cppm:77 | The first position whose volume is not less |
| VolumeLists.Find | gui/src/glass_context_bridge.cppm:88 | The first position that holds the volume, or the end |
| VolumeLists.InsertedIsIncreasing | cocktail-maker/glass.cpp:34-39 | Inserting keeps the list increasing and adds just that element, and does so if and only if it was not there |
| VolumeLists.ErasedIsIncreasing | cocktail-maker/glass.cpp:50-55 | Erasing keeps the list increasing and takes just that element, and does so if and only if it was there |
| VolumeLists.IncreasingIsUnique | cocktail-maker/glass.cpp:257-259 | An increasing list is determined by the set of its elements |
| VolumeLists.SortedIsUnique | gui/src/glass_context_bridge.cppm:59 | A list has only one sorted version |
| VolumeLists.Sort | cocktail-maker/glass.cpp:257 | Sorted, and a permutation |
| VolumeLists.Unique | cocktail-maker/glass.cpp:258 | Of a sorted list the strictly increasing list with the same elements |
| VolumeLists.SortedUnique | cocktail-maker/glass.cpp:257-259 | Strictly increasing with the same elements, for any saved list |
| Glasses.GlassStore.InitGlasses | cocktail-maker/glass.cpp:13-21 | Holds exactly the given ids; each glass has what was saved last for it, cleaned up, or else the volumes of the first given glass of its id; given increasing lists, such as the empty ones of the catalog, all lists are increasing |
| Glasses.GlassStore.LoadActiveVolumes | cocktail-maker/glass.cpp:190-263 | The last saved entry of a known glass replaces its volumes by their increasing list, unknown glasses are skipped, others keep their volumes |
| Glasses.GlassStore.AddActiveVolume | cocktail-maker/glass.cpp:28-42 | True exactly if a known glass lacked the volume; the list gets it in its sorted place |
| Glasses.GlassStore.RemoveActiveVolume | cocktail-maker/glass.cpp:44-58 | True exactly if a known glass had the volume; the list loses it |
| Glasses.VolumesAreSets | cocktail-maker/glass.cpp:28-58 | Each interaction changes a glass's volumes as it would change a set, keeps every list increasing, and touches no other glass |
| Glasses.VolumesAfterAll | cocktail-maker/glass.cpp:28-58 | After any interactions each list is the increasing listing of the volumes at the start, with those last added and without those last removed |
| Glasses.ShownAfterAll | gui/src/glass_context_bridge.cppm:234-247 | After any interactions a glass is in the list, once, if and only if it was there or is known and the last interaction that shows or hides it shows it |
| Glasses.StoreStaysSorted | cocktail-maker/glass.cpp:28-58 | Interactions keep lists sorted, even with duplicates, and the set of glasses as it is |
| Glasses.VolumeModel.constructor | gui/src/glass_context_bridge.cppm:56-60 | Shows a sorted permutation, which equals the given list if and only if that was sorted |
| Glasses.UnsortedIsShownOtherwise | gui/src/glass_context_bridge.cppm:56-60 | A list that is shown in another order than it has |
| Glasses.VolumeModel.Add | gui/src/glass_context_bridge.cppm:75-84 | The same insertion as the store's |
| Glasses.VolumeModel.Remove | gui/src/glass_context_bridge.cppm:86-95 | The same removal as the store's |
| Glasses.GlassListModel.FindIndex | gui/src/glass_context_bridge.cppm:159-166 | The first entry with the id, or the end |
| Glasses.GlassListModel.Add | gui/src/glass_context_bridge.cppm:118-131 | Appends an entry with a model of its own, the sorted version of the list, for a glass not shown yet, and nothing otherwise |
| Glasses.GlassListModel.Remove | gui/src/glass_context_bridge.cppm:133-139 | Erases the entry of that id, if there is one, and keeps the order |
| Glasses.GlassListModel.VolumeModelOf | gui/src/glass_context_bridge.cppm:141-147 | The model of the entry with that id, or none if there is no such entry |
| Glasses.GlassContextBridge.constructor | gui/src/glass_context_bridge.cppm:210-219 | Shows exactly the glasses with active volumes, each by its sorted list, in whatever order the store lists them; the store is mirrored if and only if its lists are sorted |
| Glasses.GlassContextBridge.OnAddGlass | gui/src/glass_context_bridge.cppm:234-242 | Shows a known glass once, mirrored, and ignores an unknown one |
| Glasses.GlassContextBridge.OnRemoveGlass | gui/src/glass_context_bridge.cppm:244-247 | Hides that glass and keeps the others mirrored |
| Glasses.GlassContextBridge.OnAddVolume | gui/src/glass_context_bridge.cppm:249-260 | Store and shown model stay equal, and the store gets the volume |
| Glasses.GlassContextBridge.OnRemoveVolume | gui/src/glass_context_bridge.cppm:262-273 | Store and shown model stay equal, and the store loses the volume |
| Glasses.GlassContextBridge.Run | gui/src/glass_context_bridge.cppm:210-273 | After any sequence of callbacks every shown glass mirrors the store, and store and shown ids are those of the sequence |
| OperatorAuth.HistoryIsKept | gui/src/operator_auth.cppm:34-49 | The state is what the history of verdicts says: the wrong PINs since the last success, and a lockout exactly once they used up the attempts |
| OperatorAuth.GuessingIsSlow | gui/src/operator_auth.cppm:34-54 | Up to time t the wrong PINs compared since the last success are fewer than the allowed attempts, or exceed them by at most one for each full lockout since the first lock |
| OperatorAuth.RemainingAttemptsTell | gui/src/operator_auth.cppm:56-59 | No attempts remain if and only if a lockout began since the last success; before that nothing is refused |
| OperatorAuth.VerdictIs | gui/src/operator_auth.cppm:34-59 | After any attempts, from them and their verdicts: an attempt is refused if and only if a lockout that began since the last success has not ended, and is otherwise right exactly if its hash under the salt is the configured one; the allowed attempts less the wrong PINs since the last success remain, and never fewer than none |
| OperatorAuth.FirstLockIsAnAttempt | gui/src/operator_auth.cppm:44-47 | The first lockout begins at one of the attempts |
| OperatorAuth.BoundIsReached | gui/src/operator_auth.cppm:34-49 | The bound is reached: for every number of lockouts a run that starts at time 0, locks first at time 0 and compares, by the end of that many lockouts, exactly as many wrong PINs as it allows |
| OperatorAuth.Authenticator.Verify | gui/src/operator_auth.cppm:34-49 | True exactly outside a lockout and for a PIN whose hash under the salt is the configured one, which clears the count; inside a lockout false and no change |

## Left out

- The shared protocol schema, its CRC-16 polynomial and resynchronisation after garbage: not part of this model; how far the reader moves on an error is a parameter.
- ReadLoop.ReceiveBuffer.Run: makes at most `rounds` reads, because the loop of the program has no end of its own; what holds after any number of rounds is proved.
- ExecuteCommands.RecipeIsReported: how two commands with equal ids look to a listener is not modelled, since updates are told apart by their place in the recipe.
- PodUi.UiAgreesWithPods: asks for `PodUi.Enabled` at every event, which `PodUi.AgreesExactly` shows to be necessary; the station-ready flag, which is not re-evaluated when a pod is created, is not modelled.
- Glasses.GlassContextBridge.OnAddVolume: asks for sorted lists in the store, as the binary search of the program does. Units are millilitres throughout, so the conversion to litres is not modelled.
- Popup.PopupCompletesOnce: covers one operation; several popups at once share one callback of the user interface.
- Discovery.PortTable.ReleaseByDevnode: any matching entry may be released, where the program takes the first in key order; with one tty per devnode there is at most one.
- Discovery.Claim.Drop: moving and swapping claims is not modelled.
- OperatorAuth.Authenticator.Verify: does not model the overflow of the attempt counter, and the PIN hash is a parameter.
- Stop requests from other threads than the io thread, to `AwaitableBool` and to the popup: the program rules them out.
- The write loop, timeouts and `receive_matching` of the session: a timeout shows in the model only as the destruction of a registration.
- An event that arrives between the acknowledgement and the second receive of an action is discarded; that every event reaches its caller is therefore not claimed.
- Rounding of floating-point volumes: the arithmetic is exact.
- The arithmetic of refilling in `gui/src/maschine_adapter.cpp`, the parsing of log levels, catalogs and configuration files, saving active volumes, logging, registry lookups and the widgets of the user interface: plumbing, or facts of a single branch.
