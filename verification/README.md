# Verified model of the MTB daemon

The daemon drives MTBbus modules through one MTB-USB device. This project models its hard core in Dafny and proves what
that core is for: no command is lost or answered twice whatever fails, bytes cut anywhere on the serial line give the same
messages, a firmware image arrives in the flash as its file describes it, outputs are coalesced without losing an answer,
and a client that leaves takes only its own outputs with it.

| module | models |
|---|---|
| `Basics`, `Commands` | shared types; the commands, their bytes, conflicts and acceptance conditions |
| `Pipeline`, `MtbUsb` | the two command queues as functions on values, and the class that updates them in place |
| `Wire`, `Pairing` | what each command looks like on the line and which message answers which command, in the numbers of the protocol |
| `Ledger`, `PendingQueue`, `Drain`, `Exceptions`, `SendOrder`, `Attempts` | exactly-once completion, shape of the pending buffer, progress, callbacks that throw, order of transmission, when a command is written and given up |
| `Framing` | frames on the serial line and the receive buffer |
| `Firmware`, `FirmwareUpgrade` | firmware images, and the protocol that writes them to a module |
| `OutputCodec`, `OutputQueue`, `OutputModule` | outputs on the bus, coalescing of requests, the module object |
| `Daemon` | owners of outputs over all modules, reset and disconnection of clients |
| `ProdLog` | log files around alerts |
| `ModuleConfig` | configurations on the bus and in JSON |

How to read it:

- A command is a finite tree: the commands its ok callback and its error callback submit are its children. Callbacks
  therefore re-enter the pipeline at the point where the program calls them - before the command is removed when it is
  answered or the port closes, after it when it fails - and recursion ends because trees are finite.
- A submitted command gets a ticket with a fresh number, the counterpart of the address of its heap copy. A write may fail,
  every write reads the clock, and an ok callback may throw after submitting some of its commands; all three are parameters
  (`Port`). Clocks need to be monotone only where a contract says so.
- Classes hold the fields the program updates, and each method is proved to compute a function of the old state. The
  theorems are about those functions, over all sequences of stimuli.
- What a value means on the wire is stated apart from the code that computes it, by constructor and octet (`Wire.Spelling`,
  `Pairing.Answers`, `Pairing.Blames`, `FirmwareUpgrade.LineBurns`), and the code is proved to agree.
- Where the code does not have a property on all inputs, it is proved with its exact condition (`...Iff`), in terms of the
  state and the event just before the step that breaks it, and a lemma exhibits a run from the start that fails:

| property | exact condition | failing run |
|---|---|---|
| one callback call per command | `Exceptions.CalledOnceIff` | `Exceptions.ShortAnswerCallsTwice` |
| transmission in the order of submission | `SendOrder.OrderKeptIff`, `AlwaysInOrderIff` | `SendOrder.BacklogOvertaken` |
| delivery however a stream is cut | `Framing.InStepIffHarmlessCuts` | `Framing.LoneHeaderByteLost` |
| one output command in flight, idle means confirmed | `OutputQueue.RunCoherentIff` | `OutputQueue.BlinkingLosesAnswer`, `BulkResetMissesCommand`, `AbnormalSafeState` |
| broadcast reset equals per-client reset | `Daemon.BroadcastRefinesIff` | `Daemon.ReconfiguredDiffers` |
| an upgrade writes its own addresses | `FirmwareUpgrade.WritesItsBlocksIff` | `FirmwareUpgrade.WrappedAddress` |
| UNI configuration survives the bus | `ModuleConfig.UniBusRoundTripIff` | `ModuleConfig.UniDelayLost` |

## Model

| member | source | states |
|---|---|---|
| Commands.BytesInjective | src/mtbusb/mtbusb-commands.h:60-656 | Two commands with the same bytes on the wire are the same command. |
| Commands.DataInjective | src/mtbusb/mtbusb-commands.h:214-656 | Two bus commands with the same code and data are the same. |
| Wire.EveryWriteSpellsItsCommand | src/mtbusb/mtbusb-send.cpp:5-36 | In every run, the bytes of each write of a ticket are header, length and exactly the octets that spell the command submitted under that ticket; a receiver reads them back as that one message. |
| Wire.BytesSpell | src/mtbusb/mtbusb-commands.h:60-656 | For each of the nineteen commands, the framed bytes are its spelling by constructor: codes, addresses and data in the order of the protocol. |
| Wire.ReadBack | src/mtbusb/mtbusb-receive.cpp:27-47 | Such a line is one complete message, with nothing left over, when its data has at most 126 octets. |
| Wire.RunRegistered | src/mtbusb/mtbusb-send.cpp:21-56 | In every reachable state each queued ticket holds the command it was issued for. |
| Wire.StepIssues | src/mtbusb/mtbusb-receive.cpp:127-142 | While writes succeed, a step submits exactly the commands of the callback it leads to, in their order: of the ok callback when answered, up to the exception if it throws, of the error callback when rejected, given up or in conflict. |
| Pairing.JudgeAcceptsIff | src/mtbusb/mtbusb-commands.h:60-656 | A message completes a pending command if and only if it is the oldest one the message answers, by the numbers of message code, module, bus code and data length; no other command is completed. |
| Pairing.JudgeRejectsIff | src/mtbusb/mtbusb-receive.cpp:235-282 | A message fails a pending command if and only if it is the oldest one it reports an error about: no response from that module to that command code (error 0x12), or the error code the module itself sends. |
| Pairing.SameAnswers | src/mtbusb/mtbusb-commands.h:60-656 | The acceptance tests of the nineteen commands agree with the table of answers. |
| Pipeline.First | src/mtbusb/mtbusb-receive.cpp:127-142 | The search in the pending buffer finds the oldest match, and fails only when there is none. |
| Pipeline.WriteExtends | src/mtbusb/mtbusb-send.cpp:21-36 | A write, and whatever its error callback submits when it fails, only appends to both queues and to the history. |
| Pipeline.SubmitExtends | src/mtbusb/mtbusb-send.cpp:38-49 | Submitting only appends, and leaves the pending buffer alone when there is a backlog. |
| Pipeline.SubmitAllExtends | src/mtbusb/mtbusb-receive.cpp:127-142 | A callback that submits commands, with all that follows from them, only appends: positions in the queues stay valid across it. |
| Pipeline.SubmitLoad | src/mtbusb/mtbusb-send.cpp:38-49 | Submitting raises the work left on a silent link by at most the weight of the command tree. |
| Pipeline.AdmitLoad | src/mtbusb/mtbusb-send.cpp:38-56 | Sending or queueing a ticket raises the work left by at most its weight, whether or not it bypasses the backlog. |
| Pipeline.WriteLoad | src/mtbusb/mtbusb-send.cpp:21-36 | A write raises the work left by at most the transmissions and error follow-ups still possible, also when it fails and the error callback sends more. |
| Pipeline.SubmitAllLoad | src/mtbusb/mtbusb-send.cpp:21-49 | The same for all commands an error callback submits. |
| Pipeline.ClosePendingLoad | src/mtbusb/mtbusb.cpp:29-32 | Each round of the first closing loop lowers the work left although its callback may refill the queues, so the loop ends. |
| Pipeline.CloseOutLoad | src/mtbusb/mtbusb.cpp:33-36 | The same for the second closing loop. |
| Ledger.ExactlyOnce | src/mtbusb/mtbusb-send.cpp:21-56 | After every run each command ever submitted, in callbacks too, is in exactly one place: pending, in the backlog, or completed by exactly one callback call that returned. |
| Exceptions.CalledOnceIff | src/mtbusb/mtbusb-receive.cpp:38-45 | Counting every call, a command is in exactly one place or called exactly once if and only if no message of the run was matched to it while the ok callback called next is one that throws. |
| Exceptions.StepThrowsIff | src/mtbusb/mtbusb-receive.cpp:38-45 | A step records a throwing callback of a command if and only if, before it, the message is matched to that command and the next ok callback throws; nothing else in a step does. |
| Exceptions.RunThrowsIff | src/mtbusb/mtbusb-receive.cpp:38-45 | The same for whole runs. |
| Exceptions.AnswerThrowsIff | src/main.cpp:182-228 | In every run, the daemon's callback of an information or active-modules request throws exactly on an answer under 6 or 32 bytes that comes when no longer one has been stored since the last close. |
| Exceptions.FirstAnswerThrowsIff | src/main.cpp:170-183 | The first answer of a connection completes the information request if it has at least 6 bytes, and otherwise makes its callback throw and leaves it pending. |
| Exceptions.ShortAnswerCallsTwice | src/main.cpp:182-183 | With the daemon's own callback, a shortened answer to the first information request makes it throw; the command stays pending, is written again, and the complete answer calls it a second time. |
| Exceptions.CalledOnce | src/mtbusb/mtbusb-receive.cpp:127-142 | When no ok callback throws, every command is in exactly one place or has had exactly one callback call. |
| Ledger.RetryBound | src/mtbusb/mtbusb-hist.cpp:15-43 | No command is ever written more than three times; a pending one has been written exactly as often as its counter says, a queued one never. |
| Ledger.SilentAfterCompletion | src/mtbusb/mtbusb-receive.cpp:284-299 | In every history a command is never written again after one of its callbacks has been called and has returned. |
| Ledger.StepKept | src/mtbusb/mtbusb-receive.cpp:53-145 | Submission, message, tick and close each keep the ledger of any ticket balanced: places, calls, attempts, retry counters, no late write. |
| Ledger.RunKept | src/mtbusb/mtbusb-send.cpp:21-56 | The ledger is balanced in every reachable state. |
| Ledger.InPlaceKept | src/mtbusb/mtbusb-receive.cpp:127-142 | A callback that runs while its command is still queued keeps the ledger once that command is removed, whatever it submitted in between. |
| Ledger.AcceptedKept | src/mtbusb/mtbusb-receive.cpp:130-139 | A response keeps the ledger, whether its callback returns or throws half-way. |
| Ledger.SubmitKept | src/mtbusb/mtbusb-send.cpp:38-49 | Submission keeps the ledger, also from inside a callback that is not yet accounted for. |
| Ledger.AdmitKept | src/mtbusb/mtbusb-send.cpp:38-56 | A ticket held by nobody is accounted for again once it has been sent or queued. |
| Ledger.WriteKept | src/mtbusb/mtbusb-send.cpp:21-36 | The n-th attempt to write a ticket leaves it pending with counter n or completed by one error. |
| Ledger.CallErrorKept | src/mtbusb/mtbusb-commands.h:47-50 | Calling the error callback of a ticket that has just left the queues completes it, exactly once. |
| Ledger.DispatchKept | src/mtbusb/mtbusb-send.cpp:51-56 | Taking the next command from the backlog loses and duplicates nothing, also when it goes back to the end. |
| Ledger.FailedKept | src/mtbusb/mtbusb-receive.cpp:284-299 | Removing a failed command and calling its error callback keeps the ledger. |
| Ledger.ResendKept | src/mtbusb/mtbusb-hist.cpp:23-43 | Sending again, giving up for a conflict, or failing to write each keep the ledger. |
| Ledger.TickKept | src/mtbusb/mtbusb-hist.cpp:5-21 | A timer tick keeps the ledger. |
| Ledger.ClosePendingKept | src/mtbusb/mtbusb.cpp:29-32 | The first closing loop keeps the ledger under re-entrant submissions. |
| Ledger.CloseOutKept | src/mtbusb/mtbusb.cpp:33-36 | So does the second. |
| Ledger.NoLatePut | src/mtbusb/mtbusb-send.cpp:21-36 | A write after a completion of the same ticket would show in the ledger. |
| PendingQueue.RunTidy | src/mtbusb/mtbusb-send.cpp:38-49 | In every reachable state at most 3 commands are pending, at most one of them changes the bus speed, and with a monotone clock they are ordered by timeout. |
| PendingQueue.FrontExpiresFirst | src/mtbusb/mtbusb-hist.cpp:15-20 | In every reachable state some pending command has expired if and only if the first has, so looking at the front suffices. |
| PendingQueue.ReceiveRemovesOldest | src/mtbusb/mtbusb-receive.cpp:53-145 | A message completes the oldest pending command it answers or blames, by the table of `Pairing`, with that outcome and as the first event; the others keep their order and come first, whatever callback and backlog append. When an ok callback throws, the command itself stays and nothing leaves the backlog. |
| PendingQueue.ReceiveUnmatched | src/mtbusb/mtbusb-receive.cpp:99-144 | A message that answers and blames no pending command changes nothing in the link; an information message with an unknown bus speed is one, because describing it throws first. |
| PendingQueue.CloseEmpties | src/mtbusb/mtbusb.cpp:26-36 | Closing ends with both queues empty, whatever the callbacks submit meanwhile. |
| PendingQueue.AnsweredTidy | src/mtbusb/mtbusb-receive.cpp:127-142 | After a response there is room in the pending buffer, even if the callback has submitted commands. |
| Drain.NoStall | src/mtbusb/mtbusb-send.cpp:38-56 | While writes succeed and error callbacks return, a backlog implies a pending command in every reachable state. |
| Drain.DispatchFlowing | src/mtbusb/mtbusb-send.cpp:51-56 | Serving a backlog leaves a command pending, however empty the buffer had become and even when the front is put back; without a backlog nothing is left to serve. |
| Drain.TickLoad | src/mtbusb/mtbusb-hist.cpp:15-43 | An expired front makes the tick strictly lower the work left: resend, timeout and conflict alike. |
| Drain.FailedAllowed | src/mtbusb/mtbusb-receive.cpp:284-299 | A failing command and all it sets off add writes, that error, and failed writes only. |
| Drain.TickAllowed | src/mtbusb/mtbusb-hist.cpp:5-43 | A tick adds writes and the errors 0x10, 0x11 and 0x13 only. |
| Drain.CloseAllowed | src/mtbusb/mtbusb.cpp:26-36 | Closing adds writes and the error 0x10 only. |
| Drain.SilentLinkDrains | src/mtbusb/mtbusb-hist.cpp:5-43 | When the device falls silent in any reachable state, a number of expired ticks bounded by the work left empties both queues, and every command ever submitted has been completed once, since then only by the errors 0x10, 0x11 and 0x13. |
| Drain.DeviceDrains | src/mtbusb/mtbusb-receive.cpp:127-142 | Whatever the device answers or rejects and whenever the timer ticks: without new submissions and throwing callbacks, a bounded number of productive stimuli empties both queues, with every command completed once. |
| Drain.ProductiveLoad | src/mtbusb/mtbusb-receive.cpp:127-142 | Each answer, rejection and expired tick strictly lowers the work left, ok follow-ups included; any other message or tick leaves the link as it is. |
| Drain.AnsweredLoad | src/mtbusb/mtbusb-receive.cpp:127-142 | So does an answer whose callback submits commands and whose place the backlog takes. |
| Drain.CloseDrains | src/mtbusb/mtbusb.cpp:26-36 | Closing in any reachable state completes every command ever submitted, once each, and during the closing only by the error 0x10, port closed. |
| Attempts.WrittenAtOnceIff | src/mtbusb/mtbusb-send.cpp:38-49 | A submitted command is written at once if and only if fewer than 3 commands are pending, there is no backlog, and it is not a change of the bus speed behind another; otherwise it joins the backlog and nothing else happens. |
| Attempts.ExpiredFront | src/mtbusb/mtbusb-hist.cpp:15-43 | An expired front fails with 0x11 after 3 transmissions, gives way with 0x13 if it and a queued command change the bus speed, and is written once more otherwise. |
| Attempts.TickActsIff | src/mtbusb/mtbusb-hist.cpp:5-21 | With a monotone clock, a tick does something in a reachable state if and only if some pending command has expired. |
| Attempts.UnansweredWrittenThreeTimes | src/mtbusb/mtbusb-hist.cpp:15-43 | A command that is never answered is written exactly three times, more than 300 ms apart, and then fails with 0x11. |
| Attempts.FailedWriteReported | src/mtbusb/mtbusb-send.cpp:32-35 | A command that cannot be written fails at once with 0x10. |
| Attempts.ResendGivesWay | src/mtbusb/mtbusb-hist.cpp:30-36 | Two changes of the bus speed: when the first expires it fails with 0x13 and the second is written. |
| Attempts.QuietClose | src/mtbusb/mtbusb.cpp:29-36 | When no error callback submits anything, closing fails the pending commands and then the backlog, each from the front, and does nothing else. |
| SendOrder.SubmitOrder | src/mtbusb/mtbusb-send.cpp:38-49 | A submission and all it causes extend "first writes, then backlog" by the new tickets in order. |
| SendOrder.WriteOrder | src/mtbusb/mtbusb-send.cpp:21-36 | A first write goes behind the earlier ones, a repeated one does not count, and error follow-ups come last. |
| SendOrder.StepOrder | src/mtbusb/mtbusb-send.cpp:38-56 | Every step before closing extends the order by the new tickets or moves the blocked front of the backlog behind the rest. |
| SendOrder.OrderKeptIff | src/mtbusb/mtbusb-send.cpp:38-56 | A step keeps the order of submission if and only if it does not put a blocked front back behind another command. |
| SendOrder.AlwaysInOrderIff | src/mtbusb/mtbusb-send.cpp:38-56 | A run before closing is in order in every state it goes through if and only if it never moves a blocked command behind another. |
| SendOrder.BacklogOvertaken | src/mtbusb/mtbusb-send.cpp:51-56 | Ping, change of speed, change of speed, ping, then the answer to the first ping: the second change goes back behind the last ping. |
| SendOrder.RunInOrder | src/mtbusb/mtbusb-send.cpp:38-56 | On runs without such a step, first writes followed by the backlog are exactly the submissions in order. |
| SendOrder.RunOrderComplete | src/mtbusb/mtbusb-send.cpp:38-56 | On all runs before closing the same equality holds as multisets. |
| SendOrder.CalmDoesNotOvertake | src/mtbusb/mtbusb-receive.cpp:292-298 | When error callbacks submit at most two commands, only a conflict can hold the front of the backlog back. |
| SendOrder.FirstTransmissionOrder | src/mtbusb/mtbusb-send.cpp:38-56 | With successful writes, no conflict at the front of the backlog and at most two commands per error callback, commands are first written in the order of submission. |
| SendOrder.TameClientsInOrder | src/mtbusb/mtbusb-send.cpp:38-56 | The same from a condition on the submitted trees alone, whatever device and timer do. |
| Framing.ChunkingInvariance | src/mtbusb/mtbusb-receive.cpp:6-51 | For a stream of frames cut in any way, exactly the complete frames are delivered and exactly the beginning of the next is kept, if and only if no late chunk emptied a non-empty buffer and the buffer never was a lone 0x2A. |
| Framing.InStepIffHarmlessCuts | src/mtbusb/mtbusb-receive.cpp:6-51 | The same with a condition on the stream and its cuts alone: no late chunk inside a frame, and no chunk that ends one byte behind a frame boundary without bringing anything before that boundary. |
| Framing.LosslessIffHarmlessCuts | src/mtbusb/mtbusb-receive.cpp:8-25 | The two conditions agree for every stream of frames. |
| Framing.LoneHeaderByteLost | src/mtbusb/mtbusb-receive.cpp:19-25 | Any frame cut after its first byte is not delivered. |
| Framing.Recovers | src/mtbusb/mtbusb-receive.cpp:19-25 | Bytes before the first header are dropped and nothing else: the receiver goes on exactly as a fresh one given the bytes from that header on, whatever its buffer held. |
| Framing.WithoutHeader | src/mtbusb/mtbusb-receive.cpp:23-25 | Without a header everything is dropped. |
| Framing.FramesBehindJunk | src/mtbusb/mtbusb-receive.cpp:19-47 | Frames behind junk are all delivered, and a cut one is kept as far as it has come. |
| Framing.RecoveredRun | src/mtbusb/mtbusb-receive.cpp:6-51 | After a recovery all later chunks are read as by a receiver that started there. |
| Framing.InStepAgain | src/mtbusb/mtbusb-receive.cpp:6-51 | After any loss, a chunk that brings the beginning of a frame puts the receiver in step again: with harmless cuts from there on, exactly the frames from there on are delivered. |
| Framing.SameStreamSameMessages | src/mtbusb/mtbusb-receive.cpp:6-51 | Two lossless ways to cut the same stream give the same messages and the same buffer. |
| Framing.LossDrops | src/mtbusb/mtbusb-receive.cpp:8-25 | On any input the receiver delivers and keeps no more bytes than arrived, and strictly fewer once there has been a loss. |
| Framing.DroppedGrows | src/mtbusb/mtbusb-receive.cpp:8-25 | Bytes dropped stay dropped, for any input. |
| Framing.ExtractStream | src/mtbusb/mtbusb-receive.cpp:27-47 | A stream of frames cut anywhere yields the frames before the cut and keeps the rest, also when payloads contain the header bytes. |
| Framing.ExtractSize | src/mtbusb/mtbusb-receive.cpp:27-47 | Every byte taken off the buffer belongs to exactly one delivered frame. |
| Framing.IndexOfHeader | src/mtbusb/mtbusb-receive.cpp:20-25 | The position found is that of the first 0x2A 0x42, and none is found only when there is none. |
| Framing.LosslessInStep | src/mtbusb/mtbusb-receive.cpp:6-51 | Without loss the receiver stays in step with the stream after every chunk. |
| Framing.UnfinishedUnique | src/mtbusb/mtbusb-send.cpp:5-8 | A stream has only one split into whole frames and the beginning of the next. |
| MtbUsb.MtbUsb.constructor | src/mtbusb/mtbusb.cpp:7-19 | A new link has empty queues, an empty receive buffer, and satisfies the invariants. |
| MtbUsb.MtbUsb.Frame | src/mtbusb/mtbusb-send.cpp:5-8 | Inserting size and header at the front gives the frame the receiver expects. |
| MtbUsb.MtbUsb.Send | src/mtbusb/mtbusb.h:168-172 | The in-place submission computes the specified next state, re-entrant callbacks included, and keeps the invariants: shape of the buffer and the ledger of every ticket. |
| MtbUsb.MtbUsb.SendTicket | src/mtbusb/mtbusb-send.cpp:38-49 | Sends or queues exactly as specified by capacity, backlog and conflicts. |
| MtbUsb.MtbUsb.WriteTicket | src/mtbusb/mtbusb-send.cpp:21-36 | Hands the bytes of the command to the port and waits, or fails and calls the error callback. |
| MtbUsb.MtbUsb.NextOut | src/mtbusb/mtbusb-send.cpp:51-56 | Takes the front of the backlog, if any, past the others. |
| MtbUsb.MtbUsb.ConflictsWithPending | src/mtbusb/mtbusb-hist.cpp:45-50 | True exactly if some pending command conflicts in either direction. |
| MtbUsb.MtbUsb.ConflictsWithOut | src/mtbusb/mtbusb-hist.cpp:52-57 | True exactly if some command of the backlog conflicts in either direction. |
| MtbUsb.MtbUsb.FindPending | src/mtbusb/mtbusb-receive.cpp:128-130 | The loop finds the oldest pending command that matches. |
| MtbUsb.MtbUsb.OnError | src/mtbusb/mtbusb-commands.h:47-50 | The error callback submits its follow-ups in order. |
| MtbUsb.MtbUsb.OnOk | src/mtbusb/mtbusb-commands.h:95-101 | The ok callback submits its follow-ups in order, all or those before the exception. |
| MtbUsb.MtbUsb.PendingOk | src/mtbusb/mtbusb-receive.cpp:130-139 | Callback first, then removal of that very command, then the backlog; neither when the callback throws. |
| MtbUsb.MtbUsb.PendingTimeoutError | src/mtbusb/mtbusb-receive.cpp:284-299 | Removal first, then the callback, then the backlog; nothing for a position that does not exist. |
| MtbUsb.MtbUsb.HandleMtbUsbError | src/mtbusb/mtbusb-receive.cpp:235-263 | Only "no response" fails a command, the oldest of that module and command code. |
| MtbUsb.MtbUsb.HandleMtbBusError | src/mtbusb/mtbusb-receive.cpp:265-282 | An error of a module fails its oldest pending command with that error. |
| MtbUsb.MtbUsb.ParseMtbBusMessage | src/mtbusb/mtbusb-receive.cpp:147-233 | Dispatches a forwarded message to the command it answers or blames. |
| MtbUsb.MtbUsb.ParseMtbUsbMessage | src/mtbusb/mtbusb-receive.cpp:53-145 | Dispatches any message as specified, keeping the invariants; an unknown bus speed ends it before the search. |
| MtbUsb.MtbUsb.PendingTimerTick | src/mtbusb/mtbusb-hist.cpp:5-21 | Sends the expired front again or fails it after the third transmission, keeping the invariants. |
| MtbUsb.MtbUsb.PendingResend | src/mtbusb/mtbusb-hist.cpp:23-43 | Sends again, or gives up when the backlog holds a conflicting command. |
| MtbUsb.MtbUsb.SpAboutToClose | src/mtbusb/mtbusb.cpp:26-36 | Both loops end and drain both queues as specified, keeping the invariants. |
| MtbUsb.MtbUsb.SpHandleReadyRead | src/mtbusb/mtbusb-receive.cpp:6-51 | A chunk moves the receive buffer as specified, junk and late chunks included (50 ms), and its messages drive the queues in order, also past a callback that throws, keeping the invariants. |
| MtbUsb.MtbUsb.TakeMessages | src/mtbusb/mtbusb-receive.cpp:27-47 | The loop takes all complete messages, whatever exceptions end the processing of some. |
| MtbUsb.MtbUsb.TakeMessage | src/mtbusb/mtbusb-receive.cpp:38-46 | A message is processed before it is removed, and removed also when a callback throws. |
| MtbUsb.ReceiveAllIsRun | src/mtbusb/mtbusb-receive.cpp:27-47 | Messages of one reading act as stimuli one after the other, so all theorems on runs apply to them. |
| MtbUsb.StepSound | src/mtbusb/mtbusb-send.cpp:38-49 | Every stimulus keeps the invariants the methods of the class promise. |
| MtbUsb.DriveIsRun | src/mtbusb/mtbusb-receive.cpp:6-51 | For any chunks and any other stimuli between them, receive buffer and queues are those of the reassembly of the chunks and of the run with the messages put in their places. |
| MtbUsb.UnfoldedMessages | src/mtbusb/mtbusb-receive.cpp:27-47 | The messages of that run are those reassembled from the chunks, in order. |
| MtbUsb.UnfoldedOthers | src/mtbusb/mtbusb-receive.cpp:27-47 | Its other stimuli are those between the chunks, in order. |
| MtbUsb.StreamDrivesLink | src/mtbusb/mtbusb-receive.cpp:6-51 | A stream of frames cut without harm, with submissions, ticks and closes between the chunks, drives the queues as a run with exactly its messages and those other stimuli, each in order; the buffer ends empty. |
| Firmware.ParseFirmware | src/modules/module.cpp:335-356 | The blocks are exactly those touched by a record, and each byte is that of the last record covering it, or 0xFF. |
| Firmware.LayByte | src/modules/module.cpp:345-352 | One more byte of a record is laid over what the earlier ones left. |
| Firmware.PutByteRepresents | src/modules/module.cpp:345-352 | That step keeps the blocks in agreement with the records on every address. |
| Firmware.UntouchedIsErased | src/modules/module.cpp:348-349 | The image of an address in an untouched block is 0xFF, so a fresh block is right before its first byte. |
| Firmware.AlignFirmware | src/modules/module.cpp:663-675 | The result has exactly the blocks of all pages that had one, old blocks unchanged and new ones erased, in whatever order blocks are visited. |
| Firmware.AlignedRepresents | src/modules/module.cpp:663-675 | Alignment does not change the image: touched pages hold the records and 0xFF elsewhere. |
| Firmware.LoadFirmware | src/modules/uni.cpp:345-346 | Parsing and aligning together give exactly the touched pages with the bytes of the records. |
| FirmwareUpgrade.Current | src/modules/module.cpp:420-424 | The block written next is the lowest not yet written, and there is none only when all are. |
| FirmwareUpgrade.FwUpgrade.FwUpgdGotInfo | src/modules/module.cpp:395-402 | Starts with the first block, or fails outside the bootloader. |
| FirmwareUpgrade.FwUpgrade.FwUpgdGetStatus | src/modules/module.cpp:404-412 | Asks for the status and awaits it. |
| FirmwareUpgrade.FwUpgrade.FwUpgdGotStatus | src/modules/module.cpp:414-439 | Asks again, writes the next block, or reboots. |
| FirmwareUpgrade.FwUpgrade.WriteOrReboot | src/modules/module.cpp:420-438 | Writes the next block and steps past it, or reboots. |
| FirmwareUpgrade.FwUpgrade.FwUpgdNotDone | src/modules/module.cpp:430-435 | A command that fails at any point ends the upgrade and keeps the invariant of the protocol. |
| FirmwareUpgrade.FwUpgrade.FwUpgdWritten | src/modules/module.cpp:429 | An acknowledged write leads to the next status request. |
| FirmwareUpgrade.FwUpgrade.FwUpgdError | src/modules/module.cpp:441-456 | The upgrade ends, its data is gone and nothing is awaited. |
| FirmwareUpgrade.HandleSane | src/modules/module.cpp:395-465 | Every answer keeps the invariant of the protocol: discipline of the history, exactly the blocks below the iterator written, also after an error, one outstanding command. |
| FirmwareUpgrade.ProtocolSafety | src/modules/module.cpp:395-465 | Whatever the module answers, a write or the reboot follows a status other than WritingFlash received since the last write, with every write acknowledged; nothing is sent after the reboot or an error. |
| FirmwareUpgrade.RebootMeansWritten | src/modules/module.cpp:414-439 | When the reboot is sent, all blocks have been written, once each, in ascending order. |
| FirmwareUpgrade.RunTakesTurns | src/modules/module.cpp:395-465 | Every awaited event is answered at once by exactly one item: status 1 by another status request, any other status by a write or the reboot, an acknowledgement by a status request, a failure by the error. |
| FirmwareUpgrade.ErrorReportedIff | src/modules/module.cpp:395-456 | An error is reported if and only if a command failed or the module was not in its bootloader. |
| FirmwareUpgrade.NothingWithoutBootloader | src/modules/module.cpp:395-402 | Nothing is sent to a module that has not reported to be in its bootloader. |
| FirmwareUpgrade.WritesAscend | src/modules/module.cpp:414-439 | In every run, also one ended by an error, blocks are written in ascending order, each at most once and none skipped; addresses ascend strictly when all blocks lie below 1024. |
| FirmwareUpgrade.PartialFlash | src/modules/module.cpp:423-438 | At any time, also after an error, the flash holds the image in the blocks below the iterator and its old content elsewhere. |
| FirmwareUpgrade.PlanFlash | src/modules/module.cpp:423-429 | Writing the blocks in order leaves at each address the byte stored for it, and untouched flash elsewhere. |
| FirmwareUpgrade.EndToEnd | src/modules/module.cpp:335-465 | From records to flash: after the reboot every address of a touched page holds the byte of the last record covering it or 0xFF, and every other address is as before, when all blocks lie below 1024. |
| FirmwareUpgrade.EndToEndOnLine | src/modules/module.cpp:335-465 | The same by the octets on the serial line: a module that takes each 0xF1 line as address, high octet first, and bytes ends up with exactly that flash. |
| FirmwareUpgrade.LinesFlash | src/mtbusb/mtbusb-commands.h:479-499 | For any writes, what their lines leave in the flash is what the commands mean. |
| FirmwareUpgrade.WriteOnLine | src/modules/module.cpp:423-429 | The line of a block write: 2A 42 45 10, the module, F1, the address modulo 65536, the 64 bytes. |
| FirmwareUpgrade.WritesItsBlocksIff | src/modules/module.cpp:423 | A finished upgrade writes exactly the addresses of its blocks if and only if all lie below 1024: the 16-bit address wraps otherwise. |
| FirmwareUpgrade.WrappedAddress | src/modules/module.cpp:423 | A firmware of one byte at address 65536, on pages of 128 bytes: every upgrade that reaches the reboot has overwritten the first page of the flash instead and left the meant one alone. |
| FirmwareUpgrade.FarFirmwareFinishes | src/modules/module.cpp:414-439 | A module that keeps answering lets that upgrade reach the reboot. |
| FirmwareUpgrade.CooperativeModuleFinishes | src/modules/module.cpp:414-439 | From any status request a module that keeps answering reaches the reboot with two answers per remaining block and one more. |
| OutputCodec.UniOutputsData | src/modules/uni.cpp:383-408 | The message has the mask and state bits of all 16 outputs, big-endian, and the whole octets in order behind them. |
| OutputCodec.UniModuleOutputs | src/modules/uni.cpp:410-431 | Each output is decoded from its bits or its octet; outputs beyond the data, or all for a short message, stay uninitialised. |
| OutputCodec.UnisOutputsData | src/modules/unis.cpp:362-384 | The same for 28 outputs, little-endian in 32 bits. |
| OutputCodec.UnisModuleOutputs | src/modules/unis.cpp:386-407 | The same for 28 outputs. |
| OutputCodec.UniAddOutput | src/modules/uni.cpp:388-405 | One more output extends the message for the outputs so far. |
| OutputCodec.UnisAddOutput | src/modules/unis.cpp:368-382 | One more output extends the message for the outputs so far. |
| OutputCodec.EncodesNext | src/modules/unis.cpp:368-382 | For both layouts, setting the bit of an output and appending its octet extends a message by that output. |
| OutputCodec.SetHeaderBit | src/modules/uni.cpp:389-403 | For both layouts no two outputs, and no mask and state bit, share a place in the header. |
| OutputCodec.RoundTrip | src/modules/uni.cpp:383-431 | For both layouts decoding a message gives back each output with a code exactly, and of a plain one whether it is on; the k-th coded output lies at header + k and the data is used up exactly. |
| OutputCodec.UniPlacesOfBits | src/modules/uni.cpp:386-405 | Octet by octet: mask of outputs 8-15, mask of 0-7, states of 8-15, states of 0-7. |
| OutputCodec.UnisPlacesOfBits | src/modules/unis.cpp:365-382 | Octet by octet: masks in octets 0-3, states in octets 4-7, output 0 first. |
| OutputCodec.EncodingInjective | src/modules/uni.cpp:383-408 | Output states with the same message differ at most in how a plain output says "on". |
| OutputCodec.IoToMtb | src/modules/led.cpp:315-324 | Four octets hold the 32 states, bit by bit. |
| OutputCodec.MtbDataToIo | src/modules/led.cpp:326-337 | The 32 states of a bitmap, all off when it is too short. |
| OutputCodec.PacksBothWays | src/modules/led.cpp:315-337 | Bitmap and states determine each other. |
| OutputQueue.StepCoherentIff | src/modules/uni.cpp:98-125 | An event keeps "one command in flight carrying the wanted outputs, idle means nothing waits and wanted is confirmed" if and only if it is not one of three: a request in flight while wanted equals confirmed, a report that differs from the wanted outputs, a bulk reset in flight. |
| OutputQueue.StepAccounted | src/modules/uni.cpp:150-197 | Every request is in exactly one place: waiting, sent or answered. |
| OutputQueue.EveryAnswerHasCause | src/modules/uni.cpp:113-123 | In every run each answer has its cause: ok comes from a report of the module to a request that was sent, or at once to a request that changes nothing; an error from a failure of the module to a request that was sent, or from a refusal. |
| OutputQueue.StepCauses | src/modules/uni.cpp:170-185 | A step keeps all earlier answers and adds only such. |
| OutputQueue.OwnerIsLastSetter | src/modules/uni.cpp:101-111 | In every run from an activation a client owns an output if and only if it gave it a new value and since then no other client did and it has not been reset. |
| OutputQueue.StepOwner | src/modules/uni.cpp:101-111 | The owner changes only by a request with a new value, to that client, or by a reset. |
| OutputQueue.HarmfulRequestLosesAnswers | src/modules/uni.cpp:98-119 | A request in flight while wanted equals confirmed puts a second command in flight, and on no continuation are the requests of the first ever answered. |
| OutputQueue.RunKeeps | src/modules/uni.cpp:98-255 | From a coherent state both invariants hold after every run of harmless events. |
| OutputQueue.RunCoherentIff | src/modules/uni.cpp:98-255 | A run from a coherent state is coherent throughout if and only if each of its events is harmless when it comes. |
| OutputQueue.EveryRequestAnsweredOnce | src/modules/uni.cpp:98-255 | After activation and harmless events at most one command is in flight, every request is in exactly one place, and an idle module has answered each once and confirmed what is wanted. |
| OutputQueue.EchoingModuleServes | src/modules/uni.cpp:98-255 | The same for a module that echoes each command, when requests and safe outputs are valid codes, no request arrives in flight while wanted equals confirmed and no bulk reset in flight; only valid codes are then ever wanted. |
| OutputQueue.EchoRunHarmless | src/modules/uni.cpp:165-197 | Every event of such a run is harmless, and the outputs stay in normal form. |
| OutputQueue.EchoStep | src/modules/uni.cpp:165-197 | One such event is harmless: the echo equals the wanted outputs unless a request waits. |
| OutputQueue.ReportIsEcho | src/modules/uni.cpp:383-431 | What is decoded from an echoed message is the normal form of the outputs sent. |
| OutputQueue.RunForgets | src/modules/uni.cpp:150-152 | A request that is in no queue and has no answer never gets one. |
| OutputQueue.BlinkingLosesAnswer | src/modules/uni.cpp:98-119 | From activation: set an output, reset it while the command is in flight, set it again; the first request is never answered. |
| OutputQueue.BulkResetMissesCommand | src/modules/uni.cpp:433-440 | From activation: a bulk reset in flight leaves an idle module confirmed in another state than wanted. |
| OutputQueue.AbnormalSafeState | src/modules/uni.cpp:354-366 | From activation with a safe state that is no valid code: its echo never equals it. |
| OutputQueue.EchoHarmlessIff | src/modules/uni.cpp:165-166 | The report of a module that echoes its command is harmless if and only if all wanted outputs are in normal form. |
| OutputModule.OutputModule.SetOutputs | src/modules/uni.cpp:150-163 | Waiting requests become sent ones, and the message is the encoding of the wanted outputs. |
| OutputModule.OutputModule.StorePorts | src/modules/uni.cpp:101-111 | Every requested port has the requested value, the client owns exactly those of them whose value is new, all other values and owners are unchanged, and a change is reported exactly if there is one. |
| OutputModule.OutputModule.JsonSetOutput | src/modules/uni.cpp:98-125 | Port by port as above; a request without a change is answered ok at once, any other one is waiting or sent and not answered. |
| OutputModule.OutputModule.MtbBusOutputsSet | src/modules/uni.cpp:165-197 | The report is decoded and confirmed; exactly the requests that were sent are answered, in order and with ok, behind all earlier answers; values wanted and owners stay. |
| OutputModule.OutputModule.MtbBusOutputsNotSet | src/modules/uni.cpp:230-255 | Exactly the requests that were sent are answered, in order and with an error, behind all earlier answers; the wanted outputs count as confirmed, and owners stay. |
| OutputModule.OutputModule.Complete | src/modules/uni.cpp:187-197 | What both callbacks share: one answer per request sent, with the given outcome; the waiting requests become the sent ones. |
| OutputModule.OutputModule.ResetOutputsOfClient | src/modules/uni.cpp:354-373 | Outputs of the client go to their safe states and become free, all others stay, and a change is sent or waits. |
| OutputModule.OutputModule.AllOutputsReset | src/modules/uni.cpp:433-440 | All outputs are safe, confirmed and free; the queues are left alone. |
| OutputModule.OutputModule.OutputSetters | src/modules/uni.cpp:375-381 | The owners of outputs, each once. |
| Daemon.ResetsAgreeIff | src/modules/uni.cpp:354-366 | When one client owns all set outputs, resetting everything equals resetting that client if and only if every free output is at its safe state and an unconfigured module has no set output. |
| Daemon.StepRestful | src/modules/uni.cpp:98-125 | All events keep that state; a new configuration does if and only if the free outputs already have the new safe values. |
| Daemon.AfterRestful | src/modules/uni.cpp:354-373 | So do all runs without a new configuration. |
| Daemon.ActivatedStaysRestful | src/modules/uni.cpp:542-549 | Every module that keeps the configuration it was activated with, and serves requests only when it has one, is in that state. |
| Daemon.BroadcastRefinesIff | src/main.cpp:960-989 | The broadcast shortcut gives the wanted outputs and owners of per-client resetting if and only if all modules are in that state. |
| Daemon.ClientIsolation | src/main.cpp:937-989 | Whichever way it is done, the outputs of the client become safe and free, every other output keeps owner and value, and the client owns nothing afterwards. |
| Daemon.ResetsInEveryRun | src/main.cpp:949-989 | From activated modules, after any run of module events and client resets that leaves configurations alone: a reset or disconnection gives the outputs and owners of per-client resetting, frees exactly the client's outputs to their safe states, and changes nobody else's. |
| Daemon.LastSetOutputsReleased | src/main.cpp:949-989 | In terms of the requests of the whole run: when a client resets or disconnects, exactly the outputs it was the last to give a new value become safe and free; every other output keeps value and owner. |
| Daemon.ProjectedRun | src/main.cpp:960-989 | What a run of the daemon does to one module is a run of that module, with each client reset seen as a client reset, a bulk reset or nothing. |
| Daemon.AfterAllRestful | src/main.cpp:949-989 | Every such run keeps every module in that state. |
| Daemon.ReconfiguredDiffers | src/main.cpp:971-975 | A module given new safe outputs while most outputs are free: the broadcast changes an output the per-client reset leaves. |
| Daemon.DistinctSize | src/main.cpp:937-947 | A list of clients without repetition is as long as the set of clients, so its length decides the case. |
| Daemon.Application.OutputSetters | src/main.cpp:937-947 | The clients that own some output of some module, each once. |
| Daemon.Application.ResetOutputsOfClient | src/main.cpp:966-969 | Every module object releases the outputs of the client. |
| Daemon.Application.AllOutputsReset | src/main.cpp:972-975 | Every module object resets all outputs. |
| Daemon.Application.ClientResetOutputs | src/main.cpp:960-989 | Per client with several setters, by broadcast exactly if the client is the only one, nothing otherwise. |
| Daemon.Application.Unsubscribe | src/main.cpp:950-955 | The client is in no subscription, and nobody else's has changed. |
| Daemon.Application.ServerClientDisconnected | src/main.cpp:949-958 | Subscriptions and outputs of the client are gone, as above. |
| ProdLog.Run | src/logging.cpp:64-102 | In every reachable state the history is the end of the message stream and every file, closed or open, has its window. |
| ProdLog.LogConsistent | src/logging.cpp:64-88 | Every message keeps these windows. |
| ProdLog.LogWindows | src/logging.cpp:64-102 | Every log file is a contiguous part of the filtered stream that begins exactly `history` messages before its trigger (or with the first); a closed one ends exactly `future` messages after it was last armed. |
| ProdLog.WindowsAroundAlerts | src/logging.cpp:64-102 | The trigger is an alert of the run, and a closed file ends `future` messages after an alert of the run with no later alert before its end. |
| ProdLog.RunTied | src/logging.cpp:82-87 | In every reachable state each file is tied to the alerts that opened and armed it, and no alert has come since that did not re-arm it or follow its end. |
| ProdLog.StreamIsRecorded | src/logging.cpp:65-69 | The stream is what passes the level filter. |
| ProdLog.AlertsCaptured | src/logging.cpp:82-87 | If files can be opened, every recorded alert is in some log file. |
| ProdLog.ActiveHasFile | src/logging.cpp:82-102 | If files can be opened, one is open while messages are still to be written. |
| ProdLog.Logger.ProdLog | src/logging.cpp:64-88 | The in-place update computes the specified state and keeps the windows. |
| ProdLog.Logger.RecordMessage | src/logging.cpp:65-80 | A message joins the history, and the file while one is active. |
| ProdLog.Logger.RaiseAlert | src/logging.cpp:82-87 | An alert opens a file or re-arms the open one. |
| ProdLog.Logger.ProdInit | src/logging.cpp:90-102 | A new file replaces the old one and begins with the history. |
| ModuleConfig.OutputJsonRoundTripIff | src/modules/uni.cpp:127-148 | An output code survives JSON if and only if it is a valid code. |
| ModuleConfig.FlickerFrequencies | src/modules/uni.cpp:140-145 | The eight frequencies have the codes 0x41 to 0x48, and no other frequency is accepted. |
| ModuleConfig.RequestedOutput | src/modules/uni.cpp:127-148 | What a client can request survives JSON and the bus unchanged. |
| ModuleConfig.UnisSerialize | src/modules/unis.cpp:546-561 | The 61 octets of a UNIS configuration. |
| ModuleConfig.UnisDeserialize | src/modules/unis.cpp:638-658 | The configuration in 61 octets; shorter data changes nothing. |
| ModuleConfig.UnisBusRoundTripIff | src/modules/unis.cpp:546-658 | A UNIS configuration survives the bus if and only if delays are at most 15 and the servo mask at most 0x3F. |
| ModuleConfig.UnisBusRewriteIff | src/modules/unis.cpp:546-658 | 61 octets read and written back are the same if and only if the unused mask bits are zero. |
| ModuleConfig.UnisJsonRoundTripIff | src/modules/unis.cpp:563-636 | A UNIS configuration survives JSON if and only if its safe outputs are valid codes and its delays are at most 15. |
| ModuleConfig.OldFileReadsDefaultMap | src/modules/unis.cpp:631-635 | A configuration without input map is read with the default one and otherwise unchanged. |
| ModuleConfig.UnisBusParts | src/modules/unis.cpp:546-561 | Which of the 61 octets is what. |
| ModuleConfig.HalvesOfDelays | src/modules/unis.cpp:549-551 | The delay of the even input is the low half of its octet, that of the odd one the high half. |
| ModuleConfig.UniBusParts | src/modules/uni.cpp:571-584 | Which of the 24 or 26 octets a UNI is sent is what: safe outputs, delays by half octets, IR mask with the high octet first. |
| ModuleConfig.UniSerialize | src/modules/uni.cpp:571-584 | The loop builds these octets. |
| ModuleConfig.UniDeserialize | src/modules/uni.cpp:652-664 | The loop reads safe outputs, half octets from the beginning of the data, and the IR mask if it is there. |
| ModuleConfig.DelaysRoundTripIff | src/modules/unis.cpp:549-551 | Sixteen delays survive their eight octets if and only if each is at most 15. |
| ModuleConfig.OctetsRewritten | src/modules/unis.cpp:645-646 | Eight octets are the packing of the delays read from them. |
| ModuleConfig.UniBusRoundTripIff | src/modules/uni.cpp:571-664 | A UNI configuration survives the bus if and only if each delay equals a half octet of the safe outputs, where the code reads it from, and the IR mask is sent or zero; safe outputs always do. |
| ModuleConfig.UniDelayLost | src/modules/uni.cpp:657-658 | A configuration that does not: all outputs off and all delays 0.5 s. |
| ModuleConfig.LedSerialize | src/modules/led.cpp:472-478 | The 36 octets hold bitmap and brightness. |
| ModuleConfig.LedDeserialize | src/modules/led.cpp:512-520 | The configuration held by the data; shorter data changes nothing. |
| ModuleConfig.LedBusBothWays | src/modules/led.cpp:472-520 | LED configuration and its 36 octets determine each other. |

## Left out

- Qt as a mechanism (sockets, serial port, timers, signals), JSON text and hexadecimal parsing, error strings, terminal logging, the Python client.
- Callbacks submit the same commands whatever data or error they are given, and as finite trees; callbacks that disconnect the link are left out, so closing is one step.
- Which ok callbacks throw is a parameter; only for the two requests a connection begins with is it derived from the messages.
- Error callbacks that throw (`fwUpgdError` could, src/modules/module.cpp:448, without an upgrade under way). On a received error such a throw skips the backlog, which may then be left with nothing pending; in a closing loop it leaves the front queued although it has been called; from the timer it ends the daemon.
- The branch of `pendingTimerTick` for a closed port (src/mtbusb/mtbusb-hist.cpp:6-10): the timer does not run then.
- Frames with a length byte outside 1..127, forwarded messages without a bus command code and bus errors without a code: the program has undefined behaviour on them; the model stops receiving at such a frame and ignores such messages.
- The contents of the MTB-USB information and of the table of active modules, and the events sent to clients. What the daemon submits when it hears of a new module (src/main.cpp:294-297) is an ordinary `Submitted` stimulus after the message.
- The way into the bootloader before an upgrade, the callbacks of the final reboot, starting an upgrade when an output or configuration write completes, and a write that fails synchronously inside `fwUpgdGotStatus`.
- Firmware keys that are not numbers or are negative, and modules with a page smaller than a block.
- Activation as a sequence of commands, firmware and configuration requests of a client that disconnects, address validation, speed tables, MTB-RC.
- The output machine of MTB-LED, which is that of UNI with one bit per output; its codecs are modelled.
- The checks in front of `jsonSetOutput` are one event (`Refused`), and its warning about several clients is left out.
- Floating point: delays are exact tenths of a second; diagnostics are left out.
- ProdLog.Run: does not model a history of 0, with which the program reads the last element of an empty queue, nor a file stream that closes itself, nor two files named within the same second.
- tcp-protocol/uni.md:27 and unis.md:29 list a flicker frequency of 320 per minute where the code has 300; the model follows the code.
