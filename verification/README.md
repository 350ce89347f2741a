# A verified model of babysit's session protocol

babysit wraps a command, keeps its output in an append-only log, and lets terminals near
and far watch, type into and stop it. This project models the parts of babysit on which
that rests and proves what they promise:

- **Output delivery.** `OutputHub.dfy` (the log, the sliding backlog, the subscribers),
  `AttachStream.dfy` (the frames an attached client is sent), `SplitTurns.dfy` (the same with
  the two polls of a serving turn apart), `Bridge.dfy` (the same from disk, once the worker
  is gone), `RemoteClient.dfy` (the client that keeps a cursor, drops overlaps, notices gaps
  and resumes) and `Frames.dfy` (the codec between them). `Protocol.dfy` composes them, with
  whole turns, into one labelled step system over a byte transport that can be cut anywhere,
  with one inductive invariant; `Recovery.dfy` says what losses cost the client in it, and
  that it can always catch up.
- **Input.** `DetachFilter.dfy` (the Ctrl-\ Ctrl-\ hotkey as a streaming filter) and
  `InputGate.dfy` (what is typed offline never reaches the program).
- **Reading a growing log.** `SafePrefix.dfy`, `Polling.dfy` (any valid log, and logs of
  complete items), `SplitSequences.dfy` (the sequences that are not held back), `Expect.dfy`.
- **The worker's life.** `Worker.dfy` (restart, timeout, kill and natural exit, against an
  adversarial world that is given beforehand, moment by moment) and `ExitCodes.dfy`.
- **Printer and parser pairs.** `Shell.dfy`, `Reexec.dfy`, `HostArgs.dfy`,
  `CaptureRows.dfy`.

Code that updates an object in place is a class here (`OutputHub`, `DetachFilter`, `Pipe`,
`RemoteAttach`, `RemoteInput`, `Pane`, `Worker`), and loops are loops. Each method is proved
equal to a function on values or to a step of an automaton, and the theorems are about
those. Check everything with `dafny verify dfyconfig.toml`.

## Assumptions

- One turn of a `select!` loop, one call that holds the hub's lock, and one `read_frame` are
  each one atomic step. In particular a serving turn looks at its queue and at the exit
  together; what follows if it does not is stated by `SplitTailIsCompleteIff`.
- The transport delivers in order and can only lose a suffix, at any byte.
- Offsets stay below 2^64, so `saturating_add` is exact (it is modelled as saturating; the
  bound appears as a precondition on what is printed). One read of the terminal returns at
  most 8192 bytes (`src/pane.rs:568`).
- The log is opened on a fresh hub and not opened again after a failed write. What happens
  otherwise is stated by `ReopenIsConsistentIff`; `HealthIsExact` and `ReceiversAreExact` hold
  in runs that reopen it too.
- A client whose request cannot be sent ends, as the code does (`DialFails`); every other way
  of losing a connection is a loss.
- In the composed system, frames are shorter than 2^32 bytes. Only the bridge, which sends
  the rest of the log as one frame, can exceed that; `BridgeReadsBackIff` says exactly when,
  and that its answer then does not arrive.
- A process group that has become empty stays empty, and an exit report is final. Probes,
  signals, status writes and spawning can fail at any time, and signals need not work. Time
  passes for a pane with what is done to it; one probe is one moment.
- Writing the status file is atomic, because it is done by a rename.
- `expect` starts at an item boundary not beyond the end of the log, and one look at the
  log sees one length.

## Where the code does not meet the plain promise

For each of these one lemma states exactly when the promise holds, and another gives an
input for which it does not.

- A frame whose payload has 2^32 bytes or more is written with a wrapped length and cannot
  be read back (`ReadsBackIffFits`, `StreamReadsBackIff`); a bridge whose log is that long
  sends such a frame (`BridgeReadsBackIff`, `LongLogIsLost`).
- Reopening the log after a failed write keeps the old backlog under new offsets
  (`ReopenIsConsistentIff`, `ReopenCanMisplaceBacklog`); as broadcasts are never empty, it
  always leaves the hub inconsistent with the file (`ReopenIsNeverConsistent`).
- For a fresh attach the bridge replays the last MiB of the log, but a worker that opened a
  log that was not empty offers only what was printed since (`StartsAgreeIff`,
  `StartsCanDisagree`). Such a log needs a session directory that is used again. A run refuses
  an existing one for an id that the user gives (`src/session.rs:156-163`), so only the hidden
  option `--detached-id`, or two runs that race for one id, lead there.
- A timeout of 2^64 milliseconds or more is accepted by the parent and refused by its own
  worker (`WorkerTimeoutIff`, `LongTimeoutIsLost`). Multiplying by the unit is modelled as
  the wrap-around of a release build; a debug build panics.
- After a malformed byte a truncated character at the end is not held back
  (`TruncatedTailIsHeldIff`, `TruncatedTailIsSplit`).
- The serving loop drains its queue before it honours the exit, so that a client never loses
  the tail. The queue and the exit are two polls of a biased `select!`, on a multi-threaded
  runtime: output that arrives between them, followed by the exit, is not sent
  (`SplitTailIsCompleteIff`, `TailIsLost`).
- The documentation of `read_slice` promises that no escape sequence is split. For every
  valid log polling gets as far as one read (`SafeGrows`), and shows the same text if and
  only if no read ends inside a sequence (`PollingAgreesIff`). Some well-formed sequences can
  be cut. An operating system command that ends with `ESC \` is cut only between those two
  bytes (`StringTerminatorIsSplit`, `TerminatorIsCut`), and its text is not affected. The
  other control strings (DCS, SOS, PM, APC), and the sequences with intermediate bytes such as
  `ESC ( B`, are held back only while they are a single byte (`OpeningIsHeldIff`); a read in
  their middle shows the rest of them (`SplitReadsAgreeIff`, `TwoReadsAgreeIff`, `RestIsShown`,
  `FinalByteIsShown`, `ContentsAreShown`).
- For a pattern that can stop matching when the log goes on, the outcome of `expect` depends
  on when it looks (`ScheduleDoesNotMatter`, `AnchoredPatternDependsOnSchedule`).
- The hotkey is lost when sending what precedes it in the same read fails
  (`HotkeyLeavesIff`, `HotkeyCanBeLost`).

Exit codes agree everywhere for every way in which a command can end on Unix
(`UnixCodesAgree`). On a system with exit codes of 2^31 and more they would not, for a
command that the worker had stopped (`ObservedCodesAgreeIff`,
`UnrepresentableCodeDisagrees`).

## Model

| member | source | states |
|---|---|---|
| Protocol.ExactlyOnce | src/remote.rs:635-676 | in every run of prints, other subscribers, deliveries, cuts at any byte, losses, reconnects and exits: each stretch of output the client writes is exactly what the log held at first and the program printed since, from its start; without a local terminal there is one stretch, so all output is that from the base to the cursor |
| Protocol.StepKeepsWorld | src/control.rs:491-728 | each of the fourteen kinds of step keeps the invariant: what is in flight continues the client's output at its cursor, hub, server and client agree with the history, and what an EXIT in flight tells is known |
| Protocol.RunKeepsWorld | src/remote.rs:420-860 | so does every run |
| Protocol.InitialWorldInv | src/pane.rs:68-91 | the invariant holds when the session starts, on an empty or an existing log |
| Protocol.OutputOnlyGrows | src/remote.rs:673-676 | output once written is never rewritten, and the start of a stretch never moves |
| Protocol.GuardsNeverFire | src/remote.rs:875-889 | the gap error and the "beyond output end" error are unreachable; the next output frame always starts at the cursor; from disk a request can lie beyond the end only after a log failure |
| Protocol.Conservation | src/control.rs:545-575 | on a live connection, frames in flight, unsent replay or backlog, and queued chunks tile the history to its end, from the client's cursor, or for a client without one from where its stream started |
| Protocol.NothingIsLostOnTheWay | src/control.rs:545-575 | so in every run from the opening of the session |
| Protocol.CutBringsWholeFrames | src/attach.rs:72-88 | a connection that is cut after some bytes still brings the frames that are whole by then, in order, and no others |
| Protocol.StartIsFixed | src/pane.rs:157-184 | that start is settled at accept: the requested offset, or the start of the backlog; it stays while the connection is served |
| Protocol.StepKeepsStart | src/control.rs:545-724 | every step keeps that a client without a cursor misses exactly what its stream has carried since its start |
| Protocol.ExitMeansComplete | src/control.rs:633-724 | a client told the exit code has everything that was printed up to the last byte, if the program printed nothing after the announcement, and no write to the log failed or the worker still lives |
| Protocol.TheCodeIsKnown | src/control.rs:683-688 | in every run the code that a client is told is that of the exit that the worker announced, or of the status that a worker which is gone has left; the two agree if there is a code or a signal |
| Protocol.SessionIsExact | src/pane.rs:93-138 | in every run the history is the log as opened and all that the program has printed since, in order; the exit and the status are those announced and recorded; and the log has failed, or output came late, if and only if the run says so |
| Recovery.FailsIff | src/remote.rs:447-733 | a step makes the client fail if and only if its request cannot be sent, or it reads an error while attached, or it loses a connection and is not to reconnect or was never READY |
| Recovery.EndsIff | src/remote.rs:683-697 | a step tells it a code if and only if it reads EXIT, and makes it leave if and only if it reads DETACHED or the user detaches |
| Recovery.PlaceIsKept | src/remote.rs:699-733 | after a loss that it survives the client is about to connect again, where it was, with its cursor unless its screen is to be redrawn |
| Recovery.LossesAreSurvived | src/remote.rs:420-860 | in every run a client that is to reconnect, has once been READY, has read no error while attached and could send its requests has not failed |
| Recovery.RefusedIsLost | src/remote.rs:196-214 | a session that cannot be looked up, or has lost its worker and left no status, answers with an error, which the client takes for a loss |
| Recovery.CanCatchUp | src/remote.rs:420-860 | from every state in which the worker lives and the log has not failed, whatever has become of the connection, the run goes on, without one more byte printed, to where the client is attached with its cursor at the end of the output |
| Recovery.EveryClientCanCatchUp | src/remote.rs:420-860 | so at any time of every run |
| Recovery.CanFinish | src/remote.rs:237-280 | when the worker is gone and has left a status, the run goes on to where the client is told the recorded code and has all output, if the rest of the log fits into a frame |
| OutputHubs.OutputHub.Configure | src/pane.rs:68-91 | opening sets offsets to the file's length, keeps the sidecar of a log that is not empty, and is a no-op while open |
| OutputHubs.OutputHub.Broadcast | src/pane.rs:93-138 | new state after log, sidecar, backlog and fan-out |
| OutputHubs.OutputHub.Record | src/pane.rs:99-119 | log and sidecar, with a failing write leaving some bytes and closing both |
| OutputHubs.OutputHub.Retain | src/pane.rs:120-126 | offset and backlog, trimmed from the front |
| OutputHubs.OutputHub.FanOut | src/pane.rs:127-137 | both kinds of subscribers |
| OutputHubs.OutputHub.Subscribe | src/pane.rs:141-151 | a legacy subscriber starts with the backlog, if any |
| OutputHubs.OutputHub.SubscribeResumable | src/pane.rs:157-184 | refusals, snapshot end, backlog at its true offset |
| OutputHubs.SendToAll | src/pane.rs:127-137 | the loop of `retain` over senders equals `SendAll` |
| OutputHubs.SendAllDelivers | src/pane.rs:127-137 | each live receiver gets the message exactly once; a dead sender is forgotten |
| OutputHubs.StepKeepsInv | src/pane.rs:60-185 | every operation keeps: next offset is the history's length, the backlog its last 2^20 bytes at most, every receiver complete |
| OutputHubs.RunKeepsInv | src/pane.rs:60-185 | every permitted run keeps it |
| OutputHubs.EveryReceiverIsComplete | src/pane.rs:93-184 | in every run from opening, consumed plus queued bytes of each receiver are the history from its snapshot on, with true offsets for resumable ones |
| OutputHubs.ReceiversAreExact | src/pane.rs:127-184 | in every run, reopenings included, who has subscribed successfully is a receiver until it is dropped, and nobody else is |
| OutputHubs.BroadcastReaches | src/pane.rs:127-137 | a broadcast reaches every receiver once, as its last message and at its true offset, and leaves senders for exactly the receivers there are |
| OutputHubs.NoEmptyMessages | src/pane.rs:141-184 | in every run without empty broadcasts no receiver gets an empty message and no subscriber an empty backlog |
| OutputHubs.HealthIsExact | src/pane.rs:68-119 | in every run, reopenings included: the log has failed if and only if some write to it did with no reopening since, and is open otherwise; the sidecar is open if and only if it was opened and no write to either has failed since |
| OutputHubs.LogIsHistory | src/pane.rs:99-110 | without a failing write the log is the history |
| OutputHubs.LogStops | src/pane.rs:99-110 | after the first failing write it is the history up to then and what was taken of that write |
| OutputHubs.OffsetsSaturate | src/pane.rs:120-126 | however much is printed, offsets stop at 2^64 - 1 and the backlog goes on to be the last bytes |
| OutputHubs.RefusedAfterFailure | src/pane.rs:100-107 | after a failed log write every resumable subscription is refused, in every run without reopening |
| OutputHubs.SubscriptionsAreExact | src/pane.rs:157-184 | refused as beyond the end exactly when bytes are asked for that do not exist; otherwise snapshot and backlog are the history's |
| OutputHubs.ReopenIsConsistentIff | src/pane.rs:73-88 | reopening yields a hub that meets the whole invariant for the file, for some views of its receivers, if and only if the backlog was empty |
| OutputHubs.ReopenCanMisplaceBacklog | src/pane.rs:73-88 | an input for which it does not |
| OutputHubs.ReopenIsNeverConsistent | src/pane.rs:73-88 | in every run without empty broadcasts a failed log leaves a backlog, and reopening is never consistent |
| AttachStreams.HandleAttach | src/control.rs:545-724 | the whole handler of a raw protocol-1 attach, with the environment acting between its turns, sends exactly the frames of `Attach` |
| AttachStreams.ServeLoop | src/control.rs:633-724 | the serving loop refines `ServeAll` |
| AttachStreams.ServeTurn | src/control.rs:633-724 | one turn refines `Serve` |
| AttachStreams.WriteLogRangeFrames | src/control.rs:852-885 | the replay loop writes exactly the frames of the range, under any short reads |
| AttachStreams.RangeIsCovered | src/control.rs:852-885 | those frames are contiguous, at most 64 KiB each, and cover the range if no read fails |
| AttachStreams.ReplayAllIsTheRange | src/control.rs:852-885 | replaying step by step sends exactly these frames, and then an error if the range could not be read to its end |
| AttachStreams.AcceptIsGood | src/control.rs:545-584 | subscribing and answering starts a stream at the requested offset |
| AttachStreams.ReplayIsGood | src/control.rs:852-885 | one replayed piece continues the stream |
| AttachStreams.ServeIsGood | src/control.rs:633-724 | one turn continues the stream, and an EXIT it sends follows the last byte |
| AttachStreams.OthersKeepServer | src/pane.rs:93-184 | nothing that others do to the hub moves a connection |
| AttachStreams.TailBeforeExit | src/control.rs:633-724 | every raw stream is gapless from its start, has at most one of EXIT, DETACHED and ERROR and nothing after it, and one that ends with EXIT has delivered the history to its end |
| AttachStreams.ServingTells | src/control.rs:683-688 | a serving stream that ends with EXIT tells the code of the exit that its last turn saw, or 130 or 0 without one |
| AttachStreams.AttachTells | src/control.rs:545-724 | so does every attach |
| AttachStreams.ServingEnds | src/control.rs:633-724 | a connection ends in the first turn with a reason to, in their order: the exit once nothing is left, or with the last chunk if the client came after it; a forced detach; a client that is gone; and its last frame tells which |
| AttachStreams.AttachEnds | src/control.rs:545-724 | every attach is answered READY first; it is refused with an error if and only if the log has failed or it asks for bytes that do not exist, ends with an error if the log cannot be read, and otherwise as serving ends |
| AttachStreams.ServingReachesExit | src/control.rs:633-724 | once nothing is printed and the exit is known, a connection sends all it still has and then EXIT, in one turn for each chunk and one more |
| AttachStreams.AttachReachesExit | src/control.rs:545-724 | so every attach at an existing offset, with a readable log, ends with EXIT |
| AttachStreams.EveryAttachReachesExit | src/control.rs:545-724 | in every run without a failing write, so every attach at an existing offset ends with EXIT |
| AttachStreams.StreamIsASegment | src/control.rs:852-885 | the payloads of a stream are one segment of the history |
| SplitTurns.SplitServingIs | src/control.rs:633-700 | with the two polls of each turn apart, and printing between them, serving is serving in whole turns: what a turn without output prints between its polls comes before the next turn |
| SplitTurns.SplitTailIsCompleteIff | src/control.rs:633-700 | so every raw stream is gapless from its start, and one that ends with EXIT lacks exactly what was printed between the two polls of its last turn; it has the whole tail if and only if that is nothing |
| SplitTurns.TailIsLost | src/control.rs:633-700 | an input for which it has not |
| Bridges.BridgeStream | src/remote.rs:237-280 | the bridge's frames are READY, the log from its start offset to its end, then EXIT with the recorded code |
| Bridges.BridgeRefusesIff | src/remote.rs:245-258 | its first frame says whether there is a terminal, and it answers with an error, and nothing else, if and only if it is asked for bytes beyond the end |
| Bridges.StartsAgreeIff | src/remote.rs:242-262 | bridge and worker start at the same offset if and only if resumed, or the log was no longer than what the bridge skips when this worker opened it |
| Bridges.StartsCanDisagree | src/remote.rs:242-262 | an input for which they do not |
| Bridges.FinishedReplayMatchesLive | src/remote.rs:237-280 | for a session that has stopped printing and whose exit is known, the worker's stream reaches EXIT within two turns, and bytes and offset from disk equal its own, for a fresh attach and every valid resume |
| Bridges.FinishedRunMatchesLive | src/remote.rs:237-280 | so in every run from the opening without a failing write, and both tell the same code for the exit and the status that the worker left |
| Bridges.BridgeReadsBackIff | src/remote.rs:263-279 | the bridge's answer is decoded as sent if and only if its output frame is below 2^32 bytes |
| Bridges.LongLogIsLost | src/remote.rs:263-279 | a log for which it is not |
| RemoteClients.RemoteAttach.ReadFrom | src/remote.rs:476-522 | reading one frame, or losing the transport, in either phase |
| RemoteClients.RemoteAttach.Dispatch | src/remote.rs:635-698 | every kind of frame in the streaming phase |
| RemoteClients.RemoteAttach.Lose | src/remote.rs:699-733 | give up, or reconnect with the cursor kept or cleared |
| RemoteClients.TrueFrameKeepsClient | src/remote.rs:875-889 | fed any true frame, however it overlaps, the client writes exactly the bytes it lacks; a gap is seen if and only if the frame starts beyond the cursor, and is a loss |
| RemoteClients.FrameOnlyGrows | src/remote.rs:635-686 | no frame of any kind takes output back |
| RemoteClients.HandshakeEnds | src/remote.rs:447-600 | a client that has connected waits for READY or an error, whatever else arrives; READY attaches it and says whether there is a terminal, which there is if nothing is said; an error is a loss |
| RemoteClients.LegacyOutputEndsResumption | src/remote.rs:677-703 | a client that stays attached writes all output that comes without offsets, and once there is any a loss ends it; without any it resumes as before |
| RemoteClients.CursorIsAnOffset | src/remote.rs:875-889 | whatever frames arrive, the cursor stays below 2^64 |
| Frames.ReadsBackIffFits | src/attach.rs:56-88 | a frame is read back, whatever follows, if and only if its payload is below 2^32 bytes |
| Frames.CutFrameYieldsNothing | src/attach.rs:72-88 | a frame cut anywhere yields no frame, and which end of stream is reported |
| Frames.ReadOneOfStream | src/attach.rs:72-88 | one read of a cut stream takes its first frame or nothing |
| Frames.CutStreamReadsWholeFrames | src/attach.rs:56-88 | decoding any frames cut at any byte returns exactly the frames wholly transmitted |
| Frames.StreamRoundTrip | src/attach.rs:56-88 | decoding any encoded frames returns them |
| Frames.StreamReadsBackIff | src/attach.rs:56-88 | any frames are decoded as sent if and only if all of them fit |
| Frames.Pipe.WriteFrame | src/attach.rs:56-70 | the writer appends the encoding |
| Frames.Pipe.ReadFrame | src/attach.rs:72-88 | the reader consumes what `ReadOne` says |
| Bytes.BigEndianRoundTrip | src/attach.rs:61-63 | a number that fits comes back from its bytes |
| Bytes.FromBigEndianRoundTrip | src/attach.rs:104-110 | every byte string of that width encodes exactly one number |
| DetachFilters.DetachFilter.Push | src/attach.rs:373-397 | the byte loop equals `Pushed`, in output, flag and state |
| DetachFilters.DetachFilter.HandleToken | src/attach.rs:415-440 | press, repeat or release, other |
| DetachFilters.DetachFilter.FlushPartialEscape | src/attach.rs:408-413 | the open escape is forwarded after what was withheld |
| DetachFilters.ParseDecimal | src/attach.rs:489-501 | the digit loop yields the decimal value below 2^16, and only for digits |
| DetachFilters.PushConcat | src/attach.rs:373-397 | two reads act as one read of both |
| DetachFilters.FeedConserves | src/attach.rs:360-446 | over any reads and timer flushes without a detach, forwarded, withheld and open escape are the input in order, and both stores stay bounded |
| DetachFilters.PushIsTokenwise | src/attach.rs:373-397 | reading byte by byte equals splitting by lookahead and handling each token |
| DetachFilters.TokensPartition | src/attach.rs:376-392 | the reference's tokens and remainder are the input |
| DetachFilters.ReferenceBeforeDetach | src/attach.rs:415-446 | until the hotkey is complete exactly the reference's bytes are held |
| DetachFilters.RefinesReference | src/attach.rs:373-446 | for every input: detach if and only if press, fitting repeats or releases, press occur in the token stream; output and state are the reference's in both cases |
| DetachFilters.SplitJoins | src/attach.rs:455-459 | splitting at separators loses nothing and leaves none |
| DetachFilters.CsiUForms | src/attach.rs:448-472 | a CSI-u token is a press, or a repeat or release, if and only if its fields say so, for every list of fields |
| DetachFilters.CsiUNeedsModifier | src/attach.rs:453-459 | one without a modifier field is no event |
| DetachFilters.TildeForms | src/attach.rs:475-484 | a token that ends with a tilde is a press if and only if it has at least three fields, of values 27, control with any locks, and 92, in this order, for every list of fields |
| DetachFilters.OtherTokens | src/attach.rs:415-450 | the byte 0x1c is a press, and a token of any other kind is no event |
| DetachFilters.DecimalIsPositional | src/attach.rs:489-501 | a field has the value of its decimal digits, if it is digits and below 2^16, and no value otherwise |
| DetachFilters.TwoPressesDetach | src/attach.rs:415-440 | two presses in a row, each in any encoding, detach and forward nothing; one press and then another key are forwarded |
| DetachFilters.PressEncodings | src/attach.rs:352-358 | the byte, `ESC [ 27 ; 5 ; 92 ~` and `ESC [ 92 ; 5 u` are such presses |
| DetachFilters.ControlSequencesEnd | src/attach.rs:381-383 | a control sequence ends with a byte from 0x40 to 0x7e and with no other |
| DetachFilters.LongSequenceIsForwarded | src/attach.rs:383-389 | one that does not end is kept for 128 bytes and forwarded with the next |
| DetachFilters.ControlOnlyValues | src/attach.rs:465-467 | the modifier test accepts control with any locks and nothing else |
| InputGates.RemoteInput.DiscardQueuedInput | src/remote.rs:862-873 | the drain loop |
| InputGates.RemoteInput.BecomeReady | src/remote.rs:504-522 | READY drains, then empties the filter, or leaves |
| InputGates.RemoteInput.Receive | src/remote.rs:736-782 | a chunk in any phase |
| InputGates.RemoteInput.FireEscapeTimer | src/remote.rs:783-813 | the open escape is flushed, and sent |
| InputGates.RemoteInput.WaitReconnect | src/remote.rs:891-913 | the wait is a run of the step system up to the step that ends it |
| InputGates.StepKeepsGate | src/remote.rs:492-521 | every step keeps: while attached the filter was fed, from empty, only what was typed since READY |
| InputGates.OfflineInputNeverLeaks | src/remote.rs:492-521 | in every run and every connection, what is forwarded is what the filter, started empty, lets through of the input dequeued after the drain, and a prefix of what was typed while attached |
| InputGates.HotkeyWorksInEveryPhase | src/remote.rs:492-520 | in every run the client has left by the hotkey if and only if some piece of the input since the filter was last emptied, typed online or offline, completes it without a failed write |
| InputGates.HotkeyLeavesIff | src/remote.rs:736-782 | in every run that whole input completes the hotkey if and only if the client has left or a write failed on a completing piece; without such a failure, if and only if it has left |
| InputGates.FedIsInput | src/remote.rs:504-521 | in every run the filter holds what it was given since it was last emptied, which only READY does, and the end of a wait |
| InputGates.InputIsConserved | src/remote.rs:736-873 | in every run what was typed is what was taken from the queue and what is still queued, in order |
| InputGates.PhaseIsExact | src/remote.rs:736-913 | a step that is not the hotkey makes the client wait, connect again, attach or end exactly when it should |
| InputGates.EndsOtherwiseIff | src/remote.rs:699-860 | in every run the client has ended otherwise than by the hotkey if and only if the session ended, or it lost a connection and was not to retry |
| InputGates.HotkeyCanBeLost | src/remote.rs:736-782 | a run in which a failed write loses the hotkey, and one more press leaves |
| SafePrefixes.ScanIsExact | src/sub.rs:856-863 | the validation finds the longest valid prefix and whether the rest is only truncated |
| SafePrefixes.CharsAreScalars | src/sub.rs:856-863 | the characters it accepts are exactly the UTF-8 encodings of the Unicode scalar values |
| SafePrefixes.EscapeIsHeldIff | src/sub.rs:870-882 | for any bytes, which escape sequence at the end is held back, and that nothing unknown is |
| SafePrefixes.SafeIsExact | src/sub.rs:848-865 | for any bytes, apart from that, what is held back is a truncated character after valid text, and nothing otherwise |
| SafePrefixes.HeldBackIsTruncated | src/sub.rs:848-865 | for all bytes without ESC, what is held back is at most three bytes that begin a character; malformed bytes hold nothing back |
| SafePrefixes.TruncatedTailIsHeldIff | src/sub.rs:856-863 | a truncated last character is held back if and only if everything before it is valid |
| SafePrefixes.TruncatedTailIsSplit | src/sub.rs:856-863 | an input for which it is not held |
| SafePrefixes.ValidLogStaysValid | src/sub.rs:816-841 | for a valid log read from a character boundary, the text and the rest are valid at every length |
| SafePrefixes.SafeGrows | src/sub.rs:848-882 | for every valid log, with escape sequences of any kind, complete or not, and all lengths: reading piecewise gets exactly as far as reading at once, and stays on character boundaries |
| Polling.PollingAgreesIff | src/sub.rs:816-882 | for every valid log, from every character boundary, at any moments of growth: polling gets as far as one read, with the same raw text; the stripped text is the same if and only if no read, but one that ends where polling ends, ends inside a sequence |
| Polling.ShorterLogResumes | src/sub.rs:823-826 | a reader whose offset lies beyond the end goes on with what is appended from then on |
| Polling.SafeIsWholeItems | src/sub.rs:848-882 | what is safe to show of a growing log of items is exactly its whole items |
| Polling.ReadReturnsWholeItems | src/sub.rs:816-841 | a read from an item boundary returns the items that are whole and resumes at a boundary |
| Polling.PollingEqualsOneRead | src/sub.rs:816-882 | reading at any moments of growth gives the text and offset of one read, which is the stripped log up to that offset; also for operating system commands that end with `ESC \` |
| Polling.TextIsValid | src/sub.rs:834-840 | the stripped text is valid UTF-8, so decoding piecewise loses nothing |
| Polling.StringTerminatorIsSplit | src/sub.rs:870-882 | after whole items, such a command is held back at every cut if and only if the cut is not between the two bytes of its terminator |
| Polling.TerminatorIsCut | src/sub.rs:850-855 | an input that is cut there |
| SplitSequences.OpeningIsHeldIff | src/sub.rs:870-882 | after whole items, a part of a DCS, SOS, PM or APC string, or of a sequence with intermediate bytes, is held back if and only if it is one byte |
| SplitSequences.SplitReadsAgreeIff | src/sub.rs:870-882 | for every such sequence between any whole items, from every boundary before it, at any moments of growth: the polled text is that of one read if and only if no moment finds the sequence open, but one whose read ends where the last one does |
| SplitSequences.TwoReadsAgreeIff | src/sub.rs:870-882 | one early read and one of the whole log agree with a single read if and only if the early one finds less than the two bytes that open the sequence, or all of it |
| SplitSequences.RestIsShown | src/sub.rs:816-841 | read at once it shows nothing; cut before one of its characters it shows exactly the rest |
| SplitSequences.FinalByteIsShown | src/sub.rs:879-880 | `ESC ( B` read after two bytes shows a B |
| SplitSequences.ContentsAreShown | src/sub.rs:879-880 | a DCS string read after three bytes shows the rest of its contents |
| Expecting.Expect | src/sub.rs:397-434 | the polling loop returns what single reads of the whole log decide, look by look |
| Expecting.OutcomeReturns | src/sub.rs:397-434 | a wait returns at the first look that ends it: 0 for a match, else 1 or 0 for the whole text when the command has finished, else 124 at the deadline |
| Expecting.ScheduleDoesNotMatter | src/sub.rs:397-434 | every wait ended by the command, on every log, from every boundary, on every schedule, returns whether the pattern is in the whole text, if and only if the pattern never stops matching when a log goes on |
| Expecting.AnchoredPatternDependsOnSchedule | src/sub.rs:397-434 | a pattern that does, and two schedules that differ |
| Workers.Pane.Terminate | src/run.rs:468-516 | success means that the exit is known and the group gone; what was done is SIGHUP, time, and SIGKILL only for a reason, and giving up needs one too; and it is what the world has answered |
| Workers.Pane.WaitForProcessGroupExit | src/run.rs:534-543 | the polling loop succeeds only when the group is gone, and gives up only on a failing probe or when its patience is used up |
| Workers.Pane.WaitForExit | src/run.rs:521-532 | returns the exit known at that time |
| Workers.Worker.Serve | src/run.rs:97-355 | the worker's whole life is an accepted trace that tells what the world has answered, turn by turn; it returns without error if and only if that trace is closed |
| Workers.Worker.Supervise | src/run.rs:218-309 | the main loop over any turns, in order and all of them while it is running |
| Workers.Worker.ServeKill | src/run.rs:258-301 | stop, record, then answer |
| Workers.Worker.ServeRestart | src/run.rs:246-257 | stop, spawn, record |
| Workers.Worker.Conclude | src/run.rs:311-344 | the recorded end and the announced exit tell the same story |
| Workers.LifecycleOrder | src/run.rs:97-355 | persisted states are Starting, Running any number of times, then at most one terminal state and nothing after; a closed life has recorded one |
| Workers.ConfirmedKill | src/run.rs:258-301 | at most one kill request is told so, right after Killed was persisted with the same status and when the group is gone, and only the exit announcement follows |
| Workers.KillIsAnswered | src/run.rs:258-301 | every kill request is answered for what was done: refused, and the session goes on, if stopping was given up; confirmed with the recorded status and the escalation if the worker signalled the pane and the status was written; refused if it found the pane gone |
| Workers.StopSucceeds | src/run.rs:468-543 | if no probe or signal fails, the exit becomes known and the group dies in time, stopping a pane succeeds |
| Workers.KillSucceeds | src/run.rs:258-301 | so a kill of a running pane that does die is confirmed as Killed, with the code of its command |
| Workers.TurnsAreServed | src/run.rs:216-309 | every turn is served, step by step: timeouts stop, record and announce; an exit that is noticed is recorded and announced; a restart stops, starts and records; an idle tick does nothing |
| Workers.FailsOnlyOutside | src/run.rs:97-355 | a worker returns with an error only after a status write or a start that failed, or a stop that was given up |
| Workers.FailedStarts | src/run.rs:133-200 | a command that could not be started leaves Exited without a code, and one that nobody could control is stopped and leaves Killed with code 1, and nothing follows |
| Workers.EndIsRecorded | src/run.rs:311-344 | a closed life ends with a stop or a noticed exit, the record of exactly that, and its announcement |
| Workers.RestartsNeverOverlap | src/run.rs:246-257 | when a new pane is started, its predecessor's group is gone |
| Workers.AnnouncedCodeIsRecorded | src/run.rs:311-344 | the announced exit, the recorded status, a bridge that reads it and `wait` give the same code, if there is one or a signal |
| Workers.AwaitKill | src/control.rs:400-460 | the requester claims the kill if and only if the worker confirmed it; a finished session is reported from a terminal status it saw |
| ExitCodes.LiveCode | src/attach.rs:90-110 | the code a client reads from EXIT is the one sent, for every signed 32-bit code |
| ExitCodes.ExitPayloads | src/attach.rs:90-110 | its payload has five bytes, of which the first says whether a signal ended the command; it is read whatever the first byte is, and 0 stands for a payload of another length and a status that is missing |
| ExitCodes.Wait | src/sub.rs:494-518 | the loop returns at the first look that ends it: the recorded code of a finished session, or 0 or 130 without one; else 137 if its owner died; else 124 at the deadline |
| ExitCodes.CodesAgreeIff | src/run.rs:311-344 | live payload, bridge, recorded status and `wait` agree if and only if there is a code, or a signal, or the worker did not stop the command |
| ExitCodes.ObservedCodesAgreeIff | src/pane.rs:390-412 | for everything the waiting thread can record, they agree if and only if it is not an exit code of 2^31 or more after a stop by the worker |
| ExitCodes.UnixCodesAgree | src/pane.rs:390-412 | so always for exit codes below 256, and what the code then is |
| ExitCodes.UnrepresentableCodeDisagrees | src/pane.rs:398-402 | the remaining case, which Unix does not produce |
| Shell.RemoteCommandRoundTrip | src/remote.rs:38-59 | a POSIX word lexer reads exactly the optional TERM assignment, babysit and the arguments, for all strings |
| Shell.LexQuotedString | src/remote.rs:38-43 | a quoted string adds exactly its characters, all quoted |
| Shell.QuotingIsInjective | src/remote.rs:49-59 | different arguments never give the same line |
| Reexec.PrintedTimeout | src/run.rs:388-394 | a printed duration comes back if below 2^64 ms and is refused otherwise |
| Reexec.WorkerTimeoutIff | src/run.rs:562-600 | for every text the parent accepts, the worker gets the same timeout if and only if it is below 2^64 ms |
| Reexec.MillisAlwaysArrive | src/run.rs:573-585 | whatever was given in milliseconds arrives |
| Reexec.LongTimeoutIsLost | src/run.rs:573-600 | a timeout that does not |
| Reexec.DurationText | src/run.rs:573-600 | what a text of a number, with or without a plus sign, and a unit means, blanks around either ignored, for every number; it is refused if the number has more than 64 bits |
| Reexec.DurationIsText | src/run.rs:573-600 | nothing else is accepted as a duration |
| Reexec.TimeoutForms | src/run.rs:573-600 | for instance a bare number is of seconds, and one with m, h or d of 60, 3600 or 86400 of them |
| Reexec.TimeoutIsDuration | src/run.rs:562-569 | a timeout is a duration, or none if it is zero or one of the texts that mean none |
| Reexec.NoTimeoutTexts | src/run.rs:562-569 | which are the empty text, none, off and never, in any mixture of cases |
| Reexec.ParsesDecimals | src/run.rs:573-600 | the checked parser reads decimal numbers by their places, and nothing else, up to its maximum |
| Reexec.PrintedSize | src/run.rs:396-400 | every size that a terminal can have survives printing and parsing |
| Reexec.WorkerSize | src/run.rs:602-618 | every size the parent accepts reaches the worker |
| Reexec.SizeForms | src/run.rs:602-618 | what a size means, with either x and blanks around its numbers; zero and more than 16 bits are refused |
| Reexec.SizeIsText | src/run.rs:602-618 | nothing else is accepted as a size |
| Reexec.DigitsRoundTrip | src/run.rs:388-400 | the checked parser reads back every printed number that fits and refuses the others |
| HostArgs.StripHostArgs | src/remote.rs:158-182 | the loop equals `Stripped` |
| HostArgs.EveryLineHasParts | src/remote.rs:158-182 | for every line: exactly the selectors before the separator go, the rest is verbatim, and it fails exactly for a selector without its value |
| HostArgs.StrippedStaysStripped | src/remote.rs:158-182 | no selector is left |
| CaptureRows.ClipCaptureRows | src/sub.rs:772-792 | for any sidecar the rows are sorted, disjoint, not empty and inside the range |
| CaptureRows.ClipKeepsTimes | src/sub.rs:772-792 | each row is a piece of a line with that line's time |
| CaptureRows.ClipCoversIff | src/sub.rs:772-792 | for any sidecar and every offset, the time of that byte is told if and only if the byte is in the range and a line covers it that is a row, representable, not empty, and behind all lines used before, and it is that line's time |
| CaptureRows.ClippedChain | src/sub.rs:783-790 | rows that lie end to end, clipped, fill the range |
| CaptureRows.TimestampsPartition | src/pane.rs:97-120 | over every run on an empty log the sidecar has exactly the rows of the broadcasts before the first failing write, with their places and times, and all without one; clipped, they tile what they cover of the range |
| CaptureRows.SidecarIsExact | src/pane.rs:73-120 | over every run on any log the sidecar keeps its rows, unless it was opened on an empty log, and gets those of the broadcasts before the first failing write if it was opened |
| CaptureRows.CapturesChain | src/pane.rs:97-120 | the rows of all broadcasts lie end to end |

## Left out

- `--view-cmd` formatters and legacy (protocol 0) attach streams: their output has no offsets; of the legacy path only the hub's subscribers are modelled, and the client's loss of resumability.
- Pseudo-terminals, pipes, the virtual screen, rendering and regular expressions: library behaviour. `expect` is proved for any predicate on text, its `--screen` mode is not part of this model.
- The library that strips escape sequences: replaced by a small stripper for the sequences of `Polling.dfy` and `SplitSequences.dfy`. It keeps all other control characters, does not know the two that cancel a sequence or the 8-bit forms of the controls, and takes what follows `ESC N` (single shift two) for text.
- Tokio's scheduling, cancellation inside `select!`, wall-clock times and poisoned locks: abstracted to atomic steps, and to timeouts that may happen at any time.
- Real signals and process ids: a process group is a set that an adversary changes; the branch without a process id, for other systems than Unix, is not part of this model.
- A local output that cannot be written to: the client then ends with an error.
- A log file that is missing when it is read: `read_slice` then returns no text and the offset unchanged.
- SSH, its command-line options and host validation, the reconnect status text, error message texts, terminal sizes and resizing, JSON and command-line parsing, session listing and names, sockets and their directories, shell completion, upgrade.
- `wait_idle`, `grep_filter`, `last_n_lines`, `key_to_bytes` and the capture, list and prune commands: single passes over text or files that promise nothing across calls.
- Polling.PollingEqualsOneRead: stated for logs of complete items read from a boundary between them, because for DCS, SOS, PM and APC strings, for sequences with intermediate bytes and for some malformed ones the polled text depends on the moments of reading; `PollingAgreesIff` says when it does not.
- Protocol.ExitMeansComplete: stated for serving turns that look at the queue and at the exit together; what a stream lacks otherwise is stated for single streams, by `SplitTailIsCompleteIff`.
- InputGates.OfflineInputNeverLeaks: a chunk that arrives while the drain at READY is running is taken to arrive before or after it.
