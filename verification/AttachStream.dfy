/**
 The worker's side of an attach connection (protocol version 1, raw stream): the handshake,
 the replay of a log range, then queued output until the session ends, the client is
 detached, or it goes away. `Server` is where a connection stands; one turn of its loop is
 one step. `HandleAttach` runs whole connections and is proved against these steps.
 */
module AttachStreams {
  import opened Bytes
  import opened Frames
  import opened OutputHubs
  import opened ExitCodes

  const REPLAY_BUFFER: nat := 0x1_0000

  datatype Server =
    | Replaying(id: nat, offset: nat, end: nat, alreadyExited: bool)
    | Serving(id: nat, pending: Option<Chunk>, alreadyExited: bool)
    | Finished

  /** The connection and the hub after a step, and the frames the step wrote. */
  datatype Turn = Turn(server: Server, hub: Hub, frames: seq<Frame>)

  function OutputFrame(c: Chunk): Frame { Frame(S_OUTPUT_OFFSET, BigEndian(c.offset, 8) + c.data) }

  /** The texts of error messages are not modelled. */
  const ERROR_FRAME: Frame := Frame(S_ERROR, [])

  const READY_FRAME: Frame := Frame(S_READY, [])

  const DETACHED_FRAME: Frame := Frame(S_DETACHED, [])

  function ExitFrame(info: ExitInfo): Frame { Frame(S_EXIT, ExitPayload(Some(info))) }

  // ---------------------------------------------------------------- steps

  function Accept(hub: Hub, since: Option<nat>, exited: bool): Turn {
    match hub.Subscription(since)
    case Subscribed(id, end, backlog) =>
      Turn(if since.Some? && since.value < end then Replaying(id, since.value, end, exited)
           else Serving(id, if since.None? then backlog else None, exited),
           hub.SubscribeResumable(since), [READY_FRAME])
    case _ => Turn(Finished, hub, [READY_FRAME, ERROR_FRAME])
  }

  /** How many bytes one read of the log can return; `read` is what the system call did, or
      an error. Nothing read before the end of the range is an error too. */
  function ReadCount(disk: seq<byte>, offset: nat, end: nat, read: Option<nat>): (n: nat)
    requires offset < end
    ensures n <= REPLAY_BUFFER && n <= end - offset
    ensures n > 0 ==> offset + n <= |disk|
    ensures n == 0 <==> read.None? || read.value == 0 || offset >= |disk|
  {
    if read.None? then 0
    else Max(0, Min(Min(read.value, REPLAY_BUFFER), Min(end, |disk|) - offset))
  }

  function Replay(s: Server, hub: Hub, read: Option<nat>): Turn
    requires s.Replaying? && s.offset < s.end
  {
    var n := ReadCount(hub.disk, s.offset, s.end, read);
    if n == 0 then Turn(Finished, hub, [ERROR_FRAME])
    else
      var chunk := Chunk(s.offset, hub.disk[s.offset..s.offset + n]);
      var next := if s.offset + n < s.end then s.(offset := s.offset + n)
                  else Serving(s.id, None, s.alreadyExited);
      Turn(next, hub, [OutputFrame(chunk)])
  }

  function Queue(hub: Hub, id: nat): seq<Chunk> {
    if id in hub.resumeQueues then hub.resumeQueues[id] else []
  }

  /** After output was sent: a session that had already exited when the client attached is
      announced as soon as nothing is left to send. */
  function AfterOutput(s: Server, hub: Hub, frame: Frame, exit: Option<ExitInfo>): Turn
    requires s.Serving?
  {
    if s.alreadyExited && s.pending.None? && Queue(hub, s.id) == []
    then Turn(Finished, hub, [frame, Frame(S_EXIT, ExitPayload(exit))])
    else Turn(s, hub, [frame])
  }

  /** One turn of the serving loop. Its branches are tried in order: output that is ready,
      then the end of the session, then a forced detach, then a client that has gone. */
  function Serve(s: Server, hub: Hub, exit: Option<ExitInfo>, detached: bool, gone: bool): Turn
    requires s.Serving?
  {
    var queue := Queue(hub, s.id);
    if s.pending.Some? then AfterOutput(s.(pending := None), hub, OutputFrame(s.pending.value), exit)
    else if queue != [] then AfterOutput(s, hub.TakeResumable(s.id), OutputFrame(queue[0]), exit)
    else if exit.Some? then Turn(Finished, hub, [ExitFrame(exit.value)])
    else if detached then Turn(Finished, hub, [DETACHED_FRAME])
    else if gone then Turn(Finished, hub, [])
    else Turn(s, hub, [])
  }

  // ---------------------------------------------------------------- streams

  predicate IsEnd(f: Frame) { f.tag == S_EXIT || f.tag == S_DETACHED || f.tag == S_ERROR }

  function OffsetOf(f: Frame): nat
    requires |f.payload| >= 8
  {
    FromBigEndian(f.payload[..8])
  }

  /** A true output frame that continues a stream at `pos`; nothing has fixed the position
      of a stream that has carried no output. */
  predicate Continues(f: Frame, pos: Option<nat>, history: seq<byte>) {
    && f.tag == S_OUTPUT_OFFSET && |f.payload| >= 8
    && (pos.None? || pos.value == OffsetOf(f))
    && IsSegment(f.payload[8..], OffsetOf(f), history)
  }

  function Position(f: Frame, pos: Option<nat>): Option<nat> {
    if f.tag == S_OUTPUT_OFFSET && |f.payload| >= 8 then Some(OffsetOf(f) + |f.payload| - 8) else pos
  }

  /** The frames carry consecutive pieces of the history from `pos` on, each at its true
      offset, and at most one end frame, which is the last. */
  predicate Stream(fs: seq<Frame>, pos: Option<nat>, history: seq<byte>) {
    fs == []
    || (&& (fs[0].tag == S_READY || Continues(fs[0], pos, history) || (IsEnd(fs[0]) && |fs| == 1))
        && Stream(fs[1..], Position(fs[0], pos), history))
  }

  function StreamEnd(fs: seq<Frame>, pos: Option<nat>): Option<nat> {
    if fs == [] then pos else StreamEnd(fs[1..], Position(fs[0], pos))
  }

  predicate Ended(fs: seq<Frame>) { fs != [] && IsEnd(fs[|fs| - 1]) }

  /** The bytes of the output frames. */
  function Output(fs: seq<Frame>): seq<byte> {
    if fs == [] then []
    else (if fs[0].tag == S_OUTPUT_OFFSET && |fs[0].payload| >= 8 then fs[0].payload[8..] else []) + Output(fs[1..])
  }

  lemma {:induction false} StreamAppend(fs: seq<Frame>, gs: seq<Frame>, pos: Option<nat>, history: seq<byte>)
    requires Stream(fs, pos, history) && !Ended(fs) && Stream(gs, StreamEnd(fs, pos), history)
    ensures Stream(fs + gs, pos, history)
    ensures StreamEnd(fs + gs, pos) == StreamEnd(gs, StreamEnd(fs, pos))
  {
    if fs == [] {
      assert fs + gs == gs;
    } else {
      assert (fs + gs)[1..] == fs[1..] + gs;
      StreamAppend(fs[1..], gs, Position(fs[0], pos), history);
    }
  }

  lemma {:induction false} StreamOfLonger(fs: seq<Frame>, pos: Option<nat>, history: seq<byte>, data: seq<byte>)
    requires Stream(fs, pos, history)
    ensures Stream(fs, pos, history + data)
  {
    if fs != [] {
      if Continues(fs[0], pos, history) {
        SegmentOfLonger(fs[0].payload[8..], OffsetOf(fs[0]), history, data);
      }
      StreamOfLonger(fs[1..], Position(fs[0], pos), history, data);
    }
  }

  /** `out` is what the history has from `pos`, if that is known, up to `end`. */
  predicate EndsSegment(out: seq<byte>, pos: Option<nat>, end: Option<nat>, history: seq<byte>) {
    && (pos.Some? ==> end.Some?)
    && (end.None? ==> out == [])
    && (end.Some? ==>
          && |out| <= end.value <= |history|
          && (pos.Some? ==> end.value == pos.value + |out|)
          && out == history[end.value - |out|..end.value])
  }

  lemma SegmentStep(f: Frame, out: seq<byte>, pos: Option<nat>, end: Option<nat>, history: seq<byte>)
    requires Continues(f, pos, history) && EndsSegment(out, Position(f, pos), end, history)
    ensures EndsSegment(f.payload[8..] + out, pos, end, history)
  {
    var start := OffsetOf(f);
    var data := f.payload[8..];
    hide OffsetOf;
    assert end.value == start + |data| + |out|;
    SegmentsJoin(history, start, data, end.value);
  }

  lemma SegmentsJoin(history: seq<byte>, start: nat, data: seq<byte>, end: nat)
    requires IsSegment(data, start, history) && start + |data| <= end <= |history|
    ensures data + history[start + |data|..end] == history[start..end]
  {
  }

  lemma NothingIsASegment(pos: Option<nat>, history: seq<byte>)
    requires pos.Some? ==> pos.value <= |history|
    ensures EndsSegment([], pos, pos, history)
  {
    assert pos.Some? ==> [] == history[pos.value..pos.value];
  }

  /** The output of a stream is one segment of the history. */
  lemma {:induction false} StreamIsASegment(fs: seq<Frame>, pos: Option<nat>, history: seq<byte>)
    requires Stream(fs, pos, history) && (pos.Some? ==> pos.value <= |history|)
    ensures EndsSegment(Output(fs), pos, StreamEnd(fs, pos), history)
  {
    if fs == [] {
      NothingIsASegment(pos, history);
    } else {
      assert Continues(fs[0], pos, history) ==> Position(fs[0], pos).value <= |history|;
      hide OffsetOf, IsSegment, EndsSegment;
      StreamIsASegment(fs[1..], Position(fs[0], pos), history);
      var out := Output(fs[1..]);
      if Continues(fs[0], pos, history) {
        SegmentStep(fs[0], out, pos, StreamEnd(fs, pos), history);
      } else {
        assert [] + out == out;
      }
    }
  }

  lemma OutputFrameContinues(c: Chunk, pos: Option<nat>, history: seq<byte>)
    requires c.offset < U64_MODULUS && IsSegment(c.data, c.offset, history)
    requires pos.None? || pos == Some(c.offset)
    ensures Continues(OutputFrame(c), pos, history)
    ensures Position(OutputFrame(c), pos) == Some(c.offset + |c.data|)
    ensures |OutputFrame(c).payload| == 8 + |c.data|
  {
    Capacities();
    BigEndianRoundTrip(c.offset, 8);
    assert OutputFrame(c).payload[..8] == BigEndian(c.offset, 8);
    assert OutputFrame(c).payload[8..] == c.data;
  }

  predicate Follows(f: Frame, pos: Option<nat>, history: seq<byte>) {
    f.tag == S_READY || Continues(f, pos, history) || IsEnd(f)
  }

  lemma StreamOfNone(pos: Option<nat>, history: seq<byte>)
    ensures Stream([], pos, history) && StreamEnd([], pos) == pos
  {
  }

  lemma StreamOfOne(f: Frame, pos: Option<nat>, history: seq<byte>)
    requires Follows(f, pos, history)
    ensures Stream([f], pos, history) && StreamEnd([f], pos) == Position(f, pos)
  {
    assert [f][1..] == [];
    assert Stream([], Position(f, pos), history);
  }

  lemma StreamOfTwo(f: Frame, g: Frame, pos: Option<nat>, history: seq<byte>)
    requires Follows(f, pos, history) && !IsEnd(f) && Follows(g, Position(f, pos), history)
    ensures Stream([f, g], pos, history)
    ensures StreamEnd([f, g], pos) == Position(g, Position(f, pos))
  {
    StreamOfOne(g, Position(f, pos), history);
    assert [f, g][1..] == [g];
  }

  // ---------------------------------------------------------------- the connection invariant

  /** Where the next output frame of a connection starts. */
  function Reached(s: Server, a: Audit): nat
    requires s.Finished? || s.id in a.views
  {
    match s
    case Replaying(_, offset, _, _) => offset
    case Serving(id, pending, _) =>
      if pending.Some? then pending.value.offset else a.views[id].start + |a.views[id].taken|
    case Finished => 0
  }

  /** What is left of the log range or the backlog ends where the receiver's view starts. */
  predicate ServerInv(s: Server, h: Hub, a: Audit) {
    match s
    case Replaying(id, offset, end, _) =>
      && id in a.views && id in h.resumeQueues
      && a.views[id] == View(end, [])
      && offset < end <= |h.disk|
    case Serving(id, pending, _) =>
      && id in a.views && id in h.resumeQueues
      && (pending.Some? ==>
            && IsSegment(pending.value.data, pending.value.offset, a.history)
            && |pending.value.data| <= BACKLOG_CAP
            && a.views[id] == View(pending.value.offset + |pending.value.data|, []))
    case Finished => true
  }

  /** Chunks are at most what one read of the pseudo-terminal returns. */
  const PTY_BUFFER: nat := 0x2000

  predicate SmallChunks(h: Hub) {
    forall id, c | id in h.resumeQueues && c in h.resumeQueues[id] :: |c.data| <= PTY_BUFFER
  }

  function Or(pos: Option<nat>, default: nat): nat { if pos.Some? then pos.value else default }

  predicate EndsWithExit(fs: seq<Frame>) { fs != [] && fs[|fs| - 1].tag == S_EXIT }

  /** What steps of a connection that stood at `at` promise to a reader that was there
      too, or had not seen any output yet: the frames continue the stream, an end frame finishes
      the connection, and EXIT is sent only when all output has been. */
  predicate GoodTurn(t: Turn, pos: Option<nat>, at: nat, a': Audit) {
    var end := StreamEnd(t.frames, pos);
    && Inv(t.hub, a') && SmallChunks(t.hub) && ServerInv(t.server, t.hub, a')
    && Stream(t.frames, pos, a'.history) && AllFit(t.frames)
    && (Ended(t.frames) ==> t.server.Finished?)
    && (!t.server.Finished? ==> Or(end, Reached(t.server, a')) == Reached(t.server, a'))
    && (end.None? && !t.server.Finished? && pos == None ==> Reached(t.server, a') == at)
    && (EndsWithExit(t.frames) ==> Or(end, at) == |a'.history|)
  }

  lemma SubscribeKeepsSmall(h: Hub, since: Option<nat>)
    requires SmallChunks(h)
    ensures SmallChunks(h.SubscribeResumable(since))
  {
  }

  lemma AcceptState(h: Hub, a: Audit, since: Option<nat>, exited: bool)
    requires Inv(h, a) && SmallChunks(h)
    ensures var t := Accept(h, since, exited);
            var a' := NextAudit(h, a, DoSubscribeResumable(since));
            && Inv(t.hub, a') && SmallChunks(t.hub) && ServerInv(t.server, t.hub, a')
            && (!t.server.Finished? ==> Reached(t.server, a') == StreamStart(h, since))
  {
    SubscribeKeepsSmall(h, since);
    StepKeepsInv(h, a, DoSubscribeResumable(since));
    AcceptServer(h, a, since, exited);
    hide Inv, SmallChunks, ServerInv, Reached, StreamStart;
  }

  lemma AcceptServer(h: Hub, a: Audit, since: Option<nat>, exited: bool)
    requires Inv(h, a)
    ensures var t := Accept(h, since, exited);
            var a' := NextAudit(h, a, DoSubscribeResumable(since));
            && ServerInv(t.server, t.hub, a')
            && (!t.server.Finished? ==> Reached(t.server, a') == StreamStart(h, since))
  {
    hide LegacyInv, ResumeInv;
    assert IsSegment(h.backlog, h.backlogStart, a.history);
  }

  lemma AcceptIsGood(h: Hub, a: Audit, since: Option<nat>, exited: bool, pos: Option<nat>)
    requires Inv(h, a) && SmallChunks(h)
    requires pos == None || pos == Some(StreamStart(h, since))
    ensures GoodTurn(Accept(h, since, exited), pos, StreamStart(h, since),
                     NextAudit(h, a, DoSubscribeResumable(since)))
  {
    AcceptState(h, a, since, exited);
    StreamOfOne(READY_FRAME, pos, a.history);
    StreamOfTwo(READY_FRAME, ERROR_FRAME, pos, a.history);
    hide Inv, ServerInv, Stream, StreamEnd, Reached, StreamStart;
  }

  /** What one read of the log contributes. */
  lemma ReplayChunk(s: Server, h: Hub, a: Audit, n: nat, pos: Option<nat>)
    requires Inv(h, a) && s.Replaying? && ServerInv(s, h, a)
    requires 0 < n <= s.end - s.offset
    requires pos == None || pos == Some(s.offset)
    ensures var c := Chunk(s.offset, h.disk[s.offset..s.offset + n]);
            && Continues(OutputFrame(c), pos, a.history)
            && Position(OutputFrame(c), pos) == Some(s.offset + n)
            && |OutputFrame(c).payload| == 8 + n
  {
    hide LegacyInv, ResumeInv;
    var c := Chunk(s.offset, h.disk[s.offset..s.offset + n]);
    assert h.disk[s.offset..s.offset + n] == a.history[s.offset..s.offset + n];
    OutputFrameContinues(c, pos, a.history);
  }

  lemma ReplayIsGood(s: Server, h: Hub, a: Audit, read: Option<nat>, pos: Option<nat>)
    requires Inv(h, a) && SmallChunks(h) && s.Replaying? && ServerInv(s, h, a)
    requires pos == None || pos == Some(s.offset)
    ensures GoodTurn(Replay(s, h, read), pos, s.offset, a)
  {
    hide Inv, Stream, StreamEnd, Continues, OutputFrame, SmallChunks;
    var n := ReadCount(h.disk, s.offset, s.end, read);
    assert n <= REPLAY_BUFFER && n <= s.end - s.offset;
    hide ReadCount;
    if n == 0 {
      StreamOfOne(ERROR_FRAME, pos, a.history);
    } else {
      ReplayChunk(s, h, a, n, pos);
      StreamOfOne(OutputFrame(Chunk(s.offset, h.disk[s.offset..s.offset + n])), pos, a.history);
    }
  }

  /** The audit after a turn of the serving loop: the receiver may have taken a chunk. */
  function ServeAudit(s: Server, h: Hub, a: Audit): Audit
    requires s.Serving?
  {
    if s.pending.Some? then a else NextAudit(h, a, DoTakeResumable(s.id))
  }

  lemma TakeKeepsSmall(h: Hub, id: nat)
    requires SmallChunks(h)
    ensures SmallChunks(h.TakeResumable(id))
  {
  }

  /** Sending what comes next in the queue. */
  lemma TakeState(s: Server, h: Hub, a: Audit)
    requires Inv(h, a) && SmallChunks(h) && s.Serving? && ServerInv(s, h, a) && s.pending.None?
    ensures Queue(h, s.id) == [] ==> Reached(s, a) == |a.history|
    ensures Queue(h, s.id) != [] ==>
              var c := Queue(h, s.id)[0];
              var h' := h.TakeResumable(s.id);
              var a' := ServeAudit(s, h, a);
              && c.offset == Reached(s, a) && IsSegment(c.data, c.offset, a.history) && |c.data| <= PTY_BUFFER
              && Inv(h', a') && SmallChunks(h') && ServerInv(s, h', a')
              && Reached(s, a') == c.offset + |c.data|
  {
    StepKeepsInv(h, a, DoTakeResumable(s.id));
    TakeKeepsSmall(h, s.id);
    hide LegacyInv, BacklogInv, LogInv, Registered;
  }

  lemma ServeIsGood(s: Server, h: Hub, a: Audit, exit: Option<ExitInfo>, detached: bool, gone: bool, pos: Option<nat>)
    requires Inv(h, a) && SmallChunks(h) && s.Serving? && ServerInv(s, h, a)
    requires pos == None || pos == Some(Reached(s, a))
    ensures GoodTurn(Serve(s, h, exit, detached, gone), pos, Reached(s, a), ServeAudit(s, h, a))
  {
    assert |a.history| < U64_MODULUS;
    hide Inv, Stream, StreamEnd, SmallChunks, Continues, AfterOutput;
    if s.pending.Some? {
      var c := s.pending.value;
      OutputFrameContinues(c, pos, a.history);
      AfterOutputIsGood(s.(pending := None), h, c, exit, pos, a, a);
    } else {
      TakeState(s, h, a);
      if Queue(h, s.id) != [] {
        var c := Queue(h, s.id)[0];
        assert c.offset < U64_MODULUS;
        OutputFrameContinues(c, pos, a.history);
        AfterOutputIsGood(s, h.TakeResumable(s.id), c, exit, pos, a, ServeAudit(s, h, a));
      } else {
        IdleTurnIsGood(s, h, a, exit, detached, gone, pos);
        hide GoodTurn;
      }
    }
  }

  lemma IdleTurnIsGood(s: Server, h: Hub, a: Audit, exit: Option<ExitInfo>, detached: bool, gone: bool,
                       pos: Option<nat>)
    requires Inv(h, a) && SmallChunks(h) && s.Serving? && ServerInv(s, h, a)
    requires s.pending.None? && Queue(h, s.id) == [] && Reached(s, a) == |a.history|
    requires pos == None || pos == Some(Reached(s, a))
    ensures GoodTurn(Serve(s, h, exit, detached, gone), pos, Reached(s, a), a)
  {
    hide Inv, Stream, StreamEnd, SmallChunks, Continues;
    if exit.Some? {
      StreamOfOne(ExitFrame(exit.value), pos, a.history);
    }
    StreamOfOne(DETACHED_FRAME, pos, a.history);
    StreamOfNone(pos, a.history);
  }

  lemma AfterOutputIsGood(s: Server, h: Hub, c: Chunk, exit: Option<ExitInfo>, pos: Option<nat>, a: Audit, a': Audit)
    requires s.Serving? && s.pending.None?
    requires Inv(h, a') && SmallChunks(h) && ServerInv(s, h, a') && a'.history == a.history
    requires Reached(s, a') == c.offset + |c.data|
    requires Continues(OutputFrame(c), pos, a.history) && |c.data| <= BACKLOG_CAP
    requires Position(OutputFrame(c), pos) == Some(c.offset + |c.data|)
    ensures GoodTurn(AfterOutput(s, h, OutputFrame(c), exit), pos, c.offset, a')
  {
    var f := OutputFrame(c);
    StreamOfOne(f, pos, a.history);
    StreamOfTwo(f, Frame(S_EXIT, ExitPayload(exit)), pos, a.history);
    TakeState(s, h, a');
    hide Inv, ServerInv, Stream, StreamEnd, Continues, SmallChunks;
  }

  // ---------------------------------------------------------------- the environment

  predicate Printable(data: seq<byte>, a: Audit) {
    |data| <= PTY_BUFFER && |a.history| + |data| < U64_MODULUS
  }

  lemma StepKeepsSmall(h: Hub, op: Op)
    requires SmallChunks(h) && NoDuplicates(h.resumeClients)
    requires op.DoBroadcast? ==> |op.data| <= PTY_BUFFER
    ensures SmallChunks(h.Next(op))
  {
    if op.DoBroadcast? {
      hide SendAll;
      SendAllDelivers(h.resumeClients, h.resumeQueues, Chunk(h.nextOffset, op.data));
    }
  }

  /** Nothing that others do to the hub moves a connection or breaks its invariant. */
  lemma OthersKeepServer(s: Server, h: Hub, a: Audit, op: Op)
    requires Inv(h, a) && ServerInv(s, h, a)
    requires op.DoTakeLegacy? || op.DoTakeResumable? || op.DoDrop? ==> !s.Finished? ==> op.id != s.id
    ensures ServerInv(s, h.Next(op), NextAudit(h, a, op))
    ensures !s.Finished? ==> Reached(s, NextAudit(h, a, op)) == Reached(s, a)
    ensures a.history <= NextAudit(h, a, op).history
  {
    if !s.Finished? {
      assert s.id in a.views && s.id in h.resumeQueues && s.id < h.nextId;
      hide Inv, ServerInv, Reached;
      OthersKeepView(s.id, h, a, op);
    }
    NextHistory(h, a, op);
    if s.Serving? && s.pending.Some? {
      SegmentOfLonger(s.pending.value.data, s.pending.value.offset, a.history, Printed(op));
    }
    hide Inv, Hub.Next, NextAudit, IsSegment;
  }

  function Printed(op: Op): seq<byte> { if op.DoBroadcast? then op.data else [] }

  lemma NextHistory(h: Hub, a: Audit, op: Op)
    ensures NextAudit(h, a, op).history == a.history + Printed(op)
    ensures NextAudit(h, a, op).openedAt == a.openedAt
    ensures h.disk <= h.Next(op).disk
  {
    assert a.history + [] == a.history;
    hide SendAll;
  }

  /** The view and the queue of a receiver are its own. */
  lemma OthersKeepView(id: nat, h: Hub, a: Audit, op: Op)
    requires id in a.views && id in h.resumeQueues && id < h.nextId
    requires op.DoTakeLegacy? || op.DoTakeResumable? || op.DoDrop? ==> op.id != id
    ensures id in NextAudit(h, a, op).views && NextAudit(h, a, op).views[id] == a.views[id]
    ensures id in h.Next(op).resumeQueues
  {
    hide SendAll;
  }

  datatype Print = Print(data: seq<byte>, io: FileIo)

  function PrintAll(h: Hub, prints: seq<Print>): Hub
    decreases |prints|
  {
    if prints == [] then h else PrintAll(h.Broadcast(prints[0].data, prints[0].io), prints[1..])
  }

  function PrintAudit(a: Audit, prints: seq<Print>): Audit
    decreases |prints|
  {
    if prints == [] then a else PrintAudit(a.(history := a.history + prints[0].data), prints[1..])
  }

  predicate AllPrintable(prints: seq<Print>, a: Audit)
    decreases |prints|
  {
    prints == []
    || (Printable(prints[0].data, a) && AllPrintable(prints[1..], a.(history := a.history + prints[0].data)))
  }

  lemma {:induction false} PrintsKeepServer(s: Server, h: Hub, a: Audit, prints: seq<Print>)
    requires Inv(h, a) && SmallChunks(h) && ServerInv(s, h, a) && AllPrintable(prints, a)
    ensures var h' := PrintAll(h, prints);
            var a' := PrintAudit(a, prints);
            && Inv(h', a') && SmallChunks(h') && ServerInv(s, h', a')
            && a.history <= a'.history && a'.views == a.views
    ensures !s.Finished? ==> Reached(s, PrintAudit(a, prints)) == Reached(s, a)
    decreases |prints|
  {
    if prints != [] {
      var op := DoBroadcast(prints[0].data, prints[0].io);
      StepKeepsInv(h, a, op);
      StepKeepsSmall(h, op);
      OthersKeepServer(s, h, a, op);
      hide Inv, SmallChunks, ServerInv, Reached;
      PrintsKeepServer(s, h.Next(op), NextAudit(h, a, op), prints[1..]);
    }
  }

  // ---------------------------------------------------------------- the log range

  datatype Range = Range(frames: seq<Frame>, complete: bool)

  /** The frames of a log range, when the read at each offset behaves as `sizes` says. */
  function RangeFrames(disk: seq<byte>, offset: nat, end: nat, sizes: nat -> Option<nat>): Range
    decreases end - offset
  {
    if offset >= end then Range([], true)
    else
      var n := ReadCount(disk, offset, end, sizes(offset));
      if n == 0 then Range([], false)
      else
        var rest := RangeFrames(disk, offset + n, end, sizes);
        rest.(frames := [OutputFrame(Chunk(offset, disk[offset..offset + n]))] + rest.frames)
  }

  lemma FirstOfRange(disk: seq<byte>, offset: nat, end: nat, sizes: nat -> Option<nat>)
    requires offset < end && ReadCount(disk, offset, end, sizes(offset)) > 0
    ensures var n := ReadCount(disk, offset, end, sizes(offset));
            var fs := RangeFrames(disk, offset, end, sizes);
            && fs.complete == RangeFrames(disk, offset + n, end, sizes).complete
            && EncodeAll(fs.frames)
               == Encode(Frame(S_OUTPUT_OFFSET, BigEndian(offset, 8) + disk[offset..offset + n]))
                  + EncodeAll(RangeFrames(disk, offset + n, end, sizes).frames)
  {
    hide ReadCount, Encode;
    var n := ReadCount(disk, offset, end, sizes(offset));
    var fs := RangeFrames(disk, offset, end, sizes).frames;
    assert fs[1..] == RangeFrames(disk, offset + n, end, sizes).frames;
  }

  /** A log that cannot be opened is taken as one whose first read fails. */
  method WriteLogRangeFrames(out: Pipe, disk: seq<byte>, start: nat, end: nat, sizes: nat -> Option<nat>)
    returns (complete: bool)
    modifies out
    ensures out.bytes == old(out.bytes) + EncodeAll(RangeFrames(disk, start, end, sizes).frames)
    ensures complete <==> start <= end && RangeFrames(disk, start, end, sizes).complete
  {
    hide ReadCount, Encode, OutputFrame;
    if end < start {
      assert out.bytes + [] == out.bytes;
      return false;
    }
    var offset := start;
    ghost var range := RangeFrames(disk, start, end, sizes);
    while offset < end
      invariant start <= offset <= end
      invariant range.complete == RangeFrames(disk, offset, end, sizes).complete
      invariant out.bytes + EncodeAll(RangeFrames(disk, offset, end, sizes).frames)
             == old(out.bytes) + EncodeAll(range.frames)
    {
      var n := ReadCount(disk, offset, end, sizes(offset));
      if n == 0 {
        return false;
      }
      var payload: seq<byte> := BigEndian(offset, 8) + disk[offset..offset + n];
      FirstOfRange(disk, offset, end, sizes);
      ghost var sent, rest := out.bytes, RangeFrames(disk, offset + n, end, sizes);
      out.WriteFrame(S_OUTPUT_OFFSET, payload);
      Regroup(sent, Encode(Frame(S_OUTPUT_OFFSET, payload)), EncodeAll(rest.frames));
      offset := offset + n;
    }
    return true;
  }

  lemma ChunkContinues(disk: seq<byte>, offset: nat, n: nat)
    requires offset + n <= |disk| < U64_MODULUS
    ensures var f := OutputFrame(Chunk(offset, disk[offset..offset + n]));
            && Continues(f, Some(offset), disk) && Position(f, Some(offset)) == Some(offset + n)
            && f.tag == S_OUTPUT_OFFSET && |f.payload| == 8 + n && f.payload[8..] == disk[offset..offset + n]
  {
    OutputFrameContinues(Chunk(offset, disk[offset..offset + n]), Some(offset), disk);
  }

  /** A range that the log holds is sent in full, in frames of at most 64 KiB that follow
      one another, whatever short reads occur; it is cut short only by a failing read. */
  lemma {:induction false} RangeIsCovered(disk: seq<byte>, offset: nat, end: nat, sizes: nat -> Option<nat>)
    requires offset <= end <= |disk| < U64_MODULUS
    ensures var r := RangeFrames(disk, offset, end, sizes);
            && Stream(r.frames, Some(offset), disk) && !Ended(r.frames) && AllFit(r.frames)
            && (r.complete ==> StreamEnd(r.frames, Some(offset)) == Some(end) && Output(r.frames) == disk[offset..end])
            && (forall f | f in r.frames :: f.tag == S_OUTPUT_OFFSET && |f.payload| <= 8 + REPLAY_BUFFER)
    ensures (forall o | offset <= o < end :: sizes(o).Some? && sizes(o).value > 0)
            ==> RangeFrames(disk, offset, end, sizes).complete
    decreases end - offset
  {
    hide ReadCount, IsSegment, OutputFrame;
    if offset < end {
      var n := ReadCount(disk, offset, end, sizes(offset));
      if n > 0 {
        var c := Chunk(offset, disk[offset..offset + n]);
        RangeIsCovered(disk, offset + n, end, sizes);
        ChunkContinues(disk, offset, n);
        hide Continues;
        assert disk[offset..end] == c.data + disk[offset + n..end];
      }
    }
  }

  /** The replay step by step, until the range is done or a read fails. */
  function ReplayAll(s: Server, hub: Hub, sizes: nat -> Option<nat>): Turn
    requires s.Replaying? ==> s.offset < s.end
    decreases if s.Replaying? then s.end - s.offset else 0
  {
    if !s.Replaying? then Turn(s, hub, [])
    else
      var t := Replay(s, hub, sizes(s.offset));
      Before(t.frames, ReplayAll(t.server, t.hub, sizes))
  }

  lemma RangeUnfolds(disk: seq<byte>, offset: nat, end: nat, sizes: nat -> Option<nat>)
    requires offset < end
    ensures var n := ReadCount(disk, offset, end, sizes(offset));
            RangeFrames(disk, offset, end, sizes)
            == if n == 0 then Range([], false)
               else var rest := RangeFrames(disk, offset + n, end, sizes);
                    Range([OutputFrame(Chunk(offset, disk[offset..offset + n]))] + rest.frames, rest.complete)
    ensures forall at, sizes: nat -> Option<nat> | at >= end :: RangeFrames(disk, at, end, sizes) == Range([], true)
  {
    hide OutputFrame, ReadCount;
  }

  /** The steps send the frames of the range, and an error if it could not be read to its
      end; otherwise the connection is served from there. */
  lemma {:induction false} ReplayAllIsTheRange(s: Server, hub: Hub, sizes: nat -> Option<nat>)
    requires s.Replaying? && s.offset < s.end
    ensures var range := RangeFrames(hub.disk, s.offset, s.end, sizes);
            ReplayAll(s, hub, sizes)
            == if range.complete then Turn(Serving(s.id, None, s.alreadyExited), hub, range.frames)
               else Turn(Finished, hub, range.frames + [ERROR_FRAME])
    decreases s.end - s.offset
  {
    var n := ReadCount(hub.disk, s.offset, s.end, sizes(s.offset));
    RangeUnfolds(hub.disk, s.offset, s.end, sizes);
    ReplayUnfolds(s, hub, sizes);
    hide *;
    if n == 0 {
      assert [ERROR_FRAME] == [] + [ERROR_FRAME];
    } else {
      var frame := OutputFrame(Chunk(s.offset, hub.disk[s.offset..s.offset + n]));
      if s.offset + n < s.end {
        ReplayAllIsTheRange(s.(offset := s.offset + n), hub, sizes);
        Regroup([frame], RangeFrames(hub.disk, s.offset + n, s.end, sizes).frames, [ERROR_FRAME]);
      } else {
        assert [frame] + [] == [frame];
      }
    }
  }

  lemma ReplayUnfolds(s: Server, hub: Hub, sizes: nat -> Option<nat>)
    requires s.Replaying? && s.offset < s.end
    ensures var n := ReadCount(hub.disk, s.offset, s.end, sizes(s.offset));
            && (n == 0 ==> ReplayAll(s, hub, sizes) == Turn(Finished, hub, [ERROR_FRAME]))
            && (n > 0 ==>
                  var frame := OutputFrame(Chunk(s.offset, hub.disk[s.offset..s.offset + n]));
                  if s.offset + n < s.end then
                    var rest := ReplayAll(s.(offset := s.offset + n), hub, sizes);
                    ReplayAll(s, hub, sizes) == rest.(frames := [frame] + rest.frames)
                  else ReplayAll(s, hub, sizes) == Turn(Serving(s.id, None, s.alreadyExited), hub, [frame]))
  {
    hide OutputFrame, ReadCount;
    assert forall f: Frame :: [f] + [] == [f];
  }

  // ---------------------------------------------------------------- whole connections

  /** The surroundings of one turn: what is printed before it, and what it then sees. */
  datatype Surroundings = Surroundings(prints: seq<Print>, exit: Option<ExitInfo>, detached: bool, gone: bool)

  function Before(frames: seq<Frame>, t: Turn): Turn { t.(frames := frames + t.frames) }

  function ServeAll(s: Server, hub: Hub, turns: seq<Surroundings>): Turn
    decreases |turns|
  {
    if turns == [] || !s.Serving? then Turn(s, hub, [])
    else
      var t := Serve(s, PrintAll(hub, turns[0].prints), turns[0].exit, turns[0].detached, turns[0].gone);
      Before(t.frames, ServeAll(t.server, t.hub, turns[1..]))
  }

  /** The replay of a log range, then serving; what is printed meanwhile waits in the queue. */
  function ReplayAndServe(s: Server, hub: Hub, sizes: nat -> Option<nat>, meanwhile: seq<Print>,
                          turns: seq<Surroundings>): Turn
    requires s.Replaying?
  {
    var range := RangeFrames(hub.disk, s.offset, s.end, sizes);
    Before(range.frames,
      if range.complete then ServeAll(Serving(s.id, None, s.alreadyExited), PrintAll(hub, meanwhile), turns)
      else Turn(Finished, PrintAll(hub, meanwhile), [ERROR_FRAME]))
  }

  /** A connection from its request on. */
  function Attach(hub: Hub, since: Option<nat>, exited: bool, sizes: nat -> Option<nat>,
                  meanwhile: seq<Print>, turns: seq<Surroundings>): Turn
  {
    var t := Accept(hub, since, exited);
    Before(t.frames,
      match t.server
      case Replaying(_, _, _, _) => ReplayAndServe(t.server, t.hub, sizes, meanwhile, turns)
      case Serving(_, _, _) => ServeAll(t.server, t.hub, turns)
      case Finished => Turn(Finished, t.hub, []))
  }

  method PrintEverything(hub: OutputHub, prints: seq<Print>)
    modifies hub
    ensures hub.Abs() == PrintAll(old(hub.Abs()), prints)
  {
    var i := 0;
    ghost var before := hub.Abs();
    while i < |prints|
      invariant 0 <= i <= |prints|
      invariant PrintAll(hub.Abs(), prints[i..]) == PrintAll(before, prints)
    {
      assert prints[i..][0] == prints[i] && prints[i..][1..] == prints[i + 1..];
      hub.Broadcast(prints[i].data, prints[i].io);
      i := i + 1;
    }
  }

  /** The handler of an attach request; `hub` and `out` are shared with the environment,
      which acts between its turns. Returns whether the connection is still being served. */
  method HandleAttach(hub: OutputHub, out: Pipe, since: Option<nat>, exited: bool, sizes: nat -> Option<nat>,
                      meanwhile: seq<Print>, turns: seq<Surroundings>) returns (serving: bool)
    modifies hub, out
    ensures var t := Attach(old(hub.Abs()), since, exited, sizes, meanwhile, turns);
            && hub.Abs() == t.hub
            && out.bytes == old(out.bytes) + EncodeAll(t.frames)
            && serving == t.server.Serving?
  {
    hide Encode, ServeAll, ReplayAndServe;
    var subscription := hub.SubscribeResumable(since);
    out.WriteFrame(S_READY, []);
    EncodeOne(READY_FRAME);
    ghost var t := Accept(old(hub.Abs()), since, exited);
    if !subscription.Subscribed? {
      out.WriteFrame(S_ERROR, []);
      EncodeTwo(READY_FRAME, ERROR_FRAME);
      assert t.frames + [] == t.frames;
      return false;
    }
    assert t.hub == hub.Abs();
    hide Hub.SubscribeResumable;
    if since.Some? && since.value < subscription.snapshotEnd {
      serving := ReplayThenServe(hub, out, subscription.id, since.value, subscription.snapshotEnd, exited,
                                 sizes, meanwhile, turns);
      EncodeAllAppend(t.frames, ReplayAndServe(t.server, t.hub, sizes, meanwhile, turns).frames);
    } else {
      var pending := if since.None? then subscription.backlog else None;
      serving := ServeLoop(hub, out, subscription.id, pending, exited, turns);
      EncodeAllAppend(t.frames, ServeAll(t.server, t.hub, turns).frames);
    }
  }

  method ReplayThenServe(hub: OutputHub, out: Pipe, id: nat, start: nat, end: nat, exited: bool,
                         sizes: nat -> Option<nat>, meanwhile: seq<Print>, turns: seq<Surroundings>)
    returns (serving: bool)
    requires start <= end
    modifies hub, out
    ensures var t := ReplayAndServe(Replaying(id, start, end, exited), old(hub.Abs()), sizes, meanwhile, turns);
            && hub.Abs() == t.hub
            && out.bytes == old(out.bytes) + EncodeAll(t.frames)
            && serving == t.server.Serving?
  {
    hide Encode, ServeAll, RangeFrames;
    var disk := hub.disk;
    PrintEverything(hub, meanwhile);
    var complete := WriteLogRangeFrames(out, disk, start, end, sizes);
    ghost var range := RangeFrames(disk, start, end, sizes).frames;
    if !complete {
      out.WriteFrame(S_ERROR, []);
      EncodeOne(ERROR_FRAME);
      EncodeAllAppend(range, [ERROR_FRAME]);
      return false;
    }
    ghost var served := ServeAll(Serving(id, None, exited), hub.Abs(), turns);
    serving := ServeLoop(hub, out, id, None, exited, turns);
    EncodeAllAppend(range, served.frames);
  }

  lemma EncodeOne(f: Frame)
    ensures EncodeAll([f]) == Encode(f)
  {
    assert [f][1..] == [];
  }

  lemma EncodeTwo(f: Frame, g: Frame)
    ensures EncodeAll([f, g]) == Encode(f) + Encode(g)
  {
    EncodeOne(g);
    assert [f, g][1..] == [g];
  }

  lemma EmptyEncoding()
    ensures EncodeAll([]) == []
  {
  }

  ghost function Rest(id: nat, pending: Option<Chunk>, exited: bool, serving: bool, hub: Hub,
                      turns: seq<Surroundings>): Turn
  {
    ServeAll(if serving then Serving(id, pending, exited) else Finished, hub, turns)
  }

  /** The serving loop. */
  method ServeLoop(hub: OutputHub, out: Pipe, id: nat, backlog: Option<Chunk>, exited: bool, turns: seq<Surroundings>)
    returns (serving: bool)
    modifies hub, out
    ensures var t := ServeAll(Serving(id, backlog, exited), old(hub.Abs()), turns);
            && hub.Abs() == t.hub
            && out.bytes == old(out.bytes) + EncodeAll(t.frames)
            && serving == t.server.Serving?
  {
    hide Serve, PrintAll, Encode, EncodeAll;
    var pending := backlog;
    serving := true;
    var i := 0;
    ghost var all := ServeAll(Serving(id, backlog, exited), hub.Abs(), turns);
    while serving && i < |turns|
      invariant 0 <= i <= |turns|
      invariant out.bytes + EncodeAll(Rest(id, pending, exited, serving, hub.Abs(), turns[i..]).frames)
             == old(out.bytes) + EncodeAll(all.frames)
      invariant all.hub == Rest(id, pending, exited, serving, hub.Abs(), turns[i..]).hub
      invariant all.server == Rest(id, pending, exited, serving, hub.Abs(), turns[i..]).server
    {
      ghost var rest := turns[i..];
      assert rest[0] == turns[i] && rest[1..] == turns[i + 1..];
      PrintEverything(hub, turns[i].prints);
      ghost var t := Serve(Serving(id, pending, exited), hub.Abs(), turns[i].exit, turns[i].detached, turns[i].gone);
      EncodeAllAppend(t.frames, ServeAll(t.server, t.hub, turns[i + 1..]).frames);
      pending, serving := ServeTurn(hub, out, id, pending, exited, turns[i]);
      i := i + 1;
    }
    assert EncodeAll([]) == [] by { EmptyEncoding(); }
  }

  method ServeTurn(hub: OutputHub, out: Pipe, id: nat, backlog: Option<Chunk>, exited: bool, now: Surroundings)
    returns (pending: Option<Chunk>, serving: bool)
    modifies hub, out
    ensures var t := Serve(Serving(id, backlog, exited), old(hub.Abs()), now.exit, now.detached, now.gone);
            && hub.Abs() == t.hub
            && out.bytes == old(out.bytes) + EncodeAll(t.frames)
            && t.server == if serving then Serving(id, pending, exited) else Finished
  {
    hide Encode;
    pending, serving := backlog, true;
    var data := pending;
    if pending.Some? {
      pending := None;
    } else {
      data := hub.TryTake(id);
    }
    if data.Some? {
      var payload: seq<byte> := BigEndian(data.value.offset, 8) + data.value.data;
      out.WriteFrame(S_OUTPUT_OFFSET, payload);
      EncodeOne(OutputFrame(data.value));
      if exited && pending.None? && (id !in hub.resumeQueues || hub.resumeQueues[id] == []) {
        out.WriteFrame(S_EXIT, ExitPayload(now.exit));
        EncodeTwo(OutputFrame(data.value), Frame(S_EXIT, ExitPayload(now.exit)));
        serving := false;
      }
    } else if now.exit.Some? {
      out.WriteFrame(S_EXIT, ExitPayload(now.exit));
      EncodeOne(ExitFrame(now.exit.value));
      serving := false;
    } else if now.detached {
      out.WriteFrame(S_DETACHED, []);
      EncodeOne(DETACHED_FRAME);
      serving := false;
    } else if now.gone {
      serving := false;
    }
  }

  // ---------------------------------------------------------------- the tail comes before the exit

  function ServeAllAudit(s: Server, hub: Hub, a: Audit, turns: seq<Surroundings>): Audit
    decreases |turns|
  {
    if turns == [] || !s.Serving? then a
    else
      var hub' := PrintAll(hub, turns[0].prints);
      var a' := PrintAudit(a, turns[0].prints);
      var t := Serve(s, hub', turns[0].exit, turns[0].detached, turns[0].gone);
      ServeAllAudit(t.server, t.hub, ServeAudit(s, hub', a'), turns[1..])
  }

  function ReplayAndServeAudit(s: Server, hub: Hub, a: Audit, sizes: nat -> Option<nat>, meanwhile: seq<Print>,
                               turns: seq<Surroundings>): Audit
    requires s.Replaying?
  {
    var a' := PrintAudit(a, meanwhile);
    if RangeFrames(hub.disk, s.offset, s.end, sizes).complete
    then ServeAllAudit(Serving(s.id, None, s.alreadyExited), PrintAll(hub, meanwhile), a', turns)
    else a'
  }

  function AttachAudit(hub: Hub, a: Audit, since: Option<nat>, exited: bool, sizes: nat -> Option<nat>,
                       meanwhile: seq<Print>, turns: seq<Surroundings>): Audit
  {
    var t := Accept(hub, since, exited);
    var a' := NextAudit(hub, a, DoSubscribeResumable(since));
    match t.server
    case Replaying(_, _, _, _) => ReplayAndServeAudit(t.server, t.hub, a', sizes, meanwhile, turns)
    case Serving(_, _, _) => ServeAllAudit(t.server, t.hub, a', turns)
    case Finished => a'
  }

  /** What is printed is what a terminal read returns, and offsets stay within 64 bits. */
  predicate TurnsPrintable(total: nat, turns: seq<Surroundings>)
    decreases |turns|
  {
    turns == []
    || (PrintsFit(total, turns[0].prints) && TurnsPrintable(total + PrintedSize(turns[0].prints), turns[1..]))
  }

  function PrintedSize(prints: seq<Print>): nat {
    if prints == [] then 0 else |prints[0].data| + PrintedSize(prints[1..])
  }

  predicate PrintsFit(total: nat, prints: seq<Print>) {
    && total + PrintedSize(prints) < U64_MODULUS
    && forall p | p in prints :: |p.data| <= PTY_BUFFER
  }

  lemma {:induction false} FittingPrints(a: Audit, prints: seq<Print>)
    requires PrintsFit(|a.history|, prints)
    ensures AllPrintable(prints, a)
    ensures |PrintAudit(a, prints).history| == |a.history| + PrintedSize(prints)
    decreases |prints|
  {
    if prints != [] {
      assert prints[0] in prints;
      FittingPrints(a.(history := a.history + prints[0].data), prints[1..]);
    }
  }

  /** Steps of one connection, with anything printed between them, compose. */
  lemma TurnsCompose(t1: Turn, t2: Turn, pos: Option<nat>, at: nat, a1: Audit, a2: Audit)
    requires pos == None || pos == Some(at)
    requires GoodTurn(t1, pos, at, a1) && !t1.server.Finished? && a1.history <= a2.history
    requires GoodTurn(t2, StreamEnd(t1.frames, pos), Reached(t1.server, a1), a2)
    ensures GoodTurn(Before(t1.frames, t2), pos, at, a2)
  {
    hide Inv, SmallChunks, ServerInv, Stream, Reached;
    var more := a2.history[|a1.history|..];
    assert a2.history == a1.history + more;
    StreamOfLonger(t1.frames, pos, a1.history, more);
    StreamAppend(t1.frames, t2.frames, pos, a2.history);
    StreamEndStays(t1.frames, pos);
    StreamEndStays(t2.frames, StreamEnd(t1.frames, pos));
    hide StreamEnd;
  }

  lemma {:induction false} StreamEndStays(fs: seq<Frame>, pos: Option<nat>)
    ensures pos.Some? ==> StreamEnd(fs, pos).Some?
  {
    if fs != [] {
      StreamEndStays(fs[1..], Position(fs[0], pos));
    }
  }

  lemma {:induction false} ServeAllIsGood(s: Server, h: Hub, a: Audit, turns: seq<Surroundings>, pos: Option<nat>)
    requires Inv(h, a) && SmallChunks(h) && s.Serving? && ServerInv(s, h, a)
    requires pos == None || pos == Some(Reached(s, a))
    requires TurnsPrintable(|a.history|, turns)
    ensures a.history <= ServeAllAudit(s, h, a, turns).history
    ensures GoodTurn(ServeAll(s, h, turns), pos, Reached(s, a), ServeAllAudit(s, h, a, turns))
    decreases |turns|
  {
    hide Inv, SmallChunks, ServerInv, Reached, Serve, PrintAll, PrintAudit, AllPrintable, PrintsFit;
    if turns == [] {
      StreamOfNone(pos, a.history);
    } else {
      var now := turns[0];
      ServingHasView(s, h, a);
      FittingPrints(a, now.prints);
      PrintsKeepServer(s, h, a, now.prints);
      var h1 := PrintAll(h, now.prints);
      var a1 := PrintAudit(a, now.prints);
      ServeIsGood(s, h1, a1, now.exit, now.detached, now.gone, pos);
      var t := Serve(s, h1, now.exit, now.detached, now.gone);
      var a2 := ServeAudit(s, h1, a1);
      if t.server.Finished? {
        assert t.frames + [] == t.frames;
      } else {
        ServeStays(s, h1, now.exit, now.detached, now.gone);
        GoodTurnKeepsPlace(t, pos, Reached(s, a), a2);
        ServeAllIsGood(t.server, t.hub, a2, turns[1..], StreamEnd(t.frames, pos));
        TurnsCompose(t, ServeAll(t.server, t.hub, turns[1..]), pos, Reached(s, a), a2,
                     ServeAllAudit(t.server, t.hub, a2, turns[1..]));
      }
    }
  }

  lemma ServeStays(s: Server, h: Hub, exit: Option<ExitInfo>, detached: bool, gone: bool)
    requires s.Serving?
    ensures !Serve(s, h, exit, detached, gone).server.Replaying?
  {
  }

  lemma GoodTurnKeepsPlace(t: Turn, pos: Option<nat>, at: nat, a: Audit)
    requires GoodTurn(t, pos, at, a) && !t.server.Finished?
    ensures StreamEnd(t.frames, pos) == None || StreamEnd(t.frames, pos) == Some(Reached(t.server, a))
    ensures Inv(t.hub, a) && SmallChunks(t.hub) && ServerInv(t.server, t.hub, a)
  {
  }

  /** Replaying a whole range, then serving. */
  lemma ReplayAndServeIsGood(s: Server, h: Hub, a: Audit, sizes: nat -> Option<nat>, meanwhile: seq<Print>,
                             turns: seq<Surroundings>)
    requires Inv(h, a) && SmallChunks(h) && s.Replaying? && ServerInv(s, h, a)
    requires PrintsFit(|a.history|, meanwhile) && TurnsPrintable(|a.history| + PrintedSize(meanwhile), turns)
    ensures a.history <= ReplayAndServeAudit(s, h, a, sizes, meanwhile, turns).history
    ensures GoodTurn(ReplayAndServe(s, h, sizes, meanwhile, turns), Some(s.offset), s.offset,
                     ReplayAndServeAudit(s, h, a, sizes, meanwhile, turns))
  {
    hide Inv, SmallChunks, ServerInv, PrintAll, PrintAudit, RangeFrames, PrintsFit, Stream, GoodTurn;
    hide TurnsPrintable, AllPrintable, Reached;
    var range := RangeFrames(h.disk, s.offset, s.end, sizes);
    ReplayedRangeIsGood(s, h, a, sizes);
    FittingPrints(a, meanwhile);
    if range.complete {
      ReplayedThenServed(s, h, a, sizes, meanwhile, turns);
    } else {
      PrintsKeepServer(Finished, h, a, meanwhile) by { FinishedIsFine(h, a); }
      BrokenRangeIsGood(range.frames, h, a, PrintAll(h, meanwhile), PrintAudit(a, meanwhile), s.offset);
    }
  }

  lemma FinishedIsFine(h: Hub, a: Audit)
    ensures ServerInv(Finished, h, a)
  {
  }

  lemma ReplayedThenServed(s: Server, h: Hub, a: Audit, sizes: nat -> Option<nat>, meanwhile: seq<Print>,
                           turns: seq<Surroundings>)
    requires Inv(h, a) && SmallChunks(h) && s.Replaying? && ServerInv(s, h, a)
    requires AllPrintable(meanwhile, a) && TurnsPrintable(|PrintAudit(a, meanwhile).history|, turns)
    requires RangeFrames(h.disk, s.offset, s.end, sizes).complete
    ensures a.history <= ReplayAndServeAudit(s, h, a, sizes, meanwhile, turns).history
    ensures GoodTurn(ReplayAndServe(s, h, sizes, meanwhile, turns), Some(s.offset), s.offset,
                     ReplayAndServeAudit(s, h, a, sizes, meanwhile, turns))
  {
    hide Inv, SmallChunks, ServerInv, PrintAll, PrintAudit, RangeFrames, Stream, GoodTurn, Reached;
    hide TurnsPrintable, AllPrintable, ServeAll, ServeAllAudit;
    var h' := PrintAll(h, meanwhile);
    var a' := PrintAudit(a, meanwhile);
    var range := RangeFrames(h.disk, s.offset, s.end, sizes);
    var next := Serving(s.id, None, s.alreadyExited);
    ReplayedRangeIsGood(s, h, a, sizes);
    ServingHasView(next, h, a);
    PrintsKeepServer(next, h, a, meanwhile);
    ServeAllIsGood(next, h', a', turns, Some(s.end));
    TurnsCompose(Turn(next, h, range.frames), ServeAll(next, h', turns),
                 Some(s.offset), s.offset, a, ServeAllAudit(next, h', a', turns));
  }

  lemma ServingHasView(s: Server, h: Hub, a: Audit)
    requires ServerInv(s, h, a) && !s.Finished?
    ensures s.id in a.views
  {
  }

  lemma RangeOfHistory(s: Server, h: Hub, a: Audit, sizes: nat -> Option<nat>)
    requires LogInv(h, a) && |a.history| < U64_MODULUS && s.Replaying? && ServerInv(s, h, a)
    ensures var range := RangeFrames(h.disk, s.offset, s.end, sizes);
            && Stream(range.frames, Some(s.offset), a.history) && !Ended(range.frames) && AllFit(range.frames)
            && (range.complete ==> StreamEnd(range.frames, Some(s.offset)) == Some(s.end))
  {
    hide RangeFrames, Stream, StreamEnd;
    RangeIsCovered(h.disk, s.offset, s.end, sizes);
    var more := a.history[|h.disk|..];
    assert h.disk + more == a.history;
    StreamOfLonger(RangeFrames(h.disk, s.offset, s.end, sizes).frames, Some(s.offset), h.disk, more);
  }

  lemma ReplayDone(s: Server, h: Hub, a: Audit)
    requires s.Replaying? && ServerInv(s, h, a)
    ensures var next := Serving(s.id, None, s.alreadyExited); ServerInv(next, h, a) && Reached(next, a) == s.end
  {
  }

  lemma ReplayedRangeIsGood(s: Server, h: Hub, a: Audit, sizes: nat -> Option<nat>)
    requires Inv(h, a) && SmallChunks(h) && s.Replaying? && ServerInv(s, h, a)
    ensures var range := RangeFrames(h.disk, s.offset, s.end, sizes);
            var next := Serving(s.id, None, s.alreadyExited);
            && Stream(range.frames, Some(s.offset), a.history) && !Ended(range.frames) && AllFit(range.frames)
            && (range.complete ==>
                  && StreamEnd(range.frames, Some(s.offset)) == Some(s.end) == Some(Reached(next, a))
                  && ServerInv(next, h, a)
                  && GoodTurn(Turn(next, h, range.frames), Some(s.offset), s.offset, a))
  {
    RangeOfHistory(s, h, a, sizes);
    ReplayDone(s, h, a);
    hide Inv, RangeFrames, Stream, StreamEnd, SmallChunks, ServerInv, Reached;
    var fs := RangeFrames(h.disk, s.offset, s.end, sizes).frames;
    assert !EndsWithExit(fs);
    hide Ended, EndsWithExit, AllFit;
  }

  lemma BrokenRangeIsGood(fs: seq<Frame>, h: Hub, a: Audit, h': Hub, a': Audit, at: nat)
    requires Stream(fs, Some(at), a.history) && !Ended(fs) && AllFit(fs)
    requires Inv(h', a') && SmallChunks(h') && a.history <= a'.history
    ensures GoodTurn(Turn(Finished, h', fs + [ERROR_FRAME]), Some(at), at, a')
  {
    var more := a'.history[|a.history|..];
    assert a'.history == a.history + more;
    StreamOfLonger(fs, Some(at), a.history, more);
    StreamOfOne(ERROR_FRAME, StreamEnd(fs, Some(at)), a'.history);
    StreamAppend(fs, [ERROR_FRAME], Some(at), a'.history);
    hide Inv, Stream, StreamEnd, SmallChunks;
  }

  lemma AttachIsGood(h: Hub, a: Audit, since: Option<nat>, exited: bool, sizes: nat -> Option<nat>,
                     meanwhile: seq<Print>, turns: seq<Surroundings>)
    requires Inv(h, a) && SmallChunks(h)
    requires PrintsFit(|a.history|, meanwhile) && TurnsPrintable(|a.history| + PrintedSize(meanwhile), turns)
    requires TurnsPrintable(|a.history|, turns)
    ensures GoodTurn(Attach(h, since, exited, sizes, meanwhile, turns),
                     Some(StreamStart(h, since)), StreamStart(h, since),
                     AttachAudit(h, a, since, exited, sizes, meanwhile, turns))
  {
    var start := StreamStart(h, since);
    var pos := Some(start);
    var t := Accept(h, since, exited);
    var a1 := NextAudit(h, a, DoSubscribeResumable(since));
    AcceptIsGood(h, a, since, exited, pos);
    AcceptedStart(h, a, since, exited);
    assert a1.history == a.history;
    if t.server.Finished? {
      hide GoodTurn, Accept;
      assert t.frames + [] == t.frames;
    } else {
      hide Accept, StreamStart, Inv, SmallChunks, ServerInv, NextAudit;
      GoodTurnKeepsPlace(t, pos, start, a1);
      StreamEndStays(t.frames, pos);
      hide GoodTurn, ServeAll, ServeAllAudit, ReplayAndServe, ReplayAndServeAudit, PrintsFit, TurnsPrintable, StreamEnd;
      if t.server.Replaying? {
        ReplayAndServeIsGood(t.server, t.hub, a1, sizes, meanwhile, turns);
        TurnsCompose(t, ReplayAndServe(t.server, t.hub, sizes, meanwhile, turns), pos, start, a1,
                     ReplayAndServeAudit(t.server, t.hub, a1, sizes, meanwhile, turns));
      } else {
        ServeAllIsGood(t.server, t.hub, a1, turns, pos);
        TurnsCompose(t, ServeAll(t.server, t.hub, turns), pos, start, a1,
                     ServeAllAudit(t.server, t.hub, a1, turns));
      }
    }
  }

  /** Every raw attach stream, under any interleaving with the program's output: its frames
      carry the output from its start offset on without gap or repetition, at most one of
      EXIT, DETACHED and ERROR ends it, and when it ends with EXIT it has delivered all
      there was up to the last byte printed before. */
  lemma TailBeforeExit(h: Hub, a: Audit, since: Option<nat>, exited: bool, sizes: nat -> Option<nat>,
                       meanwhile: seq<Print>, turns: seq<Surroundings>)
    requires Inv(h, a) && SmallChunks(h)
    requires PrintsFit(|a.history|, meanwhile) && TurnsPrintable(|a.history| + PrintedSize(meanwhile), turns)
    requires TurnsPrintable(|a.history|, turns)
    ensures var fs := Attach(h, since, exited, sizes, meanwhile, turns).frames;
            var history := AttachAudit(h, a, since, exited, sizes, meanwhile, turns).history;
            var start := StreamStart(h, since);
            && Stream(fs, Some(start), history)
            && (EndsWithExit(fs) ==> start <= |history| && Output(fs) == history[start..])
  {
    var start := StreamStart(h, since);
    var last := AttachAudit(h, a, since, exited, sizes, meanwhile, turns);
    var fs := Attach(h, since, exited, sizes, meanwhile, turns).frames;
    AttachIsGood(h, a, since, exited, sizes, meanwhile, turns);
    hide Attach, AttachAudit, StreamStart;
    GoodStreamIsComplete(Attach(h, since, exited, sizes, meanwhile, turns), start, last);
  }

  lemma GoodStreamIsComplete(t: Turn, start: nat, a: Audit)
    requires GoodTurn(t, Some(start), start, a)
    ensures Stream(t.frames, Some(start), a.history)
    ensures EndsWithExit(t.frames) ==> start <= |a.history| && Output(t.frames) == a.history[start..]
  {
    hide Inv, SmallChunks, ServerInv, Stream, StreamEnd, Reached;
    if EndsWithExit(t.frames) {
      PositionsGrow(t.frames, Some(start), a.history);
      StreamIsASegment(t.frames, Some(start), a.history);
    }
  }

  // ---------------------------------------------------------------- which exit is told

  /** The code that a client is told for what a turn knows of the exit: the command's own, or
      130 after a signal or if nothing is known, or else 0. */
  function ToldCode(exit: Option<ExitInfo>): i32 {
    match exit
    case None => 130
    case Some(ExitInfo(Some(code), _)) => code
    case Some(ExitInfo(None, signaled)) => if signaled then 130 else 0
  }

  /** The stream ends with EXIT, and what a client reads from it is this. */
  predicate Tells(fs: seq<Frame>, code: i32) { EndsWithExit(fs) && ParseExit(fs[|fs| - 1].payload) == code }

  lemma ExitFrameTells(exit: Option<ExitInfo>)
    ensures ParseExit(Frame(S_EXIT, ExitPayload(exit)).payload) == ToldCode(exit)
    ensures exit.Some? ==> ExitFrame(exit.value) == Frame(S_EXIT, ExitPayload(exit))
  {
    LiveCode(exit);
  }

  lemma ServeTells(s: Server, h: Hub, exit: Option<ExitInfo>, detached: bool, gone: bool)
    requires s.Serving?
    ensures var t := Serve(s, h, exit, detached, gone);
            && (!t.server.Finished? ==> !EndsWithExit(t.frames))
            && (EndsWithExit(t.frames) ==> Tells(t.frames, ToldCode(exit)))
  {
    ExitFrameTells(exit);
    hide ExitFrame, ExitPayload, ParseExit;
  }

  /** A serving stream that ends with EXIT does so in some turn, with all turns before it
      unfinished, and tells the code of the exit which that turn saw. */
  lemma {:induction false} ServingTells(s: Server, h: Hub, turns: seq<Surroundings>) returns (k: nat)
    requires EndsWithExit(ServeAll(s, h, turns).frames)
    ensures k < |turns| && Tells(ServeAll(s, h, turns).frames, ToldCode(turns[k].exit))
    ensures ServeAll(s, h, turns[..k]).server.Serving? && ServeAll(s, h, turns[..k + 1]).server.Finished?
    decreases |turns|
  {
    assert turns != [] && s.Serving?;
    var now := turns[0];
    var t := Serve(s, PrintAll(h, now.prints), now.exit, now.detached, now.gone);
    ServeTells(s, PrintAll(h, now.prints), now.exit, now.detached, now.gone);
    ServeStays(s, PrintAll(h, now.prints), now.exit, now.detached, now.gone);
    assert ServeAll(s, h, turns) == Before(t.frames, ServeAll(t.server, t.hub, turns[1..]));
    assert ServeAll(s, h, turns[..0]).server == s;
    assert t.server.Finished? ==> Before(t.frames, ServeAll(t.server, t.hub, turns[1..])).frames == t.frames;
    hide *;
    if t.server.Finished? {
      k := 0;
      ServingUnfolds(s, h, turns, 1);
      FinishedStays(t.server, t.hub, turns[1..][..0]);
    } else {
      LastOfServed(t.frames, ServeAll(t.server, t.hub, turns[1..]));
      var j := ServingTells(t.server, t.hub, turns[1..]);
      k := j + 1;
      ServingUnfolds(s, h, turns, k);
      ServingUnfolds(s, h, turns, k + 1);
    }
  }

  lemma FinishedStays(s: Server, h: Hub, turns: seq<Surroundings>)
    requires s.Finished?
    ensures ServeAll(s, h, turns).server == s
  {
  }

  lemma ServingUnfolds(s: Server, h: Hub, turns: seq<Surroundings>, k: nat)
    requires s.Serving? && 0 < k <= |turns|
    ensures var now := turns[0];
            var t := Serve(s, PrintAll(h, now.prints), now.exit, now.detached, now.gone);
            ServeAll(s, h, turns[..k]).server == ServeAll(t.server, t.hub, turns[1..][..k - 1]).server
  {
    assert turns[..k][0] == turns[0] && turns[..k][1..] == turns[1..][..k - 1];
    hide Serve, PrintAll;
  }

  lemma LastOfServed(frames: seq<Frame>, t: Turn)
    requires !EndsWithExit(frames)
    ensures EndsWithExit(Before(frames, t).frames) ==> EndsWithExit(t.frames)
    ensures forall code :: Tells(t.frames, code) ==> Tells(Before(frames, t).frames, code)
  {
    assert t.frames == [] ==> frames + t.frames == frames;
    hide ParseExit;
  }

  /** So does every attach: what its EXIT tells is the code of the exit that one of its turns
      saw, in which it ended. */
  lemma AttachTells(h: Hub, since: Option<nat>, exited: bool, sizes: nat -> Option<nat>,
                    meanwhile: seq<Print>, turns: seq<Surroundings>) returns (k: nat)
    requires EndsWithExit(Attach(h, since, exited, sizes, meanwhile, turns).frames)
    ensures k < |turns|
    ensures Tells(Attach(h, since, exited, sizes, meanwhile, turns).frames, ToldCode(turns[k].exit))
    ensures Attach(h, since, exited, sizes, meanwhile, turns[..k]).server.Serving?
    ensures Attach(h, since, exited, sizes, meanwhile, turns[..k + 1]).server.Finished?
  {
    var t := Accept(h, since, exited);
    hide ToldCode, Tells, ReplayAndServe, ServeAll;
    if t.server.Replaying? {
      LastOfServed(t.frames, ReplayAndServe(t.server, t.hub, sizes, meanwhile, turns));
      k := ReplayTells(t.server, t.hub, sizes, meanwhile, turns);
    } else {
      LastOfServed(t.frames, ServeAll(t.server, t.hub, turns));
      k := ServingTells(t.server, t.hub, turns);
    }
  }

  lemma ReplayTells(s: Server, h: Hub, sizes: nat -> Option<nat>, meanwhile: seq<Print>, turns: seq<Surroundings>)
      returns (k: nat)
    requires s.Replaying? && EndsWithExit(ReplayAndServe(s, h, sizes, meanwhile, turns).frames)
    ensures k < |turns| && Tells(ReplayAndServe(s, h, sizes, meanwhile, turns).frames, ToldCode(turns[k].exit))
    ensures ReplayAndServe(s, h, sizes, meanwhile, turns[..k]).server.Serving?
    ensures ReplayAndServe(s, h, sizes, meanwhile, turns[..k + 1]).server.Finished?
  {
    var range := RangeFrames(h.disk, s.offset, s.end, sizes);
    var next := Serving(s.id, None, s.alreadyExited);
    RangeHasNoExit(h.disk, s.offset, s.end, sizes);
    hide RangeFrames, ToldCode, ParseExit, Tells, PrintAll, ServeAll;
    assert range.complete;
    LastOfServed(range.frames, ServeAll(next, PrintAll(h, meanwhile), turns));
    k := ServingTells(next, PrintAll(h, meanwhile), turns);
  }

  lemma {:induction false} RangeHasNoExit(disk: seq<byte>, offset: nat, end: nat, sizes: nat -> Option<nat>)
    ensures forall f | f in RangeFrames(disk, offset, end, sizes).frames :: f.tag == S_OUTPUT_OFFSET
    decreases end - offset
  {
    hide ReadCount;
    if offset < end && ReadCount(disk, offset, end, sizes(offset)) > 0 {
      RangeHasNoExit(disk, offset + ReadCount(disk, offset, end, sizes(offset)), end, sizes);
    }
  }

  // ---------------------------------------------------------------- why a connection ends

  /** What a client is told when its connection is closed: the exit, that it is detached, or
      nothing. */
  datatype Parting = ToldExit | ToldDetach | Unsaid

  /** The chunks that are left for a client. */
  function ChunksLeft(s: Server, h: Hub): nat
    requires s.Serving?
  {
    (if s.pending.Some? then 1 else 0) + |Queue(h, s.id)|
  }

  /** Why a turn ends a connection, if it does. The end of the session counts once nothing is
      left, or with the last chunk if the session had ended before the client came; a forced
      detach, and then a client that has gone, count when nothing is left. */
  function Parts(s: Server, h: Hub, exit: Option<ExitInfo>, detached: bool, gone: bool): Option<Parting>
    requires s.Serving?
  {
    var left := ChunksLeft(s, h);
    if (left == 0 && exit.Some?) || (left == 1 && s.alreadyExited) then Some(ToldExit)
    else if left > 0 then None
    else if detached then Some(ToldDetach)
    else if gone then Some(Unsaid)
    else None
  }

  /** Why the first turn that ends a connection does. */
  function PartingOf(s: Server, h: Hub, turns: seq<Surroundings>): Option<Parting>
    requires s.Serving?
    decreases |turns|
  {
    if turns == [] then None
    else
      var now, h' := turns[0], PrintAll(h, turns[0].prints);
      var t := Serve(s, h', now.exit, now.detached, now.gone);
      var parting := Parts(s, h', now.exit, now.detached, now.gone);
      if parting.None? && t.server.Serving? then PartingOf(t.server, t.hub, turns[1..]) else parting
  }

  predicate ClosedBy(fs: seq<Frame>, parting: Option<Parting>) {
    match parting
    case Some(ToldExit) => EndsWithExit(fs)
    case Some(ToldDetach) => fs != [] && fs[|fs| - 1] == DETACHED_FRAME
    case _ => !Ended(fs)
  }

  lemma TurnParts(s: Server, h: Hub, exit: Option<ExitInfo>, detached: bool, gone: bool)
    requires s.Serving?
    ensures var t, parting := Serve(s, h, exit, detached, gone), Parts(s, h, exit, detached, gone);
            && (if parting.Some? then t.server.Finished? else t.server.Serving?) && ClosedBy(t.frames, parting)
  {
  }

  lemma ClosedLater(fs: seq<Frame>, gs: seq<Frame>, parting: Option<Parting>)
    requires !Ended(fs) && ClosedBy(gs, parting)
    ensures ClosedBy(fs + gs, parting)
  {
    assert gs == [] ==> fs + gs == fs;
  }

  /** A connection ends in the first turn that has a reason to, and its last frame tells the
      client that reason; without one it goes on. */
  lemma {:induction false} ServingEnds(s: Server, h: Hub, turns: seq<Surroundings>)
    requires s.Serving?
    ensures var t, parting := ServeAll(s, h, turns), PartingOf(s, h, turns);
            && (if parting.Some? then t.server.Finished? else t.server.Serving?) && ClosedBy(t.frames, parting)
    decreases |turns|
  {
    if turns != [] {
      var now := turns[0];
      var h' := PrintAll(h, now.prints);
      var t := Serve(s, h', now.exit, now.detached, now.gone);
      TurnParts(s, h', now.exit, now.detached, now.gone);
      hide Serve, PrintAll, Parts, ClosedBy;
      if t.server.Serving? {
        ServingEnds(t.server, t.hub, turns[1..]);
        NotClosed(t.frames);
        ClosedLater(t.frames, ServeAll(t.server, t.hub, turns[1..]).frames, PartingOf(t.server, t.hub, turns[1..]));
      } else {
        assert t.frames + [] == t.frames;
      }
    }
  }

  lemma ClosedAfterRange(range: seq<Frame>, served: seq<Frame>, parting: Option<Parting>)
    requires (forall f | f in range :: f.tag == S_OUTPUT_OFFSET) && ClosedBy(served, parting)
    ensures ClosedBy([READY_FRAME] + (range + served), parting)
  {
    ClosedLater(range, served, parting);
    ClosedLater([READY_FRAME], range + served, parting);
    hide ClosedBy;
  }

  lemma NotClosed(fs: seq<Frame>)
    ensures ClosedBy(fs, None) <==> !Ended(fs)
  {
  }

  /** Where a connection is once it has been sent the log range that it asked for. */
  function Begun(h: Hub, since: Option<nat>, exited: bool, meanwhile: seq<Print>): (Server, Hub) {
    var subscribed := h.SubscribeResumable(since);
    if since.Some? && since.value < h.nextOffset
    then (Serving(h.nextId, None, exited), PrintAll(subscribed, meanwhile))
    else
      var backlog := if since.None? && h.backlog != [] then Some(Chunk(h.backlogStart, h.backlog)) else None;
      (Serving(h.nextId, backlog, exited), subscribed)
  }

  /** Every attach is answered READY first. It is refused, with an error, if the log has
      failed or it asks for bytes that do not exist; it ends with an error if the log cannot
      be read; otherwise it ends as serving does, and without an error. */
  lemma AttachEnds(h: Hub, since: Option<nat>, exited: bool, sizes: nat -> Option<nat>,
                   meanwhile: seq<Print>, turns: seq<Surroundings>)
    ensures var t, asked := Attach(h, since, exited, sizes, meanwhile, turns), Or(since, h.nextOffset);
            && t.frames != [] && t.frames[0] == READY_FRAME
            && if h.logError || asked > h.nextOffset then t.frames == [READY_FRAME, ERROR_FRAME] && t.server.Finished?
               else if !RangeFrames(h.disk, asked, h.nextOffset, sizes).complete then
                 t.frames[|t.frames| - 1] == ERROR_FRAME && t.server.Finished?
               else
                 var (s, h') := Begun(h, since, exited, meanwhile);
                 var parting := PartingOf(s, h', turns);
                 (if parting.Some? then t.server.Finished? else t.server.Serving?) && ClosedBy(t.frames, parting)
  {
    var accepted, asked := Accept(h, since, exited), Or(since, h.nextOffset);
    if h.Subscription(since).Subscribed? {
      var (s, h') := Begun(h, since, exited, meanwhile);
      ServingEnds(s, h', turns);
      var served := ServeAll(s, h', turns).frames;
      if accepted.server.Replaying? {
        var range := RangeFrames(h.disk, asked, h.nextOffset, sizes);
        RangeHasNoExit(h.disk, asked, h.nextOffset, sizes);
        var rest := if range.complete then served else [ERROR_FRAME];
        assert Attach(h, since, exited, sizes, meanwhile, turns).frames == [READY_FRAME] + (range.frames + rest);
        if range.complete {
          ClosedAfterRange(range.frames, served, PartingOf(s, h', turns));
        }
        hide RangeFrames, ServeAll, PartingOf, ClosedBy;
      } else {
        hide ServeAll, PartingOf, ClosedBy;
        assert RangeFrames(h.disk, asked, h.nextOffset, sizes).complete;
        ClosedLater([READY_FRAME], served, PartingOf(s, h', turns));
      }
    }
  }

  // ---------------------------------------------------------------- every stream of a finished session ends

  /** Nothing more is printed, and the exit is known. */
  predicate Quiet(turns: seq<Surroundings>) {
    forall turn | turn in turns :: turn.prints == [] && turn.exit.Some?
  }

  /** Each turn then sends something: what is pending, what is queued, and at last EXIT. */
  lemma {:induction false} ServingReachesExit(s: Server, h: Hub, turns: seq<Surroundings>)
    requires s.Serving? && Quiet(turns)
    requires |turns| > |Queue(h, s.id)| + if s.pending.Some? then 1 else 0
    ensures EndsWithExit(ServeAll(s, h, turns).frames)
    decreases |turns|
  {
    var now := turns[0];
    assert now in turns && Quiet(turns[1..]);
    var t := Serve(s, h, now.exit, now.detached, now.gone);
    QuietTurnAdvances(s, h, now.exit, now.detached, now.gone);
    assert PrintAll(h, now.prints) == h;
    hide Serve, Quiet, Queue;
    if t.server.Finished? {
      assert t.frames + [] == t.frames;
    } else {
      ServingReachesExit(t.server, t.hub, turns[1..]);
    }
  }

  lemma QuietTurnAdvances(s: Server, h: Hub, exit: Option<ExitInfo>, detached: bool, gone: bool)
    requires s.Serving? && exit.Some?
    ensures var t := Serve(s, h, exit, detached, gone);
            if t.server.Finished? then EndsWithExit(t.frames)
            else
              && t.server.Serving? && t.server.id == s.id
              && |Queue(t.hub, s.id)| + (if t.server.pending.Some? then 1 else 0)
                 < |Queue(h, s.id)| + if s.pending.Some? then 1 else 0
  {
  }

  /** So every attach to a finished session, at an offset that exists, gets its EXIT within
      two turns after the replay, if the log can be read. */
  lemma AttachReachesExit(h: Hub, a: Audit, since: Option<nat>, exited: bool, sizes: nat -> Option<nat>,
                          turns: seq<Surroundings>)
    requires Inv(h, a) && !h.logError && (since.Some? ==> since.value <= |a.history|)
    requires since.Some? ==> ReadsSucceed(sizes, since.value, |a.history|)
    requires Quiet(turns) && |turns| >= 2
    ensures EndsWithExit(Attach(h, since, exited, sizes, [], turns).frames)
  {
    var t := Accept(h, since, exited);
    assert !t.server.Finished? && Queue(t.hub, t.server.id) == [];
    assert t.hub.disk == h.disk == a.history && h.nextOffset == |a.history| < U64_MODULUS;
    hide Inv, Quiet;
    if t.server.Replaying? {
      ReplayReachesExit(t.server, t.hub, sizes, turns);
      hide ReplayAndServe;
    } else {
      ServingReachesExit(t.server, t.hub, turns);
    }
    hide RangeFrames, ServeAll, Accept, Queue;
  }

  /** A run without a failing write, of chunks that a terminal read can return. */
  predicate HealthyRun(disk: seq<byte>, rows: seq<Row>, timestampsOpen: bool, ops: seq<Op>) {
    && |disk| < U64_MODULUS && PermittedRun(OpenHub(disk, rows, timestampsOpen), OpenAudit(disk), ops)
    && forall op | op in ops :: !FailsLog(op) && (op.DoBroadcast? ==> |op.data| <= PTY_BUFFER)
  }

  lemma {:induction false} RunKeepsSmall(h: Hub, a: Audit, ops: seq<Op>)
    requires Inv(h, a) && SmallChunks(h) && PermittedRun(h, a, ops)
    requires forall op | op in ops :: op.DoBroadcast? ==> |op.data| <= PTY_BUFFER
    ensures SmallChunks(Run(h, a, ops).0)
    decreases |ops|
  {
    if ops != [] {
      assert ops[0] in ops && forall op | op in ops[1..] :: op in ops;
      StepKeepsInv(h, a, ops[0]);
      StepKeepsSmall(h, ops[0]);
      hide Inv, SmallChunks, Hub.Next, NextAudit;
      RunKeepsSmall(h.Next(ops[0]), NextAudit(h, a, ops[0]), ops[1..]);
    }
  }

  lemma HealthyHub(disk: seq<byte>, rows: seq<Row>, timestampsOpen: bool, ops: seq<Op>)
    requires HealthyRun(disk, rows, timestampsOpen, ops)
    ensures var (h, a) := Run(OpenHub(disk, rows, timestampsOpen), OpenAudit(disk), ops);
            Inv(h, a) && SmallChunks(h) && !h.logError && a.openedAt == |disk|
  {
    var h0, a0 := OpenHub(disk, rows, timestampsOpen), OpenAudit(disk);
    OpenHubInv(disk, rows, timestampsOpen);
    assert SmallChunks(h0) && a0.openedAt == |disk|;
    hide Run, Inv, SmallChunks, OpenHub;
    RunKeepsInv(h0, a0, ops);
    RunKeepsSmall(h0, a0, ops);
    LogIsHistory(disk, rows, timestampsOpen, ops);
    RunKeepsOpening(h0, a0, ops);
  }

  lemma {:induction false} RunKeepsOpening(h: Hub, a: Audit, ops: seq<Op>)
    ensures Run(h, a, ops).1.openedAt == a.openedAt
    decreases |ops|
  {
    if ops != [] {
      hide Hub.Next;
      RunKeepsOpening(h.Next(ops[0]), NextAudit(h, a, ops[0]), ops[1..]);
    }
  }

  /** So in every run without a failing write, at any time. */
  lemma EveryAttachReachesExit(disk: seq<byte>, rows: seq<Row>, timestampsOpen: bool, ops: seq<Op>,
                               since: Option<nat>, exited: bool, sizes: nat -> Option<nat>, turns: seq<Surroundings>)
    requires HealthyRun(disk, rows, timestampsOpen, ops) && Quiet(turns) && |turns| >= 2
    requires var (_, a) := Run(OpenHub(disk, rows, timestampsOpen), OpenAudit(disk), ops);
             since.Some? ==> since.value <= |a.history| && ReadsSucceed(sizes, since.value, |a.history|)
    ensures var (h, _) := Run(OpenHub(disk, rows, timestampsOpen), OpenAudit(disk), ops);
            EndsWithExit(Attach(h, since, exited, sizes, [], turns).frames)
  {
    hide Run, Inv, HealthyRun, Attach, Quiet, ReadsSucceed;
    HealthyHub(disk, rows, timestampsOpen, ops);
    var (h, a) := Run(OpenHub(disk, rows, timestampsOpen), OpenAudit(disk), ops);
    AttachReachesExit(h, a, since, exited, sizes, turns);
  }

  lemma ReplayReachesExit(s: Server, h: Hub, sizes: nat -> Option<nat>, turns: seq<Surroundings>)
    requires s.Replaying? && s.offset <= s.end <= |h.disk| < U64_MODULUS && ReadsSucceed(sizes, s.offset, s.end)
    requires Queue(h, s.id) == [] && Quiet(turns) && |turns| >= 1
    ensures EndsWithExit(ReplayAndServe(s, h, sizes, [], turns).frames)
  {
    RangeIsCovered(h.disk, s.offset, s.end, sizes);
    ServingReachesExit(Serving(s.id, None, s.alreadyExited), h, turns);
    hide RangeFrames, ServeAll, Queue, Stream;
  }

  predicate ReadsSucceed(sizes: nat -> Option<nat>, start: nat, end: nat) {
    forall o: nat | start <= o < end :: sizes(o).Some? && sizes(o).value > 0
  }

  lemma {:induction false} PositionsGrow(fs: seq<Frame>, pos: Option<nat>, history: seq<byte>)
    requires Stream(fs, pos, history) && pos.Some?
    ensures StreamEnd(fs, pos).Some? && StreamEnd(fs, pos).value >= pos.value
  {
    if fs != [] {
      PositionsGrow(fs[1..], Position(fs[0], pos), history);
    }
  }

  lemma AcceptedStart(h: Hub, a: Audit, since: Option<nat>, exited: bool)
    requires Inv(h, a)
    ensures var t := Accept(h, since, exited);
            && (!t.server.Finished? ==> StreamStart(h, since) <= |a.history|)
            && (t.server.Finished? ==> !EndsWithExit(t.frames))
            && (t.server.Replaying? ==> t.server.offset == StreamStart(h, since) && t.server.alreadyExited == exited)
  {
  }
}
