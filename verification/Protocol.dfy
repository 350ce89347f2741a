/**
 The whole output path composed: a program that prints, the hub, one remote client and its
 connections, a transport that delivers in order and can be cut after any byte, other
 clients, the end of the session, and the worker's disappearance. Every step of a `World`
 is one of the operations of the other modules; the transport carries encoded bytes.
 */
module Protocol {
  import opened Bytes
  import opened Frames
  import opened OutputHubs
  import opened ExitCodes
  import opened AttachStreams
  import opened Bridges
  import opened RemoteClients

  /** The far end of a connection: the request has been sent, or is being served. `start` is
      a history variable: the offset that the stream being served started at. */
  datatype Endpoint = Dialing(since: Option<nat>) | Connected(server: Server, start: nat)

  const CLOSED: Endpoint := Connected(Finished, 0)

  /** `wire` is in flight; nothing is added to it once the link is not `live`. `sent` is a
      history variable: the frames that were sent and that the client has not read whole. */
  datatype Link = Down | Up(wire: seq<byte>, live: bool, sent: seq<Frame>, endpoint: Endpoint)

  /** `status` is the terminal status on disk, once there is one, which there is before the
      exit is announced; `late` records whether anything was printed after the announcement. */
  datatype World = World(
    config: Config,
    hub: Hub,
    audit: Audit,
    status: Option<Status>,
    exit: Option<ExitInfo>,
    workerGone: bool,
    late: bool,
    link: Link,
    client: Client)

  datatype Label =
    | ProgramPrints(data: seq<byte>, io: FileIo)
    | OthersUseHub(op: Op)
    | EndRecorded(status: Status)
    | ExitAnnounced(info: ExitInfo)
    | WorkerStops
    | ClientConnects(metaReadable: bool, tty: bool)
    | DialFails
    | WorkerAccepts
    | WorkerReplays(read: Option<nat>)
    | WorkerServes(detached: bool, gone: bool)
    | TransportCut(n: nat)
    | ClientReads
    | ClientGivesUp
    | UserDetaches

  function InitialWorld(config: Config, disk: seq<byte>, rows: seq<Row>, timestampsOpen: bool): World {
    World(config, OpenHub(disk, rows, timestampsOpen), OpenAudit(disk), None, None, false, false, Down, NEW_CLIENT)
  }

  predicate OwnId(w: World, id: nat) {
    w.link.Up? && w.link.endpoint.Connected? && !w.link.endpoint.server.Finished?
    && w.link.endpoint.server.id == id
  }

  predicate Reading(w: World) { w.client.phase.Handshake? || w.client.phase.Attached? }

  /** What answers a new connection at once: the bridge's READY while the worker lives, the
      log once the worker is gone and the status on disk is terminal, an error otherwise. */
  function Answer(w: World, metaReadable: bool, tty: bool): seq<Frame> {
    if !metaReadable || (w.workerGone && w.status.None?) then [ERROR_FRAME]
    else if w.workerGone then BridgeFrames(w.hub.disk, w.client.cursor, tty, w.status.value)
    else [BridgeReady(tty)]
  }

  /** What a worker announces agrees with what it has recorded. */
  predicate Records(status: Option<Status>, info: ExitInfo) {
    status == Some(FinalStatus(Some(info), false)) || status == Some(FinalStatus(Some(info), true))
  }

  predicate Enabled(w: World, l: Label) {
    match l
    case ProgramPrints(data, _) => !w.workerGone && Printable(data, w.audit)
    case OthersUseHub(op) =>
      && !w.workerGone && !op.DoBroadcast? && (op.DoConfigure? ==> w.hub.logOpen)
      && (op.DoTakeLegacy? || op.DoTakeResumable? || op.DoDrop? ==> !OwnId(w, op.id))
    case EndRecorded(status) => !w.workerGone && w.status.None? && IsTerminal(status.state)
    case ExitAnnounced(info) => !w.workerGone && w.exit.None? && Records(w.status, info)
    case WorkerStops => !w.workerGone
    case ClientConnects(metaReadable, tty) => w.client.phase.Idle? && AllFit(Answer(w, metaReadable, tty))
    case DialFails => w.client.phase.Idle?
    case WorkerAccepts => w.link.Up? && w.link.live && w.link.endpoint.Dialing?
    case WorkerReplays(_) =>
      && w.link.Up? && w.link.live && w.link.endpoint.Connected?
      && w.link.endpoint.server.Replaying? && w.link.endpoint.server.offset < w.link.endpoint.server.end
    case WorkerServes(_, _) =>
      w.link.Up? && w.link.live && w.link.endpoint.Connected? && w.link.endpoint.server.Serving?
    case TransportCut(n) => w.link.Up? && n <= |w.link.wire|
    case ClientReads => w.link.Up? && Reading(w) && (ReadOne(w.link.wire).Got? || !w.link.live)
    case ClientGivesUp => w.link.Up? && Reading(w)
    case UserDetaches => !w.client.phase.Over?
  }

  function UseHub(w: World, op: Op): World {
    w.(hub := w.hub.Next(op), audit := NextAudit(w.hub, w.audit, op))
  }

  /** A turn of the worker's side: its frames go onto the wire; a finished connection is
      closed by the worker. */
  function TakeTurn(w: World, t: Turn, audit: Audit, start: nat): World
    requires w.link.Up?
  {
    w.(hub := t.hub, audit := audit,
       link := Up(w.link.wire + EncodeAll(t.frames), !t.server.Finished?, w.link.sent + t.frames,
                  Connected(t.server, start)))
  }

  function Close(link: Link): Link {
    if link.Up? then link.(live := false, endpoint := CLOSED) else link
  }

  /** A client that is no longer reading has dropped its connection. */
  function WithClient(w: World, link: Link, c: Client): World {
    w.(client := c, link := if c.phase.Handshake? || c.phase.Attached? then link else Down)
  }

  function Next(w: World, l: Label): World
    requires Enabled(w, l)
  {
    match l
    case ProgramPrints(data, io) => UseHub(w, DoBroadcast(data, io)).(late := w.late || w.exit.Some?)
    case OthersUseHub(op) => UseHub(w, op)
    case EndRecorded(status) => w.(status := Some(status))
    case ExitAnnounced(info) => w.(exit := Some(info))
    case WorkerStops => w.(workerGone := true, link := Close(w.link))
    case DialFails => w.(client := w.client.(phase := Over(Failed)))
    case ClientConnects(metaReadable, tty) =>
      var fs := Answer(w, metaReadable, tty);
      var dialing := metaReadable && !w.workerGone;
      w.(client := w.client.(phase := Handshake),
         link := Up(EncodeAll(fs), dialing, fs, if dialing then Dialing(w.client.cursor) else CLOSED))
    case WorkerAccepts =>
      var since := w.link.endpoint.since;
      TakeTurn(w, Accept(w.hub, since, w.exit.Some?), NextAudit(w.hub, w.audit, DoSubscribeResumable(since)),
               StreamStart(w.hub, since))
    case WorkerReplays(read) => TakeTurn(w, Replay(w.link.endpoint.server, w.hub, read), w.audit, w.link.endpoint.start)
    case WorkerServes(detached, gone) =>
      var s := w.link.endpoint.server;
      TakeTurn(w, Serve(s, w.hub, w.exit, detached, gone), ServeAudit(s, w.hub, w.audit),
               w.link.endpoint.start)
    case TransportCut(n) => w.(link := Close(w.link).(wire := w.link.wire[..n]))
    case ClientReads =>
      (match ReadOne(w.link.wire)
       case Got(f, rest) =>
         WithClient(w, w.link.(wire := rest, sent := if w.link.sent == [] then [] else w.link.sent[1..]),
                    OnFrame(w.client, w.config, f))
       case _ => WithClient(w, Down, OnLoss(w.client, w.config, w.client.phase.Attached?)))
    case ClientGivesUp => WithClient(w, Down, OnLoss(w.client, w.config, w.client.phase.Attached?))
    case UserDetaches => WithClient(w, Down, w.client.(phase := Over(Left)))
  }

  // ---------------------------------------------------------------- the invariant

  /** The output is known to be complete when EXIT is seen, unless something was printed
      after the exit was announced, or a failed log is all that is left of the session. */
  predicate ExitIsFinal(w: World) { !w.late && (w.workerGone ==> !w.hub.logError) }

  /** The code of the exit that was announced, or of the status that a worker has left. */
  predicate IsKnown(w: World, code: i32) {
    || (w.exit.Some? && code == ToldCode(w.exit))
    || (w.workerGone && w.status.Some? && code == RecordedCode(w.status))
  }

  /** What a stream that ends with EXIT tells is known. */
  predicate TellsKnown(w: World, fs: seq<Frame>) {
    EndsWithExit(fs) ==> IsKnown(w, ParseExit(fs[|fs| - 1].payload))
  }

  /** Where the far end stands, if it has decided. */
  predicate EndpointInv(w: World)
    requires w.link.Up?
  {
    var end := StreamEnd(w.link.sent, w.client.cursor);
    match w.link.endpoint
    case Dialing(since) =>
      && w.link.live && !w.workerGone && since == w.client.cursor == end
      && forall f | f in w.link.sent :: f.tag == S_READY
    case Connected(server, _) =>
      && ServerInv(server, w.hub, w.audit)
      && (!server.Finished? ==>
            && w.link.live && !w.workerGone && !Ended(w.link.sent)
            && (end == None || end == Some(Reached(server, w.audit)))
            && (end == None ==> NothingBefore(w.audit, Reached(server, w.audit)))
            && (server.alreadyExited ==> w.exit.Some?))
  }

  /** A stream that has carried nothing starts where this worker's output starts, or there
      is output still to come. */
  predicate NothingBefore(a: Audit, at: nat) { at == a.openedAt || at < |a.history| }

  /** The end of the output, for a stream that ends at `end` or has carried nothing. */
  predicate AtTheEnd(end: Option<nat>, a: Audit) { Or(end, a.openedAt) == |a.history| }

  /** What is in flight continues the client's output exactly where its cursor is. */
  predicate LinkInv(w: World)
    requires w.link.Up?
  {
    var sent := w.link.sent;
    && Reading(w)
    && AllFit(sent) && w.link.wire <= EncodeAll(sent) && (w.link.live ==> w.link.wire == EncodeAll(sent))
    && Stream(sent, w.client.cursor, w.audit.history)
    && (w.client.phase.Handshake? ==> sent != [] && (sent[0].tag == S_READY || sent[0].tag == S_ERROR))
    && EndpointInv(w)
    && TellsKnown(w, sent)
    && (EndsWithExit(sent) && ExitIsFinal(w) ==> AtTheEnd(StreamEnd(sent, w.client.cursor), w.audit))
  }

  predicate WorldInv(w: World) {
    && Inv(w.hub, w.audit) && SmallChunks(w.hub)
    && ClientInv(w.client, w.config, w.audit.history)
    && (w.exit.Some? ==> Records(w.status, w.exit.value))
    && (w.link.Up? ==> LinkInv(w))
    && (w.link.Down? ==> !Reading(w))
    && (w.client.phase.Over? && w.client.phase.ending.Code? ==>
          IsKnown(w, w.client.phase.ending.code) && (ExitIsFinal(w) ==> AtTheEnd(w.client.cursor, w.audit)))
  }

  // ---------------------------------------------------------------- every step keeps it

  predicate MayTurn(w: World, t: Turn, at: nat, a': Audit)
    requires w.link.Up?
  {
    var end := StreamEnd(w.link.sent, w.client.cursor);
    && w.link.live && !Ended(w.link.sent) && !w.workerGone
    && GoodTurn(t, end, at, a')
    && a'.history == w.audit.history && a'.openedAt == w.audit.openedAt
    && (end == None ==> NothingBefore(w.audit, at)) && end in {None, Some(at)}
    && (EndsWithExit(t.frames) ==> w.exit.Some? && Tells(t.frames, ToldCode(w.exit)))
    && (!t.server.Finished? && t.server.alreadyExited ==> w.exit.Some?)
  }

  lemma TurnKeepsLink(w: World, t: Turn, at: nat, a': Audit, start: nat)
    requires w.link.Up? && LinkInv(w) && MayTurn(w, t, at, a')
    ensures LinkInv(TakeTurn(w, t, a', start))
  {
    hide Inv, SmallChunks, ServerInv, Reached, Stream, Encode;
    var sent := w.link.sent;
    EncodeAllAppend(sent, t.frames);
    StreamAppend(sent, t.frames, w.client.cursor, w.audit.history);
    StreamEndStays(t.frames, StreamEnd(sent, w.client.cursor));
    hide EncodeAll, StreamEnd;
    assert t.frames != [] ==> (sent + t.frames)[|sent + t.frames| - 1] == t.frames[|t.frames| - 1];
    assert t.frames == [] ==> sent + t.frames == sent;
    assert TellsKnown(TakeTurn(w, t, a', start), sent + t.frames);
    hide TellsKnown, ToldCode, RecordedCode, ParseExit, AllFit, NothingBefore;
  }

  lemma TurnKeepsWorld(w: World, t: Turn, at: nat, a': Audit, start: nat)
    requires WorldInv(w) && w.link.Up? && w.link.live && !Ended(w.link.sent) && !w.workerGone
    requires GoodTurn(t, StreamEnd(w.link.sent, w.client.cursor), at, a')
    requires a'.history == w.audit.history && a'.openedAt == w.audit.openedAt
    requires StreamEnd(w.link.sent, w.client.cursor) == None ==> NothingBefore(w.audit, at)
    requires EndsWithExit(t.frames) ==> w.exit.Some? && Tells(t.frames, ToldCode(w.exit))
    requires !t.server.Finished? && t.server.alreadyExited ==> w.exit.Some?
    requires StreamEnd(w.link.sent, w.client.cursor) in {None, Some(at)}
    ensures WorldInv(TakeTurn(w, t, a', start))
  {
    assert MayTurn(w, t, at, a');
    hide Inv, SmallChunks, LinkInv, ClientInv, Stream, StreamEnd, ServerInv, EncodeAll, MayTurn, ParseExit, ToldCode;
    TurnKeepsLink(w, t, at, a', start);
  }

  /** The world after `op`, with `late` updated if it printed something. */
  function AfterHubUse(w: World, op: Op): World {
    UseHub(w, op).(late := w.late || (op.DoBroadcast? && w.exit.Some?))
  }

  predicate PermittedUse(w: World, op: Op) {
    && !w.workerGone
    && (op.DoConfigure? ==> w.hub.logOpen)
    && (op.DoBroadcast? ==> Printable(op.data, w.audit))
    && (op.DoTakeLegacy? || op.DoTakeResumable? || op.DoDrop? ==> !OwnId(w, op.id))
  }

  lemma HubUseKeepsLink(w: World, op: Op)
    requires Inv(w.hub, w.audit) && w.link.Up? && LinkInv(w) && PermittedUse(w, op)
    ensures LinkInv(AfterHubUse(w, op))
  {
    NextHistory(w.hub, w.audit, op);
    StreamOfLonger(w.link.sent, w.client.cursor, w.audit.history, Printed(op));
    HubUseKeepsEndpoint(w, op);
    if w.hub.logError {
      FailureStays(w.hub, op);
    }
    assert Printed(op) == [] ==> w.audit.history + Printed(op) == w.audit.history;
    hide Inv, EndpointInv, Stream, StreamEnd, EncodeAll, Hub.Next, NextAudit;
  }

  lemma HubUseKeepsEndpoint(w: World, op: Op)
    requires Inv(w.hub, w.audit) && w.link.Up? && LinkInv(w) && PermittedUse(w, op)
    ensures EndpointInv(AfterHubUse(w, op))
  {
    NextHistory(w.hub, w.audit, op);
    hide Inv, ServerInv, Reached, Stream, StreamEnd, EncodeAll, Hub.Next, NextAudit;
    if w.link.endpoint.Connected? {
      OthersKeepServer(w.link.endpoint.server, w.hub, w.audit, op);
      assert EndpointInv(w);
      hide LinkInv, PermittedUse;
      EndpointStays(w, AfterHubUse(w, op));
    }
  }

  lemma EndpointStays(w: World, w': World)
    requires w.link.Up? && EndpointInv(w) && w.link.endpoint.Connected?
    requires w'.link == w.link && w'.client == w.client && w'.workerGone == w.workerGone && w'.exit == w.exit
    requires |w.audit.history| <= |w'.audit.history| && w'.audit.openedAt == w.audit.openedAt
    requires var s := w.link.endpoint.server;
             ServerInv(s, w'.hub, w'.audit) && (!s.Finished? ==> Reached(s, w'.audit) == Reached(s, w.audit))
    ensures EndpointInv(w')
  {
    hide ServerInv, Reached, StreamEnd, Ended;
  }

  /** The hub and the client, whoever uses the hub. */
  lemma HubUseKeepsHub(h: Hub, a: Audit, op: Op, c: Client, config: Config)
    requires Inv(h, a) && SmallChunks(h) && ClientInv(c, config, a.history)
    requires (op.DoConfigure? ==> h.logOpen) && (op.DoBroadcast? ==> Printable(op.data, a))
    ensures var h', a' := h.Next(op), NextAudit(h, a, op);
            && Inv(h', a') && SmallChunks(h') && ClientInv(c, config, a'.history)
            && a'.history == a.history + Printed(op) && a'.openedAt == a.openedAt
            && (h.logError ==> h'.logError)
  {
    assert NoDuplicates(h.resumeClients);
    hide Inv, SmallChunks, ClientInv, Hub.Next, NextAudit;
    StepKeepsInv(h, a, op);
    StepKeepsSmall(h, op);
    NextHistory(h, a, op);
    ClientOfLonger(c, config, a.history, Printed(op));
    if h.logError {
      FailureStays(h, op);
    }
  }

  lemma HubUseKeepsWorld(w: World, op: Op)
    requires WorldInv(w) && PermittedUse(w, op)
    ensures WorldInv(AfterHubUse(w, op))
  {
    hide Inv, SmallChunks, LinkInv, ClientInv, Hub.Next, NextAudit, ToldCode, RecordedCode;
    HubUseKeepsHub(w.hub, w.audit, op, w.client, w.config);
    if w.link.Up? {
      HubUseKeepsLink(w, op);
    }
  }

  lemma FailureStays(h: Hub, op: Op)
    requires h.logError && (op.DoConfigure? ==> h.logOpen)
    ensures h.Next(op).logError
  {
  }

  lemma AcceptKeepsWorld(w: World)
    requires WorldInv(w) && Enabled(w, WorkerAccepts)
    ensures WorldInv(Next(w, WorkerAccepts))
  {
    var since := w.link.endpoint.since;
    var pos := StreamEnd(w.link.sent, w.client.cursor);
    AcceptIsGood(w.hub, w.audit, since, w.exit.Some?, pos);
    var t := Accept(w.hub, since, w.exit.Some?);
    assert since == None ==> NothingBefore(w.audit, StreamStart(w.hub, since));
    hide Inv, SmallChunks, GoodTurn, WorldInv, LinkInv, Stream, StreamEnd;
    TurnKeepsWorld(w, t, StreamStart(w.hub, since), NextAudit(w.hub, w.audit, DoSubscribeResumable(since)),
                   StreamStart(w.hub, since))
      by { DialingFacts(w); }
  }

  lemma DialingFacts(w: World)
    requires WorldInv(w) && w.link.Up? && w.link.endpoint.Dialing?
    ensures !Ended(w.link.sent) && !w.workerGone
    ensures StreamEnd(w.link.sent, w.client.cursor) == w.link.endpoint.since == w.client.cursor
    ensures w.link.endpoint.since.Some? ==> w.link.endpoint.since.value <= |w.audit.history|
  {
    CursorInHistory(w.client, w.config, w.audit.history);
    assert w.link.sent != [] ==> w.link.sent[|w.link.sent| - 1] in w.link.sent;
  }

  lemma ConnectedFacts(w: World)
    requires WorldInv(w) && w.link.Up? && w.link.endpoint.Connected? && !w.link.endpoint.server.Finished?
    ensures Inv(w.hub, w.audit) && SmallChunks(w.hub)
    ensures ServerInv(w.link.endpoint.server, w.hub, w.audit)
    ensures w.link.live && !w.workerGone && !Ended(w.link.sent)
    ensures StreamEnd(w.link.sent, w.client.cursor) in {None, Some(Reached(w.link.endpoint.server, w.audit))}
    ensures StreamEnd(w.link.sent, w.client.cursor) == None ==>
              NothingBefore(w.audit, Reached(w.link.endpoint.server, w.audit))
    ensures w.link.endpoint.server.alreadyExited ==> w.exit.Some?
  {
  }

  lemma ReplayKeepsWorld(w: World, read: Option<nat>)
    requires WorldInv(w) && Enabled(w, WorkerReplays(read))
    ensures WorldInv(Next(w, WorkerReplays(read)))
  {
    ConnectedFacts(w);
    var s := w.link.endpoint.server;
    ReplayIsGood(s, w.hub, w.audit, read, StreamEnd(w.link.sent, w.client.cursor));
    hide GoodTurn, WorldInv, Inv, SmallChunks, ServerInv, StreamEnd;
    var t := Replay(s, w.hub, read);
    assert !EndsWithExit(t.frames);
    assert !t.server.Finished? ==> t.server.alreadyExited == s.alreadyExited;
    TurnKeepsWorld(w, t, s.offset, w.audit, w.link.endpoint.start);
  }

  lemma ServeKeepsWorld(w: World, detached: bool, gone: bool)
    requires WorldInv(w) && Enabled(w, WorkerServes(detached, gone))
    ensures WorldInv(Next(w, WorkerServes(detached, gone)))
  {
    var s := w.link.endpoint.server;
    assert Next(w, WorkerServes(detached, gone))
        == TakeTurn(w, Serve(s, w.hub, w.exit, detached, gone), ServeAudit(s, w.hub, w.audit), w.link.endpoint.start);
    hide *;
    ServedTurnKeepsWorld(w, detached, gone);
  }

  lemma ServedTurnKeepsWorld(w: World, detached: bool, gone: bool)
    requires WorldInv(w) && Enabled(w, WorkerServes(detached, gone))
    ensures var s := w.link.endpoint.server;
            WorldInv(TakeTurn(w, Serve(s, w.hub, w.exit, detached, gone), ServeAudit(s, w.hub, w.audit),
                              w.link.endpoint.start))
  {
    ConnectedFacts(w);
    hide *;
    var s := w.link.endpoint.server;
    var t, a' := Serve(s, w.hub, w.exit, detached, gone), ServeAudit(s, w.hub, w.audit);
    ServedTurn(s, w.hub, w.audit, w.exit, detached, gone, StreamEnd(w.link.sent, w.client.cursor));
    TurnKeepsWorld(w, t, Reached(s, w.audit), a', w.link.endpoint.start);
  }

  lemma ServedTurn(s: Server, h: Hub, a: Audit, exit: Option<ExitInfo>, detached: bool, gone: bool, pos: Option<nat>)
    requires Inv(h, a) && SmallChunks(h) && s.Serving? && ServerInv(s, h, a)
    requires pos in {None, Some(Reached(s, a))} && (s.alreadyExited ==> exit.Some?)
    ensures var t, a' := Serve(s, h, exit, detached, gone), ServeAudit(s, h, a);
            && GoodTurn(t, pos, Reached(s, a), a')
            && a'.history == a.history && a'.openedAt == a.openedAt
            && (EndsWithExit(t.frames) ==> exit.Some? && Tells(t.frames, ToldCode(exit)))
            && (!t.server.Finished? && t.server.alreadyExited ==> exit.Some?)
  {
    hide Inv, SmallChunks, ServerInv, GoodTurn, Serve, Reached, Tells, ToldCode;
    ServeIsGood(s, h, a, exit, detached, gone, pos);
    ServeExits(s, h, exit, detached, gone);
    ServeTells(s, h, exit, detached, gone);
  }

  lemma ServeExits(s: Server, h: Hub, exit: Option<ExitInfo>, detached: bool, gone: bool)
    requires s.Serving? && (s.alreadyExited ==> exit.Some?)
    ensures var t := Serve(s, h, exit, detached, gone);
            && (EndsWithExit(t.frames) ==> exit.Some?)
            && (!t.server.Finished? ==> t.server.alreadyExited == s.alreadyExited)
  {
  }

  lemma ConnectKeepsWorld(w: World, metaReadable: bool, tty: bool)
    requires WorldInv(w) && Enabled(w, ClientConnects(metaReadable, tty))
    ensures WorldInv(Next(w, ClientConnects(metaReadable, tty)))
  {
    AnswerIsGood(w, metaReadable, tty);
    CursorInHistory(w.client, w.config, w.audit.history);
    hide Inv, SmallChunks, Stream, StreamEnd, AllFit, EncodeAll, Answer, Faithful;
  }

  /** What answers a new connection is a stream from the client's cursor on. */
  lemma AnswerIsGood(w: World, metaReadable: bool, tty: bool)
    requires WorldInv(w)
    ensures var fs, cursor := Answer(w, metaReadable, tty), w.client.cursor;
            && Stream(fs, cursor, w.audit.history) && fs != []
            && (fs[0].tag == S_READY || fs[0].tag == S_ERROR)
            && (EndsWithExit(fs) ==>
                  w.workerGone && TellsKnown(w, fs) && (!w.hub.logError ==> AtTheEnd(StreamEnd(fs, cursor), w.audit)))
            && (metaReadable && !w.workerGone ==>
                  StreamEnd(fs, cursor) == cursor && forall f | f in fs :: f.tag == S_READY)
  {
    if !metaReadable || (w.workerGone && w.status.None?) {
      StreamOfOne(ERROR_FRAME, w.client.cursor, w.audit.history);
    } else if !w.workerGone {
      StreamOfOne(BridgeReady(tty), w.client.cursor, w.audit.history);
    } else {
      DiskAnswer(w, tty, w.status.value);
    }
    hide WorldInv, Stream, StreamEnd, BridgeFrames;
  }

  lemma DiskAnswer(w: World, tty: bool, status: Status)
    requires WorldInv(w)
    ensures var fs := BridgeFrames(w.hub.disk, w.client.cursor, tty, status);
            && Stream(fs, w.client.cursor, w.audit.history)
            && fs[0] == BridgeReady(tty)
            && (EndsWithExit(fs) ==> ParseExit(fs[|fs| - 1].payload) == RecordedCode(Some(status)))
            && (!w.hub.logError ==> AtTheEnd(StreamEnd(fs, w.client.cursor), w.audit))
  {
    var disk := w.hub.disk;
    var cursor := w.client.cursor;
    CursorInHistory(w.client, w.config, w.audit.history);
    assert disk <= w.audit.history && |w.audit.history| < U64_MODULUS;
    assert !w.hub.logError ==> disk == w.audit.history;
    assert w.audit.openedAt <= |w.audit.history|;
    hide WorldInv;
    if BridgeStart(disk, cursor) > |disk| {
      StreamOfTwo(BridgeReady(tty), ERROR_FRAME, cursor, w.audit.history);
    } else {
      BridgeStream(disk, cursor, tty, status, cursor);
      StreamEndStays(BridgeFrames(disk, cursor, tty, status), cursor);
      hide BridgeFrames, Stream;
      var more := w.audit.history[|disk|..];
      assert disk + more == w.audit.history;
      StreamOfLonger(BridgeFrames(disk, cursor, tty, status), cursor, disk, more);
    }
  }

  /** What the client makes of the first frame in flight. */
  lemma FirstFrameOfLink(w: World)
    requires WorldInv(w) && w.link.Up?
    ensures var sent := w.link.sent;
            ReadOne(w.link.wire).Got? ==>
              && sent != [] && ReadOne(w.link.wire).frame == sent[0]
              && ReadOne(w.link.wire).rest <= EncodeAll(sent[1..])
              && (w.link.live ==> ReadOne(w.link.wire).rest == EncodeAll(sent[1..]))
              && Stream(sent[1..], Position(sent[0], w.client.cursor), w.audit.history)
              && StreamEnd(sent, w.client.cursor) == StreamEnd(sent[1..], Position(sent[0], w.client.cursor))
              && (sent[0].tag == S_READY || Continues(sent[0], w.client.cursor, w.audit.history)
                  || (IsEnd(sent[0]) && |sent| == 1))
  {
    hide ReadOne, Encode, EndpointInv, Continues;
    ReadOneOfStream(w.link.sent, w.link.wire);
  }

  /** In flight the next output frame starts exactly at the cursor: nothing is skipped and
      no gap is seen. */
  lemma OutputAdvances(c: Client, config: Config, f: Frame, history: seq<byte>)
    requires ClientInv(c, config, history) && |history| < U64_MODULUS && c.phase.Attached?
    requires Continues(f, c.cursor, history)
    ensures ClientInv(OnFrame(c, config, f), config, history)
    ensures OnFrame(c, config, f).phase == c.phase && OnFrame(c, config, f).cursor == Position(f, c.cursor)
    ensures OffsetFrameProgress(c.cursor, OffsetOf(f), |f.payload| - 8) == Advance(0, OffsetOf(f) + |f.payload| - 8)
  {
    TrueFrameKeepsClient(c, config, f, history);
  }

  lemma LossKeepsWorld(w: World, needsResumable: bool)
    requires WorldInv(w) && Reading(w)
    ensures WorldInv(WithClient(w, Down, OnLoss(w.client, w.config, needsResumable)))
  {
    LossKeepsClient(w.client, w.config, w.audit.history, needsResumable);
    hide Inv, SmallChunks;
  }

  lemma ReadKeepsWorld(w: World)
    requires WorldInv(w) && Enabled(w, ClientReads)
    ensures WorldInv(Next(w, ClientReads))
  {
    FirstFrameOfLink(w);
    assert |w.audit.history| < U64_MODULUS;
    if !ReadOne(w.link.wire).Got? {
      hide WorldInv;
      LossKeepsWorld(w, w.client.phase.Attached?);
    } else {
      var f := w.link.sent[0];
      if w.client.phase.Attached? && Continues(f, w.client.cursor, w.audit.history) {
        hide ReadOne;
        OutputKeepsWorld(w, f, ReadOne(w.link.wire).rest);
      } else {
        hide ReadOne;
        OtherFrameKeepsWorld(w, f, ReadOne(w.link.wire).rest);
      }
    }
  }

  lemma OutputKeepsWorld(w: World, f: Frame, rest: seq<byte>)
    requires WorldInv(w) && w.link.Up? && w.client.phase.Attached? && w.link.sent != [] && f == w.link.sent[0]
    requires rest <= EncodeAll(w.link.sent[1..]) && (w.link.live ==> rest == EncodeAll(w.link.sent[1..]))
    requires Stream(w.link.sent[1..], Position(f, w.client.cursor), w.audit.history)
    requires StreamEnd(w.link.sent, w.client.cursor) == StreamEnd(w.link.sent[1..], Position(f, w.client.cursor))
    requires Continues(f, w.client.cursor, w.audit.history)
    ensures WorldInv(WithClient(w, w.link.(wire := rest, sent := w.link.sent[1..]), OnFrame(w.client, w.config, f)))
  {
    assert |w.audit.history| < U64_MODULUS;
    OutputAdvances(w.client, w.config, f, w.audit.history);
    assert f in w.link.sent && f.tag != S_READY;
    hide Inv, SmallChunks, ServerInv, Stream, StreamEnd, EncodeAll, ClientInv, Continues, OnFrame, Position;
  }

  lemma OtherFrameKeepsWorld(w: World, f: Frame, rest: seq<byte>)
    requires WorldInv(w) && w.link.Up? && Reading(w) && w.link.sent != [] && f == w.link.sent[0]
    requires rest <= EncodeAll(w.link.sent[1..]) && (w.link.live ==> rest == EncodeAll(w.link.sent[1..]))
    requires Stream(w.link.sent[1..], Position(f, w.client.cursor), w.audit.history)
    requires StreamEnd(w.link.sent, w.client.cursor) == StreamEnd(w.link.sent[1..], Position(f, w.client.cursor))
    requires f.tag == S_READY || Continues(f, w.client.cursor, w.audit.history) || (IsEnd(f) && |w.link.sent| == 1)
    requires w.client.phase.Handshake? || !Continues(f, w.client.cursor, w.audit.history)
    ensures WorldInv(WithClient(w, w.link.(wire := rest, sent := w.link.sent[1..]), OnFrame(w.client, w.config, f)))
  {
    if f.tag == S_READY {
      ReadyKeepsWorld(w, f, rest);
    } else {
      LossKeepsClient(w.client, w.config, w.audit.history, false);
      hide Inv, SmallChunks, ServerInv, Stream, EncodeAll, ParseExit, Faithful, IsSegment, OffsetOf, Emit;
      assert w.link.sent[0] == f;
    }
  }

  lemma ReadyKeepsWorld(w: World, f: Frame, rest: seq<byte>)
    requires WorldInv(w) && w.link.Up? && Reading(w) && w.link.sent != [] && f == w.link.sent[0] && f.tag == S_READY
    requires rest <= EncodeAll(w.link.sent[1..]) && (w.link.live ==> rest == EncodeAll(w.link.sent[1..]))
    requires Stream(w.link.sent[1..], w.client.cursor, w.audit.history)
    requires StreamEnd(w.link.sent, w.client.cursor) == StreamEnd(w.link.sent[1..], w.client.cursor)
    ensures WorldInv(WithClient(w, w.link.(wire := rest, sent := w.link.sent[1..]), OnFrame(w.client, w.config, f)))
  {
    ReadyKeepsClient(w.client, w.config, f, w.audit.history);
    hide OnFrame, ToldCode, ParseExit, Records, Inv, SmallChunks, ServerInv, Stream, StreamEnd, EncodeAll, ClientInv,
         Reached, IsSegment, AllFit, Fits;
    assert AllFit(w.link.sent[1..]) by {
      AllFitRest(w.link.sent);
    }
  }

  lemma ReadyKeepsClient(c: Client, config: Config, f: Frame, history: seq<byte>)
    requires ClientInv(c, config, history) && (c.phase.Handshake? || c.phase.Attached?) && f.tag == S_READY
    ensures var c' := OnFrame(c, config, f);
            ClientInv(c', config, history) && c'.phase.Attached? && c'.cursor == c.cursor && c'.epochs == c.epochs
  {
    hide Faithful;
  }

  lemma AllFitRest(fs: seq<Frame>)
    requires AllFit(fs) && fs != []
    ensures AllFit(fs[1..])
  {
    assert forall f | f in fs[1..] :: f in fs;
  }

  /** Every step of the composed system keeps the invariant. */
  lemma StepKeepsWorld(w: World, l: Label)
    requires WorldInv(w) && Enabled(w, l)
    ensures WorldInv(Next(w, l))
  {
    match l
    case ProgramPrints(data, io) =>
      HubUseKeepsWorld(w, DoBroadcast(data, io));
    case OthersUseHub(op) =>
      HubUseKeepsWorld(w, op);
      assert Next(w, l) == AfterHubUse(w, op);
    case EndRecorded(_) =>
      hide Inv, SmallChunks, ServerInv, Stream, EncodeAll, ClientInv;
    case ExitAnnounced(_) =>
      hide Inv, SmallChunks, ServerInv, Stream, EncodeAll, ClientInv;
    case WorkerStops =>
      hide Inv, SmallChunks, Stream, EncodeAll, ClientInv;
    case ClientConnects(metaReadable, tty) =>
      ConnectKeepsWorld(w, metaReadable, tty);
    case DialFails =>
      hide Inv, SmallChunks;
    case WorkerAccepts => AcceptKeepsWorld(w);
    case WorkerReplays(read) => ReplayKeepsWorld(w, read);
    case WorkerServes(detached, gone) => ServeKeepsWorld(w, detached, gone);
    case TransportCut(_) =>
      hide Inv, SmallChunks, Stream, EncodeAll, ClientInv;
    case ClientReads => ReadKeepsWorld(w);
    case ClientGivesUp => LossKeepsWorld(w, w.client.phase.Attached?);
    case UserDetaches =>
      hide Inv, SmallChunks;
  }

  // ---------------------------------------------------------------- what runs guarantee

  function Run(w: World, ls: seq<Label>): World
    requires EnabledRun(w, ls)
    decreases |ls|
  {
    if ls == [] then w else Run(Next(w, ls[0]), ls[1..])
  }

  predicate EnabledRun(w: World, ls: seq<Label>)
    decreases |ls|
  {
    ls == [] || (Enabled(w, ls[0]) && EnabledRun(Next(w, ls[0]), ls[1..]))
  }

  lemma InitialWorldInv(config: Config, disk: seq<byte>, rows: seq<Row>, timestampsOpen: bool)
    requires |disk| < U64_MODULUS
    ensures WorldInv(InitialWorld(config, disk, rows, timestampsOpen))
  {
    OpenHubInv(disk, rows, timestampsOpen);
    hide Inv;
  }

  lemma {:induction false} RunKeepsWorld(w: World, ls: seq<Label>)
    requires WorldInv(w) && EnabledRun(w, ls)
    ensures WorldInv(Run(w, ls))
    decreases |ls|
  {
    if ls != [] {
      hide WorldInv, Enabled, Next;
      StepKeepsWorld(w, ls[0]);
      RunKeepsWorld(Next(w, ls[0]), ls[1..]);
    }
  }

  lemma {:induction false} ConfigStays(w: World, ls: seq<Label>)
    requires EnabledRun(w, ls)
    ensures Run(w, ls).config == w.config
    decreases |ls|
  {
    if ls != [] {
      assert Next(w, ls[0]).config == w.config;
      hide Next, Enabled;
      ConfigStays(Next(w, ls[0]), ls[1..]);
    }
  }

  /** A connection that is cut after some bytes still brings the frames that are whole by then,
      in order, and no others. */
  lemma CutBringsWholeFrames(w: World, n: nat)
    requires WorldInv(w) && Enabled(w, TransportCut(n)) && w.link.live
    ensures var link := Next(w, TransportCut(n)).link;
            && link.Up? && !link.live && link.wire == w.link.wire[..n]
            && ReadAll(link.wire) == w.link.sent[..WholeFrames(w.link.sent, n)]
  {
    assert AllFit(w.link.sent) && w.link.wire == EncodeAll(w.link.sent);
    hide WorldInv, ReadAll, WholeFrames, EncodeAll, AllFit;
    CutStreamReadsWholeFrames(w.link.sent, n);
  }

  // ---------------------------------------------------------------- what a run was

  function PrintedBy(ls: seq<Label>): seq<byte> {
    if ls == [] then []
    else PrintedBy(ls[..|ls| - 1]) + if ls[|ls| - 1].ProgramPrints? then ls[|ls| - 1].data else []
  }

  predicate Announces(ls: seq<Label>, info: ExitInfo) { ExitAnnounced(info) in ls }

  /** Something was printed after the exit was announced. */
  predicate PrintsLate(ls: seq<Label>) {
    exists j, k | 0 <= j < k < |ls| :: ls[j].ExitAnnounced? && ls[k].ProgramPrints?
  }

  /** Some write to the log failed. */
  predicate LogFails(ls: seq<Label>) {
    exists k | 0 <= k < |ls| :: ls[k].ProgramPrints? && ls[k].io.logFailsAfter.Some?
  }

  lemma {:induction false} RunSplits(w: World, ls: seq<Label>)
    requires EnabledRun(w, ls) && ls != []
    ensures var init, l := ls[..|ls| - 1], ls[|ls| - 1];
            EnabledRun(w, init) && Enabled(Run(w, init), l) && Run(w, ls) == Next(Run(w, init), l)
    decreases |ls|
  {
    hide Next, Enabled;
    if |ls| == 1 {
      assert ls[..0] == [] && Run(w, []) == w && ls[1..] == [];
      assert Run(Next(w, ls[0]), []) == Next(w, ls[0]);
    } else {
      RunSplits(Next(w, ls[0]), ls[1..]);
      assert ls[..|ls| - 1][0] == ls[0] && ls[..|ls| - 1][1..] == ls[1..][..|ls| - 2];
    }
  }

  /** A step of the hub that is not a broadcast leaves the log as it is. */
  lemma OtherUseKeepsLog(h: Hub, a: Audit, op: Op)
    requires !op.DoBroadcast? && (op.DoConfigure? ==> h.logOpen)
    ensures h.Next(op).logError == h.logError && h.Next(op).logOpen == h.logOpen
    ensures NextAudit(h, a, op).history == a.history && NextAudit(h, a, op).openedAt == a.openedAt
  {
  }

  lemma SessionStep(w: World, l: Label)
    requires Enabled(w, l) && w.hub.logOpen != w.hub.logError
    ensures var w' := Next(w, l);
            && w'.hub.logOpen != w'.hub.logError
            && w'.audit.history == w.audit.history + (if l.ProgramPrints? then l.data else [])
            && w'.audit.openedAt == w.audit.openedAt
            && w'.exit == (if l.ExitAnnounced? then Some(l.info) else w.exit)
            && w'.status == (if l.EndRecorded? then Some(l.status) else w.status)
            && (w'.workerGone <==> w.workerGone || l.WorkerStops?)
            && (w'.late <==> w.late || (l.ProgramPrints? && w.exit.Some?))
            && (w'.hub.logError <==> w.hub.logError || (l.ProgramPrints? && l.io.logFailsAfter.Some?))
  {
    assert w.audit.history + [] == w.audit.history;
    match l {
      case ProgramPrints(data, io) =>
        HealthStep(w.hub, DoBroadcast(data, io));
        hide Hub.Next;
      case OthersUseHub(op) =>
        OtherUseKeepsLog(w.hub, w.audit, op);
        hide Hub.Next, NextAudit;
      case WorkerAccepts => AcceptKeepsLog(w);
      case WorkerServes(detached, gone) => ServingKeepsLog(w, detached, gone);
      case _ => hide Hub.Next, NextAudit, OnFrame, OnLoss, ReadOne, EncodeAll, Answer;
    }
  }

  lemma AcceptKeepsLog(w: World)
    requires Enabled(w, WorkerAccepts)
    ensures var w' := Next(w, WorkerAccepts);
            && w'.hub.logError == w.hub.logError && w'.hub.logOpen == w.hub.logOpen
            && w'.audit.history == w.audit.history && w'.audit.openedAt == w.audit.openedAt
            && w'.exit == w.exit && w'.status == w.status && w'.workerGone == w.workerGone && w'.late == w.late
  {
    hide EncodeAll;
  }

  lemma ServingKeepsLog(w: World, detached: bool, gone: bool)
    requires Enabled(w, WorkerServes(detached, gone))
    ensures var w' := Next(w, WorkerServes(detached, gone));
            && w'.hub.logError == w.hub.logError && w'.hub.logOpen == w.hub.logOpen
            && w'.audit.history == w.audit.history && w'.audit.openedAt == w.audit.openedAt
            && w'.exit == w.exit && w'.status == w.status && w'.workerGone == w.workerGone && w'.late == w.late
  {
    hide EncodeAll, OutputFrame, ExitFrame;
  }

  lemma FactsSnoc(ls: seq<Label>)
    requires ls != []
    ensures var init, l := ls[..|ls| - 1], ls[|ls| - 1];
            && (forall info :: Announces(ls, info) <==> Announces(init, info) || l == ExitAnnounced(info))
            && ((exists k | 0 <= k < |ls| :: ls[k].ExitAnnounced?)
                <==> l.ExitAnnounced? || exists k | 0 <= k < |init| :: init[k].ExitAnnounced?)
            && (PrintsLate(ls)
                <==> PrintsLate(init) || (l.ProgramPrints? && exists k | 0 <= k < |init| :: init[k].ExitAnnounced?))
            && (LogFails(ls) <==> LogFails(init) || (l.ProgramPrints? && l.io.logFailsAfter.Some?))
            && (WorkerStops in ls <==> WorkerStops in init || l.WorkerStops?)
            && (forall status :: EndRecorded(status) in ls <==> EndRecorded(status) in init || l == EndRecorded(status))
  {
    var init, l := ls[..|ls| - 1], ls[|ls| - 1];
    assert ls == init + [l];
    assert forall k | 0 <= k < |init| :: ls[k] == init[k];
    if PrintsLate(ls) {
      var j, k :| 0 <= j < k < |ls| && ls[j].ExitAnnounced? && ls[k].ProgramPrints?;
      assert init[j].ExitAnnounced?;
      assert k < |init| ==> init[k].ProgramPrints?;
    }
    if PrintsLate(init) {
      var j, k :| 0 <= j < k < |init| && init[j].ExitAnnounced? && init[k].ProgramPrints?;
      assert ls[j].ExitAnnounced? && ls[k].ProgramPrints?;
    }
    if LogFails(init) {
      var k :| 0 <= k < |init| && init[k].ProgramPrints? && init[k].io.logFailsAfter.Some?;
      assert ls[k].ProgramPrints? && ls[k].io.logFailsAfter.Some?;
    }
    if LogFails(ls) {
      var k :| 0 <= k < |ls| && ls[k].ProgramPrints? && ls[k].io.logFailsAfter.Some?;
      assert k < |init| ==> init[k].ProgramPrints? && init[k].io.logFailsAfter.Some?;
    }
  }

  /** In every run the history is the log as it was opened and everything that the program
      has printed since; the exit and the status are those that were announced and recorded;
      and what the world remembers of the worker, of late output and of the log is what has
      happened. */
  lemma {:induction false} SessionIsExact(config: Config, disk: seq<byte>, rows: seq<Row>, timestampsOpen: bool,
                                          ls: seq<Label>)
    requires EnabledRun(InitialWorld(config, disk, rows, timestampsOpen), ls)
    ensures var w := Run(InitialWorld(config, disk, rows, timestampsOpen), ls);
            && w.audit.history == disk + PrintedBy(ls) && w.audit.openedAt == |disk|
            && (forall info :: w.exit == Some(info) <==> Announces(ls, info))
            && (w.exit.Some? <==> exists k | 0 <= k < |ls| :: ls[k].ExitAnnounced?)
            && (forall status :: w.status == Some(status) <==> EndRecorded(status) in ls)
            && (w.workerGone <==> WorkerStops in ls)
            && (w.late <==> PrintsLate(ls))
            && (w.hub.logError <==> LogFails(ls)) && w.hub.logOpen != w.hub.logError
    decreases |ls|
  {
    var w0 := InitialWorld(config, disk, rows, timestampsOpen);
    if ls == [] {
      assert disk + [] == disk;
    } else {
      var init, l := ls[..|ls| - 1], ls[|ls| - 1];
      RunSplits(w0, ls);
      hide Run, EnabledRun, Next, InitialWorld, PrintsLate, LogFails, Announces;
      SessionIsExact(config, disk, rows, timestampsOpen, init);
      RecordsOnce(Run(w0, init), l);
      SessionStep(Run(w0, init), l);
      FactsSnoc(ls);
      Regroup(disk, PrintedBy(init), if l.ProgramPrints? then l.data else []);
    }
  }

  lemma RecordsOnce(w: World, l: Label)
    requires Enabled(w, l)
    ensures l.EndRecorded? ==> w.status.None?
    ensures l.ExitAnnounced? ==> w.exit.None?
  {
  }

  /** Exactly once, in order, in every run: each stretch of output that the client writes
      without clearing its screen is a segment of what the log held at first and the program
      has printed since, and the cursor is where the last one ends. A client that writes to
      no terminal has a single stretch, so all it ever wrote is the output from one offset to
      its cursor. */
  lemma ExactlyOnce(config: Config, disk: seq<byte>, rows: seq<Row>, timestampsOpen: bool, ls: seq<Label>)
    requires |disk| < U64_MODULUS
    requires EnabledRun(InitialWorld(config, disk, rows, timestampsOpen), ls)
    ensures var w := Run(InitialWorld(config, disk, rows, timestampsOpen), ls);
            var all, epochs := disk + PrintedBy(ls), w.client.epochs;
            && (forall e | e in epochs :: e.start + |e.bytes| <= |all| && e.bytes == all[e.start..e.start + |e.bytes|])
            && (w.client.cursor.Some? ==>
                  epochs != [] && w.client.cursor.value == epochs[|epochs| - 1].start + |epochs[|epochs| - 1].bytes|)
            && (!config.localTty ==> |epochs| <= 1)
            && (!config.localTty && epochs != [] ==>
                  && w.client.cursor.Some?
                  && epochs[0].start <= w.client.cursor.value <= |all|
                  && epochs[0].bytes == all[epochs[0].start..w.client.cursor.value])
            && w.client.legacy == []
  {
    var w0 := InitialWorld(config, disk, rows, timestampsOpen);
    InitialWorldInv(config, disk, rows, timestampsOpen);
    RunKeepsWorld(w0, ls);
    ConfigStays(w0, ls);
    SessionIsExact(config, disk, rows, timestampsOpen, ls);
    var w := Run(w0, ls);
    assert ClientInv(w.client, config, w.audit.history);
    hide WorldInv, Run, PrintedBy;
  }

  // ---------------------------------------------------------------- what is written stays written

  lemma StepOnlyGrows(w: World, l: Label)
    requires Enabled(w, l)
    ensures Grows(w.client.epochs, Next(w, l).client.epochs)
  {
    if l.ClientReads? && ReadOne(w.link.wire).Got? {
      FrameOnlyGrows(w.client, w.config, ReadOne(w.link.wire).frame);
    }
    hide OnFrame, ReadOne;
  }

  /** Output once written stays written, and the offset a stretch starts at never changes:
      over any part of any run the client's output is only extended. */
  lemma {:induction false} OutputOnlyGrows(w: World, ls: seq<Label>)
    requires EnabledRun(w, ls)
    ensures Grows(w.client.epochs, Run(w, ls).client.epochs)
    decreases |ls|
  {
    if ls != [] {
      hide Next, Enabled;
      StepOnlyGrows(w, ls[0]);
      OutputOnlyGrows(Next(w, ls[0]), ls[1..]);
    }
  }

  /** The errors that guard the protocol never arise in it: the next output frame always
      starts at the cursor, and a resumed client never asks for bytes beyond the end. From
      disk it can do so only if the log had failed. */
  lemma GuardsNeverFire(w: World)
    requires WorldInv(w)
    ensures w.link.Up? && w.client.phase.Attached? && ReadOne(w.link.wire).Got? ==>
              var f := ReadOne(w.link.wire).frame;
              f.tag == S_OUTPUT_OFFSET && |f.payload| >= 8 ==>
                OffsetFrameProgress(w.client.cursor, OffsetOf(f), |f.payload| - 8)
                == Advance(0, OffsetOf(f) + |f.payload| - 8)
    ensures w.link.Up? && w.link.endpoint.Dialing? ==> !w.hub.Subscription(w.link.endpoint.since).BeyondEnd?
    ensures BridgeStart(w.hub.disk, w.client.cursor) > |w.hub.disk| ==> w.hub.logError
  {
    CursorInHistory(w.client, w.config, w.audit.history);
    assert w.hub.nextOffset == |w.audit.history| < U64_MODULUS;
    assert !w.hub.logError ==> w.hub.disk == w.audit.history;
    if w.link.Up? {
      FirstFrameOfLink(w);
      if w.link.endpoint.Dialing? {
        DialingFacts(w);
      }
      hide ReadOne, LinkInv, Inv, SmallChunks, ServerInv;
      if w.client.phase.Attached? && ReadOne(w.link.wire).Got?
         && Continues(w.link.sent[0], w.client.cursor, w.audit.history) {
        OutputAdvances(w.client, w.config, w.link.sent[0], w.audit.history);
      }
    }
  }

  /** What the far end still has to send before the queue. */
  function Unsent(s: Server, h: Hub): seq<byte>
    requires s.Replaying? ==> s.offset <= s.end <= |h.disk|
  {
    match s
    case Replaying(_, offset, end, _) => h.disk[offset..end]
    case Serving(_, pending, _) => if pending.Some? then pending.value.data else []
    case Finished => []
  }

  /** A client that has written nothing since it last started afresh is missing exactly what
      the connection has carried since its start. */
  predicate StartInv(w: World) {
    w.link.Up? && w.link.endpoint.Connected? && !w.link.endpoint.server.Finished? && w.client.cursor.None? ==>
      && w.link.endpoint.server.id in w.audit.views
      && w.link.endpoint.start + |Output(w.link.sent)| == Reached(w.link.endpoint.server, w.audit)
  }

  lemma {:induction false} OutputAppend(fs: seq<Frame>, gs: seq<Frame>)
    ensures Output(fs + gs) == Output(fs) + Output(gs)
  {
    if fs == [] {
      assert fs + gs == gs && [] + Output(gs) == Output(gs);
    } else {
      var both := fs + gs;
      assert both[0] == fs[0] && both[1..] == fs[1..] + gs;
      OutputAppend(fs[1..], gs);
      var first := if fs[0].tag == S_OUTPUT_OFFSET && |fs[0].payload| >= 8 then fs[0].payload[8..] else [];
      Regroup(first, Output(fs[1..]), Output(gs));
    }
  }

  lemma {:induction false} ReadiesCarryNothing(fs: seq<Frame>)
    requires forall f | f in fs :: f.tag == S_READY
    ensures Output(fs) == []
  {
    if fs != [] {
      assert fs[0] in fs && forall f | f in fs[1..] :: f in fs;
      ReadiesCarryNothing(fs[1..]);
      assert [] + Output(fs[1..]) == [];
    }
  }

  /** A turn moves the connection by what it sends. */
  lemma TurnCounts(t: Turn, at: nat, a': Audit)
    requires GoodTurn(t, Some(at), at, a') && !t.server.Finished? && at <= |a'.history|
    ensures t.server.id in a'.views && Reached(t.server, a') == at + |Output(t.frames)|
  {
    ServingHasView(t.server, t.hub, a');
    StreamEndStays(t.frames, Some(at));
    StreamIsASegment(t.frames, Some(at), a'.history);
    hide Inv, SmallChunks, ServerInv, Stream, StreamEnd, Reached, Output;
  }

  lemma AcceptStarts(w: World)
    requires WorldInv(w) && Enabled(w, WorkerAccepts)
    ensures StartInv(Next(w, WorkerAccepts))
  {
    assert Output(w.link.sent) == [] by {
      ReadiesCarryNothing(w.link.sent);
    }
    AcceptState(w.hub, w.audit, w.link.endpoint.since, w.exit.Some?);
    var t := Accept(w.hub, w.link.endpoint.since, w.exit.Some?);
    if !t.server.Finished? {
      ServingHasView(t.server, t.hub, NextAudit(w.hub, w.audit, DoSubscribeResumable(w.link.endpoint.since)));
    }
    hide Inv, SmallChunks, ServerInv, Reached, WorldInv, Stream, NextAudit, StreamStart;
    OutputAppend(w.link.sent, [READY_FRAME]);
    ReadiesCarryNothing([READY_FRAME]);
  }

  lemma TurnKeepsStart(w: World, t: Turn, at: nat, a': Audit)
    requires w.link.Up? && w.link.endpoint.Connected? && !w.link.endpoint.server.Finished? && StartInv(w)
    requires w.link.endpoint.server.id in w.audit.views && Reached(w.link.endpoint.server, w.audit) == at
    requires !t.server.Finished? ==> t.server.id in a'.views && Reached(t.server, a') == at + |Output(t.frames)|
    ensures StartInv(TakeTurn(w, t, a', w.link.endpoint.start))
  {
    OutputAppend(w.link.sent, t.frames);
    hide Reached, Output, EncodeAll;
  }

  lemma ReplayKeepsStart(w: World, read: Option<nat>)
    requires WorldInv(w) && StartInv(w) && Enabled(w, WorkerReplays(read))
    ensures StartInv(Next(w, WorkerReplays(read)))
  {
    ConnectedFacts(w);
    var s := w.link.endpoint.server;
    UnsentTilesRest(s, w.hub, w.audit);
    ReplayIsGood(s, w.hub, w.audit, read, Some(s.offset));
    var t := Replay(s, w.hub, read);
    assert Reached(s, w.audit) == s.offset;
    hide GoodTurn, WorldInv, Replay, StartInv, TakeTurn;
    if !t.server.Finished? {
      TurnCounts(t, s.offset, w.audit);
    }
    TurnKeepsStart(w, t, s.offset, w.audit);
  }

  lemma ServeKeepsStart(w: World, detached: bool, gone: bool)
    requires WorldInv(w) && StartInv(w) && Enabled(w, WorkerServes(detached, gone))
    ensures StartInv(Next(w, WorkerServes(detached, gone)))
  {
    ConnectedFacts(w);
    var s := w.link.endpoint.server;
    UnsentTilesRest(s, w.hub, w.audit);
    var at := Reached(s, w.audit);
    ServedTurn(s, w.hub, w.audit, w.exit, detached, gone, Some(at));
    var t, a' := Serve(s, w.hub, w.exit, detached, gone), ServeAudit(s, w.hub, w.audit);
    hide GoodTurn, WorldInv, Serve, ServeAudit, StartInv, TakeTurn, Reached;
    if !t.server.Finished? {
      TurnCounts(t, at, a');
    }
    TurnKeepsStart(w, t, at, a');
  }

  lemma ReadKeepsStart(w: World)
    requires WorldInv(w) && StartInv(w) && Enabled(w, ClientReads)
    ensures StartInv(Next(w, ClientReads))
  {
    FirstFrameOfLink(w);
    if ReadOne(w.link.wire).Got? {
      var f := w.link.sent[0];
      if w.client.phase.Attached? && Continues(f, w.client.cursor, w.audit.history) {
        assert |w.audit.history| < U64_MODULUS;
        OutputAdvances(w.client, w.config, f, w.audit.history);
        hide OnFrame, ReadOne, WorldInv, Reached, Output, Continues, OffsetOf;
      } else {
        OtherFramesAreNoOutput(w);
        assert Output(w.link.sent) == [] + Output(w.link.sent[1..]) == Output(w.link.sent[1..]);
        hide WorldInv;
        OtherReadKeepsStart(w, f);
      }
    }
  }

  lemma OtherReadKeepsStart(w: World, f: Frame)
    requires StartInv(w) && Enabled(w, ClientReads) && ReadOne(w.link.wire).Got? && ReadOne(w.link.wire).frame == f
    requires w.link.sent != [] && Output(w.link.sent) == Output(w.link.sent[1..])
    requires f.tag == S_READY || IsEnd(f)
    ensures StartInv(Next(w, ClientReads))
  {
    OtherFrameKeepsCursor(w.client, w.config, f);
    hide OnFrame, ReadOne, Reached, Output;
  }

  lemma OtherFrameKeepsCursor(c: Client, config: Config, f: Frame)
    requires (f.tag == S_READY || IsEnd(f)) && (c.phase.Handshake? || c.phase.Attached?)
    ensures var c' := OnFrame(c, config, f);
            c'.phase.Handshake? || c'.phase.Attached? ==> c'.cursor == c.cursor
  {
    hide ParseExit, Emit, OffsetOf;
  }

  lemma OtherFramesAreNoOutput(w: World)
    requires WorldInv(w) && w.link.Up? && w.link.sent != []
    requires w.client.phase.Handshake? || !Continues(w.link.sent[0], w.client.cursor, w.audit.history)
    ensures w.link.sent[0].tag == S_READY || IsEnd(w.link.sent[0])
  {
    hide Inv, SmallChunks, ServerInv, EncodeAll, Continues, EndpointInv;
  }

  lemma HubUseKeepsStart(w: World, op: Op)
    requires WorldInv(w) && StartInv(w) && PermittedUse(w, op)
    ensures StartInv(AfterHubUse(w, op))
  {
    if w.link.Up? && w.link.endpoint.Connected? {
      OthersKeepServer(w.link.endpoint.server, w.hub, w.audit, op);
    }
    hide WorldInv, Reached, Hub.Next, NextAudit, Inv, ServerInv;
  }

  /** Every step keeps it. */
  lemma StepKeepsStart(w: World, l: Label)
    requires WorldInv(w) && StartInv(w) && Enabled(w, l)
    ensures StartInv(Next(w, l))
  {
    match l
    case ProgramPrints(data, io) => HubUseKeepsStart(w, DoBroadcast(data, io));
    case OthersUseHub(op) =>
      HubUseKeepsStart(w, op);
      assert Next(w, l) == AfterHubUse(w, op);
    case WorkerAccepts => AcceptStarts(w);
    case WorkerReplays(read) => ReplayKeepsStart(w, read);
    case WorkerServes(detached, gone) => ServeKeepsStart(w, detached, gone);
    case ClientReads => ReadKeepsStart(w);
    case _ => hide WorldInv, Reached, Inv, Output, EncodeAll;
  }

  lemma {:induction false} RunKeepsStart(w: World, ls: seq<Label>)
    requires WorldInv(w) && StartInv(w) && EnabledRun(w, ls)
    ensures WorldInv(Run(w, ls)) && StartInv(Run(w, ls))
    decreases |ls|
  {
    if ls != [] {
      hide WorldInv, StartInv, Enabled, Next;
      StepKeepsWorld(w, ls[0]);
      StepKeepsStart(w, ls[0]);
      RunKeepsStart(Next(w, ls[0]), ls[1..]);
    }
  }

  /** Where a stream starts is settled when the worker accepts: at the offset that is asked
      for, or else at the start of the backlog; it does not change while it is served. */
  lemma StartIsFixed(w: World, l: Label)
    requires Enabled(w, l) && Next(w, l).link.Up? && Next(w, l).link.endpoint.Connected?
    requires !Next(w, l).link.endpoint.server.Finished?
    ensures l.WorkerAccepts? ==>
              Next(w, l).link.endpoint.start == Or(w.link.endpoint.since, w.hub.backlogStart)
    ensures !l.WorkerAccepts? ==> w.link.Up? && w.link.endpoint.Connected?
                                  && Next(w, l).link.endpoint.start == w.link.endpoint.start
  {
    hide ReadOne, OnFrame, Hub.Next, EncodeAll, Serve, Replay, Accept;
  }

  /** Where the output that a client has not written yet begins, while it is served. */
  function Missing(w: World): nat
    requires w.link.Up? && w.link.endpoint.Connected?
  {
    Or(w.client.cursor, w.link.endpoint.start)
  }

  /** Conservation on a live connection: what is in flight, what is left of the replay or
      the backlog, and what is queued tile the output from the client's cursor, or for a
      client without one from where the stream started, to its end. */
  lemma Conservation(w: World)
    requires WorldInv(w) && StartInv(w)
    requires w.link.Up? && w.link.endpoint.Connected? && !w.link.endpoint.server.Finished?
    ensures var s := w.link.endpoint.server;
            && w.link.wire == EncodeAll(w.link.sent)
            && Missing(w) <= |w.audit.history|
            && (s.Replaying? ==> s.offset <= s.end <= |w.hub.disk|)
            && w.audit.history[Missing(w)..]
               == Output(w.link.sent) + Unsent(s, w.hub) + Payloads(Queue(w.hub, s.id))
  {
    var s := w.link.endpoint.server;
    ConnectedFacts(w);
    assert Stream(w.link.sent, w.client.cursor, w.audit.history) && w.link.wire == EncodeAll(w.link.sent);
    CursorInHistory(w.client, w.config, w.audit.history);
    hide WorldInv;
    UnsentTilesRest(s, w.hub, w.audit);
    StreamEndStays(w.link.sent, w.client.cursor);
    hide Inv, SmallChunks, ServerInv, EncodeAll, Reached, Unsent;
    InFlightThenRest(w.link.sent, w.client.cursor, w.link.endpoint.start, Reached(s, w.audit), w.audit.history);
    Regroup(Output(w.link.sent), Unsent(s, w.hub), Payloads(Queue(w.hub, s.id)));
  }

  /** So it holds in every run. */
  lemma NothingIsLostOnTheWay(config: Config, disk: seq<byte>, rows: seq<Row>, timestampsOpen: bool, ls: seq<Label>)
    requires |disk| < U64_MODULUS
    requires EnabledRun(InitialWorld(config, disk, rows, timestampsOpen), ls)
    ensures var w := Run(InitialWorld(config, disk, rows, timestampsOpen), ls);
            w.link.Up? && w.link.endpoint.Connected? && !w.link.endpoint.server.Finished? ==>
              var s := w.link.endpoint.server;
              && Missing(w) <= |w.audit.history|
              && (s.Replaying? ==> s.offset <= s.end <= |w.hub.disk|)
              && w.audit.history[Missing(w)..]
                 == Output(w.link.sent) + Unsent(s, w.hub) + Payloads(Queue(w.hub, s.id))
  {
    var w0 := InitialWorld(config, disk, rows, timestampsOpen);
    InitialWorldInv(config, disk, rows, timestampsOpen);
    assert StartInv(w0);
    RunKeepsStart(w0, ls);
    var w := Run(w0, ls);
    hide Run, WorldInv, StartInv, Output, Unsent, Payloads, Queue, Missing;
    if w.link.Up? && w.link.endpoint.Connected? && !w.link.endpoint.server.Finished? {
      Conservation(w);
    }
  }

  lemma InFlightThenRest(fs: seq<Frame>, pos: Option<nat>, start: nat, at: nat, history: seq<byte>)
    requires Stream(fs, pos, history) && StreamEnd(fs, pos) in {None, Some(at)} && at <= |history|
    requires pos.Some? ==> pos.value <= |history| && StreamEnd(fs, pos).Some?
    requires pos.None? ==> start + |Output(fs)| == at
    ensures Or(pos, start) <= |history| && history[Or(pos, start)..] == Output(fs) + history[at..]
  {
    StreamIsASegment(fs, pos, history);
    assert Output(fs) == [] ==> Output(fs) == history[at..at];
    assert Or(pos, start) + |Output(fs)| == at && Output(fs) == history[Or(pos, start)..at];
    hide *;
    RestSplits(history, Or(pos, start), at);
  }

  lemma UnsentTilesRest(s: Server, h: Hub, a: Audit)
    requires Inv(h, a) && ServerInv(s, h, a) && !s.Finished?
    ensures Reached(s, a) <= |a.history| && (s.Replaying? ==> s.offset <= s.end <= |h.disk|)
    ensures a.history[Reached(s, a)..] == Unsent(s, h) + Payloads(Queue(h, s.id))
  {
    assert ResumeComplete(a.views[s.id], h.resumeQueues[s.id], a.history);
    assert h.disk <= a.history;
    hide Inv;
    var view := a.views[s.id];
    var next := view.start + |view.taken|;
    TilesAreTheHistory(h.resumeQueues[s.id], next, a.history);
    hide Tiles, Payloads;
    UnsentIsNext(s, h, a);
    hide ServerInv, Unsent, Reached;
    RestSplits(a.history, Reached(s, a), next);
  }

  lemma UnsentIsNext(s: Server, h: Hub, a: Audit)
    requires ServerInv(s, h, a) && !s.Finished? && h.disk <= a.history
    requires a.views[s.id].start + |a.views[s.id].taken| <= |a.history|
    ensures s.Replaying? ==> s.offset <= s.end <= |h.disk|
    ensures var next := a.views[s.id].start + |a.views[s.id].taken|;
            Reached(s, a) <= next && Unsent(s, h) == a.history[Reached(s, a)..next]
  {
    if s.Replaying? {
      SlicesAgree(h.disk, a.history, s.offset, s.end);
    } else if s.pending.None? {
      assert a.history[Reached(s, a)..Reached(s, a)] == [];
    }
  }

  lemma RestSplits(history: seq<byte>, at: nat, next: nat)
    requires at <= next <= |history|
    ensures history[at..] == history[at..next] + history[next..]
  {
  }

  lemma SlicesAgree(a: seq<byte>, b: seq<byte>, from: nat, to: nat)
    requires a <= b && from <= to <= |a|
    ensures a[from..to] == b[from..to]
  {
  }

  /** A client that was told the exit code has everything: unless something was printed
      after the exit was announced, or the log had failed and only it was left, its cursor is
      at the end of the output and its last stretch of output runs to the last byte; or it
      has seen nothing since it last started afresh, because this worker printed nothing. */
  lemma ExitMeansComplete(config: Config, disk: seq<byte>, rows: seq<Row>, timestampsOpen: bool, ls: seq<Label>)
    requires |disk| < U64_MODULUS
    requires EnabledRun(InitialWorld(config, disk, rows, timestampsOpen), ls)
    ensures var w := Run(InitialWorld(config, disk, rows, timestampsOpen), ls);
            var all := disk + PrintedBy(ls);
            && w.client.phase.Over? && w.client.phase.ending.Code?
            && !PrintsLate(ls) && (LogFails(ls) ==> WorkerStops !in ls) ==>
              if w.client.cursor.None? then all == disk
              else
                && w.client.cursor.value == |all|
                && w.client.epochs != []
                && var last := w.client.epochs[|w.client.epochs| - 1];
                   last.start <= |all| && last.bytes == all[last.start..]
  {
    var w0 := InitialWorld(config, disk, rows, timestampsOpen);
    InitialWorldInv(config, disk, rows, timestampsOpen);
    RunKeepsWorld(w0, ls);
    SessionIsExact(config, disk, rows, timestampsOpen, ls);
    var w := Run(w0, ls);
    hide Run, Inv, LinkInv, SmallChunks, EnabledRun, PrintsLate, LogFails, PrintedBy;
    if w.client.cursor.Some? {
      assert w.client.epochs[|w.client.epochs| - 1] in w.client.epochs;
    }
  }

  /** The code that a client is told is the one of the exit that the worker announced, or of
      the status that a worker which is gone has left. If the command has reported a code or
      died from a signal, that is the same. */
  lemma TheCodeIsKnown(config: Config, disk: seq<byte>, rows: seq<Row>, timestampsOpen: bool, ls: seq<Label>)
    requires |disk| < U64_MODULUS
    requires EnabledRun(InitialWorld(config, disk, rows, timestampsOpen), ls)
    ensures var w := Run(InitialWorld(config, disk, rows, timestampsOpen), ls);
            w.client.phase.Over? && w.client.phase.ending.Code? ==>
              var code := w.client.phase.ending.code;
              && w.status.Some? && IsKnown(w, code)
              && (w.exit.Some? && (w.exit.value.code.Some? || w.exit.value.signaled) ==>
                    code == ToldCode(w.exit) == RecordedCode(w.status))
  {
    var w0 := InitialWorld(config, disk, rows, timestampsOpen);
    InitialWorldInv(config, disk, rows, timestampsOpen);
    RunKeepsWorld(w0, ls);
    var w := Run(w0, ls);
    assert w.exit.Some? ==> Records(w.status, w.exit.value);
    hide Run, Inv, LinkInv, SmallChunks, ClientInv, EnabledRun;
    if w.exit.Some? {
      LiveCode(w.exit);
      CodesAgreeIff(w.exit, false);
      CodesAgreeIff(w.exit, true);
    }
  }
}
