/**
 What losses cost a remote client: nothing but time. A client that is to reconnect fails
 only for a few reasons, goes on where it was after every other loss, and can always catch
 up with a session that lives.
 */
module Recovery {
  import opened Bytes
  import opened Frames
  import opened OutputHubs
  import opened ExitCodes
  import opened AttachStreams
  import opened Bridges
  import opened RemoteClients
  import opened Protocol

  // ---------------------------------------------------------------- why a client fails

  /** The client reads an error from the session it is attached to. */
  predicate ReadsError(w: World, l: Label)
    requires Enabled(w, l)
  {
    && l.ClientReads? && w.client.phase.Attached?
    && ReadOne(w.link.wire).Got? && ReadOne(w.link.wire).frame.tag == S_ERROR
  }

  /** The connection is lost: it ends, or is given up, or the session cannot be reached. */
  predicate Loses(w: World, l: Label)
    requires Enabled(w, l)
  {
    || l.ClientGivesUp?
    || (&& l.ClientReads?
        && (|| !ReadOne(w.link.wire).Got?
            || (w.client.phase.Handshake? && ReadOne(w.link.wire).frame.tag == S_ERROR)))
  }

  /** A loss is survived by a client that reconnects and has once been READY. */
  predicate Survives(w: World) { w.config.reconnect && w.client.established }

  predicate HasFailed(w: World) { w.client.phase == Over(Failed) }

  /** A client fails in a step if and only if the request cannot be sent, or it reads an
      error from the session, or it loses a connection and does not survive that. */
  lemma FailsIff(w: World, l: Label)
    requires WorldInv(w) && Enabled(w, l) && !w.client.phase.Over?
    ensures HasFailed(Next(w, l)) <==> l.DialFails? || ReadsError(w, l) || (Loses(w, l) && !Survives(w))
  {
    if l.ClientReads? {
      FirstFrameOfLink(w);
      if ReadOne(w.link.wire).Got? {
        AfterRead(w);
        hide ReadOne, OnFrame, WorldInv;
      } else {
        hide WorldInv, ReadOne;
        LossFails(w);
      }
    } else if l.ClientGivesUp? {
      LossFails(w);
    } else {
      hide WorldInv, Accept, Serve, Replay, EncodeAll, Hub.Next;
    }
  }

  /** A client is told a code, or leaves, in a step if and only if it reads EXIT; or it reads
      DETACHED, or its user detaches. */
  lemma EndsIff(w: World, l: Label)
    requires WorldInv(w) && Enabled(w, l) && !w.client.phase.Over?
    ensures var next := Next(w, l).client.phase;
            var attached := l.ClientReads? && w.client.phase.Attached? && ReadOne(w.link.wire).Got?;
            && (next.Over? && next.ending.Code? <==> attached && ReadOne(w.link.wire).frame.tag == S_EXIT)
            && (next == Over(Left)
                <==> l.UserDetaches? || (attached && ReadOne(w.link.wire).frame.tag == S_DETACHED))
  {
    if l.ClientReads? {
      FirstFrameOfLink(w);
      if ReadOne(w.link.wire).Got? {
        AfterRead(w);
        ReadEnds(w.client, w.config, ReadOne(w.link.wire).frame);
        hide ReadOne, OnFrame, WorldInv;
      } else {
        hide WorldInv, ReadOne;
        LossFails(w);
      }
    } else if l.ClientGivesUp? {
      LossFails(w);
    } else {
      hide WorldInv, Accept, Serve, Replay, EncodeAll, Hub.Next;
    }
  }

  lemma ReadEnds(c: Client, config: Config, f: Frame)
    requires !c.phase.Over?
    ensures var next := OnFrame(c, config, f).phase;
            && (next.Over? && next.ending.Code? <==> c.phase.Attached? && f.tag == S_EXIT)
            && (next == Over(Left) <==> c.phase.Attached? && f.tag == S_DETACHED)
  {
    hide ParseExit, OffsetFrameProgress, OffsetOf, Emit;
  }

  lemma LossFails(w: World)
    requires WorldInv(w) && Reading(w)
    ensures OnLoss(w.client, w.config, w.client.phase.Attached?).phase == if Survives(w) then Idle else Over(Failed)
    ensures OnLoss(w.client, w.config, w.client.phase.Attached?)
         == if Survives(w) then w.client.(phase := Idle, cursor := if w.client.visual then None else w.client.cursor)
            else w.client.(phase := Over(Failed))
  {
    assert w.client.resumable;
    hide Inv, SmallChunks, LinkInv;
  }

  /** The client after reading a whole frame. */
  lemma AfterRead(w: World)
    requires WorldInv(w) && Enabled(w, ClientReads) && ReadOne(w.link.wire).Got?
    ensures var f := ReadOne(w.link.wire).frame;
            var c := OnFrame(w.client, w.config, f);
            && Next(w, ClientReads).client == c
            && (w.client.phase.Handshake? ==>
                  && (f.tag == S_READY || f.tag == S_ERROR)
                  && c.phase == if f.tag == S_READY then Attached else if Survives(w) then Idle else Over(Failed))
            && (w.client.phase.Attached? ==>
                  if f.tag == S_ERROR then c.phase == Over(Failed)
                  else c.phase == Attached || (c.phase.Over? && !c.phase.ending.Failed?))
  {
    FirstFrameOfLink(w);
    assert w.client.resumable && |w.audit.history| < U64_MODULUS;
    var f := w.link.sent[0];
    hide ReadOne, Inv, SmallChunks, Stream, StreamEnd, EncodeAll, EndpointInv, TellsKnown, ParseExit, Faithful;
    if w.client.phase.Attached? && Continues(f, w.client.cursor, w.audit.history) {
      OutputAdvances(w.client, w.config, f, w.audit.history);
      hide OnFrame, Continues;
    } else {
      hide Continues, OffsetOf, Emit;
    }
  }

  /** After a loss that it survives, the client is where it was: it is about to connect
      again, with its cursor, unless the screen is to be redrawn. */
  lemma PlaceIsKept(w: World, l: Label)
    requires WorldInv(w) && Enabled(w, l) && Loses(w, l) && Survives(w)
    ensures var c := Next(w, l).client;
            && c == w.client.(phase := Idle, cursor := if w.client.visual then None else w.client.cursor)
            && Next(w, l).link == Down
  {
    LossFails(w);
    if l.ClientReads? && ReadOne(w.link.wire).Got? {
      HandshakeErrorLoses(w);
    }
    hide WorldInv, ReadOne, OnLoss;
  }

  /** A connection is refused at once if the session cannot be looked up, or if its worker is
      gone and has left no status. The client reads that as a loss. */
  lemma RefusedIsLost(w: World, metaReadable: bool, tty: bool)
    requires WorldInv(w) && w.client.phase.Idle? && (!metaReadable || (w.workerGone && w.status.None?))
    ensures EnabledRun(w, [ClientConnects(metaReadable, tty), ClientReads])
    ensures Protocol.Run(w, [ClientConnects(metaReadable, tty), ClientReads]).client
         == if Survives(w) then w.client.(cursor := if w.client.visual then None else w.client.cursor)
            else w.client.(phase := Over(Failed))
  {
    var l := ClientConnects(metaReadable, tty);
    RefusedAtOnce(w, metaReadable, tty);
    assert [l] + [ClientReads] == [l, ClientReads];
    var w1 := Next(w, l);
    hide *;
    ConnectKeepsWorld(w, metaReadable, tty);
    RunOne(w, l);
    ReadFirst(w1);
    ErrorIsRead(w1);
    Extend(w, [l], ClientReads);
  }

  lemma RefusedAtOnce(w: World, metaReadable: bool, tty: bool)
    requires WorldInv(w) && w.client.phase.Idle? && (!metaReadable || (w.workerGone && w.status.None?))
    ensures var l := ClientConnects(metaReadable, tty);
            && Enabled(w, l)
            && Next(w, l) == w.(client := w.client.(phase := Handshake), link := Next(w, l).link)
            && Next(w, l).link.Up? && Next(w, l).link.sent == [ERROR_FRAME]
            && Next(w, l).link.wire == EncodeAll([ERROR_FRAME])
  {
    assert AllFit([ERROR_FRAME]);
    hide WorldInv, EncodeAll;
  }

  lemma ErrorIsRead(w: World)
    requires WorldInv(w) && Enabled(w, ClientReads) && w.client.phase.Handshake? && ReadOne(w.link.wire).Got?
    requires ReadOne(w.link.wire).frame == ERROR_FRAME
    ensures Next(w, ClientReads).client
         == if Survives(w) then w.client.(phase := Idle, cursor := if w.client.visual then None else w.client.cursor)
            else w.client.(phase := Over(Failed))
  {
    HandshakeErrorLoses(w);
    LossFails(w);
    hide WorldInv, ReadOne, OnLoss, OnFrame;
  }

  lemma HandshakeErrorLoses(w: World)
    requires WorldInv(w) && Enabled(w, ClientReads) && ReadOne(w.link.wire).Got?
    requires w.client.phase.Handshake? && ReadOne(w.link.wire).frame.tag == S_ERROR
    ensures OnFrame(w.client, w.config, ReadOne(w.link.wire).frame) == OnLoss(w.client, w.config, false)
    ensures OnLoss(w.client, w.config, false) == OnLoss(w.client, w.config, w.client.phase.Attached?)
  {
    assert w.client.resumable;
    hide WorldInv, ReadOne;
  }

  /** Nothing in a run makes a client fail that survives its losses. */
  predicate Spares(w: World, ls: seq<Label>)
    requires EnabledRun(w, ls)
    decreases |ls|
  {
    ls == [] || (!ls[0].DialFails? && !ReadsError(w, ls[0]) && Spares(Next(w, ls[0]), ls[1..]))
  }

  lemma {:induction false} SparedRun(w: World, ls: seq<Label>)
    requires WorldInv(w) && EnabledRun(w, ls) && Spares(w, ls) && w.config.reconnect
    requires HasFailed(w) ==> !w.client.established
    ensures HasFailed(Protocol.Run(w, ls)) ==> !Protocol.Run(w, ls).client.established
    decreases |ls|
  {
    if ls != [] {
      hide WorldInv, Enabled, Next, ReadsError;
      var next := Next(w, ls[0]);
      StepKeepsWorld(w, ls[0]);
      StepSpared(w, ls[0]);
      SparedRun(next, ls[1..]);
    }
  }

  lemma StepSpared(w: World, l: Label)
    requires WorldInv(w) && Enabled(w, l) && !l.DialFails? && !ReadsError(w, l) && w.config.reconnect
    requires HasFailed(w) ==> !w.client.established
    ensures Next(w, l).config == w.config
    ensures HasFailed(Next(w, l)) ==> !Next(w, l).client.established
  {
    if w.client.phase.Over? {
      OverStays(w, l);
    } else {
      FailsIff(w, l);
      if Loses(w, l) && !Survives(w) {
        FailedUnestablished(w, l);
      }
    }
    hide WorldInv, ReadOne, OnFrame, OnLoss, Accept, Serve, Replay, EncodeAll, Hub.Next;
  }

  lemma OverStays(w: World, l: Label)
    requires WorldInv(w) && Enabled(w, l) && w.client.phase.Over?
    ensures Next(w, l).client == w.client
  {
    hide Inv, SmallChunks, LinkInv, ReadOne, OnFrame, Accept, Serve, Replay, EncodeAll, Hub.Next;
  }

  lemma FailedUnestablished(w: World, l: Label)
    requires WorldInv(w) && Enabled(w, l) && Loses(w, l) && !Survives(w)
    ensures Next(w, l).client.established == w.client.established
  {
    LossFails(w);
    if l.ClientReads? && ReadOne(w.link.wire).Got? {
      HandshakeErrorLoses(w);
    }
    hide WorldInv, ReadOne, OnLoss;
  }

  /** A client that reconnects, has once been READY, has read no error while attached and
      could always send its request has never failed, whatever else happened in the run. */
  lemma LossesAreSurvived(config: Config, disk: seq<byte>, rows: seq<Row>, timestampsOpen: bool, ls: seq<Label>)
    requires |disk| < U64_MODULUS && config.reconnect
    requires EnabledRun(InitialWorld(config, disk, rows, timestampsOpen), ls)
    requires Spares(InitialWorld(config, disk, rows, timestampsOpen), ls)
    ensures var w := Protocol.Run(InitialWorld(config, disk, rows, timestampsOpen), ls);
            w.client.established ==> !HasFailed(w)
  {
    var w0 := InitialWorld(config, disk, rows, timestampsOpen);
    InitialWorldInv(config, disk, rows, timestampsOpen);
    assert w0.config == config && !HasFailed(w0);
    hide *;
    SparedRun(w0, ls);
  }

  // ---------------------------------------------------------------- catching up

  lemma {:induction false} RunAppend(w: World, a: seq<Label>, b: seq<Label>)
    requires EnabledRun(w, a) && EnabledRun(Protocol.Run(w, a), b)
    ensures EnabledRun(w, a + b) && Protocol.Run(w, a + b) == Protocol.Run(Protocol.Run(w, a), b)
    decreases |a|
  {
    hide Next, Enabled;
    if a == [] {
      assert a + b == b;
    } else {
      var next := Next(w, a[0]);
      assert a + b == [a[0]] + (a[1..] + b) && Protocol.Run(w, a) == Protocol.Run(next, a[1..]);
      assert Enabled(w, a[0]) && EnabledRun(next, a[1..]);
      hide *;
      RunAppend(next, a[1..], b);
      RunStarts(w, a[0], a[1..] + b);
    }
  }

  lemma RunStarts(w: World, l: Label, ls: seq<Label>)
    requires Enabled(w, l) && EnabledRun(Next(w, l), ls)
    ensures EnabledRun(w, [l] + ls) && Protocol.Run(w, [l] + ls) == Protocol.Run(Next(w, l), ls)
  {
    hide Next, Enabled;
    assert ([l] + ls)[1..] == ls;
  }

  lemma RunOne(w: World, l: Label)
    requires Enabled(w, l)
    ensures EnabledRun(w, [l]) && Protocol.Run(w, [l]) == Next(w, l)
  {
    hide Next, Enabled;
    assert [l][1..] == [];
    assert Protocol.Run(Next(w, l), []) == Next(w, l);
  }

  /** Nothing but the connection and the client have changed. */
  predicate SameSession(w: World, w': World) {
    && w'.config == w.config && w'.audit.history == w.audit.history && w'.audit.openedAt == w.audit.openedAt
    && w'.workerGone == w.workerGone && w'.exit == w.exit && w'.status == w.status
    && w'.hub.disk == w.hub.disk && w'.hub.logError == w.hub.logError
  }

  /** The client has read all that was sent to it, and the worker has more to do for it, or
      waits for output. */
  predicate Streaming(w: World) {
    && WorldInv(w) && w.client.phase.Attached?
    && w.link.Up? && w.link.live && w.link.sent == [] && w.link.wire == []
    && w.link.endpoint.Connected? && !w.link.endpoint.server.Finished?
    && Queue(w.hub, w.link.endpoint.server.id) == []
  }

  lemma ReadFirst(w: World)
    requires WorldInv(w) && w.link.Up? && w.link.sent != [] && w.link.wire == EncodeAll(w.link.sent)
    ensures Enabled(w, ClientReads) && ReadOne(w.link.wire) == Got(w.link.sent[0], EncodeAll(w.link.sent[1..]))
    ensures Next(w, ClientReads)
         == WithClient(w, w.link.(wire := EncodeAll(w.link.sent[1..]), sent := w.link.sent[1..]),
                       OnFrame(w.client, w.config, w.link.sent[0]))
  {
    assert AllFit(w.link.sent) && Reading(w);
    hide WorldInv, ReadOne, AllFit, OnFrame, Encode;
    ReadOneOfStream(w.link.sent, w.link.wire);
    assert EncodeAll(w.link.sent) == Encode(w.link.sent[0]) + EncodeAll(w.link.sent[1..]);
  }

  lemma ReadReady(w: World)
    requires WorldInv(w) && w.link.Up? && w.link.sent != [] && w.link.wire == EncodeAll(w.link.sent)
    requires w.link.sent[0].tag == S_READY
    ensures Enabled(w, ClientReads) && WorldInv(Next(w, ClientReads))
    ensures var c := if w.client.phase.Attached? then w.client
                     else w.client.(phase := Attached, established := true,
                                    visual := w.config.localTty && ReadyUsesTty(w.link.sent[0].payload));
            Next(w, ClientReads)
            == w.(client := c, link := w.link.(wire := EncodeAll(w.link.sent[1..]), sent := w.link.sent[1..]))
  {
    ReadFirst(w);
    assert Reading(w);
    ReadKeepsWorld(w);
    hide WorldInv, ReadOne, EncodeAll, Enabled, Next;
  }

  lemma ReadOutput(w: World)
    requires WorldInv(w) && w.link.Up? && w.client.phase.Attached?
    requires w.link.sent != [] && w.link.wire == EncodeAll(w.link.sent)
    requires Continues(w.link.sent[0], w.client.cursor, w.audit.history)
    ensures Enabled(w, ClientReads) && WorldInv(Next(w, ClientReads))
    ensures var w' := Next(w, ClientReads);
            && w'.client.phase.Attached? && w'.client.cursor == Position(w.link.sent[0], w.client.cursor)
            && w'.client.visual == w.client.visual
            && w' == w.(client := w'.client,
                        link := w.link.(wire := EncodeAll(w.link.sent[1..]), sent := w.link.sent[1..]))
  {
    ReadFirst(w);
    ReadKeepsWorld(w);
    assert |w.audit.history| < U64_MODULUS && ClientInv(w.client, w.config, w.audit.history);
    OutputAdvances(w.client, w.config, w.link.sent[0], w.audit.history);
    OutputKeepsVisual(w.client, w.config, w.link.sent[0], w.audit.history);
    hide WorldInv, ReadOne, EncodeAll, Enabled, Next, OnFrame, Continues, Position, ClientInv;
  }

  lemma OutputKeepsVisual(c: Client, config: Config, f: Frame, history: seq<byte>)
    requires ClientInv(c, config, history) && c.phase.Attached? && Continues(f, c.cursor, history)
    requires |history| < U64_MODULUS
    ensures OnFrame(c, config, f).visual == c.visual
  {
    hide ClientInv, OffsetOf, Emit;
  }

  /** The worker takes up a connection. */
  lemma AcceptSubscribes(h: Hub, a: Audit, since: Option<nat>, exited: bool)
    requires Inv(h, a) && !h.logError && (since.Some? ==> since.value <= |a.history|)
    ensures var t := Accept(h, since, exited);
            && !t.server.Finished? && t.frames == [READY_FRAME] && Queue(t.hub, t.server.id) == []
            && t.hub.disk == h.disk && t.hub.logError == h.logError
  {
  }

  lemma Connecting(w: World, tty: bool)
    requires WorldInv(w) && w.client.phase.Idle? && !w.workerGone
    ensures Enabled(w, ClientConnects(true, tty))
    ensures Next(w, ClientConnects(true, tty))
         == w.(client := w.client.(phase := Handshake),
               link := Up(EncodeAll([BridgeReady(tty)]), true, [BridgeReady(tty)], Dialing(w.client.cursor)))
  {
    hide WorldInv, EncodeAll;
  }

  lemma Accepting(w: World, tty: bool)
    requires WorldInv(w) && !w.hub.logError
    requires w.link == Up(EncodeAll([BridgeReady(tty)]), true, [BridgeReady(tty)], Dialing(w.client.cursor))
    ensures Enabled(w, WorkerAccepts) && WorldInv(Next(w, WorkerAccepts))
    ensures var w' := Next(w, WorkerAccepts);
            && SameSession(w, w') && w'.client == w.client && w'.link.Up? && w'.link.live
            && w'.link.sent == [BridgeReady(tty), READY_FRAME] && w'.link.wire == EncodeAll(w'.link.sent)
            && w'.link.endpoint.Connected? && !w'.link.endpoint.server.Finished?
            && Queue(w'.hub, w'.link.endpoint.server.id) == []
  {
    CursorInHistory(w.client, w.config, w.audit.history);
    var since := w.client.cursor;
    assert Inv(w.hub, w.audit) && Enabled(w, WorkerAccepts);
    assert Next(w, WorkerAccepts)
        == TakeTurn(w, Accept(w.hub, since, w.exit.Some?), NextAudit(w.hub, w.audit, DoSubscribeResumable(since)),
                    StreamStart(w.hub, since));
    OtherUseKeepsLog(w.hub, w.audit, DoSubscribeResumable(since));
    hide Inv, Next, Enabled;
    AcceptSubscribes(w.hub, w.audit, since, w.exit.Some?);
    AcceptKeepsWorld(w);
    hide WorldInv, Accept, EncodeAll, Queue, NextAudit;
    EncodeAllAppend([BridgeReady(tty)], [READY_FRAME]);
    assert [BridgeReady(tty)] + [READY_FRAME] == [BridgeReady(tty), READY_FRAME];
  }

  lemma Extend(w: World, ls: seq<Label>, l: Label)
    requires EnabledRun(w, ls) && Enabled(Protocol.Run(w, ls), l)
    ensures EnabledRun(w, ls + [l]) && Protocol.Run(w, ls + [l]) == Next(Protocol.Run(w, ls), l)
  {
    hide *;
    RunOne(Protocol.Run(w, ls), l);
    RunAppend(w, ls, [l]);
  }

  lemma NothingRuns(w: World)
    ensures EnabledRun(w, []) && Protocol.Run(w, []) == w
  {
  }

  /** A client that waits to connect is being served again after four steps. */
  lemma Reconnecting(w: World, tty: bool) returns (ls: seq<Label>)
    requires WorldInv(w) && w.client.phase.Idle? && !w.workerGone && !w.hub.logError
    ensures EnabledRun(w, ls)
    ensures var w' := Protocol.Run(w, ls);
            && Streaming(w') && SameSession(w, w')
            && w'.client.cursor == w.client.cursor && w'.client.visual == (w.config.localTty && tty)
  {
    NothingRuns(w);
    Connecting(w, tty);
    ls := [ClientConnects(true, tty)];
    assert [] + [ClientConnects(true, tty)] == ls;
    Extend(w, [], ClientConnects(true, tty));
    var w1 := Protocol.Run(w, ls);
    ConnectKeepsWorld(w, true, tty);
    Accepting(w1, tty);
    Extend(w, ls, WorkerAccepts);
    ls := ls + [WorkerAccepts];
    var w2 := Protocol.Run(w, ls);
    assert w2.link.sent[0].tag == S_READY && w2.link.sent[1..] == [READY_FRAME];
    hide Protocol.Run, EnabledRun, Next, Enabled, EncodeAll, WorldInv, Queue;
    ReadReady(w2);
    Extend(w, ls, ClientReads);
    ls := ls + [ClientReads];
    var w3 := Protocol.Run(w, ls);
    assert w3.link.sent[1..] == [];
    ReadReady(w3);
    Extend(w, ls, ClientReads);
    ls := ls + [ClientReads];
    NothingEncoded();
  }

  lemma NothingEncoded()
    ensures EncodeAll([]) == []
  {
  }

  /** One piece of the log, sent and read. */
  lemma ReplayingOne(w: World) returns (ls: seq<Label>)
    requires Streaming(w) && w.link.endpoint.server.Replaying?
    ensures EnabledRun(w, ls)
    ensures var w' := Protocol.Run(w, ls);
            && Streaming(w') && SameSession(w, w') && w'.client.visual == w.client.visual
            && var (s, s') := (w.link.endpoint.server, w'.link.endpoint.server);
               if s'.Replaying? then s'.end == s.end && s.offset < s'.offset else s'.Serving? && s'.pending.None?
  {
    var s := w.link.endpoint.server;
    var l := WorkerReplays(Some(REPLAY_BUFFER));
    ReplaySteps(w);
    ReplayKeepsWorld(w, Some(REPLAY_BUFFER));
    NothingRuns(w);
    assert [] + [l] == [l];
    Extend(w, [], l);
    var w1 := Next(w, l);
    hide Protocol.Run, EnabledRun, Next, Enabled, EncodeAll, WorldInv, Queue;
    ReadOutput(w1);
    Extend(w, [l], ClientReads);
    ls := [l] + [ClientReads];
    assert w1.link.sent[1..] == [];
    NothingEncoded();
  }

  lemma ReplaySteps(w: World)
    requires Streaming(w) && w.link.endpoint.server.Replaying?
    ensures var l := WorkerReplays(Some(REPLAY_BUFFER));
            var s := w.link.endpoint.server;
            && Enabled(w, l)
            && var w' := Next(w, l);
               && SameSession(w, w') && w'.client == w.client && w'.hub == w.hub
               && w'.link.Up? && w'.link.live && |w'.link.sent| == 1 && w'.link.wire == EncodeAll(w'.link.sent)
               && Continues(w'.link.sent[0], w.client.cursor, w.audit.history)
               && w'.link.endpoint.Connected? && !w'.link.endpoint.server.Finished?
               && w'.link.endpoint.server.id == s.id
               && var s' := w'.link.endpoint.server;
                  if s'.Replaying? then s'.end == s.end && s.offset < s'.offset else s'.Serving? && s'.pending.None?
  {
    ConnectedFacts(w);
    var s := w.link.endpoint.server;
    assert StreamEnd([], w.client.cursor) == w.client.cursor && Reached(s, w.audit) == s.offset;
    hide WorldInv, Inv, SmallChunks, ServerInv, EncodeAll, Replay, Continues;
    ReplayTurn(s, w.hub, w.audit, w.client.cursor);
    var t := Replay(s, w.hub, Some(REPLAY_BUFFER));
    assert Enabled(w, WorkerReplays(Some(REPLAY_BUFFER)))
        && Next(w, WorkerReplays(Some(REPLAY_BUFFER))) == TakeTurn(w, t, w.audit, w.link.endpoint.start);
    hide Next, Enabled;
    assert [] + EncodeAll(t.frames) == EncodeAll(t.frames) && [] + t.frames == t.frames;
  }

  lemma ReplayTurn(s: Server, h: Hub, a: Audit, cursor: Option<nat>)
    requires Inv(h, a) && s.Replaying? && ServerInv(s, h, a) && cursor in {None, Some(s.offset)}
    ensures s.offset < s.end
    ensures var t := Replay(s, h, Some(REPLAY_BUFFER));
            && t.hub == h && |t.frames| == 1 && Continues(t.frames[0], cursor, a.history)
            && !t.server.Finished? && t.server.id == s.id
            && if t.server.Replaying? then t.server.end == s.end && s.offset < t.server.offset
               else t.server.Serving? && t.server.pending.None?
  {
    assert s.offset < s.end <= |h.disk|;
    var n := ReadCount(h.disk, s.offset, s.end, Some(REPLAY_BUFFER));
    ReplayChunk(s, h, a, n, cursor);
    hide Inv, ServerInv, ReadCount, OutputFrame, Continues;
  }

  lemma SessionStays(w: World, w1: World, w2: World)
    requires SameSession(w, w1) && SameSession(w1, w2)
    ensures SameSession(w, w2)
  {
  }

  /** The whole log range, piece by piece. */
  lemma {:induction false} Replaying(w: World) returns (ls: seq<Label>)
    requires Streaming(w)
    ensures EnabledRun(w, ls)
    ensures var w' := Protocol.Run(w, ls);
            && Streaming(w') && SameSession(w, w') && w'.client.visual == w.client.visual
            && w'.link.endpoint.server.Serving?
    decreases if w.link.endpoint.server.Replaying?
              then Max(0, w.link.endpoint.server.end - w.link.endpoint.server.offset) + 1 else 0
  {
    if w.link.endpoint.server.Serving? {
      NothingRuns(w);
      ls := [];
    } else {
      RangeLeft(w);
      var first := ReplayingOne(w);
      var w1 := Protocol.Run(w, first);
      hide Protocol.Run, EnabledRun, Streaming, SameSession;
      if w1.link.endpoint.server.Replaying? {
        var rest := Replaying(w1);
        RunAppend(w, first, rest);
        SessionStays(w, w1, Protocol.Run(w1, rest));
        ls := first + rest;
      } else {
        ls := first;
      }
    }
  }

  lemma RangeLeft(w: World)
    requires Streaming(w) && w.link.endpoint.server.Replaying?
    ensures w.link.endpoint.server.offset < w.link.endpoint.server.end
  {
    ConnectedFacts(w);
  }

  /** The client has all there is: its cursor is at the end, or it has none because this
      worker has printed nothing. */
  predicate CaughtUp(w: World) { w.client.phase.Attached? && AtTheEnd(w.client.cursor, w.audit) }

  lemma NothingLeft(w: World)
    requires Streaming(w) && w.link.endpoint.server.Serving? && w.link.endpoint.server.pending.None?
    ensures CaughtUp(w)
  {
    ConnectedFacts(w);
    var s := w.link.endpoint.server;
    assert StreamEnd([], w.client.cursor) == w.client.cursor;
    assert ResumeComplete(w.audit.views[s.id], w.hub.resumeQueues[s.id], w.audit.history);
    hide WorldInv, Inv, SmallChunks;
  }

  lemma BacklogSteps(w: World)
    requires Streaming(w) && w.link.endpoint.server.Serving? && w.link.endpoint.server.pending.Some?
    ensures var l := WorkerServes(false, false);
            && Enabled(w, l)
            && var w' := Next(w, l);
               && SameSession(w, w') && w'.client == w.client
               && w'.link.Up? && w'.link.sent != [] && w'.link.wire == EncodeAll(w'.link.sent)
               && Continues(w'.link.sent[0], w.client.cursor, w.audit.history)
               && Position(w'.link.sent[0], w.client.cursor) == Some(|w.audit.history|)
  {
    ConnectedFacts(w);
    var s := w.link.endpoint.server;
    assert StreamEnd([], w.client.cursor) == w.client.cursor && Reached(s, w.audit) == s.pending.value.offset;
    hide WorldInv, Inv, SmallChunks, ServerInv, EncodeAll, Serve, Continues, Position, Queue;
    BacklogTurn(s, w.hub, w.audit, w.exit, w.client.cursor);
    var t := Serve(s, w.hub, w.exit, false, false);
    assert Enabled(w, WorkerServes(false, false))
        && Next(w, WorkerServes(false, false)) == TakeTurn(w, t, ServeAudit(s, w.hub, w.audit), w.link.endpoint.start);
    hide Next, Enabled;
    assert [] + EncodeAll(t.frames) == EncodeAll(t.frames) && [] + t.frames == t.frames;
  }

  lemma BacklogTurn(s: Server, h: Hub, a: Audit, exit: Option<ExitInfo>, cursor: Option<nat>)
    requires Inv(h, a) && s.Serving? && s.pending.Some? && ServerInv(s, h, a) && Queue(h, s.id) == []
    requires cursor in {None, Some(s.pending.value.offset)}
    ensures var t := Serve(s, h, exit, false, false);
            && t.hub == h && t.frames != [] && Continues(t.frames[0], cursor, a.history)
            && Position(t.frames[0], cursor) == Some(|a.history|)
  {
    var c := s.pending.value;
    assert ResumeComplete(a.views[s.id], h.resumeQueues[s.id], a.history);
    assert c.offset + |c.data| == |a.history| < U64_MODULUS;
    SegmentStartsBelow(c, a.history);
    OutputFrameContinues(c, cursor, a.history);
    hide Inv, ServerInv, OutputFrame, Continues, Position;
  }

  lemma SegmentStartsBelow(c: Chunk, history: seq<byte>)
    requires IsSegment(c.data, c.offset, history) && |history| < U64_MODULUS
    ensures c.offset < U64_MODULUS
  {
  }

  /** The backlog, if any, and then the client is caught up. */
  lemma ServingBacklog(w: World) returns (ls: seq<Label>)
    requires Streaming(w) && w.link.endpoint.server.Serving?
    ensures EnabledRun(w, ls)
    ensures var w' := Protocol.Run(w, ls);
            CaughtUp(w') && SameSession(w, w') && w'.client.visual == w.client.visual
  {
    NothingRuns(w);
    if w.link.endpoint.server.pending.None? {
      NothingLeft(w);
      ls := [];
    } else {
      var l := WorkerServes(false, false);
      BacklogSteps(w);
      ServeKeepsWorld(w, false, false);
      assert [] + [l] == [l];
      Extend(w, [], l);
      var w1 := Next(w, l);
      hide Protocol.Run, EnabledRun, Next, Enabled, EncodeAll, WorldInv, Queue;
      ReadOutput(w1);
      Extend(w, [l], ClientReads);
      ls := [l] + [ClientReads];
    }
  }

  /** From every state of a session that lives and whose log has not failed, a client that
      reconnects, and that is not finished, can come to have all the output, whatever has
      become of its connection: without one more byte being printed, the run goes on to where
      it is attached with its cursor at the end. */
  lemma CanCatchUp(w: World, tty: bool) returns (ls: seq<Label>)
    requires WorldInv(w) && !w.client.phase.Over? && !w.workerGone && !w.hub.logError
    requires w.client.phase.Idle? || Survives(w)
    ensures EnabledRun(w, ls)
    ensures var w' := Protocol.Run(w, ls);
            CaughtUp(w') && SameSession(w, w') && w'.client.visual == (w.config.localTty && tty)
  {
    var first := GivingUp(w);
    var w1 := Protocol.Run(w, first);
    hide Protocol.Run, EnabledRun, SameSession, Streaming, CaughtUp, WorldInv;
    var second := Reconnecting(w1, tty) by {
      SessionLives(w, w1);
    }
    var w2 := Protocol.Run(w1, second);
    var third := Replaying(w2);
    var w3 := Protocol.Run(w2, third);
    var fourth := ServingBacklog(w3);
    RunAppend(w2, third, fourth);
    RunAppend(w1, second, third + fourth);
    RunAppend(w, first, second + (third + fourth));
    SessionStays(w2, w3, Protocol.Run(w3, fourth));
    SessionStays(w1, w2, Protocol.Run(w3, fourth));
    SessionStays(w, w1, Protocol.Run(w3, fourth));
    SessionLives(w, w1);
    ls := first + (second + (third + fourth));
  }

  lemma SessionLives(w: World, w': World)
    requires SameSession(w, w')
    ensures w'.workerGone == w.workerGone && w'.hub.logError == w.hub.logError && w'.config == w.config
  {
  }

  lemma GivingUp(w: World) returns (ls: seq<Label>)
    requires WorldInv(w) && !w.client.phase.Over? && (w.client.phase.Idle? || Survives(w))
    ensures EnabledRun(w, ls)
    ensures var w' := Protocol.Run(w, ls);
            WorldInv(w') && SameSession(w, w') && w'.client.phase.Idle?
  {
    NothingRuns(w);
    if w.client.phase.Idle? {
      ls := [];
    } else {
      assert [] + [ClientGivesUp] == [ClientGivesUp] && Reading(w) && Enabled(w, ClientGivesUp);
      LossFails(w);
      LossKeepsWorld(w, w.client.phase.Attached?);
      hide Protocol.Run, EnabledRun, WorldInv, OnLoss;
      Extend(w, [], ClientGivesUp);
      ls := [ClientGivesUp];
    }
  }

  /** In particular at any time of any run from the opening. */
  lemma EveryClientCanCatchUp(config: Config, disk: seq<byte>, rows: seq<Row>, timestampsOpen: bool, ls: seq<Label>,
                              tty: bool) returns (more: seq<Label>)
    requires |disk| < U64_MODULUS && config.reconnect
    requires EnabledRun(InitialWorld(config, disk, rows, timestampsOpen), ls)
    requires var w := Protocol.Run(InitialWorld(config, disk, rows, timestampsOpen), ls);
             && !w.client.phase.Over? && !w.workerGone && !w.hub.logError
             && (w.client.phase.Idle? || w.client.established)
    ensures var w0 := InitialWorld(config, disk, rows, timestampsOpen);
            && EnabledRun(w0, ls + more) && CaughtUp(Protocol.Run(w0, ls + more))
            && Protocol.Run(w0, ls + more).audit.history == Protocol.Run(w0, ls).audit.history
  {
    var w0 := InitialWorld(config, disk, rows, timestampsOpen);
    InitialWorldInv(config, disk, rows, timestampsOpen);
    ConfigStays(w0, ls);
    assert w0.config == config;
    hide Protocol.Run, EnabledRun, CaughtUp, WorldInv;
    RunKeepsWorld(w0, ls);
    more := CanCatchUp(Protocol.Run(w0, ls), tty);
    RunAppend(w0, ls, more);
  }

  // ---------------------------------------------------------------- after the worker has gone

  /** The client was told the recorded code, and has all there is. */
  predicate ToldAll(w: World) {
    && w.status.Some? && w.client.phase == Over(Code(RecordedCode(w.status)))
    && AtTheEnd(w.client.cursor, w.audit)
  }

  /** What the disk answers, with its last frame apart. */
  lemma DiskFrames(w: World, tty: bool)
    requires WorldInv(w) && w.workerGone && w.status.Some? && !w.hub.logError
    ensures var fs := Answer(w, true, tty);
            var body := if |fs| == 3 then [fs[1]] else [];
            && 2 <= |fs| <= 3 && fs == [BridgeReady(tty)] + body + [fs[|fs| - 1]]
            && fs[|fs| - 1].tag == S_EXIT && ParseExit(fs[|fs| - 1].payload) == RecordedCode(w.status)
            && (|fs| == 3 ==> fs[1].tag == S_OUTPUT_OFFSET && |fs[1].payload| >= 8
                              && Position(fs[1], w.client.cursor) == Some(|w.audit.history|))
            && (|fs| == 2 ==> AtTheEnd(w.client.cursor, w.audit))
  {
    var disk, since := w.hub.disk, w.client.cursor;
    CursorInHistory(w.client, w.config, w.audit.history);
    DiskHoldsHistory(w.hub, w.audit);
    assert w.audit.openedAt <= |w.audit.history|;
    assert Answer(w, true, tty) == BridgeFrames(disk, since, tty, w.status.value);
    hide WorldInv, Answer, BridgeFrames;
    FramesFromDisk(disk, since, tty, w.status.value);
  }

  lemma FramesFromDisk(disk: seq<byte>, since: Option<nat>, tty: bool, status: Status)
    requires |disk| < U64_MODULUS && BridgeStart(disk, since) <= |disk|
    ensures var fs := BridgeFrames(disk, since, tty, status);
            var body := if |fs| == 3 then [fs[1]] else [];
            && 2 <= |fs| <= 3 && fs == [BridgeReady(tty)] + body + [fs[|fs| - 1]]
            && fs[|fs| - 1].tag == S_EXIT && ParseExit(fs[|fs| - 1].payload) == RecordedCode(Some(status))
            && (|fs| == 3 ==>
                  fs[1].tag == S_OUTPUT_OFFSET && |fs[1].payload| >= 8 && Position(fs[1], since) == Some(|disk|))
            && (|fs| == 2 <==> BridgeStart(disk, since) == |disk|)
  {
    ExitFrameTells(Some(BridgedInfo(status)));
    var start := BridgeStart(disk, since);
    if start < |disk| {
      LastOutput(disk, start, since);
    }
    hide ParseExit, ExitPayload, OutputFrame, Position, BridgeReady;
  }

  lemma LastOutput(disk: seq<byte>, start: nat, pos: Option<nat>)
    requires start < |disk| < U64_MODULUS
    ensures var f := OutputFrame(Chunk(start, disk[start..]));
            f.tag == S_OUTPUT_OFFSET && |f.payload| >= 8 && Position(f, pos) == Some(|disk|)
  {
    var c := Chunk(start, disk[start..]);
    assert c.data == disk[start..start + |c.data|];
    OutputFrameContinues(c, None, disk);
    hide OutputFrame;
  }

  lemma ReadExit(w: World)
    requires WorldInv(w) && w.link.Up? && w.client.phase.Attached?
    requires |w.link.sent| == 1 && w.link.wire == EncodeAll(w.link.sent) && w.link.sent[0].tag == S_EXIT
    ensures Enabled(w, ClientReads) && SameSession(w, Next(w, ClientReads))
    ensures Next(w, ClientReads).client == w.client.(phase := Over(Code(ParseExit(w.link.sent[0].payload))))
  {
    ReadFirst(w);
    hide WorldInv, ReadOne, EncodeAll, Enabled, Next, ParseExit;
  }

  lemma Asking(w: World, tty: bool)
    requires WorldInv(w) && w.client.phase.Idle? && w.workerGone && AllFit(Answer(w, true, tty))
    ensures var l, fs := ClientConnects(true, tty), Answer(w, true, tty);
            && Enabled(w, l) && WorldInv(Next(w, l))
            && Next(w, l) == w.(client := w.client.(phase := Handshake), link := Up(EncodeAll(fs), false, fs, CLOSED))
  {
    ConnectKeepsWorld(w, true, tty);
    hide WorldInv, EncodeAll, Answer;
  }

  /** When the worker is gone and has left a status, and the log is whole, a client that
      reconnects comes to be told the recorded code with all the output, if the rest of the
      log fits into a frame. */
  lemma CanFinish(w: World, tty: bool) returns (ls: seq<Label>)
    requires WorldInv(w) && !w.client.phase.Over? && (w.client.phase.Idle? || Survives(w))
    requires w.workerGone && w.status.Some? && !w.hub.logError
    requires |w.hub.disk| + 8 < U32_MODULUS
    ensures EnabledRun(w, ls) && ToldAll(Protocol.Run(w, ls)) && SameSession(w, Protocol.Run(w, ls))
  {
    ls := GivingUp(w);
    var w1 := Protocol.Run(w, ls);
    AnswerFits(w1, tty);
    DiskFrames(w1, tty);
    Asking(w1, tty);
    var l := ClientConnects(true, tty);
    Extend(w, ls, l);
    ls := ls + [l];
    var w2 := Protocol.Run(w, ls);
    var fs := w2.link.sent;
    hide Protocol.Run, EnabledRun, Next, Enabled, EncodeAll, WorldInv, Answer, AllFit, ParseExit;
    ReadReady(w2);
    Extend(w, ls, ClientReads);
    ls := ls + [ClientReads];
    var w3 := Protocol.Run(w, ls);
    if |fs| == 3 {
      SecondContinues(w3);
      ReadOutput(w3);
      Extend(w, ls, ClientReads);
      ls := ls + [ClientReads];
    }
    var w4 := Protocol.Run(w, ls);
    assert w4.link.sent == [fs[|fs| - 1]];
    ReadExit(w4);
    Extend(w, ls, ClientReads);
    ls := ls + [ClientReads];
  }

  lemma SecondContinues(w: World)
    requires WorldInv(w) && w.link.Up? && w.link.sent != []
    requires w.link.sent[0].tag == S_OUTPUT_OFFSET
    ensures Continues(w.link.sent[0], w.client.cursor, w.audit.history)
  {
    hide Inv, SmallChunks, Continues, EndpointInv, ClientInv;
  }

  lemma AnswerFits(w: World, tty: bool)
    requires WorldInv(w) && w.workerGone && w.status.Some? && |w.hub.disk| + 8 < U32_MODULUS
    ensures AllFit(Answer(w, true, tty))
  {
    ExitFrameIsSmall(BridgedInfo(w.status.value));
    hide WorldInv, ExitFrame;
  }
}
