/**
 The remote bridge after the worker has gone: what an attach request is answered from the
 log and the status file alone, and how that compares with what the worker would send.
 */
module Bridges {
  import opened Bytes
  import opened Frames
  import opened OutputHubs
  import opened ExitCodes
  import opened AttachStreams

  /** The bridge reports itself ready, and whether the session runs in a terminal. */
  function BridgeReady(tty: bool): Frame { Frame(S_READY, [if tty then 1 else 0]) }

  function BridgeStart(disk: seq<byte>, since: Option<nat>): nat {
    if since.Some? then since.value else Max(0, |disk| - 0x10_0000)
  }

  /** Everything from the start offset goes out as one frame. */
  function BridgeFrames(disk: seq<byte>, since: Option<nat>, tty: bool, status: Status): seq<Frame> {
    var start := BridgeStart(disk, since);
    if start > |disk| then [BridgeReady(tty), ERROR_FRAME]
    else
      [BridgeReady(tty)]
      + (if start < |disk| then [OutputFrame(Chunk(start, disk[start..]))] else [])
      + [ExitFrame(BridgedInfo(status))]
  }

  /** The bridge's stream carries the log from its start offset to its end, then EXIT, which
      tells the recorded code. */
  lemma BridgeStream(disk: seq<byte>, since: Option<nat>, tty: bool, status: Status, pos: Option<nat>)
    requires |disk| < U64_MODULUS && BridgeStart(disk, since) <= |disk|
    requires pos == None || pos == Some(BridgeStart(disk, since))
    ensures var fs := BridgeFrames(disk, since, tty, status);
            var start := BridgeStart(disk, since);
            && Stream(fs, pos, disk) && EndsWithExit(fs)
            && Or(StreamEnd(fs, pos), |disk|) == |disk|
            && (StreamEnd(fs, pos) == None ==> start == |disk|)
            && Output(fs) == disk[start..]
            && fs[0] == BridgeReady(tty)
            && Tells(fs, CodeOr(status.exitCode, if status.state == Killed then 130 else 0))
            && (AllFit(fs) <==> start == |disk| || 8 + |disk| - start < U32_MODULUS)
  {
    ExitFrameTells(Some(BridgedInfo(status)));
    hide ExitPayload, ParseExit;
    var start := BridgeStart(disk, since);
    var fs := BridgeFrames(disk, since, tty, status);
    var exit := ExitFrame(BridgedInfo(status));
    ExitFrameIsSmall(BridgedInfo(status));
    if start < |disk| {
      var f := OutputFrame(Chunk(start, disk[start..]));
      OutputFrameContinues(Chunk(start, disk[start..]), pos, disk);
      assert f.payload[8..] == disk[start..];
      LastFrame(exit, Some(|disk|), disk);
      FirstFrame(f, [exit], pos, disk);
      FirstFrame(BridgeReady(tty), [f] + [exit], pos, disk);
      assert fs == [BridgeReady(tty)] + ([f] + [exit]);
      assert f in fs && (Fits(f) <==> 8 + |disk| - start < U32_MODULUS);
    } else {
      LastFrame(exit, pos, disk);
      FirstFrame(BridgeReady(tty), [exit], pos, disk);
      assert fs == [BridgeReady(tty)] + [exit];
    }
  }

  /** The bridge is ready first, and says whether the session has a terminal. It answers with
      an error if and only if it is asked for bytes beyond the end of the log, and then with
      nothing else. */
  lemma BridgeRefusesIff(disk: seq<byte>, since: Option<nat>, tty: bool, status: Status)
    ensures var fs, refused := BridgeFrames(disk, since, tty, status), since.Some? && since.value > |disk|;
            && fs != [] && fs[0].tag == S_READY && fs[0].payload == (if tty then [1] else [0])
            && (fs[|fs| - 1] == ERROR_FRAME <==> refused)
            && (refused ==> fs == [fs[0], ERROR_FRAME])
            && (forall k | 0 <= k < |fs| - 1 :: fs[k].tag != S_ERROR)
  {
    hide ExitPayload, OutputFrame;
    assert forall c :: OutputFrame(c).tag == S_OUTPUT_OFFSET by {
      OutputFramesAreOutput();
    }
  }

  lemma OutputFramesAreOutput()
    ensures forall c :: OutputFrame(c).tag == S_OUTPUT_OFFSET
  {
  }

  lemma LastFrame(f: Frame, pos: Option<nat>, history: seq<byte>)
    requires IsEnd(f)
    ensures Stream([f], pos, history) && StreamEnd([f], pos) == pos && Output([f]) == []
  {
    StreamOfOne(f, pos, history);
    assert [f][1..] == [];
  }

  lemma FirstFrame(f: Frame, fs: seq<Frame>, pos: Option<nat>, history: seq<byte>)
    requires (f.tag == S_READY || Continues(f, pos, history)) && Stream(fs, Position(f, pos), history)
    ensures Stream([f] + fs, pos, history) && StreamEnd([f] + fs, pos) == StreamEnd(fs, Position(f, pos))
    ensures Output([f] + fs) == (if f.tag == S_READY then [] else f.payload[8..]) + Output(fs)
  {
    assert ([f] + fs)[1..] == fs;
  }

  lemma ExitFrameIsSmall(info: ExitInfo)
    ensures |ExitFrame(info).payload| == 5 && Fits(ExitFrame(info))
  {
  }

  /** With a log that has not failed, the bridge and the worker start a stream at the same
      offset exactly when it is resumed, or when the log was still shorter than what the
      bridge skips at the time this worker opened it; a log that was empty then qualifies. */
  lemma StartsAgreeIff(h: Hub, a: Audit, since: Option<nat>)
    requires Inv(h, a) && !h.logError
    ensures BridgeStart(h.disk, since) == StreamStart(h, since)
       <==> since.Some? || a.openedAt <= Max(0, |a.history| - BACKLOG_CAP)
  {
  }

  /** A fresh worker on a log of three bytes sends a fresh client nothing of them; the
      bridge sends all three. A log is not empty at that time only if a session directory is
      used again, which an id given by the user never does: only an internal option does, or
      two runs that race for the same id. */
  lemma StartsCanDisagree()
    ensures var h := OpenHub([97, 98, 99], [], false);
            BridgeStart(h.disk, None) == 0 && StreamStart(h, None) == 3
  {
  }

  /** The bridge's answer is read back as it was sent exactly when it is shorter than 2^32
      bytes, offset included, or empty. */
  lemma BridgeReadsBackIff(disk: seq<byte>, since: Option<nat>, tty: bool, status: Status)
    requires |disk| < U64_MODULUS
    ensures var start := BridgeStart(disk, since);
            ReadAll(EncodeAll(BridgeFrames(disk, since, tty, status))) == BridgeFrames(disk, since, tty, status)
            <==> start >= |disk| || 8 + |disk| - start < U32_MODULUS
  {
    StreamReadsBackIff(BridgeFrames(disk, since, tty, status));
    hide ReadAll, EncodeAll;
    if BridgeStart(disk, since) <= |disk| {
      BridgeStream(disk, since, tty, status, None);
    }
  }

  /** For instance, a log of 2^32 bytes does not reach a client that resumes at its start. */
  lemma LongLogIsLost(tty: bool, status: Status)
    ensures var disk := seq(U32_MODULUS, _ => 0);
            var fs := BridgeFrames(disk, Some(0), tty, status);
            !AllFit(fs) && ReadAll(EncodeAll(fs)) != fs
  {
    var disk := seq(U32_MODULUS, _ => 0);
    BridgeReadsBackIff(disk, Some(0), tty, status);
    StreamReadsBackIff(BridgeFrames(disk, Some(0), tty, status));
  }

  /** For a session whose output has stopped, a client served from disk receives exactly
      the bytes, from exactly the offset, that it would have received from the worker,
      for a fresh attach and for every valid resume offset. */
  lemma FinishedReplayMatchesLive(h: Hub, a: Audit, since: Option<nat>, exited: bool, sizes: nat -> Option<nat>,
                                  turns: seq<Surroundings>, tty: bool, status: Status)
    requires Inv(h, a) && SmallChunks(h) && !h.logError
    requires since.Some? || a.openedAt <= Max(0, |a.history| - BACKLOG_CAP)
    requires since.Some? ==> since.value <= |a.history|
    requires Quiet(turns) && |turns| >= 2 && (since.Some? ==> ReadsSucceed(sizes, since.value, |a.history|))
    ensures EndsWithExit(Attach(h, since, exited, sizes, [], turns).frames)
    ensures Output(BridgeFrames(h.disk, since, tty, status))
         == Output(Attach(h, since, exited, sizes, [], turns).frames)
    ensures Stream(BridgeFrames(h.disk, since, tty, status), Some(StreamStart(h, since)), a.history)
    ensures Stream(Attach(h, since, exited, sizes, [], turns).frames, Some(StreamStart(h, since)), a.history)
  {
    StartsAgreeIff(h, a, since);
    AttachReachesExit(h, a, since, exited, sizes, turns);
    assert h.disk == a.history && |a.history| < U64_MODULUS && StreamStart(h, since) <= |a.history|;
    hide Inv, Stream, Attach, AttachAudit, BridgeFrames, StreamStart, SmallChunks;
    QuietTurns(|a.history|, turns);
    TailBeforeExit(h, a, since, exited, sizes, [], turns);
    QuietHistory(h, a, since, exited, sizes, turns);
    BridgeStream(h.disk, since, tty, status, Some(StreamStart(h, since)));
  }

  /** In particular at the end of every run without a failing write, on a log that was empty
      or shorter than what the bridge skips; and if every turn sees the exit that the status
      on disk records, both clients are told the same code, but for the exception that
      `CodesAgreeIff` names. */
  lemma FinishedRunMatchesLive(disk: seq<byte>, rows: seq<Row>, timestampsOpen: bool, ops: seq<Op>,
                               since: Option<nat>, exited: bool, sizes: nat -> Option<nat>, turns: seq<Surroundings>,
                               tty: bool, info: ExitInfo, requested: bool)
    requires HealthyRun(disk, rows, timestampsOpen, ops) && Quiet(turns) && |turns| >= 2
    requires forall turn | turn in turns :: turn.exit == Some(info)
    requires var (_, a) := Run(OpenHub(disk, rows, timestampsOpen), OpenAudit(disk), ops);
             && (since.Some? || |disk| <= Max(0, |a.history| - BACKLOG_CAP))
             && (since.Some? ==> since.value <= |a.history| && ReadsSucceed(sizes, since.value, |a.history|))
    ensures var (h, a) := Run(OpenHub(disk, rows, timestampsOpen), OpenAudit(disk), ops);
            var live := Attach(h, since, exited, sizes, [], turns).frames;
            var bridged := BridgeFrames(h.disk, since, tty, FinalStatus(Some(info), requested));
            && Output(bridged) == Output(live)
            && Stream(bridged, Some(StreamStart(h, since)), a.history)
            && Stream(live, Some(StreamStart(h, since)), a.history)
            && (info.code.Some? || info.signaled || !requested ==>
                  Tells(live, ToldCode(Some(info))) && Tells(bridged, ToldCode(Some(info))))
  {
    hide Run, Inv, HealthyRun, Attach, Quiet, ReadsSucceed, BridgeFrames, Stream, Output, SmallChunks, Tells;
    HealthyHub(disk, rows, timestampsOpen, ops);
    var (h, a) := Run(OpenHub(disk, rows, timestampsOpen), OpenAudit(disk), ops);
    var status := FinalStatus(Some(info), requested);
    FinishedReplayMatchesLive(h, a, since, exited, sizes, turns, tty, status);
    var k := AttachTells(h, since, exited, sizes, [], turns);
    assert turns[k] in turns;
    assert BridgeStart(h.disk, since) <= |h.disk| < U64_MODULUS by {
      DiskHoldsHistory(h, a);
    }
    BridgeStream(h.disk, since, tty, status, Some(BridgeStart(h.disk, since)));
  }

  lemma DiskHoldsHistory(h: Hub, a: Audit)
    requires Inv(h, a) && !h.logError
    ensures h.disk == a.history && |a.history| < U64_MODULUS
  {
  }

  lemma {:induction false} QuietTurns(total: nat, turns: seq<Surroundings>)
    requires total < U64_MODULUS && forall turn | turn in turns :: turn.prints == []
    ensures TurnsPrintable(total, turns)
    decreases |turns|
  {
    if turns != [] {
      assert turns[0] in turns;
      QuietTurns(total, turns[1..]);
    }
  }

  lemma {:induction false} QuietServing(s: Server, h: Hub, a: Audit, turns: seq<Surroundings>)
    requires forall turn | turn in turns :: turn.prints == []
    ensures ServeAllAudit(s, h, a, turns).history == a.history
    decreases |turns|
  {
    if turns != [] && s.Serving? {
      assert turns[0] in turns;
      var t := Serve(s, h, turns[0].exit, turns[0].detached, turns[0].gone);
      QuietServing(t.server, t.hub, ServeAudit(s, h, a), turns[1..]);
    }
  }

  lemma QuietHistory(h: Hub, a: Audit, since: Option<nat>, exited: bool, sizes: nat -> Option<nat>,
                     turns: seq<Surroundings>)
    requires forall turn | turn in turns :: turn.prints == []
    ensures AttachAudit(h, a, since, exited, sizes, [], turns).history == a.history
  {
    var t := Accept(h, since, exited);
    var a' := NextAudit(h, a, DoSubscribeResumable(since));
    hide Accept, ServeAllAudit, RangeFrames;
    if t.server.Replaying? {
      QuietServing(Serving(t.server.id, None, t.server.alreadyExited), t.hub, a', turns);
    } else if t.server.Serving? {
      QuietServing(t.server, t.hub, a', turns);
    }
  }
}
