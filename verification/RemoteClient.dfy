/**
 The local end of a remote attach: a client that keeps the offset of the next byte it
 expects, drops what it already has, notices gaps, and after a loss of the transport asks
 to resume. `Client` is the state its two nested loops carry; the object `RemoteAttach`
 updates it in place and is proved against the functions on `Client`.
 */
module RemoteClients {
  import opened Bytes
  import opened Frames
  import opened OutputHubs
  import opened ExitCodes
  import opened AttachStreams

  /** Whether losses are survived, and whether the local output is a terminal. */
  datatype Config = Config(reconnect: bool, localTty: bool)

  datatype Ending = Code(code: i32) | Left | Failed

  /** Between connections, waiting for READY, streaming, or finished. */
  datatype Phase = Idle | Handshake | Attached | Over(ending: Ending)

  /** Output written without interruption, and the offset of its first byte. */
  datatype Epoch = Epoch(start: nat, bytes: seq<byte>)

  /** `legacy` is output that came without offsets. */
  datatype Client = Client(
    phase: Phase,
    cursor: Option<nat>,
    resumable: bool,
    established: bool,
    visual: bool,
    epochs: seq<Epoch>,
    legacy: seq<byte>)

  const NEW_CLIENT: Client := Client(Idle, None, true, false, false, [], [])

  // ---------------------------------------------------------------- one frame

  datatype Progress = Advance(skip: nat, next: nat) | Gap(expected: nat, received: nat)

  /** How a frame of `len` bytes at offset `start` advances a client at `cursor`. */
  function OffsetFrameProgress(cursor: Option<nat>, start: nat, len: nat): Progress {
    var expected := Or(cursor, start);
    if start > expected then Gap(expected, start)
    else Advance(Min(expected - start, len), Max(expected, SatAdd(start, len)))
  }

  function Emit(epochs: seq<Epoch>, cursor: Option<nat>, start: nat, bytes: seq<byte>): seq<Epoch> {
    if cursor.None? || epochs == [] then epochs + [Epoch(start, bytes)]
    else
      var last := epochs[|epochs| - 1];
      epochs[|epochs| - 1 := last.(bytes := last.bytes + bytes)]
  }

  function ReadyUsesTty(payload: seq<byte>): bool { payload == [] || payload[0] != 0 }

  /** The transport is lost or given up. */
  function OnLoss(c: Client, config: Config, needsResumable: bool): Client {
    if !c.established || !config.reconnect || (needsResumable && !c.resumable) then c.(phase := Over(Failed))
    else c.(phase := Idle, cursor := if c.visual then None else c.cursor)
  }

  function OnHandshakeFrame(c: Client, config: Config, f: Frame): Client {
    if f.tag == S_READY then
      c.(phase := Attached, established := true, visual := config.localTty && ReadyUsesTty(f.payload))
    else if f.tag == S_ERROR then OnLoss(c, config, false)
    else c
  }

  function OnOutput(c: Client, config: Config, start: nat, bytes: seq<byte>): Client {
    match OffsetFrameProgress(c.cursor, start, |bytes|)
    case Advance(skip, next) =>
      c.(epochs := Emit(c.epochs, c.cursor, start, bytes[skip..]), cursor := Some(next))
    case Gap(_, _) => OnLoss(c, config, false)
  }

  function OnStreamFrame(c: Client, config: Config, f: Frame): Client {
    if f.tag == S_OUTPUT_OFFSET && |f.payload| >= 8 then OnOutput(c, config, OffsetOf(f), f.payload[8..])
    else if f.tag == S_OUTPUT then c.(legacy := c.legacy + f.payload, cursor := None, resumable := false)
    else if f.tag == S_ERROR then c.(phase := Over(Failed))
    else if f.tag == S_EXIT then c.(phase := Over(Code(ParseExit(f.payload))))
    else if f.tag == S_DETACHED then c.(phase := Over(Left))
    else c
  }

  function OnFrame(c: Client, config: Config, f: Frame): Client {
    if c.phase.Handshake? then OnHandshakeFrame(c, config, f)
    else if c.phase.Attached? then OnStreamFrame(c, config, f)
    else c
  }

  class RemoteAttach {
    const config: Config
    var phase: Phase
    var cursor: Option<nat>
    var resumable: bool
    var established: bool
    var visual: bool
    var epochs: seq<Epoch>
    var legacy: seq<byte>

    function Abs(): Client
      reads this
    {
      Client(phase, cursor, resumable, established, visual, epochs, legacy)
    }

    constructor (config: Config)
      ensures Abs() == NEW_CLIENT && this.config == config
    {
      this.config := config;
      phase, cursor, resumable, established, visual := Idle, None, true, false, false;
      epochs, legacy := [], [];
    }

    /** Reads the next frame in the phase the client is in, or loses the transport. */
    method ReadFrom(input: Pipe)
      requires phase.Handshake? || phase.Attached?
      modifies this, input
      ensures Abs() == match ReadOne(old(input.bytes))
                       case Got(f, _) => OnFrame(old(Abs()), config, f)
                       case _ => OnLoss(old(Abs()), config, old(phase).Attached?)
    {
      var read := input.ReadFrame();
      if !read.Got? {
        Lose(phase.Attached?);
      } else if phase.Handshake? {
        var f := read.frame;
        if f.tag == S_READY {
          phase, established := Attached, true;
          visual := config.localTty && ReadyUsesTty(f.payload);
        } else if f.tag == S_ERROR {
          Lose(false);
        }
      } else {
        Dispatch(read.frame);
      }
    }

    method Dispatch(f: Frame)
      modifies this
      ensures Abs() == OnStreamFrame(old(Abs()), config, f)
    {
      if f.tag == S_OUTPUT_OFFSET && |f.payload| >= 8 {
        var start := FromBigEndian(f.payload[..8]);
        var bytes := f.payload[8..];
        var progress := OffsetFrameProgress(cursor, start, |bytes|);
        if progress.Gap? {
          Lose(false);
        } else {
          epochs := Emit(epochs, cursor, start, bytes[progress.skip..]);
          cursor := Some(progress.next);
        }
      } else if f.tag == S_OUTPUT {
        legacy := legacy + f.payload;
        cursor, resumable := None, false;
      } else if f.tag == S_ERROR {
        phase := Over(Failed);
      } else if f.tag == S_EXIT {
        phase := Over(Code(ParseExit(f.payload)));
      } else if f.tag == S_DETACHED {
        phase := Over(Left);
      }
    }

    method Lose(needsResumable: bool)
      modifies this
      ensures Abs() == OnLoss(old(Abs()), config, needsResumable)
    {
      if !established || !config.reconnect || (needsResumable && !resumable) {
        phase := Over(Failed);
        return;
      }
      if visual {
        cursor := None;
      }
      phase := Idle;
    }
  }

  // ---------------------------------------------------------------- what the client has written

  predicate Faithful(epochs: seq<Epoch>, history: seq<byte>) {
    forall e | e in epochs :: IsSegment(e.bytes, e.start, history)
  }

  /** Every epoch is a segment of the history, and the cursor is where the last one ends. A
      client whose output is not a terminal has at most one epoch. */
  predicate ClientInv(c: Client, config: Config, history: seq<byte>) {
    && Faithful(c.epochs, history)
    && (c.cursor.Some? ==>
          c.epochs != [] && c.cursor.value == c.epochs[|c.epochs| - 1].start + |c.epochs[|c.epochs| - 1].bytes|)
    && (!config.localTty ==> !c.visual && |c.epochs| <= 1 && (c.cursor.None? ==> c.epochs == []))
    && c.resumable && c.legacy == []
    && (c.phase.Attached? ==> c.established)
  }

  lemma ClientOfLonger(c: Client, config: Config, history: seq<byte>, data: seq<byte>)
    requires ClientInv(c, config, history)
    ensures ClientInv(c, config, history + data)
  {
    forall e | e in c.epochs
      ensures IsSegment(e.bytes, e.start, history + data)
    {
      SegmentOfLonger(e.bytes, e.start, history, data);
    }
  }

  lemma CursorInHistory(c: Client, config: Config, history: seq<byte>)
    requires ClientInv(c, config, history)
    ensures c.cursor.Some? ==> c.cursor.value <= |history|
  {
    if c.cursor.Some? {
      assert c.epochs[|c.epochs| - 1] in c.epochs;
    }
  }

  lemma LossKeepsClient(c: Client, config: Config, history: seq<byte>, needsResumable: bool)
    requires ClientInv(c, config, history)
    ensures ClientInv(OnLoss(c, config, needsResumable), config, history)
  {
  }

  /** What is written of a true frame that overlaps what the client has. */
  lemma NewPart(history: seq<byte>, start: nat, bytes: seq<byte>, expected: nat)
    requires IsSegment(bytes, start, history) && start <= expected <= |history|
    ensures var skip := Min(expected - start, |bytes|);
            && bytes[skip..] == history[expected..Max(expected, start + |bytes|)]
            && expected + |bytes[skip..]| == Max(expected, start + |bytes|)
            && IsSegment(bytes[skip..], expected, history)
  {
    var skip := Min(expected - start, |bytes|);
    if expected <= start + |bytes| {
      assert bytes[skip..] == history[start..start + |bytes|][skip..] == history[expected..start + |bytes|];
    }
  }

  /** The client is exact on its own: fed any true output frame, whatever it overlaps, it
      writes precisely the bytes it lacks, and a frame beyond its cursor is the only thing
      that it takes for a gap, which is a loss: then it writes nothing. */
  lemma TrueFrameKeepsClient(c: Client, config: Config, f: Frame, history: seq<byte>)
    requires ClientInv(c, config, history) && |history| < U64_MODULUS
    requires f.tag == S_OUTPUT_OFFSET && |f.payload| >= 8 && IsSegment(f.payload[8..], OffsetOf(f), history)
    ensures ClientInv(OnStreamFrame(c, config, f), config, history)
    ensures OffsetFrameProgress(c.cursor, OffsetOf(f), |f.payload| - 8).Gap?
       <==> c.cursor.Some? && c.cursor.value < OffsetOf(f)
    ensures var c' := OnStreamFrame(c, config, f);
            if c.cursor.Some? && c.cursor.value < OffsetOf(f) then
              c' == if !c.established || !config.reconnect then c.(phase := Over(Failed))
                    else c.(phase := Idle, cursor := if c.visual then None else c.cursor)
            else c'.phase == c.phase
                 && c'.cursor == Some(Max(Or(c.cursor, OffsetOf(f)), OffsetOf(f) + |f.payload| - 8))
  {
    var start := OffsetOf(f);
    var bytes := f.payload[8..];
    assert OnStreamFrame(c, config, f) == OnOutput(c, config, start, bytes);
    if start <= Or(c.cursor, start) {
      OverlapIsDropped(c, config, start, bytes, history);
    } else {
      assert OffsetFrameProgress(c.cursor, start, |bytes|).Gap?;
      LossKeepsClient(c, config, history, false);
    }
    hide ClientInv, OffsetOf, OnStreamFrame, IsSegment, SatAdd;
  }

  lemma OverlapIsDropped(c: Client, config: Config, start: nat, bytes: seq<byte>, history: seq<byte>)
    requires ClientInv(c, config, history) && |history| < U64_MODULUS
    requires IsSegment(bytes, start, history) && start <= Or(c.cursor, start)
    ensures OffsetFrameProgress(c.cursor, start, |bytes|).Advance?
    ensures var c' := OnOutput(c, config, start, bytes);
            && ClientInv(c', config, history) && c'.phase == c.phase
            && c'.cursor == Some(Max(Or(c.cursor, start), start + |bytes|))
  {
    CursorInHistory(c, config, history);
    var expected := Or(c.cursor, start);
    var skip := Min(expected - start, |bytes|);
    assert SatAdd(start, |bytes|) == start + |bytes|;
    NewPart(history, start, bytes, expected);
    hide IsSegment;
    EmitKeepsFaithful(c, config, history, start, bytes[skip..]);
    hide Faithful, Emit;
    assert OffsetFrameProgress(c.cursor, start, |bytes|) == Advance(skip, Max(expected, start + |bytes|));
  }

  lemma EmitKeepsFaithful(c: Client, config: Config, history: seq<byte>, start: nat, bytes: seq<byte>)
    requires ClientInv(c, config, history)
    requires IsSegment(bytes, Or(c.cursor, start), history)
    ensures var epochs := Emit(c.epochs, c.cursor, start, bytes);
            && Faithful(epochs, history) && epochs != []
            && epochs[|epochs| - 1].start + |epochs[|epochs| - 1].bytes| == Or(c.cursor, start) + |bytes|
            && (!config.localTty ==> |epochs| <= 1)
  {
    var epochs := Emit(c.epochs, c.cursor, start, bytes);
    if c.cursor.Some? {
      var last := c.epochs[|c.epochs| - 1];
      assert last in c.epochs;
      var cursor := c.cursor.value;
      assert history[last.start..cursor + |bytes|] == history[last.start..cursor] + history[cursor..cursor + |bytes|];
      assert forall e | e in epochs :: e in c.epochs || e == last.(bytes := last.bytes + bytes);
    } else {
      assert forall e | e in epochs :: e in c.epochs || e == Epoch(start, bytes);
    }
  }

  /** Nothing that was written is ever taken back or rewritten. */
  predicate Grows(before: seq<Epoch>, after: seq<Epoch>) {
    && |before| <= |after|
    && forall k | 0 <= k < |before| :: before[k].start == after[k].start && before[k].bytes <= after[k].bytes
  }

  lemma FrameOnlyGrows(c: Client, config: Config, f: Frame)
    ensures Grows(c.epochs, OnFrame(c, config, f).epochs)
  {
  }

  // ---------------------------------------------------------------- any frames

  /** The client after some frames, whatever they are. */
  function Fed(c: Client, config: Config, fs: seq<Frame>): Client {
    if fs == [] then c else OnFrame(Fed(c, config, fs[..|fs| - 1]), config, fs[|fs| - 1])
  }

  predicate Decides(f: Frame) { f.tag == S_READY || f.tag == S_ERROR }

  lemma {:induction false} HandshakeWaits(c: Client, config: Config, fs: seq<Frame>)
    requires c.phase.Handshake? && forall k | 0 <= k < |fs| :: !Decides(fs[k])
    ensures Fed(c, config, fs) == c
  {
    if fs != [] {
      HandshakeWaits(c, config, fs[..|fs| - 1]);
    }
  }

  /** A client that has connected waits for READY or an error, whatever else it is sent. READY
      attaches it, and says whether the session has a terminal, which it has if nothing is
      said; an error is a loss, which only a client survives that was attached before. */
  lemma HandshakeEnds(c: Client, config: Config, fs: seq<Frame>, f: Frame)
    requires c.phase.Handshake? && Decides(f) && forall k | 0 <= k < |fs| :: !Decides(fs[k])
    ensures Fed(c, config, fs + [f])
         == if f.tag == S_READY then
              c.(phase := Attached, established := true,
                 visual := config.localTty && !(f.payload != [] && f.payload[0] == 0))
            else if !c.established || !config.reconnect then c.(phase := Over(Failed))
            else c.(phase := Idle, cursor := if c.visual then None else c.cursor)
  {
    HandshakeWaits(c, config, fs);
    assert (fs + [f])[..|fs|] == fs;
    hide Decides;
  }

  lemma FrameKeepsCursor(c: Client, config: Config, f: Frame)
    requires c.cursor.Some? ==> c.cursor.value < U64_MODULUS
    ensures var c' := OnFrame(c, config, f); c'.cursor.Some? ==> c'.cursor.value < U64_MODULUS
  {
    if |f.payload| >= 8 {
      Capacities();
      FromBigEndianRoundTrip(f.payload[..8]);
    }
    hide Emit;
  }

  /** Whatever frames arrive, the cursor is an offset that a request can hold. */
  lemma {:induction false} CursorIsAnOffset(c: Client, config: Config, fs: seq<Frame>)
    requires c.cursor.Some? ==> c.cursor.value < U64_MODULUS
    ensures var c' := Fed(c, config, fs); c'.cursor.Some? ==> c'.cursor.value < U64_MODULUS
  {
    if fs != [] {
      CursorIsAnOffset(c, config, fs[..|fs| - 1]);
      hide OnFrame;
      FrameKeepsCursor(Fed(c, config, fs[..|fs| - 1]), config, fs[|fs| - 1]);
    }
  }

  /** Output that came without offsets. */
  function LegacyOutput(fs: seq<Frame>): seq<byte> {
    if fs == [] then []
    else LegacyOutput(fs[..|fs| - 1]) + if fs[|fs| - 1].tag == S_OUTPUT then fs[|fs| - 1].payload else []
  }

  predicate AnyLegacy(fs: seq<Frame>) { exists k | 0 <= k < |fs| :: fs[k].tag == S_OUTPUT }

  /** A client that stays attached writes all output that comes without offsets. Once any has
      come there is no place to resume at: a loss then ends the client. Without any, it can
      resume as before. */
  lemma {:induction false} LegacyOutputEndsResumption(c: Client, config: Config, fs: seq<Frame>)
    requires c.phase.Attached? && c.established && Fed(c, config, fs).phase.Attached?
    ensures var c' := Fed(c, config, fs);
            && c'.legacy == c.legacy + LegacyOutput(fs)
            && (c'.resumable <==> c.resumable && !AnyLegacy(fs)) && c'.established
            && (fs != [] && fs[|fs| - 1].tag == S_OUTPUT ==> c'.cursor.None?)
            && (OnLoss(c', config, true).phase.Idle? <==> config.reconnect && c.resumable && !AnyLegacy(fs))
  {
    if fs == [] {
      assert c.legacy + [] == c.legacy;
    } else {
      var init, f := fs[..|fs| - 1], fs[|fs| - 1];
      NoHandshake(c, config, init);
      StaysAttached(Fed(c, config, init), config, f);
      LegacyOutputEndsResumption(c, config, init);
      assert AnyLegacy(fs) <==> AnyLegacy(init) || f.tag == S_OUTPUT by {
        assert forall k | 0 <= k < |init| :: fs[k] == init[k];
      }
      hide OnFrame, AnyLegacy;
      Regroup(c.legacy, LegacyOutput(init), if f.tag == S_OUTPUT then f.payload else []);
    }
  }

  lemma {:induction false} NoHandshake(c: Client, config: Config, fs: seq<Frame>)
    requires !c.phase.Handshake?
    ensures !Fed(c, config, fs).phase.Handshake?
  {
    if fs != [] {
      NoHandshake(c, config, fs[..|fs| - 1]);
    }
  }

  lemma StaysAttached(c: Client, config: Config, f: Frame)
    requires OnFrame(c, config, f).phase.Attached?
    ensures c.phase.Attached? || c.phase.Handshake?
    ensures c.phase.Attached? ==>
              var c' := OnFrame(c, config, f);
              && c'.legacy == c.legacy + (if f.tag == S_OUTPUT then f.payload else [])
              && (c'.resumable <==> c.resumable && f.tag != S_OUTPUT) && c'.established == c.established
              && (f.tag == S_OUTPUT ==> c'.cursor.None?)
  {
    assert c.legacy + [] == c.legacy;
    hide OffsetOf, Emit, OffsetFrameProgress;
  }
}
