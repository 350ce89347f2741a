/**
 The framed wire protocol of the attach stream: one tag byte, a 32-bit big-endian
 payload length, the payload. `Pipe` is one direction of a connection; its methods
 write and read frames piecewise, and are proved against `Encode` and `ReadOne`.
 */
module Frames {
  import opened Bytes

  const S_OUTPUT: byte := 1
  const S_EXIT: byte := 2
  const S_DETACHED: byte := 3
  const S_OUTPUT_OFFSET: byte := 4
  const S_READY: byte := 5
  const S_ERROR: byte := 6

  datatype Frame = Frame(tag: byte, payload: seq<byte>)

  /** The length field is the payload length cast to 32 bits, so it wraps. */
  function Encode(f: Frame): seq<byte> {
    [f.tag] + BigEndian(|f.payload| % U32_MODULUS, 4) + f.payload
  }

  predicate Fits(f: Frame) { |f.payload| < U32_MODULUS }

  function EncodeAll(fs: seq<Frame>): seq<byte> {
    if fs == [] then [] else Encode(fs[0]) + EncodeAll(fs[1..])
  }

  predicate AllFit(fs: seq<Frame>) { forall f | f in fs :: Fits(f) }

  /** What one `read_frame` makes of the bytes that will ever arrive: a frame and what
      follows it, a clean end (no whole header), or an error inside a payload. */
  datatype Read = Got(frame: Frame, rest: seq<byte>) | CleanEof | Torn

  function ReadOne(bytes: seq<byte>): Read {
    if |bytes| < 5 then CleanEof
    else
      var len := FromBigEndian(bytes[1..5]);
      if |bytes| < 5 + len then Torn
      else Got(Frame(bytes[0], bytes[5..5 + len]), bytes[5 + len..])
  }

  /** Every frame a reader obtains before the stream ends. */
  function ReadAll(bytes: seq<byte>): seq<Frame> {
    match ReadOne(bytes)
    case Got(f, rest) => [f] + ReadAll(rest)
    case _ => []
  }

  lemma HeaderOf(f: Frame, rest: seq<byte>)
    ensures var bytes := Encode(f) + rest;
            && |Encode(f)| == 5 + |f.payload|
            && bytes[0] == f.tag
            && FromBigEndian(bytes[1..5]) == |f.payload| % U32_MODULUS
            && bytes[5..5 + |f.payload|] == f.payload
            && bytes[5 + |f.payload|..] == rest
  {
    Capacities();
    BigEndianRoundTrip(|f.payload| % U32_MODULUS, 4);
    var bytes := Encode(f) + rest;
    assert bytes[1..5] == BigEndian(|f.payload| % U32_MODULUS, 4);
  }

  /** A frame is read back, whatever follows it, exactly when its payload is shorter
      than 2^32 bytes; a longer one is never read back, because its length wrapped. */
  lemma ReadsBackIffFits(f: Frame, rest: seq<byte>)
    ensures ReadOne(Encode(f) + rest) == Got(f, rest) <==> Fits(f)
  {
    HeaderOf(f, rest);
  }

  /** A frame cut anywhere short of its last byte yields no frame. */
  lemma CutFrameYieldsNothing(f: Frame, n: nat)
    requires Fits(f) && n < |Encode(f)|
    ensures ReadOne(Encode(f)[..n]) == if n < 5 then CleanEof else Torn
  {
    HeaderOf(f, []);
    assert Encode(f) + [] == Encode(f);
    if n >= 5 {
      assert Encode(f)[..n][1..5] == Encode(f)[1..5];
    }
  }

  lemma {:induction false} EncodeAllAppend(fs: seq<Frame>, gs: seq<Frame>)
    ensures EncodeAll(fs + gs) == EncodeAll(fs) + EncodeAll(gs)
  {
    if fs == [] {
      assert fs + gs == gs;
    } else {
      hide Encode;
      var both := fs + gs;
      assert both[0] == fs[0] && both[1..] == fs[1..] + gs;
      EncodeAllAppend(fs[1..], gs);
      assert EncodeAll(both) == Encode(fs[0]) + EncodeAll(fs[1..] + gs);
      Regroup(Encode(fs[0]), EncodeAll(fs[1..]), EncodeAll(gs));
    }
  }

  /** The frames of `fs` that lie wholly within the first `n` bytes of its encoding. */
  function WholeFrames(fs: seq<Frame>, n: nat): (k: nat)
    ensures k <= |fs|
  {
    if fs == [] || n < |Encode(fs[0])| then 0 else 1 + WholeFrames(fs[1..], n - |Encode(fs[0])|)
  }

  /** One read from a stream that carried `fs`, cut after any number of bytes: it
      returns the first frame or none, and what follows is again such a stream. */
  lemma ReadOneOfStream(fs: seq<Frame>, wire: seq<byte>)
    requires AllFit(fs) && wire <= EncodeAll(fs)
    ensures ReadOne(wire).Got? <==> fs != [] && |Encode(fs[0])| <= |wire|
    ensures ReadOne(wire).Got? ==>
              && ReadOne(wire).frame == fs[0]
              && wire == Encode(fs[0]) + ReadOne(wire).rest
              && ReadOne(wire).rest <= EncodeAll(fs[1..])
              && (wire == EncodeAll(fs) ==> ReadOne(wire).rest == EncodeAll(fs[1..]))
  {
    if fs != [] {
      var head := Encode(fs[0]);
      if |head| <= |wire| {
        var rest := wire[|head|..];
        assert wire == head + rest;
        ReadsBackIffFits(fs[0], rest);
        assert rest <= EncodeAll(fs)[|head|..] == EncodeAll(fs[1..]);
      } else {
        CutFrameYieldsNothing(fs[0], |wire|);
        assert wire == head[..|wire|];
      }
    }
  }

  lemma FirstAndRest(fs: seq<Frame>, k: nat)
    requires 1 + k <= |fs|
    ensures fs[..1 + k] == [fs[0]] + fs[1..][..k]
  {
  }

  /** The codec's promise: reading the encoding of any frames, cut after `n` bytes,
      returns exactly the frames that were wholly transmitted. */
  lemma {:induction false} CutStreamReadsWholeFrames(fs: seq<Frame>, n: nat)
    requires AllFit(fs) && n <= |EncodeAll(fs)|
    ensures ReadAll(EncodeAll(fs)[..n]) == fs[..WholeFrames(fs, n)]
  {
    var wire := EncodeAll(fs)[..n];
    ReadOneOfStream(fs, wire);
    hide ReadOne, Encode, EncodeAll;
    if ReadOne(wire).Got? {
      var rest := ReadOne(wire).rest;
      var k := WholeFrames(fs[1..], |rest|);
      assert n == |wire| == |Encode(fs[0])| + |rest|;
      assert rest == EncodeAll(fs[1..])[..|rest|];
      CutStreamReadsWholeFrames(fs[1..], |rest|);
      assert WholeFrames(fs, n) == 1 + k;
      assert ReadAll(wire) == [fs[0]] + ReadAll(rest);
      hide ReadAll, WholeFrames;
      FirstAndRest(fs, k);
    }
  }

  lemma {:induction false} WholeFramesOfAll(fs: seq<Frame>)
    ensures WholeFrames(fs, |EncodeAll(fs)|) == |fs|
  {
    if fs != [] {
      WholeFramesOfAll(fs[1..]);
    }
  }

  /** Uncut, every frame comes back. */
  lemma StreamRoundTrip(fs: seq<Frame>)
    requires AllFit(fs)
    ensures ReadAll(EncodeAll(fs)) == fs
  {
    CutStreamReadsWholeFrames(fs, |EncodeAll(fs)|);
    WholeFramesOfAll(fs);
    assert EncodeAll(fs)[..|EncodeAll(fs)|] == EncodeAll(fs);
  }

  /** A stream is read back exactly when all its frames fit: otherwise the first that does
      not comes out as something else. */
  lemma {:induction false} StreamReadsBackIff(fs: seq<Frame>)
    ensures ReadAll(EncodeAll(fs)) == fs <==> AllFit(fs)
  {
    if AllFit(fs) {
      StreamRoundTrip(fs);
    } else {
      var f, rest := fs[0], EncodeAll(fs[1..]);
      ReadsBackIffFits(f, rest);
      if Fits(f) {
        assert !AllFit(fs[1..]) by {
          var g :| g in fs && !Fits(g);
          assert g in fs[1..];
        }
        StreamReadsBackIff(fs[1..]);
        hide Encode, ReadOne, AllFit;
        assert ReadAll(EncodeAll(fs)) == [f] + ReadAll(rest);
        assert ([f] + ReadAll(rest))[1..] == ReadAll(rest);
      } else {
        WrappedIsOther(f, rest);
      }
    }
  }

  /** A frame that does not fit is taken for one whose payload is shorter, or for none. */
  lemma WrappedIsOther(f: Frame, rest: seq<byte>)
    requires !Fits(f)
    ensures ReadOne(Encode(f) + rest).Got? ==> |ReadOne(Encode(f) + rest).frame.payload| < |f.payload|
  {
    HeaderOf(f, rest);
  }

  /** One direction of a connection whose writing end has been closed after `bytes`. */
  class Pipe {
    var bytes: seq<byte>

    constructor ()
      ensures bytes == []
    {
      bytes := [];
    }

    method WriteAll(data: seq<byte>)
      modifies this
      ensures bytes == old(bytes) + data
    {
      bytes := bytes + data;
    }

    /** Reads `n` bytes, or consumes what there is and reports the unexpected end. */
    method ReadExact(n: nat) returns (r: Option<seq<byte>>)
      modifies this
      ensures |old(bytes)| >= n ==> r == Some(old(bytes)[..n]) && bytes == old(bytes)[n..]
      ensures |old(bytes)| < n ==> r == None && bytes == []
    {
      if |bytes| >= n {
        r := Some(bytes[..n]);
        bytes := bytes[n..];
      } else {
        r := None;
        bytes := [];
      }
    }

    method WriteFrame(tag: byte, payload: seq<byte>)
      modifies this
      ensures bytes == old(bytes) + Encode(Frame(tag, payload))
    {
      var header: seq<byte> := [tag] + BigEndian(|payload| % U32_MODULUS, 4);
      WriteAll(header);
      if payload != [] {
        WriteAll(payload);
      }
      assert header + payload == Encode(Frame(tag, payload));
    }

    /** The next frame, or which of the two ends of stream was met. */
    method ReadFrame() returns (r: Read)
      modifies this
      ensures r == ReadOne(old(bytes))
      ensures bytes == if r.Got? then r.rest else []
    {
      var header := ReadExact(5);
      if header == None {
        return CleanEof;
      }
      var len := FromBigEndian(header.value[1..5]);
      assert header.value[1..5] == old(bytes)[1..5];
      var payload: seq<byte> := [];
      if len > 0 {
        var body := ReadExact(len);
        if body == None {
          return Torn;
        }
        payload := body.value;
      }
      assert payload == old(bytes)[5..5 + len];
      return Got(Frame(header.value[0], payload), bytes);
    }
  }
}
