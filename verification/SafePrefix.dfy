/**
 How much of the log is safe to show: an incremental reader holds back a trailing escape
 sequence that is not terminated yet and a trailing truncated character. UTF-8 is that of
 section 4 of RFC 3629; `Scan` is the standard validation, which stops at the first error.
 */
module SafePrefixes {
  import opened Bytes

  const BEL: byte := 0x07

  // ---------------------------------------------------------------- UTF-8

  /** The length of the character that a byte starts; 0 if it starts none. */
  function Width(lead: byte): nat {
    if lead < 0x80 then 1
    else if 0xc2 <= lead <= 0xdf then 2
    else if 0xe0 <= lead <= 0xef then 3
    else if 0xf0 <= lead <= 0xf4 then 4
    else 0
  }

  predicate IsContinuation(b: byte) { 0x80 <= b <= 0xbf }

  predicate SecondOk(lead: byte, b: byte) {
    if lead == 0xe0 then 0xa0 <= b <= 0xbf
    else if lead == 0xed then 0x80 <= b <= 0x9f
    else if lead == 0xf0 then 0x90 <= b <= 0xbf
    else if lead == 0xf4 then 0x80 <= b <= 0x8f
    else IsContinuation(b)
  }

  /** Some first bytes of a well-formed character. */
  predicate StartsChar(s: seq<byte>) {
    && 0 < |s| <= Width(s[0])
    && (|s| > 1 ==> SecondOk(s[0], s[1]))
    && forall k | 2 <= k < |s| :: IsContinuation(s[k])
  }

  predicate IsChar(s: seq<byte>) { StartsChar(s) && |s| == Width(s[0]) }

  predicate IsTruncated(s: seq<byte>) { StartsChar(s) && |s| < Width(s[0]) }

  predicate ValidUtf8(s: seq<byte>) {
    s == [] || (0 < Width(s[0]) <= |s| && IsChar(s[..Width(s[0])]) && ValidUtf8(s[Width(s[0])..]))
  }

  /** `upTo` bytes are valid; what follows is malformed, or only lacks its last bytes. */
  datatype Verdict = Valid | Broken(upTo: nat, truncated: bool)

  function Scan(s: seq<byte>): Verdict {
    if s == [] then Valid
    else
      var n := Min(Width(s[0]), |s|);
      if !StartsChar(s[..n]) then Broken(0, false)
      else if n < Width(s[0]) then Broken(0, true)
      else
        match Scan(s[n..])
        case Valid => Valid
        case Broken(upTo, truncated) => Broken(n + upTo, truncated)
  }

  // ---------------------------------------------------------------- the characters

  /** The Unicode scalar values: the code points without the surrogates. */
  predicate IsScalar(c: nat) { c < 0xd800 || 0xe000 <= c < 0x11_0000 }

  /** The table of section 3 of RFC 3629. */
  function EncodeScalar(c: nat): seq<byte>
    requires IsScalar(c)
  {
    if c < 0x80 then [c]
    else if c < 0x800 then [0xc0 + c / 64, 0x80 + c % 64]
    else if c < 0x1_0000 then [0xe0 + c / 64 / 64, 0x80 + c / 64 % 64, 0x80 + c % 64]
    else [0xf0 + c / 64 / 64 / 64, 0x80 + c / 64 / 64 % 64, 0x80 + c / 64 % 64, 0x80 + c % 64]
  }

  lemma SixBits(a: nat, b: nat)
    requires b < 64
    ensures (a * 64 + b) / 64 == a && (a * 64 + b) % 64 == b
  {
  }

  /** A number of six more bits. */
  function Append(n: nat, continuation: byte): int { n * 64 + (continuation as int - 0x80) }

  lemma Appended(n: nat, continuation: byte)
    requires IsContinuation(continuation)
    ensures Append(n, continuation) >= 0
    ensures Append(n, continuation) / 64 == n && 0x80 + Append(n, continuation) % 64 == continuation
  {
    SixBits(n, continuation as int - 0x80);
  }

  /** Every well-formed character has a scalar value. */
  lemma DecodeChar(s: seq<byte>) returns (c: nat)
    requires IsChar(s)
    ensures IsScalar(c) && EncodeScalar(c) == s
  {
    var lead := s[0] as int;
    if |s| == 1 {
      c := lead;
    } else {
      c := lead - if |s| == 2 then 0xc0 else if |s| == 3 then 0xe0 else 0xf0;
      Appended(c, s[1]);
      c := Append(c, s[1]);
      if |s| > 2 {
        Appended(c, s[2]);
        c := Append(c, s[2]);
      }
      if |s| > 3 {
        Appended(c, s[3]);
        c := Append(c, s[3]);
      }
    }
  }

  /** The characters that the validation accepts are the encodings of the scalar values. */
  lemma CharsAreScalars(s: seq<byte>)
    ensures IsChar(s) <==> exists c: nat :: IsScalar(c) && EncodeScalar(c) == s
  {
    if IsChar(s) {
      var c := DecodeChar(s);
    }
    if c: nat :| IsScalar(c) && EncodeScalar(c) == s {
      EncodedIsChar(c);
    }
  }

  lemma EncodedIsChar(c: nat)
    requires IsScalar(c)
    ensures IsChar(EncodeScalar(c))
  {
    var d := c / 64;
    var e := d / 64;
    assert c == d * 64 + c % 64 && d == e * 64 + d % 64 && e == e / 64 * 64 + e % 64;
  }

  // ---------------------------------------------------------------- the cut

  predicate EscapeComplete(tail: seq<byte>)
    requires tail != []
  {
    if |tail| == 1 then false
    else if tail[1] == 0x5b then exists k | 2 <= k < |tail| :: IsFinal(tail[k])
    else if tail[1] == 0x5d then
      || (exists k | 2 <= k < |tail| :: tail[k] == BEL)
      || (exists k | 0 <= k < |tail| - 1 :: tail[k] == ESC && tail[k + 1] == 0x5c)
    else if tail[1] == 0x4f then |tail| >= 3
    else true
  }

  function LastEscape(s: seq<byte>): (r: Option<nat>)
    ensures r.Some? ==> r.value < |s| && s[r.value] == ESC && ESC !in s[r.value + 1..]
    ensures r.None? ==> ESC !in s
  {
    if s == [] then None
    else if s[|s| - 1] == ESC then Some(|s| - 1)
    else LastEscape(s[..|s| - 1])
  }

  /** Where an unterminated escape sequence at the end starts. */
  function EscapeCut(s: seq<byte>): (n: nat)
    ensures n <= |s|
  {
    var esc := LastEscape(s);
    if esc.Some? && !EscapeComplete(s[esc.value..]) then esc.value else |s|
  }

  function SafePrefixLen(s: seq<byte>): nat {
    var end := EscapeCut(s);
    match Scan(s[..end])
    case Broken(upTo, true) => upTo
    case _ => end
  }

  // ---------------------------------------------------------------- what is held back

  predicate FirstIsWhole(s: seq<byte>) {
    s != [] && 0 < Width(s[0]) <= |s| && IsChar(s[..Width(s[0])])
  }

  lemma ScanStops(s: seq<byte>)
    requires s != [] && !FirstIsWhole(s)
    ensures Scan(s) == Broken(0, IsTruncated(s)) && !ValidUtf8(s)
  {
    if |s| < Width(s[0]) {
      assert s[..|s|] == s;
    }
  }

  lemma ScanContinues(s: seq<byte>)
    requires FirstIsWhole(s)
    ensures ValidUtf8(s) <==> ValidUtf8(s[Width(s[0])..])
    ensures Scan(s) == match Scan(s[Width(s[0])..])
                       case Valid => Valid
                       case Broken(upTo, truncated) => Broken(Width(s[0]) + upTo, truncated)
  {
  }

  lemma CutLater(s: seq<byte>, w: nat, n: nat)
    requires w <= n <= |s|
    ensures s[..n][..w] == s[..w] && s[..n][w..] == s[w..][..n - w] && s[n..] == s[w..][n - w..]
  {
  }

  lemma {:induction false} ScanIsExact(s: seq<byte>)
    ensures Scan(s).Valid? <==> ValidUtf8(s)
    ensures Scan(s).Broken? ==>
              && Scan(s).upTo < |s| && ValidUtf8(s[..Scan(s).upTo])
              && (Scan(s).truncated <==> IsTruncated(s[Scan(s).upTo..]))
  {
    if FirstIsWhole(s) {
      var w := Width(s[0]);
      ScanContinues(s);
      ScanIsExact(s[w..]);
      if Scan(s[w..]).Broken? {
        var upTo := w + Scan(s[w..]).upTo;
        CutLater(s, w, upTo);
        ScanContinues(s[..upTo]);
        hide Scan, IsTruncated, ValidUtf8, FirstIsWhole;
      }
    } else if s != [] {
      ScanStops(s);
      assert s[0..] == s;
    }
  }

  lemma SafeIsWithin(s: seq<byte>)
    ensures SafePrefixLen(s) <= EscapeCut(s) <= |s|
  {
    ScanIsExact(s[..EscapeCut(s)]);
  }

  /** Without escapes, for arbitrary bytes: what is held back is empty or at most three bytes
      that begin a well-formed character, and malformed bytes hold nothing back. */
  lemma HeldBackIsTruncated(s: seq<byte>)
    requires ESC !in s
    ensures SafePrefixLen(s) <= |s|
    ensures var held := s[SafePrefixLen(s)..];
            && (held == [] || (IsTruncated(held) && |held| <= 3 && exists rest :: IsChar(held + rest)))
            && (held != [] ==> ValidUtf8(s[..SafePrefixLen(s)]))
            && (Scan(s).Broken? && !Scan(s).truncated ==> held == [])
  {
    ScanIsExact(s);
    assert s[..|s|] == s;
    var held := s[SafePrefixLen(s)..];
    if held != [] {
      TruncatedCompletes(held);
    }
  }

  lemma TruncatedCompletes(s: seq<byte>)
    requires IsTruncated(s)
    ensures |s| <= 3 && exists rest :: IsChar(s + rest)
  {
    var second := if s[0] == 0xe0 then 0xa0 else if s[0] == 0xf0 then 0x90 else 0x80;
    var rest: seq<byte> := (if |s| == 1 then [second] else [])
                         + seq(Width(s[0]) - Max(|s|, 2), _ => 0x80 as byte);
    assert IsChar(s + rest);
  }

  lemma {:induction false} ScanOfValidThen(a: seq<byte>, t: seq<byte>)
    requires ValidUtf8(a)
    ensures Scan(a + t) == match Scan(t) case Valid => Valid case Broken(u, tr) => Broken(|a| + u, tr)
  {
    if a == [] {
      assert a + t == t;
    } else {
      var w := Width(a[0]);
      assert (a + t)[..w] == a[..w] && (a + t)[w..] == a[w..] + t;
      ScanOfValidThen(a[w..], t);
    }
  }

  lemma TruncatedScan(t: seq<byte>)
    requires IsTruncated(t)
    ensures Scan(t) == Broken(0, true)
  {
    assert t[..|t|] == t;
  }

  /** A truncated last character is held back exactly when everything before it is valid:
      after a malformed byte, a character that is still being written is split. */
  lemma TruncatedTailIsHeldIff(a: seq<byte>, t: seq<byte>)
    requires ESC !in a + t && IsTruncated(t)
    ensures SafePrefixLen(a + t) == |a| <==> ValidUtf8(a)
  {
    var s := a + t;
    assert s[..|s|] == s;
    assert s[..|a|] == a;
    ScanIsExact(s);
    if ValidUtf8(a) {
      ScanOfValidThen(a, t);
      TruncatedScan(t);
    }
  }

  /** For any bytes: apart from an escape sequence at the end, what is held back is a truncated
      character after valid text, if there is one, and nothing otherwise. */
  lemma SafeIsExact(s: seq<byte>)
    ensures var end, n := EscapeCut(s), SafePrefixLen(s);
            && n <= end && (n < end ==> ValidUtf8(s[..n]) && IsTruncated(s[n..end]))
            && (n == end ==> forall k | 0 <= k < end && ValidUtf8(s[..k]) :: !IsTruncated(s[k..end]))
  {
    var end, n := EscapeCut(s), SafePrefixLen(s);
    var t := s[..end];
    ScanIsExact(t);
    assert t[..n] == s[..n] && t[n..] == s[n..end];
    forall k | 0 <= k < end && ValidUtf8(s[..k]) && IsTruncated(s[k..end])
      ensures n == k
    {
      assert t == s[..k] + s[k..end];
      ScanOfValidThen(s[..k], s[k..end]);
      TruncatedScan(s[k..end]);
    }
    hide Scan, IsTruncated, ValidUtf8, EscapeCut;
  }

  /** For instance, the first byte of a two-byte character is held back, but shown after a
      byte that begins no character. */
  lemma TruncatedTailIsSplit()
    ensures SafePrefixLen([0xc3]) == 0 && SafePrefixLen([0xff] + [0xc3]) == 2
  {
    TruncatedTailIsHeldIff([], [0xc3]);
    assert ValidUtf8([]) && [] + [0xc3] == [0xc3];
    TruncatedTailIsHeldIff([0xff], [0xc3]);
    var s: seq<byte> := [0xff] + [0xc3];
    assert s[..1] == [0xff] && s[..|s|] == s;
  }

  // ---------------------------------------------------------------- valid logs

  lemma {:induction false} ValidConcat(a: seq<byte>, b: seq<byte>)
    requires ValidUtf8(a)
    ensures ValidUtf8(a + b) <==> ValidUtf8(b)
  {
    if a == [] {
      assert a + b == b;
    } else {
      var w := Width(a[0]);
      assert (a + b)[..w] == a[..w] && (a + b)[w..] == a[w..] + b;
      ValidConcat(a[w..], b);
    }
  }

  /** A piece of a valid text is valid except perhaps for a truncated character at its end. */
  lemma {:induction false} PrefixOfValid(s: seq<byte>, n: nat)
    requires ValidUtf8(s) && n <= |s|
    ensures Scan(s[..n]).Broken? ==> Scan(s[..n]).truncated
  {
    if n > 0 {
      var w := Width(s[0]);
      if n < w {
        assert s[..n] == s[..w][..n];
      } else {
        assert s[..n][..w] == s[..w] && s[..n][w..] == s[w..][..n - w];
        PrefixOfValid(s[w..], n - w);
      }
    }
  }

  /** For a valid log read from a character boundary, at any length it has reached: what is
      returned is valid, and the offset to resume from is again a character boundary. */
  lemma ValidLogStaysValid(log: seq<byte>, off: nat, n: nat)
    requires ValidUtf8(log) && off <= n <= |log| && ValidUtf8(log[..off])
    ensures var safe := SafePrefixLen(log[off..n]);
            && safe <= n - off
            && ValidUtf8(log[off..off + safe]) && ValidUtf8(log[..off + safe]) && ValidUtf8(log[off + safe..])
  {
    hide ValidUtf8, Scan, EscapeCut, IsTruncated;
    assert log == log[..off] + log[off..];
    ValidConcat(log[..off], log[off..]);
    var bytes := log[off..n];
    var end := EscapeCut(bytes);
    assert bytes[..end] == log[off..][..end];
    PrefixOfValid(log[off..], end);
    ScanIsExact(bytes[..end]);
    var safe := SafePrefixLen(bytes);
    assert bytes[..end][..safe] == log[off..off + safe];
    assert safe == end ==> bytes[..end] == log[off..off + safe];
    assert log[..off + safe] == log[..off] + log[off..off + safe];
    ValidConcat(log[..off], log[off..off + safe]);
    assert log == log[..off + safe] + log[off + safe..];
    ValidConcat(log[..off + safe], log[off + safe..]);
  }

  // ---------------------------------------------------------------- growing logs

  predicate NoEscape(s: seq<byte>) { ESC !in s }

  predicate EscapeAfter(s: seq<byte>, i: nat)
    requires i < |s|
  {
    ESC in s[i + 1..]
  }

  lemma EscapeLater(s: seq<byte>, e: nat)
    requires e < |s| && s[e] == ESC
    ensures forall i: nat | i < e :: EscapeAfter(s, i)
  {
    forall i: nat | i < e
      ensures EscapeAfter(s, i)
    {
      assert s[i + 1..][e - i - 1] == ESC;
    }
  }

  lemma LastEscapeIs(s: seq<byte>, e: nat)
    requires e < |s| && s[e] == ESC && NoEscape(s[e + 1..])
    ensures LastEscape(s) == Some(e)
  {
    assert s[e] in s;
    EscapeLater(s, e);
    forall i | e < i < |s|
      ensures s[i] != ESC
    {
      assert s[e + 1..][i - e - 1] == s[i];
    }
  }

  /** A sequence that is recognised as terminated stays so, whatever follows. */
  lemma CompleteStays(a: seq<byte>, b: seq<byte>)
    requires a != [] && EscapeComplete(a)
    ensures EscapeComplete(a + b)
  {
    var s := a + b;
    assert forall k | 0 <= k < |a| :: s[k] == a[k];
  }

  /** Which escape sequence at the end of any bytes is held back: a lone ESC, a control sequence
      without its final byte, an operating system command without BEL (with `ESC \`, it is
      not the last), and `ESC O` without its byte. Anything else counts as complete, so that
      a reader never waits for the end of what it does not know. */
  lemma EscapeIsHeldIff(a: seq<byte>, rest: seq<byte>)
    requires 0x1b !in rest
    ensures var held := || rest == [] || rest == [0x4f]
                        || (rest[0] == 0x5b && forall k | 1 <= k < |rest| :: !(0x40 <= rest[k] <= 0x7e))
                        || (rest[0] == 0x5d && 0x07 !in rest[1..]);
            EscapeCut(a + ([0x1b] + rest)) == if held then |a| else |a| + 1 + |rest|
    ensures 0x1b !in a ==> EscapeCut(a) == |a|
  {
    var tail := [ESC] + rest;
    var s := a + tail;
    assert s[|a|..] == tail && s[|a| + 1..] == rest && s[|a|] == ESC;
    LastEscapeIs(s, |a|);
    assert forall k | 1 <= k < |tail| :: tail[k] == rest[k - 1];
    assert forall k | 1 <= k < |rest| :: rest[k] == rest[1..][k - 1];
    hide LastEscape, SafePrefixLen;
  }

  lemma CutOfSuffix(s: seq<byte>, p: nat)
    requires p <= |s| && ESC in s[p..]
    ensures EscapeCut(s) == p + EscapeCut(s[p..])
  {
    var e := LastEscape(s[p..]).value;
    assert s[p + e..] == s[p..][e..] && s[p + e + 1..] == s[p..][e + 1..];
    LastEscapeIs(s, p + e);
    hide EscapeComplete, LastEscape;
  }

  lemma InSuffix(s: seq<byte>, p: nat, e: nat)
    requires p <= |s| && e < |s|
    ensures p <= e ==> s[e] in s[p..]
  {
    assert p <= e ==> s[p..][e - p] == s[e];
  }

  /** What a read left open, a later one sees from where it ended. */
  lemma CutGrows(s: seq<byte>, n: nat)
    requires n <= |s|
    ensures var p := SafePrefixLen(s[..n]);
            p <= n && EscapeCut(s) == p + EscapeCut(s[p..])
  {
    SafeIsWithin(s[..n]);
    var p := SafePrefixLen(s[..n]);
    hide SafePrefixLen;
    if ESC in s[p..] {
      CutOfSuffix(s, p);
    } else if LastEscape(s).Some? {
      var e := LastEscape(s).value;
      InSuffix(s, p, e);
      assert s[..n][e + 1..] == s[e + 1..][..n - e - 1];
      LastEscapeIs(s[..n], e);
      CompleteStays(s[..n][e..], s[n..]);
      assert s[..n][e..] + s[n..] == s[e..];
    }
  }

  /** Reading piecewise gets exactly as far as reading at once: for every valid text, with
      escape sequences of any kind, complete or not, and all lengths `n` and `m`. */
  lemma SafeGrows(text: seq<byte>, n: nat, m: nat)
    requires ValidUtf8(text) && n <= m <= |text|
    ensures var p := SafePrefixLen(text[..n]);
            && p <= n && ValidUtf8(text[..p]) && ValidUtf8(text[p..])
            && SafePrefixLen(text[..m]) == p + SafePrefixLen(text[p..m])
  {
    assert ValidUtf8([]) && text[..0] == [] && text[0..n] == text[..n];
    hide *;
    ValidLogStaysValid(text, 0, n);
    var p := SafePrefixLen(text[..n]);
    SlicesOfPrefix(text, p, n, m);
    assert p <= n && ValidUtf8(text[..p]) && ValidUtf8(text[p..]);
    CutGrows(text[..m], n);
    SafeAfterValid(text[..m], p);
  }

  lemma SlicesOfPrefix(s: seq<byte>, p: nat, n: nat, m: nat)
    requires p <= n <= m <= |s|
    ensures s[..m][..n] == s[..n] && s[..m][..p] == s[..p] && s[..m][p..] == s[p..m]
    ensures s[0..0 + p] == s[..p] && s[0 + p..] == s[p..]
  {
  }

  lemma SafeAfterValid(s: seq<byte>, p: nat)
    requires p <= |s| && ValidUtf8(s[..p]) && EscapeCut(s) == p + EscapeCut(s[p..])
    ensures SafePrefixLen(s) == p + SafePrefixLen(s[p..])
  {
    var cut := EscapeCut(s[p..]);
    assert s[..p + cut] == s[..p] + s[p..][..cut];
    ScanOfValidThen(s[..p], s[p..][..cut]);
    hide ValidUtf8, EscapeCut, Scan;
  }
}
