/**
 Incremental log reading. A log is read piecewise while it grows; the pieces, stripped of
 escape sequences one by one, are compared with stripping everything at once: first for any
 valid log, then for a log of complete items, which are characters and escape sequences of
 the forms that the reader knows.
 */
module Polling {
  import opened Bytes
  import opened SafePrefixes

  // ---------------------------------------------------------------- items

  predicate IsEscapeItem(b: seq<byte>) {
    && |b| >= 2 && b[0] == ESC
    && (forall k | 1 <= k < |b| :: b[k] != ESC)
    && if b[1] == 0x5b then
         // CSI: parameters and intermediates, then a final byte (section 5.4 of ECMA-48)
         |b| >= 3 && IsFinal(b[|b| - 1]) && forall k | 2 <= k < |b| - 1 :: 0x20 <= b[k] < 0x40
       else if b[1] == 0x5d then
         // OSC: text, then BEL
         |b| >= 3 && b[|b| - 1] == BEL && BEL !in b[2..|b| - 1] && ValidUtf8(b[2..|b| - 1])
       else if b[1] == 0x4f then
         // SS3: one printable byte
         |b| == 3 && 0x20 <= b[2] < 0x7f
       else
         // two bytes, not the start of a string or of a longer sequence
         |b| == 2 && 0x30 <= b[1] < 0x7f && !OpensString(b[1])
  }

  predicate IsTextItem(b: seq<byte>) { IsChar(b) && b[0] != ESC }

  /** The string terminator, an escape item. */
  const ST: seq<byte> := [ESC, 0x5c]

  /** An OSC that the string terminator is to end, up to the terminator. */
  predicate IsOscHead(b: seq<byte>) {
    |b| >= 2 && b[0] == ESC && b[1] == 0x5d && ESC !in b[2..] && BEL !in b[2..] && ValidUtf8(b[2..])
  }

  predicate IsItem(b: seq<byte>) { IsTextItem(b) || IsEscapeItem(b) || IsOscHead(b) }

  /** An OSC ended by the string terminator is two items, of which the first is always
      followed by the second, once there is more. */
  predicate AllItems(items: seq<seq<byte>>) {
    && (forall b | b in items :: IsItem(b))
    && forall k: nat | k + 1 < |items| && IsOscHead(items[k]) :: items[k + 1] == ST
  }

  predicate EndsInHead(items: seq<seq<byte>>) { items != [] && IsOscHead(items[|items| - 1]) }

  function Join(items: seq<seq<byte>>): seq<byte> {
    if items == [] then [] else items[0] + Join(items[1..])
  }

  /** The text of a log: its characters, without its escape sequences. */
  function TextOf(items: seq<seq<byte>>): seq<byte> {
    if items == [] then [] else (if IsTextItem(items[0]) then items[0] else []) + TextOf(items[1..])
  }

  // ---------------------------------------------------------------- the stripper

  /** A stand-in for the library that strips escape sequences, for the forms above, for the
      other control strings (DCS, SOS, PM and APC, which the string terminator ends), and for
      sequences with intermediate bytes, which a final byte ends (ISO/IEC 2022). An ESC starts
      a sequence anywhere. */
  datatype Mode = Ground | Escape | Csi | Osc | Ss3 | ControlString | Intermediate

  predicate OpensString(b: byte) { b == 0x50 || b == 0x58 || b == 0x5e || b == 0x5f }

  predicate IsIntermediate(b: byte) { 0x20 <= b <= 0x2f }

  function StripByte(m: Mode, b: byte): (Mode, seq<byte>) {
    if b == ESC then (Escape, [])
    else
      match m
      case Ground => (Ground, [b])
      case Escape =>
        (if b == 0x5b then Csi else if b == 0x5d then Osc else if b == 0x4f then Ss3
         else if OpensString(b) then ControlString else if IsIntermediate(b) then Intermediate else Ground, [])
      case Csi => (if IsFinal(b) then Ground else Csi, [])
      case Osc => (if b == BEL then Ground else Osc, [])
      case Ss3 => (Ground, [])
      case ControlString => (ControlString, [])
      case Intermediate => (if 0x30 <= b <= 0x7e then Ground else Intermediate, [])
  }

  function StripFrom(m: Mode, s: seq<byte>): (Mode, seq<byte>)
    decreases |s|
  {
    if s == [] then (m, [])
    else
      var (next, out) := StripByte(m, s[0]);
      var (last, rest) := StripFrom(next, s[1..]);
      (last, out + rest)
  }

  function Strip(s: seq<byte>): seq<byte> { StripFrom(Ground, s).1 }

  function Process(raw: bool, chunk: seq<byte>): seq<byte> { if raw then chunk else Strip(chunk) }

  // ---------------------------------------------------------------- reading

  /** One read of a log that holds `log`: the text to show, and where to go on. */
  function ReadSlice(log: seq<byte>, off: nat, raw: bool): (seq<byte>, nat) {
    if off >= |log| then ([], |log|)
    else
      SafeIsWithin(log[off..]);
      var safe := SafePrefixLen(log[off..]);
      (Process(raw, log[off..off + safe]), off + safe)
  }

  /** Reads when the log had these lengths: all text so far, and where the last one ended. */
  function Poll(log: seq<byte>, off: nat, lengths: seq<nat>, raw: bool): (seq<byte>, nat)
    requires forall k | 0 <= k < |lengths| :: lengths[k] <= |log|
    decreases |lengths|
  {
    if lengths == [] then ([], off)
    else
      var (text, next) := ReadSlice(log[..lengths[0]], off, raw);
      var (rest, last) := Poll(log, next, lengths[1..], raw);
      (text + rest, last)
  }

  /** A reader whose offset lies beyond the end, because the log has become shorter, shows
      nothing and goes on with what is appended from then on. */
  lemma ShorterLogResumes(log: seq<byte>, off: nat, n: nat, lengths: seq<nat>, raw: bool)
    requires n < off && n <= |log| && forall k | 0 <= k < |lengths| :: lengths[k] <= |log|
    ensures Poll(log, off, [n] + lengths, raw) == Poll(log, n, lengths, raw)
  {
    assert ([n] + lengths)[1..] == lengths;
    var (text, last) := Poll(log, n, lengths, raw);
    assert [] + text == text;
  }

  // ---------------------------------------------------------------- any valid log

  /** Lengths of a growing log at some moments. */
  predicate Growing(lengths: seq<nat>, from: nat, to: nat) {
    && from <= to && lengths != [] && (forall k | 0 <= k < |lengths| :: from <= lengths[k] <= to)
    && forall j, k | 0 <= j < k < |lengths| :: lengths[j] <= lengths[k]
  }

  function Last(lengths: seq<nat>): nat
    requires lengths != []
  {
    lengths[|lengths| - 1]
  }

  lemma {:induction false} StripConcat(m: Mode, a: seq<byte>, b: seq<byte>)
    ensures StripFrom(m, a + b)
         == (StripFrom(StripFrom(m, a).0, b).0, StripFrom(m, a).1 + StripFrom(StripFrom(m, a).0, b).1)
    decreases |a|
  {
    if a == [] {
      assert a + b == b && [] + StripFrom(m, b).1 == StripFrom(m, b).1;
    } else {
      assert (a + b)[0] == a[0] && (a + b)[1..] == a[1..] + b;
      var (next, out) := StripByte(m, a[0]);
      StripConcat(next, a[1..], b);
      var (mid, first) := StripFrom(next, a[1..]);
      assert (out + first) + StripFrom(mid, b).1 == out + (first + StripFrom(mid, b).1);
    }
  }

  /** Where a read ends, if the log has `n` bytes. */
  function ResumeAt(log: seq<byte>, off: nat, n: nat): (r: nat)
    requires off <= n <= |log|
    ensures off <= r <= n
  {
    SafeIsWithin(log[off..n]);
    off + SafePrefixLen(log[off..n])
  }

  lemma ReadEndsAt(log: seq<byte>, off: nat, n: nat, raw: bool)
    requires off <= n <= |log|
    ensures ReadSlice(log[..n], off, raw)
         == (Process(raw, log[off..ResumeAt(log, off, n)]), ResumeAt(log, off, n))
  {
    assert log[..n][off..] == log[off..n];
    var r := ResumeAt(log, off, n);
    hide SafePrefixLen;
    assert log[..n][off..r] == log[off..r];
  }

  /** Reading from where an earlier read ended gets as far as reading from where that began. */
  lemma ResumesCompose(log: seq<byte>, start: nat, n: nat, m: nat)
    requires start <= n <= m <= |log| && ValidUtf8(log[start..])
    ensures var r := ResumeAt(log, start, n);
            ValidUtf8(log[r..]) && ResumeAt(log, r, m) == ResumeAt(log, start, m)
  {
    hide SafePrefixLen, ValidUtf8;
    var text, r := log[start..], ResumeAt(log, start, n);
    assert text[..n - start] == log[start..n] && text[..m - start] == log[start..m];
    assert text[r - start..] == log[r..] && text[r - start..m - start] == log[r..m];
    SafeGrows(text, n - start, m - start);
  }

  /** What a stripper that starts outside of any sequence shows of some bytes, and one that
      starts inside of one does not. */
  lemma {:induction false} StartsInside(m: Mode, s: seq<byte>) returns (h: nat)
    requires m != Ground
    ensures h <= |s| && Strip(s) == s[..h] + StripFrom(m, s).1
    ensures h > 0 <==> s != [] && s[0] != ESC
    decreases |s|
  {
    if s == [] || s[0] == ESC {
      h := 0;
      assert s[..0] == [];
    } else {
      var next := StripByte(m, s[0]).0;
      if next == Ground {
        h := 1;
      } else {
        h := StartsInside(next, s[1..]);
        h := h + 1;
        assert s[..h] == [s[0]] + s[1..][..h - 1];
        Regroup([s[0]], s[1..][..h - 1], StripFrom(next, s[1..]).1);
      }
    }
  }

  /** Between the first byte of a sequence and its last one, and not before another one. */
  predicate Inside(log: seq<byte>, start: nat, r: nat)
    requires start <= r <= |log|
  {
    r < |log| && log[r] != ESC && StripFrom(Ground, log[start..r]).0 != Ground
  }

  /** No read ends inside a sequence, but one that ends where reading ends for good. */
  predicate NoneInside(log: seq<byte>, start: nat, next: nat, lengths: seq<nat>)
    requires forall k | 0 <= k < |lengths| :: start <= lengths[k] <= |log|
  {
    forall k | 0 <= k < |lengths| ::
      var r := ResumeAt(log, start, lengths[k]);
      r == next || !Inside(log, start, r)
  }

  lemma NoneInsideSplits(log: seq<byte>, start: nat, next: nat, lengths: seq<nat>)
    requires lengths != [] && forall k | 0 <= k < |lengths| :: start <= lengths[k] <= |log|
    ensures var off := ResumeAt(log, start, lengths[0]);
            NoneInside(log, start, next, lengths)
            <==> (off == next || !Inside(log, start, off)) && NoneInside(log, start, next, lengths[1..])
  {
    hide ResumeAt, Inside;
    var tail := lengths[1..];
    if NoneInside(log, start, next, lengths) {
      forall k | 0 <= k < |tail|
        ensures var r := ResumeAt(log, start, tail[k]); r == next || !Inside(log, start, r)
      {
        assert tail[k] == lengths[k + 1];
      }
    } else {
      var k :| 0 <= k < |lengths| && ResumeAt(log, start, lengths[k]) != next
               && Inside(log, start, ResumeAt(log, start, lengths[k]));
      assert k > 0 ==> tail[k - 1] == lengths[k];
    }
  }

  lemma NoLengthsNoneInside(log: seq<byte>, start: nat, next: nat, lengths: seq<nat>)
    requires lengths == []
    ensures NoneInside(log, start, next, lengths)
  {
  }

  lemma StripNothing(m: Mode, s: seq<byte>)
    requires |s| == 0
    ensures StripFrom(m, s) == (m, [])
  {
  }

  /** One read inside a longer stretch: it shows what the stretch shows there, and something
      more if and only if it starts inside a sequence. */
  lemma ReadShows(log: seq<byte>, start: nat, off: nat, mid: nat, next: nat) returns (more: nat)
    requires start <= off <= mid <= next <= |log|
    ensures more > 0 <==> off < mid && Inside(log, start, off)
    ensures var m := StripFrom(Ground, log[start..off]).0;
            var shown := StripFrom(m, log[off..mid]).1;
            && StripFrom(m, log[off..next]).1
               == shown + StripFrom(StripFrom(Ground, log[start..mid]).0, log[mid..next]).1
            && more <= |Strip(log[off..mid])| && Strip(log[off..mid])[more..] == shown
  {
    var m := StripFrom(Ground, log[start..off]).0;
    assert log[start..off] + log[off..mid] == log[start..mid];
    StripConcat(Ground, log[start..off], log[off..mid]);
    assert log[off..mid] + log[mid..next] == log[off..next];
    StripConcat(m, log[off..mid], log[mid..next]);
    assert off < mid ==> log[off..mid][0] == log[off];
    more := 0;
    if m != Ground {
      more := StartsInside(m, log[off..mid]);
    }
  }

  lemma LaterLengths(lengths: seq<nat>, from: nat, mid: nat, to: nat)
    requires Growing(lengths, from, to) && |lengths| > 1 && mid <= lengths[0]
    ensures Growing(lengths[1..], mid, to)
    ensures from <= lengths[0] <= lengths[1] == lengths[1..][0] <= Last(lengths[1..]) == Last(lengths)
  {
  }

  lemma GrowingBounds(lengths: seq<nat>, from: nat, to: nat)
    requires Growing(lengths, from, to)
    ensures lengths != [] && from <= lengths[0] <= Last(lengths) <= to
    ensures |lengths| == 1 ==> Last(lengths) == lengths[0]
    ensures forall k | 0 <= k < |lengths| :: from <= lengths[k] <= to
    ensures forall k | 0 <= k < |lengths[1..]| :: from <= lengths[1..][k] <= to
  {
  }

  lemma PollNothing(log: seq<byte>, off: nat, lengths: seq<nat>)
    requires |lengths| == 0
    ensures Poll(log, off, lengths, true) == ([], off) && Poll(log, off, lengths, false) == ([], off)
  {
  }

  /** One read and then the others. */
  lemma PollSteps(log: seq<byte>, off: nat, lengths: seq<nat>)
    requires Growing(lengths, off, |log|)
    ensures var next := ResumeAt(log, off, lengths[0]);
            var (raw, text) := (Poll(log, next, lengths[1..], true), Poll(log, next, lengths[1..], false));
            && Poll(log, off, lengths, true) == (log[off..next] + raw.0, raw.1)
            && Poll(log, off, lengths, false) == (Strip(log[off..next]) + text.0, text.1)
  {
    ReadEndsAt(log, off, lengths[0], true);
    ReadEndsAt(log, off, lengths[0], false);
    hide ReadSlice, ResumeAt, StripFrom;
  }

  lemma {:induction false} PollingGetsAsFar(log: seq<byte>, off: nat, lengths: seq<nat>)
    requires Growing(lengths, off, |log|) && ValidUtf8(log[off..])
    ensures var next := ResumeAt(log, off, Last(lengths));
            Poll(log, off, lengths, true) == (log[off..next], next) && Poll(log, off, lengths, false).1 == next
    decreases |lengths|
  {
    hide *;
    GrowingBounds(lengths, off, |log|);
    var mid, next := ResumeAt(log, off, lengths[0]), ResumeAt(log, off, Last(lengths));
    PollSteps(log, off, lengths);
    if |lengths| == 1 {
      PollNothing(log, mid, lengths[1..]);
      assert log[off..mid] + [] == log[off..mid];
    } else {
      LaterLengths(lengths, off, mid, |log|);
      ResumesCompose(log, off, lengths[0], Last(lengths));
      PollingGetsAsFar(log, mid, lengths[1..]);
      assert log[off..mid] + log[mid..next] == log[off..next];
    }
  }

  /** The stripped text of polling after a first read, against that of one longer read. */
  lemma {:induction false} PolledText(log: seq<byte>, start: nat, lengths: seq<nat>)
    requires Growing(lengths, start, |log|) && ValidUtf8(log[start..])
    ensures var off, next := ResumeAt(log, start, lengths[0]), ResumeAt(log, start, Last(lengths));
            && off <= next
            && var (text, rest) := (Poll(log, off, lengths[1..], false).0,
                                    StripFrom(StripFrom(Ground, log[start..off]).0, log[off..next]).1);
               |rest| <= |text| && (text == rest <==> NoneInside(log, start, next, lengths))
    decreases |lengths|
  {
    var off, next := ResumeAt(log, start, lengths[0]), ResumeAt(log, start, Last(lengths));
    hide *;
    GrowingBounds(lengths, start, |log|);
    NoneInsideSplits(log, start, next, lengths);
    if |lengths| == 1 {
      PollNothing(log, off, lengths[1..]);
      NoLengthsNoneInside(log, start, next, lengths[1..]);
      StripNothing(StripFrom(Ground, log[start..off]).0, log[off..next]);
    } else {
      var tail := lengths[1..];
      LaterLengths(lengths, start, start, |log|);
      LaterLengths(lengths, start, off, |log|);
      ResumesCompose(log, start, lengths[0], tail[0]);
      PolledText(log, start, tail);
      PolledTextGrows(log, start, off, next, tail);
    }
  }

  lemma PolledTextGrows(log: seq<byte>, start: nat, off: nat, next: nat, tail: seq<nat>)
    requires Growing(tail, start, |log|) && Growing(tail, off, |log|) && start <= off
    requires var mid := ResumeAt(log, start, tail[0]);
             && off <= mid <= next <= |log| && ResumeAt(log, off, tail[0]) == mid
             && var (text, rest) := (Poll(log, mid, tail[1..], false).0,
                                     StripFrom(StripFrom(Ground, log[start..mid]).0, log[mid..next]).1);
                |rest| <= |text| && (text == rest <==> NoneInside(log, start, next, tail))
    ensures var (text, rest) := (Poll(log, off, tail, false).0,
                                 StripFrom(StripFrom(Ground, log[start..off]).0, log[off..next]).1);
            && |rest| <= |text|
            && (text == rest <==> (off == next || !Inside(log, start, off)) && NoneInside(log, start, next, tail))
  {
    hide *;
    GrowingBounds(tail, start, |log|);
    var mid := ResumeAt(log, start, tail[0]);
    NoneInsideSplits(log, start, next, tail);
    PollSteps(log, off, tail);
    OneMoreRead(log, start, off, mid, next, Poll(log, mid, tail[1..], false).0, NoneInside(log, start, next, tail));
  }

  lemma OneMoreRead(log: seq<byte>, start: nat, off: nat, mid: nat, next: nat, polled: seq<byte>, agree: bool)
    requires start <= off <= mid <= next <= |log|
    requires var rest := StripFrom(StripFrom(Ground, log[start..mid]).0, log[mid..next]).1;
             |rest| <= |polled| && (polled == rest <==> agree)
    requires agree ==> mid == next || !Inside(log, start, mid)
    ensures var all := StripFrom(StripFrom(Ground, log[start..off]).0, log[off..next]).1;
            && |all| <= |Strip(log[off..mid]) + polled|
            && (Strip(log[off..mid]) + polled == all <==> (off == next || !Inside(log, start, off)) && agree)
  {
    hide *;
    var more := ReadShows(log, start, off, mid, next);
    LongerDiffers(Strip(log[off..mid]), more, polled,
                  StripFrom(StripFrom(Ground, log[start..mid]).0, log[mid..next]).1);
  }

  lemma LongerDiffers(a: seq<byte>, more: nat, b: seq<byte>, rest: seq<byte>)
    requires more <= |a| && |rest| <= |b|
    ensures |a[more..] + rest| <= |a + b|
    ensures a + b == a[more..] + rest <==> more == 0 && b == rest
  {
    if a + b == a[more..] + rest {
      assert more == 0 && a[0..] == a;
      assert b == (a + b)[|a|..] && rest == (a + rest)[|a|..];
    }
    assert a[0..] == a;
  }

  /** For every valid log, with escape sequences of any kind, from every character boundary,
      and for reads at any moments while it grows: polling gets exactly as far as one read at
      the last of them, and its raw text is the same; its stripped text is the same if and
      only if no read, but one that ends at the same place as the last, ends inside a
      sequence. */
  lemma PollingAgreesIff(log: seq<byte>, off: nat, lengths: seq<nat>)
    requires Growing(lengths, off, |log|) && ValidUtf8(log[off..])
    ensures var last := log[..Last(lengths)];
            var (text, next) := ReadSlice(last, off, false);
            && off <= next <= |last| && text == Strip(log[off..next])
            && Poll(log, off, lengths, true) == ReadSlice(last, off, true) == (log[off..next], next)
            && Poll(log, off, lengths, false).1 == next
            && (Poll(log, off, lengths, false).0 == text <==> NoneInside(log, off, next, lengths))
  {
    var next := ResumeAt(log, off, Last(lengths));
    PollingGetsAsFar(log, off, lengths);
    ReadEndsAt(log, off, Last(lengths), true);
    ReadEndsAt(log, off, Last(lengths), false);
    var longer := [off] + lengths;
    assert longer[1..] == lengths && Last(longer) == Last(lengths);
    StartIsOutside(log, off);
    PolledText(log, off, longer);
    assert Strip(log[off..next]) == StripFrom(Ground, log[off..next]).1 && longer[0] == off;
    hide *;
    NoneInsideSplits(log, off, next, longer);
  }

  lemma StartIsOutside(log: seq<byte>, off: nat)
    requires off <= |log|
    ensures ResumeAt(log, off, off) == off && StripFrom(Ground, log[off..off]).0 == Ground && !Inside(log, off, off)
  {
    assert log[off..off] == [];
  }

  // ---------------------------------------------------------------- items are safe units

  lemma {:induction false} JoinAppend(a: seq<seq<byte>>, b: seq<seq<byte>>)
    ensures Join(a + b) == Join(a) + Join(b)
  {
    if a == [] {
      assert a + b == b;
    } else {
      assert (a + b)[1..] == a[1..] + b;
      JoinAppend(a[1..], b);
    }
  }

  lemma JoinOne(b: seq<byte>)
    ensures Join([b]) == b
  {
    assert [b][1..] == [];
  }

  lemma {:induction false} AsciiIsValid(s: seq<byte>)
    requires forall b | b in s :: b < 0x80
    ensures ValidUtf8(s)
  {
    if s != [] {
      assert s[0] in s && forall b | b in s[1..] :: b in s;
      assert s[..1] == [s[0]];
      AsciiIsValid(s[1..]);
    }
  }

  lemma SliceIsAllItems(items: seq<seq<byte>>, i: nat, j: nat)
    requires AllItems(items) && i <= j <= |items|
    ensures AllItems(items[i..j])
  {
    var slice := items[i..j];
    forall b | b in slice
      ensures b in items
    {}
    forall k: nat | k + 1 < |slice| && IsOscHead(slice[k])
      ensures slice[k + 1] == ST
    {
      assert items[i + k + 1] == slice[k + 1];
    }
  }

  lemma TailIsAllItems(items: seq<seq<byte>>)
    requires AllItems(items) && items != []
    ensures AllItems(items[1..]) && IsItem(items[0])
  {
    SliceIsAllItems(items, 1, |items|);
    assert items[1..|items|] == items[1..];
  }

  lemma ItemIsValid(b: seq<byte>)
    requires IsItem(b)
    ensures ValidUtf8(b) && b != []
  {
    if IsTextItem(b) {
      assert b[..|b|] == b && b[|b|..] == [];
    } else if IsOscHead(b) {
      assert b == b[..2] + b[2..];
      AsciiIsValid(b[..2]);
      hide ValidUtf8;
      ValidConcat(b[..2], b[2..]);
    } else if b[1] == 0x5d {
      assert b == b[..2] + (b[2..|b| - 1] + [BEL]);
      AsciiIsValid(b[..2]);
      AsciiIsValid([BEL]);
      hide ValidUtf8;
      ValidConcat(b[2..|b| - 1], [BEL]);
      ValidConcat(b[..2], b[2..|b| - 1] + [BEL]);
    } else {
      hide ValidUtf8;
      AsciiIsValid(b);
    }
  }

  lemma {:induction false} ItemsAreValid(items: seq<seq<byte>>)
    requires AllItems(items)
    ensures ValidUtf8(Join(items))
  {
    if items != [] {
      hide ValidUtf8, IsItem, AllItems;
      TailIsAllItems(items);
      ItemIsValid(items[0]);
      ItemsAreValid(items[1..]);
      ValidConcat(items[0], Join(items[1..]));
    } else {
      assert ValidUtf8([]);
    }
  }

  /** A terminated escape sequence stays recognised as such, whatever follows it; one that
      is cut anywhere is not. */
  lemma EscapeItemCompletes(b: seq<byte>, t: seq<byte>, n: nat)
    requires IsEscapeItem(b) && 0 < n < |b|
    ensures EscapeComplete(b + t)
    ensures !EscapeComplete(b[..n])
  {
    var s := b + t;
    assert s[1] == b[1] && s[|b| - 1] == b[|b| - 1];
    if b[1] == 0x5d && n >= 2 {
      forall k | 2 <= k < n
        ensures b[..n][k] != BEL
      {
        assert b[2..|b| - 1][k - 2] == b[k];
      }
    }
  }

  /** An OSC is not recognised as terminated before its terminator. */
  lemma HeadIsOpen(b: seq<byte>, n: nat)
    requires IsOscHead(b) && 0 < n <= |b|
    ensures !EscapeComplete(b[..n])
  {
    if n >= 2 {
      forall k | 2 <= k < n
        ensures b[..n][k] != BEL && b[..n][k] != ESC
      {
        assert b[2..][k - 2] == b[k];
      }
    }
  }

  lemma TextHasNoEscape(b: seq<byte>)
    requires StartsChar(b) && b[0] != ESC
    ensures NoEscape(b)
  {
    assert forall k | 1 <= k < |b| :: b[k] >= 0x80;
  }

  lemma RestHasNoEscape(b: seq<byte>, n: nat)
    requires (IsEscapeItem(b) || IsOscHead(b)) && 0 < n <= |b|
    ensures NoEscape(b[1..n])
  {
    forall k | 0 <= k < n - 1
      ensures b[1..n][k] != ESC
    {
      assert b[1..n][k] == b[k + 1];
      assert IsOscHead(b) && k >= 1 ==> b[2..][k - 1] == b[k + 1];
    }
  }

  /** After whole items, and then text or part of a character, no escape is open. */
  lemma {:induction false} NothingOpen(items: seq<seq<byte>>, t: seq<byte>)
    requires AllItems(items) && !EndsInHead(items) && NoEscape(t)
    ensures EscapeCut(Join(items) + t) == |Join(items) + t|
    decreases |items|
  {
    if items == [] {
      assert Join(items) + t == t;
    } else {
      var init := items[..|items| - 1];
      var b := items[|items| - 1];
      assert items == init + [b] && b in items;
      JoinAppend(init, [b]);
      JoinOne(b);
      var s := Join(items) + t;
      Regroup(Join(init), b, t);
      assert EndsInHead(init) ==> b == ST;
      if IsTextItem(b) {
        TextHasNoEscape(b);
        SliceIsAllItems(items, 0, |items| - 1);
        assert items[0..|items| - 1] == init;
        NothingOpen(init, b + t);
      } else {
        var e := |Join(init)|;
        assert s[e..] == b + t;
        assert s[e + 1..] == b[1..] + t;
        LastEscapeIs(s, e);
        EscapeItemCompletes(b, t, 1);
        hide EscapeComplete, IsEscapeItem, IsTextItem;
      }
    }
  }

  /** The beginning of an item that cannot be shown yet: part of it, or the whole of an OSC
      whose terminator has not begun. */
  predicate Unfinished(b: seq<byte>, n: nat) {
    0 < n <= |b| && (n == |b| ==> IsOscHead(b))
  }

  /** Whole items, then an unfinished one: exactly the items are safe. */
  lemma PartialItemIsHeld(items: seq<seq<byte>>, b: seq<byte>, n: nat)
    requires AllItems(items) && IsItem(b) && Unfinished(b, n) && (EndsInHead(items) ==> b == ST)
    ensures SafePrefixLen(Join(items) + b[..n]) == |Join(items)|
  {
    var whole := Join(items);
    var s := whole + b[..n];
    ItemsAreValid(items);
    if IsTextItem(b) {
      assert StartsChar(b[..n]) && IsTruncated(b[..n]);
      TextHasNoEscape(b[..n]);
      NothingOpen(items, b[..n]);
      assert s[..|s|] == s;
      ScanOfValidThen(whole, b[..n]);
      TruncatedScan(b[..n]);
    } else {
      assert s[|whole|..] == b[..n] && s[|whole| + 1..] == b[1..n];
      RestHasNoEscape(b, n);
      LastEscapeIs(s, |whole|);
      if IsOscHead(b) {
        HeadIsOpen(b, n);
      } else {
        EscapeItemCompletes(b, [], n);
      }
      assert EscapeCut(s) == |whole|;
      assert s[..|whole|] == whole;
      ScanIsExact(whole);
    }
  }

  lemma WholeItemsAreSafe(items: seq<seq<byte>>)
    requires AllItems(items) && !EndsInHead(items)
    ensures SafePrefixLen(Join(items)) == |Join(items)|
  {
    ItemsAreValid(items);
    NothingOpen(items, []);
    assert Join(items) + [] == Join(items);
    assert Join(items)[..|Join(items)|] == Join(items);
    ScanIsExact(Join(items));
  }

  /** How many items lie wholly within the first `n` bytes; an OSC counts once its
      terminator has begun. */
  function WholeItems(items: seq<seq<byte>>, n: nat): (k: nat)
    ensures k <= |items|
  {
    if items == [] || n < |items[0]| || (n == |items[0]| && IsOscHead(items[0])) then 0
    else 1 + WholeItems(items[1..], n - |items[0]|)
  }

  lemma {:induction false} WholeItemsSplit(items: seq<seq<byte>>, n: nat)
    requires n <= |Join(items)|
    ensures var k := WholeItems(items, n);
            && |Join(items[..k])| <= n
            && (n == |Join(items[..k])| ==> !EndsInHead(items[..k]))
            && (n > |Join(items[..k])| ==> k < |items| && Unfinished(items[k], n - |Join(items[..k])|))
            && Join(items)[..n]
               == Join(items[..k]) + (if n > |Join(items[..k])| then items[k][..n - |Join(items[..k])|] else [])
  {
    var k := WholeItems(items, n);
    if k == 0 {
      assert items[..0] == [];
    } else {
      hide IsOscHead;
      WholeItemsSplit(items[1..], n - |items[0]|);
      assert items[..k][1..] == items[1..][..k - 1] && items[..k][0] == items[0];
      assert k > 1 ==> items[..k][k - 1] == items[1..][..k - 1][k - 2];
      assert Join(items)[..n] == items[0] + Join(items[1..])[..n - |items[0]|];
    }
  }

  /** What is safe to show of a growing log is exactly its whole items. */
  lemma SafeIsWholeItems(items: seq<seq<byte>>, n: nat)
    requires AllItems(items) && n <= |Join(items)|
    ensures var k := WholeItems(items, n);
            && SafePrefixLen(Join(items)[..n]) == |Join(items[..k])| <= n
            && Join(items)[..|Join(items[..k])|] == Join(items[..k])
            && (n == |Join(items[..k])| ==> !EndsInHead(items[..k]))
  {
    var k := WholeItems(items, n);
    WholeItemsSplit(items, n);
    var whole := Join(items[..k]);
    SliceIsAllItems(items, 0, k);
    assert items[0..k] == items[..k];
    assert k < |items| ==> IsItem(items[k]) && (EndsInHead(items[..k]) ==> items[k] == ST) by {
      assert k < |items| ==> items[k] in items;
    }
    hide *;
    if n > |whole| {
      PartialItemIsHeld(items[..k], items[k], n - |whole|);
      PrefixOfSum(Join(items), n, whole, items[k][..n - |whole|]);
    } else {
      WholeItemsAreSafe(items[..k]);
      PrefixOfSum(Join(items), n, whole, []);
    }
  }

  lemma PrefixOfSum(s: seq<byte>, n: nat, a: seq<byte>, b: seq<byte>)
    requires n <= |s| && s[..n] == a + b
    ensures s[..|a|] == a && (b == [] ==> s[..n] == a)
  {
    assert s[..|a|] == s[..n][..|a|] && a + [] == a;
  }

  // ---------------------------------------------------------------- stripping item by item

  lemma {:induction false} StripText(s: seq<byte>)
    requires NoEscape(s)
    ensures StripFrom(Ground, s) == (Ground, s)
  {
    if s == [] {
      assert StripFrom(Ground, s).1 == s;
    } else {
      assert s[0] in s && forall b | b in s[1..] :: b in s;
      StripText(s[1..]);
      assert StripFrom(Ground, s).1 == [s[0]] + s[1..] == s;
    }
  }

  /** A run of bytes that do not end a sequence keeps the stripper inside it. */
  lemma {:induction false} StripInside(m: Mode, s: seq<byte>)
    requires m != Ground && forall b | b in s :: StripByte(m, b).0 == m
    ensures StripFrom(m, s) == (m, [])
    decreases |s|
  {
    if s != [] {
      assert s[0] in s && forall b | b in s[1..] :: b in s;
      StripInside(m, s[1..]);
      assert StripByte(m, s[0]) == (m, []);
      assert StripFrom(m, s).1 == [] + [] == [];
    }
  }

  lemma StripOne(m: Mode, b: byte)
    ensures StripFrom(m, [b]) == StripByte(m, b)
  {
    assert [b][1..] == [];
    assert StripByte(m, b).1 + [] == StripByte(m, b).1;
  }

  lemma StripOpening(b: seq<byte>)
    requires |b| >= 2 && b[0] == ESC
    ensures StripFrom(Ground, b) == StripFrom(StripByte(Escape, b[1]).0, b[2..])
  {
    var m := StripByte(Escape, b[1]).0;
    StripOne(Ground, b[0]);
    StripOne(Escape, b[1]);
    StripConcat(Ground, [b[0]], [b[1]]);
    assert b == ([b[0]] + [b[1]]) + b[2..];
    StripConcat(Ground, [b[0]] + [b[1]], b[2..]);
    assert [] + StripFrom(m, b[2..]).1 == StripFrom(m, b[2..]).1;
  }

  /** Where an item leaves the stripper. */
  function ModeAfter(b: seq<byte>): Mode { if IsOscHead(b) then Osc else Ground }

  lemma StripItem(b: seq<byte>)
    requires IsItem(b)
    ensures StripFrom(Ground, b) == (ModeAfter(b), if IsTextItem(b) then b else [])
  {
    if IsTextItem(b) {
      TextHasNoEscape(b);
      StripText(b);
    } else {
      StripOpening(b);
      if IsOscHead(b) {
        StripInside(Osc, b[2..]);
      } else if |b| > 2 {
        StripClosing(b);
      }
    }
  }

  lemma StripClosing(b: seq<byte>)
    requires IsEscapeItem(b) && |b| > 2
    ensures StripFrom(StripByte(Escape, b[1]).0, b[2..]) == (Ground, [])
  {
    var m := StripByte(Escape, b[1]).0;
    var inside, last := b[2..|b| - 1], b[|b| - 1];
    assert b[2..] == inside + [last];
    StripConcat(m, inside, [last]);
    StripOne(m, last);
    if m == Ss3 {
      assert inside == [];
    } else {
      assert forall x | x in inside :: exists k | 2 <= k < |b| - 1 :: b[k] == x;
      StripInside(m, inside);
    }
  }

  lemma StripTerminator(m: Mode)
    ensures StripFrom(m, ST) == (Ground, [])
  {
    assert ST == [ESC] + [0x5c];
    StripConcat(m, [ESC], [0x5c]);
    StripOne(m, ESC);
    StripOne(Escape, 0x5c);
  }

  /** Stripping whole items yields their text, also when it starts between a control string
      and its terminator. */
  lemma {:induction false} StripItems(m: Mode, items: seq<seq<byte>>)
    requires AllItems(items) && (m == Ground || items == [] || items[0] == ST)
    ensures StripFrom(m, Join(items))
         == (if EndsInHead(items) then Osc else if items == [] then m else Ground, TextOf(items))
    decreases |items|
  {
    if items != [] {
      TailIsAllItems(items);
      StripItem(items[0]);
      StripTerminator(m);
      assert EndsInHead(items) <==> if |items| == 1 then IsOscHead(items[0]) else EndsInHead(items[1..]);
      assert IsOscHead(items[0]) && |items| > 1 ==> items[1] == ST && items[1..][0] == ST;
      var next := ModeAfter(items[0]);
      assert StripFrom(m, items[0]) == (next, if IsTextItem(items[0]) then items[0] else []);
      hide AllItems, IsItem, IsOscHead, IsTextItem, IsEscapeItem;
      StripItems(next, items[1..]);
      StripConcat(m, items[0], Join(items[1..]));
    }
  }

  // ---------------------------------------------------------------- one read

  function Shown(raw: bool, items: seq<seq<byte>>): seq<byte> { if raw then Join(items) else TextOf(items) }

  lemma {:induction false} OffsetIsItem(items: seq<seq<byte>>, i: nat)
    requires i <= |items|
    ensures Join(items) == Join(items[..i]) + Join(items[i..])
  {
    assert items == items[..i] + items[i..];
    JoinAppend(items[..i], items[i..]);
  }

  lemma LogSlices(a: seq<byte>, b: seq<byte>, n: nat, m: nat)
    requires |a| <= n <= |a + b| && m <= n - |a|
    ensures (a + b)[..n][|a|..] == b[..n - |a|] && (a + b)[..n][|a|..|a| + m] == b[..m]
  {
  }

  /** A read from an item boundary, at any length the log has reached, returns exactly the
      items that are whole by then, and resumes at an item boundary. */
  lemma ReadReturnsWholeItems(items: seq<seq<byte>>, i: nat, n: nat, raw: bool)
    requires AllItems(items) && i <= |items| && |Join(items[..i])| <= n <= |Join(items)|
    ensures var k := WholeItems(items[i..], n - |Join(items[..i])|);
            && i + k <= |items|
            && |Join(items[..i + k])| <= n
            && |Join(items[i..][..k])| == |Join(items[..i + k])| - |Join(items[..i])|
            && (n == |Join(items[..i + k])| ==> !EndsInHead(items[i..][..k]))
            && ReadSlice(Join(items)[..n], |Join(items[..i])|, raw)
               == (Shown(raw, items[i..i + k]), |Join(items[..i + k])|)
  {
    hide IsItem, SafePrefixLen, WholeItems, Join, TextOf, StripFrom, EndsInHead, AllItems;
    var rest := items[i..];
    var off := |Join(items[..i])|;
    var k := WholeItems(rest, n - off);
    var j := i + k;
    OffsetIsItem(items, i);
    SliceIsAllItems(items, i, |items|);
    assert items[i..|items|] == rest;
    SafeIsWholeItems(rest, n - off);
    assert rest[..k] == items[i..j];
    assert items[..j] == items[..i] + items[i..j];
    JoinAppend(items[..i], items[i..j]);
    SliceIsAllItems(items, i, j);
    StripItems(Ground, items[i..j]);
    var log := Join(items)[..n];
    LogSlices(Join(items[..i]), Join(rest), n, |Join(items[i..j])|);
    if off >= n {
      assert Join(rest[..k]) == [];
      NoBytesNoText(items[i..j]);
    }
  }

  lemma {:induction false} NoBytesNoText(items: seq<seq<byte>>)
    requires Join(items) == []
    ensures TextOf(items) == []
  {
    if items != [] {
      NoBytesNoText(items[1..]);
    }
  }

  // ---------------------------------------------------------------- polling equals one read

  /** After some bytes that leave the stripper in mode `m`, items begin. */
  predicate ItemsBegin(log: seq<byte>, start: nat, off: nat, m: Mode, items: seq<seq<byte>>) {
    && start <= off <= |log| && StripFrom(Ground, log[start..off]).0 == m
    && log[off..] == Join(items) && AllItems(items) && (m == Ground || items == [] || items[0] == ST)
  }

  /** The mode of a stripper at a boundary between items. */
  lemma BoundaryMode(log: seq<byte>, start: nat, off: nat, m: Mode, items: seq<seq<byte>>, k: nat)
    requires ItemsBegin(log, start, off, m, items) && k <= |items|
    ensures var r := off + |Join(items[..k])|;
            && r <= |log| && log[r..] == Join(items[k..])
            && StripFrom(Ground, log[start..r]).0
               == if EndsInHead(items[..k]) then Osc else if k == 0 then m else Ground
  {
    var r := off + |Join(items[..k])|;
    SliceIsAllItems(items, 0, k);
    assert items[0..k] == items[..k];
    hide AllItems, IsOscHead, StripFrom;
    StripItems(m, items[..k]);
    AfterBoundary(log[start..], off - start, items, k);
    assert log[start..][..off - start] == log[start..off] && log[start..][..r - start] == log[start..r];
    assert log[start..][r - start..] == log[r..];
    StripConcat(Ground, log[start..off], Join(items[..k]));
    hide Join;
  }

  /** An item that is to be the terminator begins with ESC. */
  lemma TerminatorFollows(items: seq<seq<byte>>, k: nat)
    requires AllItems(items) && k < |items| && (EndsInHead(items[..k]) || items[k] == ST)
    ensures Join(items[k..]) != [] && Join(items[k..])[0] == ESC
  {
    assert k > 0 ==> items[..k][k - 1] == items[k - 1];
    assert items[k] == ST && items[k..][0] == ST;
  }

  lemma BoundaryIsOutside(log: seq<byte>, start: nat, off: nat, m: Mode, items: seq<seq<byte>>, k: nat)
    requires ItemsBegin(log, start, off, m, items) && k <= |items|
    ensures off + |Join(items[..k])| <= |log| && !Inside(log, start, off + |Join(items[..k])|)
  {
    var r := off + |Join(items[..k])|;
    BoundaryMode(log, start, off, m, items, k);
    hide StripFrom, Inside, IsOscHead, Join;
    if k < |items| && (EndsInHead(items[..k]) || (k == 0 && m != Ground)) {
      TerminatorFollows(items, k);
      assert log[r] == log[r..][0];
    } else if k == |items| {
      assert items[k..] == [];
      NothingJoined();
    }
    OutsideIf(log, start, r);
  }

  lemma NothingJoined()
    ensures Join([]) == []
  {
  }

  lemma OutsideIf(log: seq<byte>, start: nat, r: nat)
    requires start <= r <= |log|
    ensures r == |log| || log[r] == ESC || StripFrom(Ground, log[start..r]).0 == Ground ==> !Inside(log, start, r)
  {
  }

  lemma AfterBoundary(log: seq<byte>, off: nat, items: seq<seq<byte>>, k: nat)
    requires off <= |log| && log[off..] == Join(items) && k <= |items|
    ensures off + |Join(items[..k])| <= |log|
    ensures log[..off + |Join(items[..k])|] == log[..off] + Join(items[..k])
    ensures log[off + |Join(items[..k])|..] == Join(items[k..])
  {
    OffsetIsItem(items, k);
    hide Join;
    assert log == log[..off] + (Join(items[..k]) + Join(items[k..]));
  }

  /** A read from an item boundary never ends inside a sequence, and ends at a boundary. */
  lemma ResumesOutside(log: seq<byte>, start: nat, off: nat, m: Mode, items: seq<seq<byte>>, n: nat)
    requires ItemsBegin(log, start, off, m, items) && off <= n <= |log|
    ensures ResumeAt(log, off, n) == off + |Join(items[..WholeItems(items, n - off)])|
    ensures !Inside(log, start, ResumeAt(log, off, n))
  {
    assert log[off..n] == Join(items)[..n - off];
    hide StripFrom, Inside, SafePrefixLen, AllItems, Join, WholeItems;
    SafeIsWholeItems(items, n - off);
    BoundaryIsOutside(log, start, off, m, items, WholeItems(items, n - off));
  }

  lemma ItemsBeginAt(items: seq<seq<byte>>, i: nat)
    requires AllItems(items) && i <= |items|
    ensures ItemsBegin(Join(items), |Join(items[..i])|, |Join(items[..i])|, Ground, items[i..])
    ensures ValidUtf8(Join(items)[|Join(items[..i])|..])
  {
    OffsetIsItem(items, i);
    SliceIsAllItems(items, i, |items|);
    assert items[i..|items|] == items[i..];
    ItemsAreValid(items[i..]);
    hide ValidUtf8, AllItems, Join;
    StripNothing(Ground, Join(items)[|Join(items[..i])|..|Join(items[..i])|]);
  }

  lemma BoundariesAdd(items: seq<seq<byte>>, i: nat, k: nat)
    requires i + k <= |items|
    ensures |Join(items[..i])| + |Join(items[i..][..k])| == |Join(items[..i + k])|
  {
    assert items[..i + k] == items[..i] + items[i..][..k];
    JoinAppend(items[..i], items[i..][..k]);
  }

  /** Polling equals one read: from any item boundary, reading at any moments while the log
      grows gives the same text and the same resume offset as a single read at the last of
      them; the offset is an item boundary, and the text is the stripped log up to it. */
  lemma PollingEqualsOneRead(items: seq<seq<byte>>, i: nat, lengths: seq<nat>, raw: bool)
    requires AllItems(items) && i <= |items| && Growing(lengths, |Join(items[..i])|, |Join(items)|)
    ensures var off := |Join(items[..i])|;
            var last := Last(lengths);
            var (text, next) := Poll(Join(items), off, lengths, raw);
            && (text, next) == ReadSlice(Join(items)[..last], off, raw)
            && off <= next <= last
            && text == Process(raw, Join(items)[off..next])
            && (exists j :: i <= j <= |items| && next == |Join(items[..j])|)
  {
    var log, off := Join(items), |Join(items[..i])|;
    var last := Last(lengths);
    ItemsBeginAt(items, i);
    hide IsItem, AllItems, ReadSlice, StripFrom, Join, ResumeAt, Inside, ItemsBegin, WholeItems;
    PollingAgreesIff(log, off, lengths);
    forall k | 0 <= k < |lengths|
      ensures !Inside(log, off, ResumeAt(log, off, lengths[k]))
    {
      ResumesOutside(log, off, off, Ground, items[i..], lengths[k]);
    }
    ResumesOutside(log, off, off, Ground, items[i..], last);
    BoundariesAdd(items, i, WholeItems(items[i..], last - off));
    ReadEndsAt(log, off, last, raw);
  }

  /** The text is valid UTF-8, so decoding it piecewise loses nothing. */
  lemma {:induction false} TextIsValid(items: seq<seq<byte>>)
    requires AllItems(items)
    ensures ValidUtf8(TextOf(items))
  {
    if items != [] {
      hide ValidUtf8, IsTextItem, IsItem, AllItems;
      TailIsAllItems(items);
      ItemIsValid(items[0]);
      TextIsValid(items[1..]);
      if IsTextItem(items[0]) {
        ValidConcat(items[0], TextOf(items[1..]));
      } else {
        assert [] + TextOf(items[1..]) == TextOf(items[1..]);
      }
    } else {
      assert ValidUtf8([]);
    }
  }

  // ---------------------------------------------------------------- the string terminator

  /** An OSC that `ESC \` ends is held back while it is incomplete, except between the two
      bytes of its terminator: cut there, and only there, it is resumed in its middle. The
      text is not affected: `PollingEqualsOneRead` covers these logs. */
  lemma StringTerminatorIsSplit(items: seq<seq<byte>>, t: seq<byte>, n: nat)
    requires AllItems(items) && !EndsInHead(items) && IsOscHead([ESC, 0x5d] + t)
    requires 0 < n < |[ESC, 0x5d] + t + ST|
    ensures SafePrefixLen(Join(items) + ([ESC, 0x5d] + t + ST)[..n]) == |Join(items)|
       <==> n != |[ESC, 0x5d] + t + ST| - 1
  {
    var head := [ESC, 0x5d] + t;
    var osc := head + ST;
    if n <= |head| {
      assert osc[..n] == head[..n];
      PartialItemIsHeld(items, head, n);
    } else {
      hide IsOscHead, AllItems, SafePrefixLen;
      HeadAppends(items, head);
      JoinAppend(items, [head]);
      JoinOne(head);
      assert ST[..1] == [ESC] && osc[..n] == head + ST[..1];
      Regroup(Join(items), head, ST[..1]);
      PartialItemIsHeld(items + [head], ST, 1);
    }
  }

  /** For instance, after `ESC ] 0 ; t ESC` everything but the last ESC is shown as read. */
  lemma TerminatorIsCut()
    ensures SafePrefixLen([ESC, 0x5d, 0x30, 0x3b, 0x74, ESC]) == 5
  {
    var s: seq<byte> := [ESC, 0x5d, 0x30, 0x3b, 0x74, ESC];
    LastEscapeIs(s, 5);
    assert s[5..] == [ESC];
    AsciiIsValid(s[..5]);
    ScanIsExact(s[..5]);
  }

  lemma HeadAppends(items: seq<seq<byte>>, head: seq<byte>)
    requires AllItems(items) && !EndsInHead(items) && IsOscHead(head)
    ensures AllItems(items + [head]) && IsItem(ST)
  {
    var longer := items + [head];
    forall k: nat | k + 1 < |longer| && IsOscHead(longer[k])
      ensures longer[k + 1] == ST
    {
      assert longer[k] == items[k];
    }
  }

  lemma UncutIsSafe(s: seq<byte>)
    requires ValidUtf8(s) && EscapeCut(s) == |s|
    ensures SafePrefixLen(s) == |s|
  {
    assert s[..|s|] == s;
    ScanIsExact(s);
  }
}
