/**
 Escape sequences that an incremental reader can split, because their first two bytes count
 as a whole sequence: the control strings other than OSC, and the sequences with intermediate
 bytes. Both are well formed, and neither is held back while it is incomplete.
 */
module SplitSequences {
  import opened Bytes
  import opened SafePrefixes
  import opened Polling

  /** What can follow ESC and `c` unheld: the contents of a control string up to its
      terminator, or any more intermediate bytes and a final byte. */
  predicate IsUnheld(c: byte, h: seq<byte>) {
    if OpensString(c) then
      ValidUtf8(h) && ESC !in h
    else
      IsIntermediate(c) && h != [] && 0x30 <= h[|h| - 1] <= 0x7e
      && forall k | 0 <= k < |h| - 1 :: IsIntermediate(h[k])
  }

  /** Such a sequence between any whole items, or at the end of the log; a control string is
      followed by its terminator, if by anything. */
  predicate IsSurrounded(before: seq<seq<byte>>, c: byte, h: seq<byte>, after: seq<seq<byte>>) {
    && AllItems(before) && !EndsInHead(before) && IsUnheld(c, h) && AllItems(after)
    && (OpensString(c) ==> after == [] || after[0] == ST)
  }

  function LogWith(before: seq<seq<byte>>, c: byte, h: seq<byte>, after: seq<seq<byte>>): seq<byte> {
    Join(before) + ([ESC, c] + h) + Join(after)
  }

  // ---------------------------------------------------------------- the opening

  lemma UnheldIsValid(c: byte, h: seq<byte>)
    requires IsUnheld(c, h)
    ensures ValidUtf8([ESC, c]) && ValidUtf8(h) && ValidUtf8([ESC, c] + h) && NoEscape(h)
  {
    AsciiIsValid([ESC, c]);
    if !OpensString(c) {
      assert forall k | 0 <= k < |h| :: 0x20 <= h[k] < 0x80;
      AsciiIsValid(h);
    }
    hide ValidUtf8;
    ValidConcat([ESC, c], h);
  }

  lemma OpeningIsUncut(a: seq<byte>, c: byte)
    requires OpensString(c) || IsIntermediate(c)
    ensures EscapeCut(a + [ESC, c]) == |a| + 2
  {
    var s := a + [ESC, c];
    assert s[|a|..] == [ESC, c] && s[|a| + 1..] == [c];
    LastEscapeIs(s, |a|);
  }

  lemma OpeningIsWhole(a: seq<byte>, c: byte)
    requires ValidUtf8(a) && (OpensString(c) || IsIntermediate(c))
    ensures SafePrefixLen(a + [ESC, c]) == |a| + 2
  {
    AsciiIsValid([ESC, c]);
    hide ValidUtf8, EscapeCut, SafePrefixLen;
    OpeningIsUncut(a, c);
    ValidConcat(a, [ESC, c]);
    UncutIsSafe(a + [ESC, c]);
  }

  lemma TextIsWhole(s: seq<byte>)
    requires ValidUtf8(s) && NoEscape(s)
    ensures SafePrefixLen(s) == |s|
  {
    UncutIsSafe(s);
  }

  function LogOf(a: seq<byte>, b: seq<byte>, c: byte, h: seq<byte>, z: seq<byte>): seq<byte> {
    (a + b) + ([ESC, c] + h) + z
  }

  lemma LogSplits(a: seq<byte>, b: seq<byte>, c: byte, h: seq<byte>, z: seq<byte>)
    ensures LogOf(a, b, c, h, z)[|a|..] == b + (([ESC, c] + h) + z)
    ensures |LogOf(a, b, c, h, z)| == |a| + |b| + 2 + |h| + |z|
    ensures LogOf(a, b, c, h, z)[|a| + |b| + 2 + |h|..] == z
  {
    assert LogOf(a, b, c, h, z) == a + (b + (([ESC, c] + h) + z));
  }

  lemma OpeningInLog(a: seq<byte>, b: seq<byte>, c: byte, h: seq<byte>, z: seq<byte>)
    ensures LogOf(a, b, c, h, z)[|a|..|a| + |b| + 2] == b + [ESC, c]
    ensures LogOf(a, b, c, h, z)[..|a| + |b|] == a + b && LogOf(a, b, c, h, z)[|a| + |b|] == ESC
    ensures LogOf(a, b, c, h, z)[|a|..|a| + |b| + 1] == b + [ESC]
  {
  }

  lemma ContentsInLog(a: seq<byte>, b: seq<byte>, c: byte, h: seq<byte>, z: seq<byte>, k: nat)
    requires k <= |h|
    ensures LogOf(a, b, c, h, z)[|a|..|a| + |b| + 2 + k] == b + ([ESC, c] + h[..k])
    ensures LogOf(a, b, c, h, z)[|a| + |b| + 2..|a| + |b| + 2 + |h|] == h
    ensures k < |h| ==> LogOf(a, b, c, h, z)[|a| + |b| + 2 + k] == h[k]
  {
  }

  // ---------------------------------------------------------------- where reads end

  /** The log is valid, and a read that sees no more than the opening ends after it. */
  lemma PartsAreValid(a: seq<byte>, b: seq<byte>, c: byte, h: seq<byte>, z: seq<byte>)
    requires ValidUtf8(b) && IsUnheld(c, h) && ValidUtf8(z)
    ensures var log, p := LogOf(a, b, c, h, z), |a| + |b|;
            p + 2 <= |log| && ValidUtf8(log[|a|..]) && ResumeAt(log, |a|, p + 2) == p + 2
  {
    UnheldIsValid(c, h);
    assert OpensString(c) || IsIntermediate(c);
    hide *;
    LogSplits(a, b, c, h, z);
    OpeningInLog(a, b, c, h, z);
    ValidConcat([ESC, c] + h, z);
    ValidConcat(b, ([ESC, c] + h) + z);
    OpeningIsWhole(b, c);
    ResumeIs(LogOf(a, b, c, h, z), |a|, |a| + |b| + 2);
  }

  /** So does one that sees no more than the contents. */
  lemma ContentsAreWhole(a: seq<byte>, b: seq<byte>, c: byte, h: seq<byte>, z: seq<byte>)
    requires ValidUtf8(b) && IsUnheld(c, h) && ValidUtf8(z)
    ensures var log, end := LogOf(a, b, c, h, z), |a| + |b| + 2 + |h|;
            end <= |log| && ValidUtf8(log[|a|..]) && ResumeAt(log, |a|, end) == end
  {
    hide *;
    var log, p := LogOf(a, b, c, h, z), |a| + |b|;
    LogSplits(a, b, c, h, z);
    PartsAreValid(a, b, c, h, z);
    ContentsInLog(a, b, c, h, z, 0);
    UnheldIsValid(c, h);
    TextIsWhole(h);
    ResumeIs(log, p + 2, p + 2 + |h|);
    ResumesCompose(log, |a|, p + 2, p + 2 + |h|);
  }

  lemma ResumeIs(log: seq<byte>, off: nat, n: nat)
    requires off <= n <= |log|
    ensures ResumeAt(log, off, n) == off + SafePrefixLen(log[off..n])
  {
  }

  /** Where the stripper is after some of the sequence. */
  function ModeWithin(c: byte, h: seq<byte>, k: nat): Mode
    requires k <= |h|
  {
    if OpensString(c) then ControlString else if k < |h| then Intermediate else Ground
  }

  lemma ContentsAreHidden(c: byte, h: seq<byte>, k: nat)
    requires IsUnheld(c, h) && k <= |h|
    ensures StripFrom(Ground, [ESC, c] + h[..k]) == (ModeWithin(c, h, k), [])
  {
    var m := StripByte(Escape, c).0;
    StripOpening([ESC, c] + h[..k]);
    assert ([ESC, c] + h[..k])[2..] == h[..k];
    if OpensString(c) || k < |h| {
      StripInside(m, h[..k]);
    } else {
      var init, last := h[..k - 1], h[k - 1];
      assert h[..k] == init + [last];
      StripInside(m, init);
      StripConcat(m, init, [last]);
      StripOne(m, last);
    }
  }

  lemma ModeWithinLog(a: seq<byte>, b: seq<byte>, c: byte, h: seq<byte>, z: seq<byte>, k: nat)
    requires StripFrom(Ground, b).0 == Ground && IsUnheld(c, h) && k <= |h|
    ensures var log, r := LogOf(a, b, c, h, z), |a| + |b| + 2 + k;
            r <= |log| && StripFrom(Ground, log[|a|..r]).0 == ModeWithin(c, h, k)
  {
    ContentsAreHidden(c, h, k);
    hide *;
    LogSplits(a, b, c, h, z);
    StripConcat(Ground, b, [ESC, c] + h[..k]);
    ContentsInLog(a, b, c, h, z, k);
  }

  lemma TextBefore(before: seq<seq<byte>>, i: nat)
    requires AllItems(before) && !EndsInHead(before) && i <= |before|
    ensures Join(before) == Join(before[..i]) + Join(before[i..]) && StripFrom(Ground, Join(before[i..])).0 == Ground
    ensures AllItems(before[i..]) && !EndsInHead(before[i..])
  {
    var rest := before[i..];
    OffsetIsItem(before, i);
    SliceIsAllItems(before, i, |before|);
    assert before[i..|before|] == rest && (rest != [] ==> rest[|rest| - 1] == before[|before| - 1]);
    StripItems(Ground, rest);
  }

  /** A read that sees nothing of the sequence ends before it. */
  lemma EndsBefore(before: seq<seq<byte>>, i: nat, c: byte, h: seq<byte>, z: seq<byte>, n: nat)
    requires AllItems(before) && !EndsInHead(before) && i <= |before|
    requires |Join(before[..i])| <= n <= |Join(before)|
    ensures var log, off := LogOf(Join(before[..i]), Join(before[i..]), c, h, z), |Join(before[..i])|;
            n <= |log| && ResumeAt(log, off, n) <= |Join(before)| && !Inside(log, off, ResumeAt(log, off, n))
  {
    hide *;
    var a, b := Join(before[..i]), Join(before[i..]);
    TextBefore(before, i);
    LogSplits(a, b, c, h, z);
    OpeningInLog(a, b, c, h, z);
    EndsAmongItems(LogOf(a, b, c, h, z), before, i, n);
  }

  /** And so does one that sees only its ESC. */
  lemma EndsAtEscape(before: seq<seq<byte>>, i: nat, c: byte, h: seq<byte>, z: seq<byte>)
    requires AllItems(before) && !EndsInHead(before) && i <= |before|
    ensures var log, off := LogOf(Join(before[..i]), Join(before[i..]), c, h, z), |Join(before[..i])|;
            var p := off + |Join(before[i..])|;
            p == |Join(before)| < |log| && ResumeAt(log, off, p + 1) == p && !Inside(log, off, p)
  {
    hide *;
    var a, b := Join(before[..i]), Join(before[i..]);
    TextBefore(before, i);
    LogSplits(a, b, c, h, z);
    OpeningInLog(a, b, c, h, z);
    SeesEscape(LogOf(a, b, c, h, z), |a|, before[i..]);
  }

  lemma EndsAmongItems(log: seq<byte>, items: seq<seq<byte>>, i: nat, n: nat)
    requires AllItems(items) && i <= |items| && |Join(items[..i])| <= n <= |Join(items)| < |log|
    requires log[..|Join(items)|] == Join(items) && log[|Join(items)|] == ESC
    ensures !Inside(log, |Join(items[..i])|, ResumeAt(log, |Join(items[..i])|, n))
  {
    hide *;
    var other, off := Join(items), |Join(items[..i])|;
    ItemsBeginAt(items, i);
    ResumesOutside(other, off, off, Ground, items[i..], n);
    SameUpTo(log, other, off, |other|, n);
  }

  lemma SliceOfPrefix(s: seq<byte>, p: nat, i: nat, j: nat)
    requires i <= j <= p <= |s|
    ensures s[..p][i..j] == s[i..j] && (j < p ==> s[..p][j] == s[j])
  {
  }

  lemma SameUpTo(log: seq<byte>, other: seq<byte>, off: nat, p: nat, n: nat)
    requires off <= n <= p == |other| < |log| && log[..p] == other && log[p] == ESC
    ensures ResumeAt(log, off, n) == ResumeAt(other, off, n)
    ensures !Inside(other, off, ResumeAt(other, off, n)) ==> !Inside(log, off, ResumeAt(log, off, n))
  {
    SliceOfPrefix(log, p, off, n);
    SliceOfPrefix(log, p, off, ResumeAt(log, off, n));
    hide SafePrefixLen, StripFrom;
  }

  lemma SeesEscape(log: seq<byte>, off: nat, items: seq<seq<byte>>)
    requires AllItems(items) && !EndsInHead(items)
    requires off + |Join(items)| < |log| && log[off..off + |Join(items)| + 1] == Join(items) + [ESC]
    ensures var p := off + |Join(items)|;
            ResumeAt(log, off, p + 1) == p && !Inside(log, off, p)
  {
    var p := off + |Join(items)|;
    assert IsEscapeItem(ST);
    assert ST[..1] == [ESC] && log[p] == log[off..p + 1][p - off];
    hide SafePrefixLen, AllItems, Join, StripFrom, IsItem, EndsInHead, Unfinished;
    PartialItemIsHeld(items, ST, 1);
  }

  /** One that sees the opening, but not all of what has to follow, ends inside of it. */
  lemma EndsWithin(a: seq<byte>, b: seq<byte>, c: byte, h: seq<byte>, z: seq<byte>, n: nat)
    requires ValidUtf8(b) && StripFrom(Ground, b).0 == Ground && IsUnheld(c, h) && ValidUtf8(z)
    requires |a| + |b| + 2 <= n < |a| + |b| + 2 + |h|
    ensures var log := LogOf(a, b, c, h, z);
            n <= |log| && Inside(log, |a|, ResumeAt(log, |a|, n))
  {
    hide *;
    var log, p := LogOf(a, b, c, h, z), |a| + |b|;
    PartsAreValid(a, b, c, h, z);
    LogSplits(a, b, c, h, z);
    ResumesCompose(log, |a|, p + 2, n);
    ContentsAreInside(a, b, c, h, z, ResumeAt(log, |a|, n) - p - 2);
  }

  lemma ContentsAreInside(a: seq<byte>, b: seq<byte>, c: byte, h: seq<byte>, z: seq<byte>, k: nat)
    requires StripFrom(Ground, b).0 == Ground && IsUnheld(c, h) && k < |h|
    ensures var log, r := LogOf(a, b, c, h, z), |a| + |b| + 2 + k;
            r < |log| && Inside(log, |a|, r)
  {
    ModeWithinLog(a, b, c, h, z, k);
    UnheldIsValid(c, h);
    LogSplits(a, b, c, h, z);
    ContentsInLog(a, b, c, h, z, k);
    hide ValidUtf8, StripFrom, LogOf, IsUnheld;
    assert h[k] in h;
  }

  /** And one that sees more ends after it, and outside of any sequence. */
  lemma EndsAfter(a: seq<byte>, b: seq<byte>, c: byte, h: seq<byte>, after: seq<seq<byte>>, n: nat)
    requires ValidUtf8(b) && StripFrom(Ground, b).0 == Ground && IsUnheld(c, h)
    requires AllItems(after) && (OpensString(c) ==> after == [] || after[0] == ST)
    requires |a| + |b| + 2 + |h| <= n <= |LogOf(a, b, c, h, Join(after))|
    ensures var log := LogOf(a, b, c, h, Join(after));
            |a| + |b| + 2 + |h| <= ResumeAt(log, |a|, n) && !Inside(log, |a|, ResumeAt(log, |a|, n))
  {
    var z := Join(after);
    var log, end := LogOf(a, b, c, h, z), |a| + |b| + 2 + |h|;
    ItemsAreValid(after);
    ModeWithinLog(a, b, c, h, z, |h|);
    LogSplits(a, b, c, h, z);
    assert ItemsBegin(log, |a|, end, ModeWithin(c, h, |h|), after);
    hide *;
    ContentsAreWhole(a, b, c, h, z);
    ResumesCompose(log, |a|, end, n);
    ResumesOutside(log, |a|, end, ModeWithin(c, h, |h|), after, n);
  }

  // ---------------------------------------------------------------- when the text is the same

  /** The sequence is open at this length of the log: the opening is there, but not all of
      what has to follow. */
  predicate IsOpenAt(before: seq<seq<byte>>, h: seq<byte>, n: nat) {
    |Join(before)| + 2 <= n < |Join(before)| + 2 + |h|
  }

  lemma InsideIffOpen(before: seq<seq<byte>>, c: byte, h: seq<byte>, after: seq<seq<byte>>, i: nat, n: nat)
    requires IsSurrounded(before, c, h, after) && i <= |before|
    requires |Join(before[..i])| <= n <= |LogWith(before, c, h, after)|
    ensures var log, off := LogWith(before, c, h, after), |Join(before[..i])|;
            && (Inside(log, off, ResumeAt(log, off, n)) <==> IsOpenAt(before, h, n))
            && (n >= |Join(before)| + 2 + |h| ==> ResumeAt(log, off, n) >= |Join(before)| + 2 + |h|)
  {
    var a, b := Join(before[..i]), Join(before[i..]);
    TextBefore(before, i);
    ItemsAreValid(before[i..]);
    ItemsAreValid(after);
    hide Inside, ResumeAt, Join, StripFrom, AllItems, EndsInHead, IsUnheld, ValidUtf8;
    if n <= |Join(before)| {
      EndsBefore(before, i, c, h, Join(after), n);
    } else if n == |Join(before)| + 1 {
      EndsAtEscape(before, i, c, h, Join(after));
    } else if n < |Join(before)| + 2 + |h| {
      EndsWithin(a, b, c, h, Join(after), n);
    } else {
      EndsAfter(a, b, c, h, after, n);
    }
  }

  lemma LogWithIsValid(before: seq<seq<byte>>, c: byte, h: seq<byte>, after: seq<seq<byte>>, i: nat)
    requires IsSurrounded(before, c, h, after) && i <= |before|
    ensures |Join(before[..i])| <= |Join(before)|
    ensures ValidUtf8(LogWith(before, c, h, after)[|Join(before[..i])|..])
  {
    TextBefore(before, i);
    ItemsAreValid(before[i..]);
    ItemsAreValid(after);
    hide Join, StripFrom, AllItems, EndsInHead, IsUnheld, ValidUtf8;
    PartsAreValid(Join(before[..i]), Join(before[i..]), c, h, Join(after));
  }

  /** From any item boundary before such a sequence, and for reads at any moments of growth:
      polling gets as far as one read, and its text is the same if and only if no moment
      finds the sequence open, but one whose read ends where the last one does. So once the
      last read sees all of the sequence, no moment may find it open. */
  lemma SplitReadsAgreeIff(before: seq<seq<byte>>, c: byte, h: seq<byte>, after: seq<seq<byte>>, i: nat,
                           lengths: seq<nat>)
    requires IsSurrounded(before, c, h, after) && i <= |before|
    requires Growing(lengths, |Join(before[..i])|, |LogWith(before, c, h, after)|)
    ensures var log, off := LogWith(before, c, h, after), |Join(before[..i])|;
            var (text, next) := ReadSlice(log[..Last(lengths)], off, false);
            var agree := Poll(log, off, lengths, false) == (text, next);
            && Poll(log, off, lengths, false).1 == next
            && (agree <==> forall k | 0 <= k < |lengths| ::
                  IsOpenAt(before, h, lengths[k]) ==> ResumeAt(log, off, lengths[k]) == next)
            && (Last(lengths) >= |Join(before)| + 2 + |h| ==>
                  (agree <==> forall k | 0 <= k < |lengths| :: !IsOpenAt(before, h, lengths[k])))
  {
    var log, off := LogWith(before, c, h, after), |Join(before[..i])|;
    LogWithIsValid(before, c, h, after, i);
    hide IsSurrounded, Join, LogWith, Inside, ResumeAt, ReadSlice;
    forall k | 0 <= k < |lengths|
      ensures Inside(log, off, ResumeAt(log, off, lengths[k])) <==> IsOpenAt(before, h, lengths[k])
    {
      InsideIffOpen(before, c, h, after, i, lengths[k]);
    }
    InsideIffOpen(before, c, h, after, i, Last(lengths));
    PollingAgreesIff(log, off, lengths);
    ReadEndsAt(log, off, Last(lengths), false);
  }

  /** So one early read and one of the whole log agree with reading it once if and only if
      the early one finds less than the opening, or all of the sequence. */
  lemma TwoReadsAgreeIff(before: seq<seq<byte>>, c: byte, h: seq<byte>, after: seq<seq<byte>>, i: nat, n: nat)
    requires IsSurrounded(before, c, h, after) && i <= |before|
    requires |Join(before[..i])| <= n <= |LogWith(before, c, h, after)|
    ensures var log, off := LogWith(before, c, h, after), |Join(before[..i])|;
            Poll(log, off, [n, |log|], false) == ReadSlice(log, off, false)
            <==> n < |Join(before)| + 2 || n >= |Join(before)| + 2 + |h|
  {
    var log, lengths := LogWith(before, c, h, after), [n, |LogWith(before, c, h, after)|];
    assert log[..|log|] == log && Last(lengths) == |log|;
    assert |log| >= |Join(before)| + 2 + |h|;
    hide IsSurrounded, Join, LogWith, ReadSlice, Poll;
    SplitReadsAgreeIff(before, c, h, after, i, lengths);
    assert !IsOpenAt(before, h, lengths[1]) && lengths[0] == n;
  }

  /** After whole items, a part of such a sequence is held back if and only if it is a single
      byte; of more, at least the opening is shown. */
  lemma OpeningIsHeldIff(items: seq<seq<byte>>, c: byte, h: seq<byte>, n: nat)
    requires AllItems(items) && !EndsInHead(items) && IsUnheld(c, h) && 0 < n <= 2 + |h|
    ensures var safe := SafePrefixLen(Join(items) + ([ESC, c] + h)[..n]);
            && (safe == |Join(items)| <==> n == 1)
            && (n >= 2 ==> safe >= |Join(items)| + 2)
  {
    var a, s := Join(items), ([ESC, c] + h)[..n];
    if n == 1 {
      assert s == ST[..1];
      PartialItemIsHeld(items, ST, 1);
    } else {
      ItemsAreValid(items);
      hide *;
      OpeningIsShown(a, c, h, n);
    }
  }

  lemma OpeningIsShown(a: seq<byte>, c: byte, h: seq<byte>, n: nat)
    requires ValidUtf8(a) && IsUnheld(c, h) && 2 <= n <= 2 + |h|
    ensures SafePrefixLen(a + ([ESC, c] + h)[..n]) >= |a| + 2
  {
    hide *;
    var log := LogOf([], a, c, h, []);
    assert log == a + ([ESC, c] + h) && log[0..|a| + n] == a + ([ESC, c] + h)[..n] by {
      LogSplits([], a, c, h, []);
    }
    AsciiIsValid([]);
    PartsAreValid([], a, c, h, []);
    ResumesCompose(log, 0, |a| + 2, |a| + n);
    ResumeIs(log, 0, |a| + n);
  }

  // ---------------------------------------------------------------- what is shown

  lemma TwoReads(log: seq<byte>, m: nat)
    requires m <= |log| && SafePrefixLen(log[..m]) == m && SafePrefixLen(log[m..]) == |log| - m
    ensures Poll(log, 0, [m, |log|], false) == (Strip(log[..m]) + Strip(log[m..]), |log|)
  {
    hide SafePrefixLen, StripFrom;
    assert log[0..m] == log[..m] && log[m..|log|] == log[m..];
    PollSteps(log, 0, [m, |log|]);
    assert [m, |log|][1..] == [|log|];
    PollSteps(log, m, [|log|]);
    assert [|log|][1..] == [];
    PollNothing(log, |log|, []);
    assert Strip(log[m..]) + [] == Strip(log[m..]);
  }

  lemma WholeRead(log: seq<byte>)
    requires SafePrefixLen(log) == |log|
    ensures ReadSlice(log, 0, false) == (Strip(log), |log|)
  {
    assert log[0..|log|] == log == log[..|log|];
    hide SafePrefixLen;
    ReadEndsAt(log, 0, |log|, false);
  }

  /** What has to follow the sequence: a control string is terminated. */
  function Ending(c: byte): seq<byte> { if OpensString(c) then ST else [] }

  lemma EndingIsShown(c: byte, t: seq<byte>)
    requires ValidUtf8(t) && NoEscape(t)
    ensures SafePrefixLen(t + Ending(c)) == |t + Ending(c)| && Strip(t + Ending(c)) == t
  {
    StripText(t);
    if OpensString(c) {
      StripConcat(Ground, t, ST);
      StripTerminator(Ground);
      hide StripFrom;
      assert t + [] == t;
      TerminatedIsWhole(t);
    } else {
      assert t + [] == t;
      TextIsWhole(t);
    }
  }

  lemma TerminatedIsWhole(a: seq<byte>)
    requires ValidUtf8(a)
    ensures SafePrefixLen(a + ST) == |a| + 2
  {
    AsciiIsValid(ST);
    TerminatedIsUncut(a);
    hide *;
    ValidConcat(a, ST);
    UncutIsSafe(a + ST);
  }

  lemma TerminatedIsUncut(a: seq<byte>)
    ensures EscapeCut(a + ST) == |a| + 2
  {
    var s := a + ST;
    assert s[|a|..] == ST && s[|a| + 1..] == [0x5c];
    LastEscapeIs(s, |a|);
  }

  lemma BeginningIsUncut(c: byte, t: seq<byte>)
    requires (OpensString(c) || IsIntermediate(c)) && NoEscape(t)
    ensures EscapeCut([ESC, c] + t) == 2 + |t|
  {
    var s := [ESC, c] + t;
    assert s[0..] == s && s[1..] == [c] + t;
    LastEscapeIs(s, 0);
  }

  /** The beginning of the sequence is whole, and shows nothing. */
  lemma BeginningIsWhole(c: byte, h: seq<byte>, k: nat)
    requires IsUnheld(c, h) && k <= |h| && ValidUtf8(h[..k])
    ensures SafePrefixLen([ESC, c] + h[..k]) == 2 + k && Strip([ESC, c] + h[..k]) == []
  {
    var s := [ESC, c] + h[..k];
    UnheldIsValid(c, h);
    ContentsAreHidden(c, h, k);
    hide ValidUtf8, StripFrom, IsUnheld;
    assert forall b | b in h[..k] :: b in h;
    BeginningIsUncut(c, h[..k]);
    hide *;
    ValidConcat([ESC, c], h[..k]);
    UncutIsSafe(s);
  }

  lemma WholeIsHidden(c: byte, h: seq<byte>)
    requires IsUnheld(c, h)
    ensures var log := [ESC, c] + h + Ending(c);
            SafePrefixLen(log) == |log| && Strip(log) == []
  {
    var s := [ESC, c] + h;
    UnheldIsValid(c, h);
    assert h[..|h|] == h;
    if OpensString(c) {
      ContentsAreHidden(c, h, |h|);
      hide StripFrom, ValidUtf8, IsUnheld, SafePrefixLen;
      StripConcat(Ground, s, ST);
      StripTerminator(ControlString);
      TerminatedIsWhole(s);
    } else {
      assert s + [] == s;
      hide StripFrom, ValidUtf8, IsUnheld, SafePrefixLen;
      BeginningIsWhole(c, h, |h|);
    }
  }

  /** Read at once, the sequence shows nothing; cut before one of its characters, it shows
      all of its rest. */
  lemma RestIsShown(c: byte, h: seq<byte>, k: nat)
    requires IsUnheld(c, h) && k <= |h| && ValidUtf8(h[..k])
    ensures var log := [ESC, c] + h + Ending(c);
            ReadSlice(log, 0, false) == ([], |log|) && Poll(log, 0, [2 + k, |log|], false) == (h[k..], |log|)
  {
    hide *;
    var log := [ESC, c] + h + Ending(c);
    UnheldIsValid(c, h);
    RestIsValid(h, k);
    CutAt([ESC, c], h, Ending(c), k);
    assert [] + h[k..] == h[k..];
    BeginningIsWhole(c, h, k);
    EndingIsShown(c, h[k..]);
    WholeIsHidden(c, h);
    WholeRead(log);
    TwoReads(log, 2 + k);
  }

  lemma CutAt(a: seq<byte>, h: seq<byte>, z: seq<byte>, k: nat)
    requires k <= |h|
    ensures (a + h + z)[..|a| + k] == a + h[..k] && (a + h + z)[|a| + k..] == h[k..] + z
  {
  }

  lemma RestIsValid(h: seq<byte>, k: nat)
    requires ValidUtf8(h) && NoEscape(h) && k <= |h| && ValidUtf8(h[..k])
    ensures ValidUtf8(h[k..]) && NoEscape(h[k..])
  {
    hide ValidUtf8;
    assert h == h[..k] + h[k..];
    assert forall b | b in h[k..] :: b in h;
    ValidConcat(h[..k], h[k..]);
  }

  /** For instance, of `ESC ( B`, which selects a character set, the first two bytes are not
      held back, and a reader that looks between them and the third shows the letter. */
  lemma FinalByteIsShown()
    ensures var log: seq<byte> := [ESC, 0x28, 0x42];
            && SafePrefixLen(log[..1]) == 0 && SafePrefixLen(log[..2]) == 2
            && ReadSlice(log, 0, false) == ([], 3) && Poll(log, 0, [2, 3], false) == ([0x42], 3)
  {
    var log: seq<byte>, h: seq<byte> := [ESC, 0x28, 0x42], [0x42];
    assert IsUnheld(0x28, h) && ValidUtf8([]) && h[..0] == [] && h[0..] == h;
    assert [ESC, 0x28] + h + Ending(0x28) == log && log[..2] == [ESC, 0x28] + [];
    LastEscapeIs([ESC], 0);
    assert log[..1] == [ESC] && [ESC][..0] == [] && [ESC][0..] == [ESC];
    assert SafePrefixLen([ESC]) == 0;
    hide *;
    BeginningIsWhole(0x28, h, 0);
    RestIsShown(0x28, h, 0);
  }

  /** And of `ESC P x y ESC \` one that looks after three bytes shows the second letter. */
  lemma ContentsAreShown()
    ensures var log: seq<byte> := [ESC, 0x50, 0x78, 0x79, ESC, 0x5c];
            ReadSlice(log, 0, false) == ([], 6) && Poll(log, 0, [3, 6], false) == ([0x79], 6)
  {
    var log: seq<byte>, h: seq<byte> := [ESC, 0x50, 0x78, 0x79, ESC, 0x5c], [0x78, 0x79];
    assert [ESC, 0x50] + h + Ending(0x50) == log && h[1..] == [0x79];
    AsciiIsValid(h);
    AsciiIsValid(h[..1]);
    RestIsShown(0x50, h, 1);
  }
}
