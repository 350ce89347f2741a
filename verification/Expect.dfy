/**
 The polling loop of `expect`, which waits for a pattern in the text of a growing log. The
 pattern is any predicate on text; a look is what one round of the loop finds.
 */
module Expecting {
  import opened Bytes
  import opened Polling

  /** The length of the log, whether the command has finished (and then the length at the
      last read), and whether the deadline has passed. */
  datatype Look = Look(length: nat, finished: bool, finalLength: nat, pastDeadline: bool)

  predicate GoodLooks(looks: seq<Look>, start: nat, end: nat) {
    && (forall k | 0 <= k < |looks| :: start <= looks[k].length <= looks[k].finalLength <= end)
    && forall j, k | 0 <= j < k < |looks| :: looks[j].length <= looks[k].length
  }

  /** All the text from `start` that one read of the first `n` bytes of the log shows. */
  function Seen(log: seq<byte>, start: nat, n: nat, raw: bool): seq<byte>
    requires n <= |log|
  {
    ReadSlice(log[..n], start, raw).0
  }

  /** What one look decides by itself, without any earlier one. */
  function Verdict(log: seq<byte>, start: nat, raw: bool, matches: seq<byte> -> bool, look: Look): Option<nat>
    requires look.length <= |log| && look.finalLength <= |log|
  {
    var text := Seen(log, start, look.length, raw);
    if text != [] && matches(text) then Some(0)
    else if look.finished then Some(if matches(Seen(log, start, look.finalLength, raw)) then 0 else 1)
    else if look.pastDeadline then Some(124)
    else None
  }

  /** The verdict of the first look that has one. */
  function Outcome(log: seq<byte>, start: nat, raw: bool, matches: seq<byte> -> bool, looks: seq<Look>): Option<nat>
    requires forall k | 0 <= k < |looks| :: looks[k].length <= |log| && looks[k].finalLength <= |log|
    decreases |looks|
  {
    if looks == [] then None
    else
      var verdict := Verdict(log, start, raw, matches, looks[0]);
      if verdict.Some? then verdict else Outcome(log, start, raw, matches, looks[1..])
  }

  lemma PollTwice(log: seq<byte>, off: nat, m: nat, n: nat, raw: bool)
    requires m <= n <= |log|
    ensures var (text, next) := ReadSlice(log[..m], off, raw);
            var (more, last) := ReadSlice(log[..n], next, raw);
            Poll(log, off, [m, n], raw) == (text + more, last)
  {
    hide ReadSlice;
    var (text, next) := ReadSlice(log[..m], off, raw);
    var (more, last) := ReadSlice(log[..n], next, raw);
    assert [m, n][1..] == [n] && [n][1..] == [];
    assert Poll(log, last, [], raw) == ([], last);
    assert Poll(log, next, [n], raw) == (more + [], last) && more + [] == more;
  }

  /** A read that goes on from where an earlier one ended completes it to one read. */
  lemma ReadsCompose(items: seq<seq<byte>>, i: nat, m: nat, n: nat, raw: bool)
    requires AllItems(items) && i <= |items| && |Join(items[..i])| <= m <= n <= |Join(items)|
    ensures var log := Join(items);
            var (text, off) := ReadSlice(log[..m], |Join(items[..i])|, raw);
            var (more, next) := ReadSlice(log[..n], off, raw);
            (text + more, next) == ReadSlice(log[..n], |Join(items[..i])|, raw)
  {
    hide AllItems, Join, ReadSlice;
    PollingEqualsOneRead(items, i, [m, n], raw);
    PollTwice(Join(items), |Join(items[..i])|, m, n, raw);
  }

  /** The loop keeps a buffer and reads piecewise; what it returns is decided, look by look,
      by single reads of the whole log. */
  method Expect(items: seq<seq<byte>>, i: nat, raw: bool, matches: seq<byte> -> bool, looks: seq<Look>)
      returns (code: Option<nat>)
    requires AllItems(items) && i <= |items|
    requires GoodLooks(looks, |Join(items[..i])|, |Join(items)|)
    ensures code == Outcome(Join(items), |Join(items[..i])|, raw, matches, looks)
  {
    hide AllItems, Join, ReadSlice;
    var log, start := Join(items), |Join(items[..i])|;
    var off, buf := start, [];
    var k := 0;
    ghost var m := start;
    OffsetIsItem(items, i);
    StartIsNothing(log, start, raw);
    while k < |looks|
      invariant 0 <= k <= |looks| && start <= m <= |log|
      invariant k < |looks| ==> m <= looks[k].length
      invariant (buf, off) == ReadSlice(log[..m], start, raw)
      invariant buf == [] || !matches(buf)
      invariant Outcome(log, start, raw, matches, looks) == Outcome(log, start, raw, matches, looks[k..])
    {
      var look := looks[k];
      var (text, next) := ReadSlice(log[..look.length], off, raw);
      ReadsCompose(items, i, m, look.length, raw);
      off := next;
      m := look.length;
      if text != [] {
        buf := buf + text;
        if matches(buf) {
          return Some(0);
        }
      } else {
        assert buf + text == buf;
      }
      if look.finished {
        var (tail, _) := ReadSlice(log[..look.finalLength], off, raw);
        ReadsCompose(items, i, m, look.finalLength, raw);
        buf := buf + tail;
        return if matches(buf) then Some(0) else Some(1);
      }
      if look.pastDeadline {
        return Some(124);
      }
      assert looks[k..][1..] == looks[k + 1..];
      k := k + 1;
    }
    return None;
  }

  lemma StartIsNothing(log: seq<byte>, start: nat, raw: bool)
    requires start <= |log|
    ensures ReadSlice(log[..start], start, raw) == ([], start)
  {
  }

  // ---------------------------------------------------------------- what is returned

  predicate Finds(log: seq<byte>, start: nat, raw: bool, matches: seq<byte> -> bool, look: Look)
    requires look.length <= |log|
  {
    Seen(log, start, look.length, raw) != [] && matches(Seen(log, start, look.length, raw))
  }

  /** What ends a wait: the pattern is found; or the command has finished, and then the
      pattern is looked for in all its output; or else the deadline has passed. */
  predicate Returns(log: seq<byte>, start: nat, raw: bool, matches: seq<byte> -> bool, look: Look, code: nat)
    requires look.length <= |log| && look.finalLength <= |log|
  {
    || (code == 0 && Finds(log, start, raw, matches, look))
    || (!Finds(log, start, raw, matches, look) && look.finished
        && code == if matches(Seen(log, start, look.finalLength, raw)) then 0 else 1)
    || (!Finds(log, start, raw, matches, look) && !look.finished && look.pastDeadline && code == 124)
  }

  predicate KeepsWaiting(log: seq<byte>, start: nat, raw: bool, matches: seq<byte> -> bool, look: Look)
    requires look.length <= |log|
  {
    !Finds(log, start, raw, matches, look) && !look.finished && !look.pastDeadline
  }

  /** A wait returns at the first look that ends it, and not before: 0 for a match, 1 when
      the command has finished without one, 124 at the deadline. */
  lemma {:induction false} OutcomeReturns(log: seq<byte>, start: nat, raw: bool, matches: seq<byte> -> bool,
                                          looks: seq<Look>) returns (k: nat)
    requires forall k | 0 <= k < |looks| :: looks[k].length <= |log| && looks[k].finalLength <= |log|
    ensures k <= |looks| && forall j | 0 <= j < k :: KeepsWaiting(log, start, raw, matches, looks[j])
    ensures var code := Outcome(log, start, raw, matches, looks);
            if k == |looks| then code == None
            else code.Some? && Returns(log, start, raw, matches, looks[k], code.value)
    decreases |looks|
  {
    hide Seen;
    if looks == [] {
      k := 0;
    } else if Verdict(log, start, raw, matches, looks[0]).Some? {
      k := 0;
    } else {
      k := OutcomeReturns(log, start, raw, matches, looks[1..]);
      k := k + 1;
    }
  }

  // ---------------------------------------------------------------- when the schedule does not matter

  /** Looks of which the last, and only the last, finds the command finished, in time. */
  predicate CommandEnded(looks: seq<Look>, start: nat, end: nat) {
    && looks != [] && GoodLooks(looks, start, end)
    && forall k | 0 <= k < |looks| :: !looks[k].pastDeadline && (looks[k].finished <==> k == |looks| - 1)
  }

  /** What a wait should return: whether the pattern is in the whole text. */
  function WholeVerdict(log: seq<byte>, start: nat, raw: bool, matches: seq<byte> -> bool, n: nat): Option<nat>
    requires n <= |log|
  {
    Some(if matches(Seen(log, start, n, raw)) then 0 else 1)
  }

  ghost predicate Independent(raw: bool, matches: seq<byte> -> bool, items: seq<seq<byte>>, i: nat, looks: seq<Look>) {
    AllItems(items) && i <= |items| && CommandEnded(looks, |Join(items[..i])|, |Join(items)|) ==>
      Outcome(Join(items), |Join(items[..i])|, raw, matches, looks)
      == WholeVerdict(Join(items), |Join(items[..i])|, raw, matches, looks[|looks| - 1].finalLength)
  }

  /** The pattern is in the text of `a` and no longer in that of `a` and `b`. */
  predicate StopsMatching(raw: bool, matches: seq<byte> -> bool, a: seq<seq<byte>>, b: seq<seq<byte>>) {
    && AllItems(a + b) && Shown(raw, a) != [] && matches(Shown(raw, a))
    && !matches(Shown(raw, a + b))
  }

  /** Once the pattern is in some text, it stays in it, whatever the log goes on with. */
  ghost predicate KeepsMatching(raw: bool, matches: seq<byte> -> bool) {
    forall a, b :: !StopsMatching(raw, matches, a, b)
  }

  /** Where a log has to be cut for its first `k` items to be what is shown. */
  function CutFor(items: seq<seq<byte>>, k: nat): nat
    requires k <= |items|
  {
    |Join(items[..k])| + if EndsInHead(items[..k]) then 1 else 0
  }

  /** Counting can start over at a boundary that an earlier read has passed. */
  lemma {:induction false} WholeItemsSkip(items: seq<seq<byte>>, i: nat, n: nat)
    requires i <= |items| && |Join(items[..i])| <= n && forall b | b in items :: b != []
    requires n == |Join(items[..i])| ==> !EndsInHead(items[..i])
    ensures WholeItems(items, n) == i + WholeItems(items[i..], n - |Join(items[..i])|)
  {
    if i == 0 {
      assert items[..0] == [] && items[0..] == items;
    } else {
      hide IsOscHead;
      assert items[..i][1..] == items[1..][..i - 1] && items[i..] == items[1..][i - 1..];
      assert items[..i][0] == items[0] && (i > 1 ==> items[..i][i - 1] == items[1..][..i - 1][i - 2]);
      assert i > 1 ==> items[1] in items && items[1..][..i - 1][0] == items[1];
      assert forall b | b in items[1..] :: b in items;
      assert |Join(items[..i])| == |items[0]| + |Join(items[1..][..i - 1])|;
      WholeItemsSkip(items[1..], i - 1, n - |items[0]|);
    }
  }

  lemma {:induction false} WholeItemsGrow(items: seq<seq<byte>>, m: nat, n: nat)
    requires m <= n
    ensures WholeItems(items, m) <= WholeItems(items, n)
  {
    if items != [] && |items[0]| <= m {
      WholeItemsGrow(items[1..], m - |items[0]|, n - |items[0]|);
    }
  }

  lemma ItemsHaveBytes(items: seq<seq<byte>>)
    requires AllItems(items)
    ensures forall b | b in items :: b != []
  {
  }

  lemma CutCounts(items: seq<seq<byte>>, k: nat)
    requires AllItems(items) && k <= |items| && CutFor(items, k) <= |Join(items)|
    ensures WholeItems(items, CutFor(items, k)) == k
  {
    var n := CutFor(items, k);
    ItemsHaveBytes(items);
    OffsetIsItem(items, k);
    if k < |items| {
      assert items[k] in items && items[k..][0] == items[k];
      assert EndsInHead(items[..k]) ==> items[k] == ST;
    } else {
      assert items[..k] == items && Join(items[k..]) == [];
    }
    hide AllItems, EndsInHead, Join;
    WholeItemsSkip(items, k, n);
  }

  lemma CutShows(items: seq<seq<byte>>, k: nat, raw: bool)
    requires AllItems(items) && k <= |items| && CutFor(items, k) <= |Join(items)|
    ensures Seen(Join(items), 0, CutFor(items, k), raw) == Shown(raw, items[..k])
  {
    CutCounts(items, k);
    assert Join(items[..0]) == [];
    hide *;
    assert items[0..] == items && items[0..k] == items[..k];
    SeenIs(items, 0, CutFor(items, k), raw);
  }

  /** A pattern that can stop matching is missed or found depending on the looks. */
  lemma StoppingDepends(raw: bool, matches: seq<byte> -> bool, a: seq<seq<byte>>, b: seq<seq<byte>>)
      returns (items: seq<seq<byte>>, looks: seq<Look>)
    requires StopsMatching(raw, matches, a, b)
    ensures !Independent(raw, matches, items, 0, looks)
  {
    items := Continued(a, b) by {
      assert b == [] ==> a + b == a;
    }
    var m, n := CutFor(items, |a|), CutFor(items, |a + b|);
    CutShows(items, |a|, raw);
    CutShows(items, |a + b|, raw);
    hide AllItems, Join, EndsInHead, Shown, ReadSlice, CutFor;
    looks := [Look(m, false, m, false), Look(n, true, n, false)];
    LooksDiffer(items, raw, matches, m, n);
  }

  lemma LooksDiffer(items: seq<seq<byte>>, raw: bool, matches: seq<byte> -> bool, m: nat, n: nat)
    requires AllItems(items) && m <= n <= |Join(items)|
    requires Seen(Join(items), 0, m, raw) != [] && matches(Seen(Join(items), 0, m, raw))
    requires !matches(Seen(Join(items), 0, n, raw))
    ensures !Independent(raw, matches, items, 0, [Look(m, false, m, false), Look(n, true, n, false)])
  {
    hide AllItems, Seen;
    assert Join(items[..0]) == [];
    hide Join;
    var looks := [Look(m, false, m, false), Look(n, true, n, false)];
    assert Verdict(Join(items), 0, raw, matches, looks[0]) == Some(0);
    assert CommandEnded(looks, 0, |Join(items)|);
  }

  /** A log that goes on far enough for both texts to be shown. */
  lemma Continued(a: seq<seq<byte>>, b: seq<seq<byte>>) returns (items: seq<seq<byte>>)
    requires AllItems(a + b) && b != []
    ensures AllItems(items) && |a + b| <= |items| && items[..|a|] == a && items[..|a + b|] == a + b
    ensures CutFor(items, |a|) <= CutFor(items, |a + b|) <= |Join(items)|
  {
    var all := a + b;
    items := if EndsInHead(all) then all + [ST] else all;
    Extended(all);
    hide AllItems, Join, EndsInHead;
    assert items[..|all|] == all && items[..|a|] == a;
    CutsGrow(items, |a|, |all|);
  }

  lemma Extended(items: seq<seq<byte>>)
    requires AllItems(items)
    ensures var longer := if EndsInHead(items) then items + [ST] else items;
            AllItems(longer) && CutFor(longer, |items|) <= |Join(longer)|
  {
    if EndsInHead(items) {
      var longer := items + [ST];
      assert AllItems(longer) by {
        assert IsEscapeItem(ST);
        forall k: nat | k + 1 < |longer| && IsOscHead(longer[k])
          ensures longer[k + 1] == ST
        {
          assert longer[k] == items[k];
        }
      }
      assert longer[..|items|] == items;
      JoinAppend(items, [ST]);
      JoinOne(ST);
    } else {
      assert items[..|items|] == items;
    }
  }

  lemma CutsGrow(items: seq<seq<byte>>, i: nat, j: nat)
    requires AllItems(items) && i < j <= |items|
    ensures CutFor(items, i) <= CutFor(items, j)
  {
    assert items[..j] == items[..i] + items[i..j] && items[i..j][0] == items[i] && items[i] in items;
    JoinAppend(items[..i], items[i..j]);
    ItemsHaveBytes(items);
    assert EndsInHead(items[..i]) ==> items[i] == ST;
    assert |Join(items[i..j])| >= |items[i]|;
  }

  /** For a pattern that keeps matching, every wait that the command ends is decided by the
      whole text. */
  lemma {:induction false} KeepingIsIndependent(raw: bool, matches: seq<byte> -> bool,
                                                items: seq<seq<byte>>, i: nat, looks: seq<Look>)
    requires KeepsMatching(raw, matches)
    ensures Independent(raw, matches, items, i, looks)
    decreases |looks|
  {
    hide AllItems, Join, ReadSlice, Shown, EndsInHead;
    if AllItems(items) && i <= |items| && CommandEnded(looks, |Join(items[..i])|, |Join(items)|) {
      var last := looks[|looks| - 1];
      assert looks[0].length <= looks[0].finalLength && looks[0].length <= last.length <= last.finalLength;
      var a, b := TextsOfLooks(items, i, looks[0].length, last.finalLength, raw);
      assert !StopsMatching(raw, matches, a, b);
      hide Seen, KeepsMatching;
      if |looks| > 1 {
        assert looks[1..][|looks| - 2] == last;
        assert CommandEnded(looks[1..], |Join(items[..i])|, |Join(items)|);
        hide CommandEnded;
        KeepingIsIndependent(raw, matches, items, i, looks[1..]);
      }
    }
  }

  /** The texts of an earlier and a later look are those of some items, and of more. */
  lemma TextsOfLooks(items: seq<seq<byte>>, i: nat, m: nat, n: nat, raw: bool)
      returns (a: seq<seq<byte>>, b: seq<seq<byte>>)
    requires AllItems(items) && i <= |items| && |Join(items[..i])| <= m <= n <= |Join(items)|
    ensures AllItems(a + b)
    ensures Seen(Join(items), |Join(items[..i])|, m, raw) == Shown(raw, a)
    ensures Seen(Join(items), |Join(items[..i])|, n, raw) == Shown(raw, a + b)
  {
    hide *;
    var off := |Join(items[..i])|;
    SeenIs(items, i, m, raw);
    SeenIs(items, i, n, raw);
    WholeItemsGrow(items[i..], m - off, n - off);
    var j, k := i + WholeItems(items[i..], m - off), i + WholeItems(items[i..], n - off);
    SliceIsAllItems(items, i, k);
    SlicesMeet(items, i, j, k);
    a, b := items[i..j], items[j..k];
  }

  lemma SeenIs(items: seq<seq<byte>>, i: nat, n: nat, raw: bool)
    requires AllItems(items) && i <= |items| && |Join(items[..i])| <= n <= |Join(items)|
    ensures var k := WholeItems(items[i..], n - |Join(items[..i])|);
            i + k <= |items| && Seen(Join(items), |Join(items[..i])|, n, raw) == Shown(raw, items[i..i + k])
  {
    hide AllItems, Join, ReadSlice, Shown, WholeItems, EndsInHead;
    ReadReturnsWholeItems(items, i, n, raw);
  }

  lemma SlicesMeet<T>(s: seq<T>, i: nat, j: nat, k: nat)
    requires i <= j <= k <= |s|
    ensures s[i..j] + s[j..k] == s[i..k]
  {
  }

  /** The outcome of a wait that the command ends is independent of the moments of looking,
      namely whether the pattern is in the whole text, for every log, every boundary to start
      from and every looks, if and only if the pattern keeps matching. */
  lemma ScheduleDoesNotMatter(raw: bool, matches: seq<byte> -> bool)
    ensures (forall items, i: nat, looks :: Independent(raw, matches, items, i, looks)) <==> KeepsMatching(raw, matches)
  {
    if KeepsMatching(raw, matches) {
      forall items, i: nat, looks
        ensures Independent(raw, matches, items, i, looks)
      {
        KeepingIsIndependent(raw, matches, items, i, looks);
      }
    } else {
      var a, b :| StopsMatching(raw, matches, a, b);
      var items, looks := StoppingDepends(raw, matches, a, b);
    }
  }

  /** An anchored pattern can stop matching, and then the moment of a look decides. */
  lemma AnchoredPatternDependsOnSchedule()
    ensures var log, matches := [0x61, 0x62], (s: seq<byte>) => s == [0x61];
            && StopsMatching(true, matches, [[0x61]], [[0x62]])
            && Outcome(log, 0, true, matches, [Look(1, false, 1, false), Look(2, true, 2, false)]) == Some(0)
            && Outcome(log, 0, true, matches, [Look(2, true, 2, false)]) == Some(1)
  {
    var log: seq<byte>, matches := [0x61, 0x62], (s: seq<byte>) => s == [0x61];
    var items: seq<seq<byte>> := [[0x61], [0x62]];
    assert Join(items) == log by {
      assert items[1..] == [[0x62]] && items[1..][1..] == [];
    }
    assert WholeItems(items, 1) == 1 && WholeItems(items, 2) == 2 by {
      assert items[1..] == [[0x62]] && items[1..][1..] == [];
    }
    assert items[..0] == [] && items[0..] == items && items[0..1] == [[0x61]] && items[0..2] == items;
    JoinOne([0x61]);
    ReadReturnsWholeItems(items, 0, 1, true);
    ReadReturnsWholeItems(items, 0, 2, true);
    assert log[..1] == [0x61];
    var looks := [Look(1, false, 1, false), Look(2, true, 2, false)];
    assert StopsMatching(true, matches, [[0x61]], [[0x62]]);
    assert Seen(log, 0, 1, true) == [0x61] && Seen(log, 0, 2, true) == log;
    hide *;
    FirstVerdict(log, matches, looks[0], looks[1..]);
    FirstVerdict(log, matches, Look(2, true, 2, false), []);
    assert [looks[0]] + looks[1..] == looks && [Look(2, true, 2, false)] + [] == [Look(2, true, 2, false)];
  }

  lemma FirstVerdict(log: seq<byte>, matches: seq<byte> -> bool, look: Look, looks: seq<Look>)
    requires look.length <= |log| && look.finalLength <= |log|
    requires forall k | 0 <= k < |looks| :: looks[k].length <= |log| && looks[k].finalLength <= |log|
    ensures var text, all := Seen(log, 0, look.length, true), Seen(log, 0, look.finalLength, true);
            && (text != [] && matches(text) ==> Outcome(log, 0, true, matches, [look] + looks) == Some(0))
            && (!matches(text) && look.finished && !matches(all) ==>
                  Outcome(log, 0, true, matches, [look] + looks) == Some(1))
  {
    hide Seen;
  }
}
