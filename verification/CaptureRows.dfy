/**
 The capture-time sidecar: rows `[start, length, time]` written next to the log, and the
 reader that clips them to a range of the log while distrusting what it reads.
 */
module CaptureRows {
  import opened Bytes
  import opened OutputHubs

  /** A line of the sidecar as read: a row of three 64-bit numbers, or something else. */
  type Line = Option<Row>

  function End(r: Row): nat { r.start + r.length }

  /** A row is used if its end is representable, it is not empty, and it does not start
      before the end of the last row used. */
  predicate Usable(line: Line, previousEnd: nat) {
    line.Some? && End(line.value) < U64_MODULUS && line.value.length != 0 && line.value.start >= previousEnd
  }

  function ClipRow(r: Row, from: nat, to: nat): seq<Row> {
    var start := Max(r.start, from);
    var end := Min(End(r), to);
    if start < end then [Row(start, end - start, r.time)] else []
  }

  function Clip(lines: seq<Line>, previousEnd: nat, from: nat, to: nat): seq<Row>
    decreases |lines|
  {
    if lines == [] then []
    else if Usable(lines[0], previousEnd) then
      ClipRow(lines[0].value, from, to) + Clip(lines[1..], End(lines[0].value), from, to)
    else Clip(lines[1..], previousEnd, from, to)
  }

  /** In order, disjoint, not empty, and within `[from, to)`. */
  predicate WellFormed(rows: seq<Row>, from: nat, to: nat) {
    && (forall i | 0 <= i < |rows| :: from <= rows[i].start < End(rows[i]) <= to)
    && (forall i, j | 0 <= i < j < |rows| :: End(rows[i]) <= rows[j].start)
  }

  /** A piece of some line, with that line's time. */
  ghost predicate FromLine(r: Row, lines: seq<Line>) {
    exists k | 0 <= k < |lines| :: lines[k].Some?
      && lines[k].value.start <= r.start && End(r) <= End(lines[k].value) && lines[k].value.time == r.time
  }

  lemma ClipStep(rows: seq<Row>, lines: seq<Line>, i: nat, previousEnd: nat, from: nat, to: nat)
    requires i < |lines|
    ensures var usable := Usable(lines[i], previousEnd);
            var next := if usable then End(lines[i].value) else previousEnd;
            rows + Clip(lines[i..], previousEnd, from, to)
            == (if usable then rows + ClipRow(lines[i].value, from, to) else rows)
               + Clip(lines[i + 1..], next, from, to)
  {
    assert lines[i..][0] == lines[i] && lines[i..][1..] == lines[i + 1..];
    if Usable(lines[i], previousEnd) {
      hide ClipRow, Usable;
      Regroup(rows, ClipRow(lines[i].value, from, to), Clip(lines[i + 1..], End(lines[i].value), from, to));
    }
  }

  lemma WellFormedSnoc(rows: seq<Row>, r: Row, from: nat, to: nat)
    requires WellFormed(rows, from, to) && from <= r.start < End(r) <= to
    requires forall k | 0 <= k < |rows| :: End(rows[k]) <= r.start
    ensures WellFormed(rows + [r], from, to)
  {
  }

  method ClipCaptureRows(lines: seq<Line>, from: nat, to: nat) returns (rows: seq<Row>)
    ensures rows == Clip(lines, 0, from, to)
    ensures WellFormed(rows, from, to)
  {
    hide Clip, WellFormed;
    rows := [];
    var previousEnd := 0;
    var i := 0;
    NothingClipped(lines, from, to);
    while i < |lines|
      invariant 0 <= i <= |lines|
      invariant rows + Clip(lines[i..], previousEnd, from, to) == Clip(lines, 0, from, to)
      invariant WellFormed(rows, from, to)
      invariant forall k | 0 <= k < |rows| :: End(rows[k]) <= previousEnd
    {
      ClipStep(rows, lines, i, previousEnd, from, to);
      var line := lines[i];
      if line.Some? && End(line.value) < U64_MODULUS && line.value.length != 0
         && !(line.value.start < previousEnd) {
        previousEnd := End(line.value);
        var start := Max(line.value.start, from);
        var end := Min(End(line.value), to);
        if start < end {
          WellFormedSnoc(rows, Row(start, end - start, line.value.time), from, to);
          rows := rows + [Row(start, end - start, line.value.time)];
        } else {
          assert rows + [] == rows;
        }
      }
      i := i + 1;
    }
    NoLinesLeft(rows, lines, previousEnd, from, to);
  }

  lemma NothingClipped(lines: seq<Line>, from: nat, to: nat)
    ensures [] + Clip(lines[0..], 0, from, to) == Clip(lines, 0, from, to) && WellFormed([], from, to)
  {
    assert lines[0..] == lines;
  }

  lemma NoLinesLeft(rows: seq<Row>, lines: seq<Line>, previousEnd: nat, from: nat, to: nat)
    ensures rows + Clip(lines[|lines|..], previousEnd, from, to) == rows
  {
    assert rows + [] == rows;
  }

  /** For any sidecar, however corrupt: every row returned is a piece of a line with that
      line's time. */
  lemma {:induction false} ClipKeepsTimes(lines: seq<Line>, previousEnd: nat, from: nat, to: nat)
    ensures forall r | r in Clip(lines, previousEnd, from, to) :: FromLine(r, lines)
    decreases |lines|
  {
    if lines != [] {
      var next := if Usable(lines[0], previousEnd) then End(lines[0].value) else previousEnd;
      ClipKeepsTimes(lines[1..], next, from, to);
      forall r | r in Clip(lines[1..], next, from, to)
        ensures FromLine(r, lines)
      {
        var k :| 0 <= k < |lines[1..]| && lines[1..][k].Some?
          && lines[1..][k].value.start <= r.start && End(r) <= End(lines[1..][k].value)
          && lines[1..][k].value.time == r.time;
        assert lines[k + 1] == lines[1..][k];
      }
      if Usable(lines[0], previousEnd) {
        forall r | r in ClipRow(lines[0].value, from, to)
          ensures FromLine(r, lines)
        {
          assert lines[0].Some?;
        }
      }
    }
  }

  /** The rows lie end to end from `start` to `end`. */
  predicate Chain(rows: seq<Row>, start: nat, end: nat)
    decreases |rows|
  {
    if rows == [] then start == end else rows[0].start == start && Chain(rows[1..], End(rows[0]), end)
  }

  function Lines(rows: seq<Row>): seq<Line> {
    if rows == [] then [] else [Some(rows[0])] + Lines(rows[1..])
  }

  lemma {:induction false} ChainGrows(rows: seq<Row>, start: nat, end: nat)
    requires Chain(rows, start, end)
    ensures start <= end
    decreases |rows|
  {
    if rows != [] {
      ChainGrows(rows[1..], End(rows[0]), end);
    }
  }

  /** Rows that lie end to end, clipped, again lie end to end and fill the range. */
  lemma {:induction false} ClippedChain(rows: seq<Row>, start: nat, end: nat, from: nat, to: nat)
    requires Chain(rows, start, end) && end < U64_MODULUS
    ensures var clipped := Clip(Lines(rows), start, from, to);
            if Max(start, from) < Min(end, to)
            then clipped != [] && Chain(clipped, Max(start, from), Min(end, to))
            else clipped == []
    decreases |rows|
  {
    if rows != [] {
      var r := rows[0];
      var lines := Lines(rows);
      assert lines[0] == Some(r) && lines[1..] == Lines(rows[1..]);
      ChainGrows(rows[1..], End(r), end);
      ClippedChain(rows[1..], End(r), end, from, to);
      var rest := Clip(lines[1..], End(r), from, to);
      if r.length == 0 {
        assert Clip(lines, start, from, to) == Clip(lines[1..], start, from, to) == rest;
      } else {
        assert Clip(lines, start, from, to) == ClipRow(r, from, to) + rest;
        if ClipRow(r, from, to) != [] {
          var c := ClipRow(r, from, to)[0];
          assert ClipRow(r, from, to) == [c];
          assert ([c] + rest)[1..] == rest;
        } else {
          assert [] + rest == rest;
        }
      }
    }
  }

  // ---------------------------------------------------------------- which lines are used

  /** A line is used if it is a row that ends below 2^64, is not empty, and starts no earlier
      than any line used before it ends. */
  predicate Used(lines: seq<Line>, k: nat)
    requires k < |lines|
    decreases k
  {
    && lines[k].Some? && End(lines[k].value) < U64_MODULUS && lines[k].value.length > 0
    && forall j | 0 <= j < k && Used(lines, j) :: lines[j].Some? ==> End(lines[j].value) <= lines[k].value.start
  }

  predicate Covers(r: Row, offset: nat, time: nat) { r.start <= offset < End(r) && r.time == time }

  predicate AnyCovers(rows: seq<Row>, offset: nat, time: nat) {
    exists i | 0 <= i < |rows| :: Covers(rows[i], offset, time)
  }

  predicate AnyUsedCovers(lines: seq<Line>, n: nat, offset: nat, time: nat)
    requires n <= |lines|
  {
    exists k | 0 <= k < n :: Used(lines, k) && Covers(lines[k].value, offset, time)
  }

  /** Where the last line used ends. */
  function EndFrom(lines: seq<Line>, previousEnd: nat): nat
    decreases |lines|
  {
    if lines == [] then previousEnd
    else EndFrom(lines[1..], if Usable(lines[0], previousEnd) then End(lines[0].value) else previousEnd)
  }

  lemma {:induction false} ClipSnoc(lines: seq<Line>, line: Line, previousEnd: nat, from: nat, to: nat)
    ensures var usable := Usable(line, EndFrom(lines, previousEnd));
            && Clip(lines + [line], previousEnd, from, to)
               == Clip(lines, previousEnd, from, to) + (if usable then ClipRow(line.value, from, to) else [])
            && EndFrom(lines + [line], previousEnd)
               == if usable then End(line.value) else EndFrom(lines, previousEnd)
    decreases |lines|
  {
    var longer := lines + [line];
    hide ClipRow;
    if lines == [] {
      assert longer[1..] == [];
      if Usable(line, previousEnd) {
        assert ClipRow(line.value, from, to) + [] == [] + ClipRow(line.value, from, to);
      }
    } else {
      assert longer[0] == lines[0] && longer[1..] == lines[1..] + [line];
      if Usable(lines[0], previousEnd) {
        ClipSnoc(lines[1..], line, End(lines[0].value), from, to);
      } else {
        ClipSnoc(lines[1..], line, previousEnd, from, to);
      }
    }
  }

  lemma {:induction false} UsedIsUsable(lines: seq<Line>, n: nat)
    requires n <= |lines|
    ensures var end := EndFrom(lines[..n], 0);
            && (forall j | 0 <= j < n && Used(lines, j) :: End(lines[j].value) <= end)
            && (end == 0 || exists j | 0 <= j < n :: Used(lines, j) && End(lines[j].value) == end)
            && (n < |lines| ==> (Used(lines, n) <==> Usable(lines[n], end)))
    decreases n
  {
    if n > 0 {
      UsedIsUsable(lines, n - 1);
      assert lines[..n] == lines[..n - 1] + [lines[n - 1]];
      ClipSnoc(lines[..n - 1], lines[n - 1], 0, 0, 0);
    }
  }

  lemma CoversSnoc(rows: seq<Row>, r: Row, offset: nat, time: nat)
    ensures AnyCovers(rows + [r], offset, time) <==> AnyCovers(rows, offset, time) || Covers(r, offset, time)
  {
    var longer := rows + [r];
    assert longer[|rows|] == r && forall i | 0 <= i < |rows| :: longer[i] == rows[i];
    hide Covers;
  }

  /** For any sidecar, however corrupt, and every offset: the reader knows when that byte was
      captured if and only if it is in the range and some line that is used covers it, and
      that line tells the time. */
  lemma {:induction false} ClipCoversIff(lines: seq<Line>, n: nat, from: nat, to: nat, offset: nat, time: nat)
    requires n <= |lines|
    ensures AnyCovers(Clip(lines[..n], 0, from, to), offset, time)
       <==> from <= offset < to && AnyUsedCovers(lines, n, offset, time)
    decreases n
  {
    if n > 0 {
      var line, init := lines[n - 1], Clip(lines[..n - 1], 0, from, to);
      ClipCoversIff(lines, n - 1, from, to, offset, time);
      assert lines[..n] == lines[..n - 1] + [line];
      ClipSnoc(lines[..n - 1], line, 0, from, to);
      UsedIsUsable(lines, n - 1);
      if Used(lines, n - 1) {
        if ClipRow(line.value, from, to) == [] {
          assert init + [] == init;
        } else {
          CoversSnoc(init, ClipRow(line.value, from, to)[0], offset, time);
          assert ClipRow(line.value, from, to) == [ClipRow(line.value, from, to)[0]];
        }
        hide Clip, Usable, Used;
      } else {
        assert init + [] == init;
        hide Clip, Usable, Used, Covers;
      }
    }
  }

  // ---------------------------------------------------------------- with the hub

  /** The rows of all broadcasts among `ops`, in order: where the output of each begins when
      the first begins at `at`, how long it is, and when it was captured. */
  function Captures(ops: seq<Op>, at: nat): seq<Row> {
    if ops == [] then []
    else
      match ops[0]
      case DoBroadcast(data, io) => [Row(at, |data|, io.now)] + Captures(ops[1..], at + |data|)
      case _ => Captures(ops[1..], at)
  }

  /** How many operations go by before a write to the sidecar or to the log fails. */
  function UntilFailure(ops: seq<Op>): (n: nat)
    ensures n <= |ops| && (forall k | 0 <= k < n :: !FailsSidecar(ops[k])) && (n < |ops| ==> FailsSidecar(ops[n]))
  {
    if ops == [] || FailsSidecar(ops[0]) then 0 else 1 + UntilFailure(ops[1..])
  }

  /** A sidecar that is open gets the rows of what is broadcast until a write fails, and
      nothing after that; one that is not stays as it is. */
  lemma {:induction false} RunKeepsRows(h: Hub, a: Audit, ops: seq<Op>)
    requires Inv(h, a) && PermittedRun(h, a, ops) && (h.timestampsOpen ==> h.logOpen)
    ensures var h' := Run(h, a, ops).0;
            var n := UntilFailure(ops);
            && h'.rows == h.rows + (if h.timestampsOpen then Captures(ops[..n], |a.history|) else [])
            && (h'.timestampsOpen <==> h.timestampsOpen && n == |ops|)
    ensures |Run(h, a, ops).1.history| == |a.history| + CapturedSize(ops)
    decreases |ops|
  {
    assert h.nextOffset == |a.history|;
    hide Inv, Captures, Run, Hub.Next, NextAudit, FailsSidecar, Permitted;
    if ops == [] {
      assert h.rows + [] == h.rows;
      NothingRun(h, a, ops);
    } else {
      var h', a' := h.Next(ops[0]), NextAudit(h, a, ops[0]);
      var n := UntilFailure(ops);
      RunUnfolds(h, a, ops);
      PermittedStep(h, a, ops[0]);
      hide *;
      RunKeepsRows(h', a', ops[1..]);
      var rows := Run(h', a', ops[1..]).0.rows;
      if !h.timestampsOpen || n == 0 {
        assert !h'.timestampsOpen && rows == h'.rows + [] == h'.rows;
        assert h'.rows == h.rows + [];
        NoCaptures(ops[..0], |a.history|);
      } else {
        assert rows == h'.rows + Captures(ops[1..][..n - 1], |a'.history|);
        FirstCaptures(ops, n, |a.history|);
        Regroup(h.rows, Captures([ops[0]], |a.history|), Captures(ops[1..][..n - 1], |a'.history|));
      }
    }
  }

  lemma PermittedStep(h: Hub, a: Audit, op: Op)
    requires Inv(h, a) && Permitted(h, a, op) && (h.timestampsOpen ==> h.logOpen)
    ensures var h' := h.Next(op);
            && Inv(h', NextAudit(h, a, op))
            && h'.rows == h.rows + (if h.timestampsOpen && !FailsSidecar(op) then Captures([op], |a.history|) else [])
            && (h'.timestampsOpen <==> h.timestampsOpen && !FailsSidecar(op))
            && (h'.timestampsOpen ==> h'.logOpen)
  {
    StepKeepsInv(h, a, op);
    StepKeepsRows(h, a, op);
    hide Captures, NextAudit, Hub.Next;
  }

  lemma NothingRun(h: Hub, a: Audit, ops: seq<Op>)
    requires |ops| == 0
    ensures Run(h, a, ops) == (h, a) && Captures(ops[..0], |a.history|) == []
    ensures UntilFailure(ops) == 0 && CapturedSize(ops) == 0
  {
  }

  lemma RunUnfolds(h: Hub, a: Audit, ops: seq<Op>)
    requires ops != [] && PermittedRun(h, a, ops)
    ensures var h', a' := h.Next(ops[0]), NextAudit(h, a, ops[0]);
            && Permitted(h, a, ops[0]) && PermittedRun(h', a', ops[1..]) && Run(h, a, ops) == Run(h', a', ops[1..])
            && |a'.history| == |a.history| + (if ops[0].DoBroadcast? then |ops[0].data| else 0)
            && CapturedSize(ops) == |a'.history| - |a.history| + CapturedSize(ops[1..])
    ensures UntilFailure(ops) == if FailsSidecar(ops[0]) then 0 else 1 + UntilFailure(ops[1..])
  {
    hide Hub.Next, FailsSidecar;
  }

  lemma NoCaptures(ops: seq<Op>, at: nat)
    requires |ops| == 0
    ensures Captures(ops, at) == []
  {
  }

  lemma FirstCaptures(ops: seq<Op>, n: nat, at: nat)
    requires 0 < n <= |ops|
    ensures Captures(ops[..n], at)
         == Captures([ops[0]], at) + Captures(ops[1..][..n - 1], at + if ops[0].DoBroadcast? then |ops[0].data| else 0)
  {
    FirstCapture(ops[..n], at);
    assert ops[..n][..1] == [ops[0]] && ops[..n][1..] == ops[1..][..n - 1];
  }

  function CapturedSize(ops: seq<Op>): nat {
    if ops == [] then 0 else (if ops[0].DoBroadcast? then |ops[0].data| else 0) + CapturedSize(ops[1..])
  }

  lemma FirstCapture(ops: seq<Op>, at: nat)
    requires ops != []
    ensures Captures(ops[..1], at) == if ops[0].DoBroadcast? then [Row(at, |ops[0].data|, ops[0].io.now)] else []
    ensures Captures(ops, at)
         == Captures(ops[..1], at) + Captures(ops[1..], at + if ops[0].DoBroadcast? then |ops[0].data| else 0)
  {
    assert ops[..1][1..] == [];
    assert Captures(ops[..1][1..], at) == [];
  }

  lemma StepKeepsRows(h: Hub, a: Audit, op: Op)
    requires h.nextOffset == |a.history| && Permitted(h, a, op) && (h.timestampsOpen ==> h.logOpen)
    ensures var h' := h.Next(op);
            && h'.rows == h.rows + (if h.timestampsOpen && !FailsSidecar(op) then Captures([op], |a.history|) else [])
            && (h'.timestampsOpen <==> h.timestampsOpen && !FailsSidecar(op))
            && (h'.timestampsOpen ==> h'.logOpen)
  {
    FirstCapture([op], |a.history|);
    assert [op][..1] == [op];
    assert h.rows + [] == h.rows;
    hide SendAll, Captures;
  }

  lemma {:induction false} CapturesChain(ops: seq<Op>, at: nat)
    ensures Chain(Captures(ops, at), at, at + CapturedSize(ops))
    decreases |ops|
  {
    if ops != [] {
      var size := if ops[0].DoBroadcast? then |ops[0].data| else 0;
      CapturesChain(ops[1..], at + size);
      var all := Captures(ops, at);
      assert ops[0].DoBroadcast? ==> all[1..] == Captures(ops[1..], at + size);
    }
  }

  /** Over every run, the sidecar is what it was when it was opened, which empties it if the
      log is empty, and then the rows of the broadcasts up to the first whose row or output
      could not be written; a sidecar that could not be opened stays as it is. */
  lemma SidecarIsExact(disk: seq<byte>, rows: seq<Row>, timestampsOpen: bool, ops: seq<Op>)
    requires |disk| < U64_MODULUS && PermittedRun(OpenHub(disk, rows, timestampsOpen), OpenAudit(disk), ops)
    ensures Run(OpenHub(disk, rows, timestampsOpen), OpenAudit(disk), ops).0.rows
         == (if timestampsOpen && disk == [] then [] else rows)
            + (if timestampsOpen then Captures(ops[..UntilFailure(ops)], |disk|) else [])
  {
    var h0, a0 := OpenHub(disk, rows, timestampsOpen), OpenAudit(disk);
    OpenHubInv(disk, rows, timestampsOpen);
    assert h0.rows == (if timestampsOpen && disk == [] then [] else rows) && h0.logOpen;
    assert h0.timestampsOpen == timestampsOpen && a0.history == disk;
    hide *;
    RunKeepsRows(h0, a0, ops);
  }

  /** Over every run on a log that was empty when opened: the sidecar has the rows of the
      broadcasts in order, with their places and times, up to the first whose row or output
      could not be written, and all of them if there is none; and the rows a reader gets for
      `[from, to)` partition the part of that range that they cover, with unchanged times. */
  lemma TimestampsPartition(rows: seq<Row>, ops: seq<Op>, from: nat, to: nat)
    requires PermittedRun(OpenHub([], rows, true), OpenAudit([]), ops)
    ensures var (h, a) := Run(OpenHub([], rows, true), OpenAudit([]), ops);
            var n := UntilFailure(ops);
            && Chain(Captures(ops, 0), 0, |a.history|) && h.rows == Captures(ops[..n], 0)
            && (h.timestampsOpen <==> n == |ops|)
    ensures var (h, a) := Run(OpenHub([], rows, true), OpenAudit([]), ops);
            var n := UntilFailure(ops);
            var clipped := Clip(Lines(h.rows), 0, from, to);
            var end := Min(to, CapturedSize(ops[..n]));
            && CapturedSize(ops[..n]) <= |a.history| && (n == |ops| ==> CapturedSize(ops[..n]) == |a.history|)
            && (if from < end then Chain(clipped, from, end) else clipped == [])
            && (forall r | r in clipped :: FromLine(r, Lines(h.rows)))
  {
    var h0 := OpenHub([], rows, true);
    OpenHubInv([], rows, true);
    assert h0.rows == [] && h0.timestampsOpen && h0.logOpen;
    hide *;
    RunKeepsRows(h0, OpenAudit([]), ops);
    RunKeepsInv(h0, OpenAudit([]), ops);
    CapturesChain(ops, 0);
    var n, h := UntilFailure(ops), Run(h0, OpenAudit([]), ops).0;
    assert [] + Captures(ops[..n], 0) == Captures(ops[..n], 0) && |OpenAudit([]).history| == 0 by {
      EmptyAudit();
    }
    HistoryFits(h, Run(h0, OpenAudit([]), ops).1);
    SizeSplits(ops, n);
    CapturesClipped(ops[..n], from, to);
    assert n == |ops| ==> ops[..n] == ops;
  }

  lemma EmptyAudit()
    ensures OpenAudit([]).history == []
  {
  }

  lemma HistoryFits(h: Hub, a: Audit)
    requires Inv(h, a)
    ensures |a.history| < U64_MODULUS
  {
  }

  lemma CapturesClipped(ops: seq<Op>, from: nat, to: nat)
    requires CapturedSize(ops) < U64_MODULUS
    ensures var clipped := Clip(Lines(Captures(ops, 0)), 0, from, to);
            var end := Min(to, CapturedSize(ops));
            && (if from < end then Chain(clipped, from, end) else clipped == [])
            && forall r | r in clipped :: FromLine(r, Lines(Captures(ops, 0)))
  {
    hide Clip, Captures, Lines, FromLine;
    CapturesChain(ops, 0);
    ClippedChain(Captures(ops, 0), 0, CapturedSize(ops), from, to);
    ClipKeepsTimes(Lines(Captures(ops, 0)), 0, from, to);
  }

  lemma {:induction false} SizeSplits(ops: seq<Op>, n: nat)
    requires n <= |ops|
    ensures CapturedSize(ops) == CapturedSize(ops[..n]) + CapturedSize(ops[n..])
  {
    if n > 0 {
      assert ops[..n][1..] == ops[1..][..n - 1] && ops[n..] == ops[1..][n - 1..];
      SizeSplits(ops[1..], n - 1);
    } else {
      assert ops[..0] == [] && ops[0..] == ops;
    }
  }
}
