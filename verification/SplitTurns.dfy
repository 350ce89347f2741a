/**
 The serving loop of an attach connection, with the two polls of a turn apart: the queue is
 looked at first, and the end of the session after that, and the program can print between
 the two. What such a stream lacks of the output is then exactly what was printed between
 the polls of the turn that sent EXIT.
 */
module SplitTurns {
  import opened Bytes
  import opened Frames
  import opened OutputHubs
  import opened ExitCodes
  import opened AttachStreams

  /** One turn: `before` is printed before the queue is looked at, `between` after that and
      before anything else is. */
  datatype SplitTurn = SplitTurn(
    before: seq<Print>,
    between: seq<Print>,
    exit: Option<ExitInfo>,
    detached: bool,
    gone: bool)

  predicate HasOutput(s: Server, hub: Hub)
    requires s.Serving?
  {
    s.pending.Some? || Queue(hub, s.id) != []
  }

  function ServeSplit(s: Server, hub: Hub, now: SplitTurn): Turn
    requires s.Serving?
  {
    var looked := PrintAll(hub, now.before);
    if s.pending.Some? then
      AfterOutput(s.(pending := None), PrintAll(looked, now.between), OutputFrame(s.pending.value), now.exit)
    else if Queue(looked, s.id) != [] then
      AfterOutput(s, PrintAll(looked.TakeResumable(s.id), now.between),
                  OutputFrame(Queue(looked, s.id)[0]), now.exit)
    else
      var later := PrintAll(looked, now.between);
      if now.exit.Some? then Turn(Finished, later, [ExitFrame(now.exit.value)])
      else if now.detached then Turn(Finished, later, [DETACHED_FRAME])
      else if now.gone then Turn(Finished, later, [])
      else Turn(s, later, [])
  }

  function ServeAllSplit(s: Server, hub: Hub, turns: seq<SplitTurn>): Turn
    decreases |turns|
  {
    if turns == [] || !s.Serving? then Turn(s, hub, [])
    else
      var t := ServeSplit(s, hub, turns[0]);
      Before(t.frames, ServeAllSplit(t.server, t.hub, turns[1..]))
  }

  function BytesOf(prints: seq<Print>): seq<byte> {
    if prints == [] then [] else prints[0].data + BytesOf(prints[1..])
  }

  /** All that is printed up to the end of the stream. */
  function PrintedIn(s: Server, hub: Hub, turns: seq<SplitTurn>): seq<byte>
    decreases |turns|
  {
    if turns == [] || !s.Serving? then []
    else
      var t := ServeSplit(s, hub, turns[0]);
      BytesOf(turns[0].before) + BytesOf(turns[0].between) + PrintedIn(t.server, t.hub, turns[1..])
  }

  /** What is printed between the two polls of the turn that ends the stream, if it finds no
      output. */
  function LastGap(s: Server, hub: Hub, turns: seq<SplitTurn>): seq<byte>
    decreases |turns|
  {
    if turns == [] || !s.Serving? then []
    else
      var t := ServeSplit(s, hub, turns[0]);
      if !t.server.Finished? then LastGap(t.server, t.hub, turns[1..])
      else if HasOutput(s, PrintAll(hub, turns[0].before)) then []
      else BytesOf(turns[0].between)
  }

  // ---------------------------------------------------------------- taking and printing

  lemma {:induction false} SendAllTake<T>(ids: seq<nat>, queues: map<nat, seq<T>>, msg: T, id: nat)
    requires id in queues && queues[id] != []
    ensures var (kept, sent) := SendAll(ids, queues, msg);
            && id in sent && sent[id] != [] && sent[id][0] == queues[id][0]
            && SendAll(ids, queues[id := queues[id][1..]], msg) == (kept, sent[id := sent[id][1..]])
  {
    if ids != [] {
      var last := ids[|ids| - 1];
      SendAllTake(ids[..|ids| - 1], queues, msg, id);
      var sent := SendAll(ids[..|ids| - 1], queues, msg).1;
      TakeThenSend(sent, id, last, msg);
    }
  }

  lemma TakeThenSend<T>(sent: map<nat, seq<T>>, id: nat, last: nat, msg: T)
    requires id in sent && sent[id] != []
    ensures var taken := sent[id := sent[id][1..]];
            && (last in taken <==> last in sent)
            && (last in sent ==>
                  && sent[last := sent[last] + [msg]][id][1..] == (if last == id then taken[id] + [msg] else taken[id])
                  && taken[last := taken[last] + [msg]]
                     == var more := sent[last := sent[last] + [msg]]; more[id := more[id][1..]])
  {
    assert last == id ==> (sent[id] + [msg])[1..] == sent[id][1..] + [msg];
  }

  lemma TakeThenFanOut(h: Hub, id: nat, chunk: Chunk)
    requires Queue(h, id) != []
    ensures Queue(h.FanOut(chunk), id) != [] && Queue(h.FanOut(chunk), id)[0] == Queue(h, id)[0]
    ensures h.TakeResumable(id).FanOut(chunk) == h.FanOut(chunk).TakeResumable(id)
  {
    SendAllTake(h.resumeClients, h.resumeQueues, chunk, id);
    hide SendAll;
  }

  lemma TakeThenRecord(h: Hub, id: nat, data: seq<byte>, io: FileIo)
    ensures Queue(h.Record(data, io).Retain(data), id) == Queue(h, id)
    ensures h.TakeResumable(id).Record(data, io).Retain(data) == h.Record(data, io).Retain(data).TakeResumable(id)
    ensures h.TakeResumable(id).nextOffset == h.nextOffset
  {
    hide SatAdd;
  }

  /** Output that is queued can be taken before or after more is printed. */
  lemma TakeThenPrint(h: Hub, id: nat, p: Print)
    requires Queue(h, id) != []
    ensures Queue(h.Broadcast(p.data, p.io), id) != []
    ensures Queue(h.Broadcast(p.data, p.io), id)[0] == Queue(h, id)[0]
    ensures h.TakeResumable(id).Broadcast(p.data, p.io) == h.Broadcast(p.data, p.io).TakeResumable(id)
  {
    hide Hub.Record, Hub.Retain, Hub.FanOut, Hub.TakeResumable, Queue;
    TakeThenRecord(h, id, p.data, p.io);
    TakeThenFanOut(h.Record(p.data, p.io).Retain(p.data), id, Chunk(h.nextOffset, p.data));
  }

  lemma {:induction false} TakeThenPrintAll(h: Hub, id: nat, prints: seq<Print>)
    requires Queue(h, id) != []
    ensures Queue(PrintAll(h, prints), id) != [] && Queue(PrintAll(h, prints), id)[0] == Queue(h, id)[0]
    ensures PrintAll(h.TakeResumable(id), prints) == PrintAll(h, prints).TakeResumable(id)
    decreases |prints|
  {
    if prints != [] {
      TakeThenPrint(h, id, prints[0]);
      hide Queue, Hub.Broadcast, Hub.TakeResumable;
      TakeThenPrintAll(h.Broadcast(prints[0].data, prints[0].io), id, prints[1..]);
    }
  }

  lemma {:induction false} PrintAppend(h: Hub, a: seq<Print>, b: seq<Print>)
    ensures PrintAll(h, a + b) == PrintAll(PrintAll(h, a), b)
    decreases |a|
  {
    if a == [] {
      assert a + b == b;
    } else {
      assert (a + b)[0] == a[0] && (a + b)[1..] == a[1..] + b;
      hide Hub.Broadcast;
      PrintAppend(h.Broadcast(a[0].data, a[0].io), a[1..], b);
    }
  }

  /** A turn that finds output is a whole turn before which everything was printed; one that
      finds none is a whole turn, after which the rest is printed. */
  lemma SplitTurnIs(s: Server, h: Hub, now: SplitTurn)
    requires s.Serving?
    ensures var looked := PrintAll(h, now.before);
            var later := PrintAll(looked, now.between);
            if HasOutput(s, looked) then
              ServeSplit(s, h, now) == Serve(s, later, now.exit, now.detached, now.gone)
            else
              var t := Serve(s, looked, now.exit, now.detached, now.gone);
              t.hub == looked && ServeSplit(s, h, now) == t.(hub := later)
  {
    var looked := PrintAll(h, now.before);
    if s.pending.None? && Queue(looked, s.id) != [] {
      TakeThenPrintAll(looked, s.id, now.between);
    }
    hide PrintAll;
  }

  // ---------------------------------------------------------------- as whole turns

  /** What a turn prints before it finds what it finds, with `carry` left over by the turns
      before it, and what it leaves over. */
  function Grouped(s: Server, hub: Hub, carry: seq<Print>, now: SplitTurn): (seq<Print>, seq<Print>)
    requires s.Serving?
  {
    if HasOutput(s, PrintAll(hub, carry + now.before)) then (carry + now.before + now.between, [])
    else (carry + now.before, now.between)
  }

  function WholeServe(s: Server, hub: Hub, carry: seq<Print>, now: SplitTurn): Turn
    requires s.Serving?
  {
    Serve(s, PrintAll(hub, Grouped(s, hub, carry, now).0), now.exit, now.detached, now.gone)
  }

  lemma TurnIsWhole(s: Server, h: Hub, carry: seq<Print>, now: SplitTurn)
    requires s.Serving?
    ensures var (prints, left) := Grouped(s, h, carry, now);
            var t := WholeServe(s, h, carry, now);
            && prints + left == carry + now.before + now.between
            && ServeSplit(s, PrintAll(h, carry), now) == t.(hub := PrintAll(t.hub, left))
  {
    var h0 := PrintAll(h, carry);
    PrintAppend(h, carry, now.before);
    PrintAppend(h, carry + now.before, now.between);
    SplitTurnIs(s, h0, now);
    var t := WholeServe(s, h, carry, now);
    assert PrintAll(t.hub, []) == t.hub;
    hide ServeSplit, Serve, HasOutput, PrintAll;
  }

  /** The same stream in whole turns: what a turn without output prints between its polls
      comes before the next turn. */
  function Regrouped(s: Server, hub: Hub, carry: seq<Print>, turns: seq<SplitTurn>)
    : (seq<Surroundings>, seq<Print>)
    decreases |turns|
  {
    if turns == [] || !s.Serving? then ([], carry)
    else
      var now := turns[0];
      var (prints, left) := Grouped(s, hub, carry, now);
      var t := WholeServe(s, hub, carry, now);
      var (rest, last) := Regrouped(t.server, t.hub, left, turns[1..]);
      ([Surroundings(prints, now.exit, now.detached, now.gone)] + rest, last)
  }

  lemma {:induction false} SplitServingIs(s: Server, h: Hub, carry: seq<Print>, turns: seq<SplitTurn>)
    ensures var (whole, left) := Regrouped(s, h, carry, turns);
            var t := ServeAll(s, h, whole);
            ServeAllSplit(s, PrintAll(h, carry), turns) == t.(hub := PrintAll(t.hub, left))
    decreases |turns|
  {
    if turns != [] && s.Serving? {
      var now := turns[0];
      TurnIsWhole(s, h, carry, now);
      var t, left := WholeServe(s, h, carry, now), Grouped(s, h, carry, now).1;
      hide ServeSplit, Serve, Grouped, PrintAll;
      SplitServingIs(t.server, t.hub, left, turns[1..]);
      var whole := Regrouped(s, h, carry, turns).0;
      assert whole[1..] == Regrouped(t.server, t.hub, left, turns[1..]).0;
    }
  }

  // ---------------------------------------------------------------- what was printed

  lemma {:induction false} BytesAppend(a: seq<Print>, b: seq<Print>)
    ensures BytesOf(a + b) == BytesOf(a) + BytesOf(b) && PrintedSize(a + b) == PrintedSize(a) + PrintedSize(b)
    decreases |a|
  {
    if a == [] {
      assert a + b == b;
    } else {
      assert (a + b)[0] == a[0] && (a + b)[1..] == a[1..] + b;
      BytesAppend(a[1..], b);
    }
  }

  lemma {:induction false} AuditOfPrints(a: Audit, prints: seq<Print>)
    ensures PrintAudit(a, prints) == a.(history := a.history + BytesOf(prints))
    decreases |prints|
  {
    if prints == [] {
      assert a.history + [] == a.history;
    } else {
      AuditOfPrints(a.(history := a.history + prints[0].data), prints[1..]);
      Regroup(a.history, prints[0].data, BytesOf(prints[1..]));
    }
  }

  /** The history of the whole turns and what is left over are all that was printed. */
  lemma {:induction false} RegroupedHistory(s: Server, h: Hub, a: Audit, carry: seq<Print>, turns: seq<SplitTurn>)
    ensures var (whole, left) := Regrouped(s, h, carry, turns);
            ServeAllAudit(s, h, a, whole).history + BytesOf(left)
            == a.history + (BytesOf(carry) + PrintedIn(s, PrintAll(h, carry), turns))
    decreases |turns|
  {
    if turns == [] || !s.Serving? {
      assert BytesOf(carry) + [] == BytesOf(carry);
    } else {
      var now := turns[0];
      TurnIsWhole(s, h, carry, now);
      var (prints, left) := Grouped(s, h, carry, now);
      var t := WholeServe(s, h, carry, now);
      var a' := ServeAudit(s, PrintAll(h, prints), PrintAudit(a, prints));
      AuditOfPrints(a, prints);
      assert a'.history == a.history + BytesOf(prints);
      hide ServeSplit, Serve, Grouped, PrintAll, ServeAudit, PrintAudit;
      RegroupedHistory(t.server, t.hub, a', left, turns[1..]);
      var whole := Regrouped(s, h, carry, turns).0;
      assert whole[1..] == Regrouped(t.server, t.hub, left, turns[1..]).0;
      var more := PrintedIn(t.server, PrintAll(t.hub, left), turns[1..]);
      hide *;
      BytesOfTurn(carry, now, prints, left);
      PiecesJoin(a.history, BytesOf(prints), BytesOf(left), more,
                 BytesOf(carry), BytesOf(now.before), BytesOf(now.between));
    }
  }

  lemma BytesOfTurn(carry: seq<Print>, now: SplitTurn, prints: seq<Print>, left: seq<Print>)
    requires prints + left == carry + now.before + now.between
    ensures BytesOf(prints) + BytesOf(left) == (BytesOf(carry) + BytesOf(now.before)) + BytesOf(now.between)
  {
    BytesAppend(prints, left);
    BytesAppend(carry, now.before);
    BytesAppend(carry + now.before, now.between);
  }

  lemma PiecesJoin(a: seq<byte>, b: seq<byte>, c: seq<byte>, more: seq<byte>,
                   d: seq<byte>, e: seq<byte>, f: seq<byte>)
    requires b + c == (d + e) + f
    ensures (a + b) + (c + more) == a + (d + (e + f + more))
  {
    assert (a + b) + (c + more) == a + ((b + c) + more);
    assert d + (e + f + more) == ((d + e) + f) + more;
  }

  /** What is left over when a stream has ended is the last gap. */
  lemma {:induction false} LeftOverIsGap(s: Server, h: Hub, carry: seq<Print>, turns: seq<SplitTurn>)
    requires s.Serving? && ServeAllSplit(s, PrintAll(h, carry), turns).server.Finished?
    ensures BytesOf(Regrouped(s, h, carry, turns).1) == LastGap(s, PrintAll(h, carry), turns)
    decreases |turns|
  {
    var now := turns[0];
    PrintAppend(h, carry, now.before);
    TurnIsWhole(s, h, carry, now);
    var (prints, left) := Grouped(s, h, carry, now);
    var t := WholeServe(s, h, carry, now);
    ServeStays(s, PrintAll(h, prints), now.exit, now.detached, now.gone);
    hide ServeSplit, Serve, HasOutput, PrintAll;
    if !t.server.Finished? {
      LeftOverIsGap(t.server, t.hub, left, turns[1..]);
    }
  }

  // ---------------------------------------------------------------- what can be printed

  predicate SplitTurnsFit(total: nat, turns: seq<SplitTurn>)
    decreases |turns|
  {
    turns == []
    || (&& PrintsFit(total, turns[0].before + turns[0].between)
        && SplitTurnsFit(total + PrintedSize(turns[0].before + turns[0].between), turns[1..]))
  }

  lemma PrintsFitPieces(total: nat, a: seq<Print>, b: seq<Print>)
    ensures PrintsFit(total, a + b) <==> PrintsFit(total, a) && PrintsFit(total + PrintedSize(a), b)
  {
    BytesAppend(a, b);
    assert forall p | p in a :: p in a + b;
    assert forall p | p in b :: p in a + b;
  }

  lemma TurnFits(total: nat, carry: seq<Print>, now: SplitTurn, prints: seq<Print>, left: seq<Print>)
    requires prints + left == carry + now.before + now.between
    requires PrintsFit(total, carry) && PrintsFit(total + PrintedSize(carry), now.before + now.between)
    ensures PrintsFit(total, prints) && PrintsFit(total + PrintedSize(prints), left)
    ensures PrintedSize(prints) + PrintedSize(left) == PrintedSize(carry) + PrintedSize(now.before + now.between)
  {
    hide *;
    var turn := now.before + now.between;
    Regroup(carry, now.before, now.between);
    BytesAppend(carry, turn);
    BytesAppend(prints, left);
    PrintsFitPieces(total, carry, turn);
    PrintsFitPieces(total, prints, left);
  }

  lemma {:induction false} RegroupedFits(s: Server, h: Hub, total: nat, carry: seq<Print>, turns: seq<SplitTurn>)
    requires PrintsFit(total, carry) && SplitTurnsFit(total + PrintedSize(carry), turns)
    ensures TurnsPrintable(total, Regrouped(s, h, carry, turns).0)
    decreases |turns|
  {
    hide *;
    if turns != [] && s.Serving? {
      var now := turns[0];
      var (prints, left) := Grouped(s, h, carry, now);
      var t := WholeServe(s, h, carry, now);
      TurnIsWhole(s, h, carry, now);
      RegroupedUnfolds(s, h, carry, turns);
      FittingTurn(total + PrintedSize(carry), turns);
      TurnFits(total, carry, now, prints, left);
      RegroupedFits(t.server, t.hub, total + PrintedSize(prints), left, turns[1..]);
      MoreTurnsPrintable(total, Regrouped(s, h, carry, turns).0);
    } else {
      NothingRegrouped(s, h, total, carry, turns);
    }
  }

  lemma RegroupedUnfolds(s: Server, h: Hub, carry: seq<Print>, turns: seq<SplitTurn>)
    requires turns != [] && s.Serving?
    ensures var whole := Regrouped(s, h, carry, turns).0;
            var (prints, left) := Grouped(s, h, carry, turns[0]);
            var t := WholeServe(s, h, carry, turns[0]);
            && whole != [] && whole[0].prints == prints
            && whole[1..] == Regrouped(t.server, t.hub, left, turns[1..]).0
  {
    hide Grouped, WholeServe;
  }

  lemma NothingRegrouped(s: Server, h: Hub, total: nat, carry: seq<Print>, turns: seq<SplitTurn>)
    requires turns == [] || !s.Serving?
    ensures TurnsPrintable(total, Regrouped(s, h, carry, turns).0)
  {
  }

  lemma FittingTurn(total: nat, turns: seq<SplitTurn>)
    requires turns != [] && SplitTurnsFit(total, turns)
    ensures PrintsFit(total, turns[0].before + turns[0].between)
    ensures SplitTurnsFit(total + PrintedSize(turns[0].before + turns[0].between), turns[1..])
  {
  }

  lemma MoreTurnsPrintable(total: nat, turns: seq<Surroundings>)
    requires turns != [] && PrintsFit(total, turns[0].prints)
    requires TurnsPrintable(total + PrintedSize(turns[0].prints), turns[1..])
    ensures TurnsPrintable(total, turns)
  {
  }

  // ---------------------------------------------------------------- whole connections

  /** A connection from its request up to where serving begins, or its end. */
  function BeginServing(hub: Hub, since: Option<nat>, exited: bool, sizes: nat -> Option<nat>,
                        meanwhile: seq<Print>): Turn
  {
    var t := Accept(hub, since, exited);
    match t.server
    case Replaying(id, offset, end, _) =>
      var range := RangeFrames(t.hub.disk, offset, end, sizes);
      Turn(if range.complete then Serving(id, None, exited) else Finished, PrintAll(t.hub, meanwhile),
           t.frames + range.frames + if range.complete then [] else [ERROR_FRAME])
    case _ => t
  }

  /** What is printed by then. */
  function PrintedMeanwhile(hub: Hub, since: Option<nat>, exited: bool, meanwhile: seq<Print>): seq<byte> {
    if Accept(hub, since, exited).server.Replaying? then BytesOf(meanwhile) else []
  }

  function AttachSplit(hub: Hub, since: Option<nat>, exited: bool, sizes: nat -> Option<nat>,
                       meanwhile: seq<Print>, turns: seq<SplitTurn>): Turn
  {
    var begun := BeginServing(hub, since, exited, sizes, meanwhile);
    Before(begun.frames, ServeAllSplit(begun.server, begun.hub, turns))
  }

  function BeginAudit(h: Hub, a: Audit, since: Option<nat>, exited: bool, meanwhile: seq<Print>): Audit {
    var a' := NextAudit(h, a, DoSubscribeResumable(since));
    if Accept(h, since, exited).server.Replaying? then PrintAudit(a', meanwhile) else a'
  }

  lemma AttachBegins(h: Hub, a: Audit, since: Option<nat>, exited: bool, sizes: nat -> Option<nat>,
                     meanwhile: seq<Print>, turns: seq<Surroundings>)
    ensures var begun := BeginServing(h, since, exited, sizes, meanwhile);
            && Attach(h, since, exited, sizes, meanwhile, turns)
               == Before(begun.frames, ServeAll(begun.server, begun.hub, turns))
            && AttachAudit(h, a, since, exited, sizes, meanwhile, turns)
               == ServeAllAudit(begun.server, begun.hub, BeginAudit(h, a, since, exited, meanwhile), turns)
  {
    var t := Accept(h, since, exited);
    assert !t.server.Replaying? ==> t.frames + [] == t.frames;
    if t.server.Replaying? {
      var range := RangeFrames(t.hub.disk, t.server.offset, t.server.end, sizes);
      var begun := BeginServing(h, since, exited, sizes, meanwhile);
      var rest := ServeAll(begun.server, begun.hub, turns).frames;
      hide RangeFrames, PrintAll, PrintAudit;
      assert t.server.alreadyExited == exited;
      if range.complete {
        assert begun.frames == t.frames + range.frames;
        Regroup(t.frames, range.frames, rest);
      } else {
        assert rest == [];
        Regroup(t.frames, range.frames, [ERROR_FRAME]);
      }
    }
  }

  lemma BeginHistory(h: Hub, a: Audit, since: Option<nat>, exited: bool, meanwhile: seq<Print>)
    ensures BeginAudit(h, a, since, exited, meanwhile).history
         == a.history + PrintedMeanwhile(h, since, exited, meanwhile)
  {
    AuditOfPrints(NextAudit(h, a, DoSubscribeResumable(since)), meanwhile);
    assert a.history + [] == a.history;
  }

  lemma SplitAttachIs(h: Hub, a: Audit, since: Option<nat>, exited: bool, sizes: nat -> Option<nat>,
                      meanwhile: seq<Print>, turns: seq<SplitTurn>)
    ensures var begun := BeginServing(h, since, exited, sizes, meanwhile);
            var (whole, left) := Regrouped(begun.server, begun.hub, [], turns);
            var t := AttachSplit(h, since, exited, sizes, meanwhile, turns);
            var printed := PrintedMeanwhile(h, since, exited, meanwhile) + PrintedIn(begun.server, begun.hub, turns);
            && t.frames == Attach(h, since, exited, sizes, meanwhile, whole).frames
            && t.server == Attach(h, since, exited, sizes, meanwhile, whole).server
            && t.server == ServeAllSplit(begun.server, begun.hub, turns).server
            && AttachAudit(h, a, since, exited, sizes, meanwhile, whole).history + BytesOf(left) == a.history + printed
  {
    var begun := BeginServing(h, since, exited, sizes, meanwhile);
    var whole := Regrouped(begun.server, begun.hub, [], turns).0;
    var a' := BeginAudit(h, a, since, exited, meanwhile);
    var during := PrintedIn(begun.server, begun.hub, turns);
    assert PrintAll(begun.hub, []) == begun.hub && BytesOf([]) + during == during;
    hide *;
    SplitServingIs(begun.server, begun.hub, [], turns);
    AttachBegins(h, a, since, exited, sizes, meanwhile, whole);
    BeginHistory(h, a, since, exited, meanwhile);
    RegroupedHistory(begun.server, begun.hub, a', [], turns);
    Regroup(a.history, PrintedMeanwhile(h, since, exited, meanwhile), during);
  }

  lemma RegroupedFromStart(begun: Turn, total: nat, turns: seq<SplitTurn>)
    requires total < U64_MODULUS && SplitTurnsFit(total, turns)
    ensures TurnsPrintable(total, Regrouped(begun.server, begun.hub, [], turns).0)
  {
    assert PrintsFit(total, []) && PrintedSize([]) == 0;
    hide Regrouped, TurnsPrintable;
    RegroupedFits(begun.server, begun.hub, total, [], turns);
  }

  /** What is left over when the stream has ended. */
  lemma EndOfServing(begun: Turn, turns: seq<SplitTurn>)
    requires ServeAllSplit(begun.server, begun.hub, turns).server.Finished?
    ensures BytesOf(Regrouped(begun.server, begun.hub, [], turns).1) == LastGap(begun.server, begun.hub, turns)
  {
    if begun.server.Serving? {
      assert PrintAll(begun.hub, []) == begun.hub;
      LeftOverIsGap(begun.server, begun.hub, [], turns);
    }
  }

  lemma ExitFinishes(t: Turn, pos: Option<nat>, at: nat, a: Audit)
    requires GoodTurn(t, pos, at, a) && EndsWithExit(t.frames)
    ensures t.server.Finished?
  {
  }

  lemma SuffixGrows(seen: seq<byte>, gap: seq<byte>, start: nat, out: seq<byte>)
    requires start <= |seen| && out == seen[start..]
    ensures out + gap == (seen + gap)[start..]
    ensures out == (seen + gap)[start..] <==> gap == []
  {
    assert (seen + gap)[start..] == seen[start..] + gap;
  }

  /** For every attach, and any printing between all polls: the frames carry the output from
      the start offset on without gap or repetition, and a stream that ends with EXIT lacks
      exactly what was printed between the two polls of its last turn. So the tail is never
      lost if and only if nothing was. */
  lemma SplitTailIsCompleteIff(h: Hub, a: Audit, since: Option<nat>, exited: bool, sizes: nat -> Option<nat>,
                               meanwhile: seq<Print>, turns: seq<SplitTurn>)
    requires Inv(h, a) && SmallChunks(h) && PrintsFit(|a.history|, meanwhile)
    requires SplitTurnsFit(|a.history| + PrintedSize(meanwhile), turns) && SplitTurnsFit(|a.history|, turns)
    ensures var begun := BeginServing(h, since, exited, sizes, meanwhile);
            var fs := AttachSplit(h, since, exited, sizes, meanwhile, turns).frames;
            var printed := PrintedMeanwhile(h, since, exited, meanwhile) + PrintedIn(begun.server, begun.hub, turns);
            var all, start := a.history + printed, StreamStart(h, since);
            var gap := LastGap(begun.server, begun.hub, turns);
            && Stream(fs, Some(start), all)
            && (EndsWithExit(fs) ==>
                  && start <= |all| && Output(fs) + gap == all[start..]
                  && (Output(fs) == all[start..] <==> gap == []))
  {
    hide *;
    var begun := BeginServing(h, since, exited, sizes, meanwhile);
    var (whole, left) := Regrouped(begun.server, begun.hub, [], turns);
    var t := Attach(h, since, exited, sizes, meanwhile, whole);
    var seen := AttachAudit(h, a, since, exited, sizes, meanwhile, whole).history;
    var gap, start := LastGap(begun.server, begun.hub, turns), StreamStart(h, since);
    SplitAttachIs(h, a, since, exited, sizes, meanwhile, turns);
    FittingTotal(|a.history|, meanwhile);
    RegroupedFromStart(begun, |a.history|, turns);
    RegroupedFromStart(begun, |a.history| + PrintedSize(meanwhile), turns);
    TailBeforeExit(h, a, since, exited, sizes, meanwhile, whole);
    SplitStreamIs(t.frames, seen, BytesOf(left), gap, start);
    if EndsWithExit(t.frames) {
      AttachIsGood(h, a, since, exited, sizes, meanwhile, whole);
      ExitFinishes(t, Some(start), start, AttachAudit(h, a, since, exited, sizes, meanwhile, whole));
      EndOfServing(begun, turns);
    }
  }

  lemma FittingTotal(total: nat, prints: seq<Print>)
    requires PrintsFit(total, prints)
    ensures total + PrintedSize(prints) < U64_MODULUS
  {
  }

  lemma SplitStreamIs(fs: seq<Frame>, seen: seq<byte>, left: seq<byte>, gap: seq<byte>, start: nat)
    requires Stream(fs, Some(start), seen) && (EndsWithExit(fs) ==> start <= |seen| && Output(fs) == seen[start..])
    ensures Stream(fs, Some(start), seen + left)
    ensures EndsWithExit(fs) && gap == left ==>
              && start <= |seen + left| && Output(fs) + gap == (seen + left)[start..]
              && (Output(fs) == (seen + left)[start..] <==> gap == [])
  {
    StreamOfLonger(fs, Some(start), seen, left);
    if EndsWithExit(fs) && gap == left {
      SuffixGrows(seen, gap, start, Output(fs));
    }
    hide Stream, Output;
  }

  // ---------------------------------------------------------------- an input

  lemma LosingTurn(s: Server, h: Hub, p: Print, info: ExitInfo)
    requires s.Serving? && s.pending.None? && Queue(h, s.id) == []
    ensures ServeAllSplit(s, h, [SplitTurn([], [p], Some(info), false, false)])
         == Turn(Finished, h.Broadcast(p.data, p.io), [ExitFrame(info)])
  {
    var turn := SplitTurn([], [p], Some(info), false, false);
    hide Queue, Hub.Broadcast, ExitFrame;
    assert PrintAll(h, []) == h && [p][1..] == [] && [turn][1..] == [];
    assert PrintAll(h, [p]) == PrintAll(h.Broadcast(p.data, p.io), []) == h.Broadcast(p.data, p.io);
    assert ServeAllSplit(Finished, h.Broadcast(p.data, p.io), []) == Turn(Finished, h.Broadcast(p.data, p.io), []);
  }

  lemma FreshConnection(h: Hub, sizes: nat -> Option<nat>)
    requires h.backlog == [] && !h.logError
    ensures var t := BeginServing(h, None, false, sizes, []);
            && t.server.Serving? && t.server.pending.None? && Queue(t.hub, t.server.id) == []
            && t.frames == [READY_FRAME] && t.hub.disk == h.disk && t.hub.logOpen == h.logOpen
  {
  }

  lemma DiskTakes(h: Hub, data: seq<byte>, io: FileIo)
    requires h.logOpen && io.logFailsAfter.None?
    ensures h.Broadcast(data, io).disk == h.disk + data
  {
    hide SendAll, SatAdd;
  }

  /** For instance, a program whose only byte arrives between the two polls, and then its
      end: the client is told the exit code and nothing else. */
  lemma TailIsLost(sizes: nat -> Option<nat>)
    ensures var h, x := OpenHub([], [], false), Print([0x78], FileIo(None, true, 0));
            var turn := SplitTurn([], [x], Some(ExitInfo(Some(0), false)), false, false);
            var t := AttachSplit(h, None, false, sizes, [], [turn]);
            t.frames == [READY_FRAME, ExitFrame(ExitInfo(Some(0), false))] && t.hub.disk == [0x78]
  {
    var h, x, info := OpenHub([], [], false), Print([0x78], FileIo(None, true, 0)), ExitInfo(Some(0), false);
    assert h.backlog == [] && !h.logError && h.logOpen && h.disk == [];
    hide *;
    FreshConnection(h, sizes);
    var begun := BeginServing(h, None, false, sizes, []);
    LosingTurn(begun.server, begun.hub, x, info);
    DiskTakes(begun.hub, x.data, x.io);
    SplitServes(h, None, false, sizes, [], [SplitTurn([], [x], Some(info), false, false)]);
  }

  lemma SplitServes(h: Hub, since: Option<nat>, exited: bool, sizes: nat -> Option<nat>, meanwhile: seq<Print>,
                    turns: seq<SplitTurn>)
    ensures var begun := BeginServing(h, since, exited, sizes, meanwhile);
            var t := ServeAllSplit(begun.server, begun.hub, turns);
            AttachSplit(h, since, exited, sizes, meanwhile, turns) == t.(frames := begun.frames + t.frames)
  {
    hide BeginServing, ServeAllSplit;
  }
}
