/**
 The output hub: every byte the wrapped command prints is appended to the log, kept in a
 bounded backlog, and fanned out to subscribers. `Hub` is its state; `OutputHub` is the
 object that updates that state in place, proved operation by operation against the
 functions on `Hub`. The invariants relate a hub to the history of its session.
 */
module OutputHubs {
  import opened Bytes

  const BACKLOG_CAP: nat := 0x10_0000

  datatype Chunk = Chunk(offset: nat, data: seq<byte>)

  /** One line of the capture-time sidecar. */
  datatype Row = Row(start: nat, length: nat, time: nat)

  /** A receiver is known by its id; its queue exists as long as the receiver does.
      `disk` and `rows` are the contents of the log file and of the sidecar. */
  datatype Hub = Hub(
    backlog: seq<byte>,
    backlogStart: nat,
    nextOffset: nat,
    disk: seq<byte>,
    logOpen: bool,
    logError: bool,
    rows: seq<Row>,
    timestampsOpen: bool,
    clients: seq<nat>,
    resumeClients: seq<nat>,
    legacyQueues: map<nat, seq<seq<byte>>>,
    resumeQueues: map<nat, seq<Chunk>>,
    nextId: nat)
  {
    /** Opening is a no-op while the log is open. */
    function ConfigureLog(opens: bool, timestampsOpens: bool): Hub {
      if logOpen || !opens then this
      else this.(nextOffset := |disk|, backlogStart := |disk|, logOpen := true, logError := false,
                 rows := if timestampsOpens && |disk| == 0 then [] else rows,
                 timestampsOpen := timestampsOpens)
    }

    function Captured(io: FileIo): bool { logOpen && io.logFailsAfter == None }

    function Record(data: seq<byte>, io: FileIo): Hub {
      if Captured(io) then
        this.(disk := disk + data,
           rows := if timestampsOpen && io.timestampOk then rows + [Row(nextOffset, |data|, io.now)] else rows,
           timestampsOpen := timestampsOpen && io.timestampOk)
      else if logOpen then
        this.(disk := disk + data[..Min(io.logFailsAfter.value, |data|)],
           logOpen := false, logError := true, timestampsOpen := false)
      else this
    }

    function Retain(data: seq<byte>): Hub {
      var all := backlog + data;
      var overflow := Max(|all| - BACKLOG_CAP, 0);
      this.(nextOffset := SatAdd(nextOffset, |data|),
         backlog := all[overflow..],
         backlogStart := if overflow > 0 then SatAdd(backlogStart, overflow) else backlogStart)
    }

    function FanOut(chunk: Chunk): Hub {
      var (clients, legacy) := SendAll(clients, legacyQueues, chunk.data);
      var (resumeClients, resume) := SendAll(resumeClients, resumeQueues, chunk);
      this.(clients := clients, legacyQueues := legacy, resumeClients := resumeClients, resumeQueues := resume)
    }

    function Broadcast(data: seq<byte>, io: FileIo): Hub {
      Record(data, io).Retain(data).FanOut(Chunk(nextOffset, data))
    }

    /** A legacy client receives the backlog, if any, as its first chunk. */
    function Subscribe(): Hub {
      this.(clients := clients + [nextId],
         legacyQueues := legacyQueues[nextId := if backlog != [] then [backlog] else []],
         nextId := nextId + 1)
    }

    function Subscription(since: Option<nat>): Subscription {
      if logError then LogUnavailable
      else if since.Some? && since.value > nextOffset then BeyondEnd
      else Subscribed(nextId, nextOffset,
                      if since.None? && backlog != [] then Some(Chunk(backlogStart, backlog)) else None)
    }

    function SubscribeResumable(since: Option<nat>): Hub {
      if Subscription(since).Subscribed? then
        this.(resumeClients := resumeClients + [nextId],
           resumeQueues := resumeQueues[nextId := []],
           nextId := nextId + 1)
      else this
    }

    function TakeLegacy(id: nat): Hub {
      if id in legacyQueues && legacyQueues[id] != []
      then this.(legacyQueues := legacyQueues[id := legacyQueues[id][1..]]) else this
    }

    function TakeResumable(id: nat): Hub {
      if id in resumeQueues && resumeQueues[id] != []
      then this.(resumeQueues := resumeQueues[id := resumeQueues[id][1..]]) else this
    }

    function DropReceiver(id: nat): Hub {
      this.(legacyQueues := legacyQueues - {id}, resumeQueues := resumeQueues - {id})
    }

    function Next(op: Op): Hub {
      match op
      case DoConfigure(opens, timestampsOpens) => ConfigureLog(opens, timestampsOpens)
      case DoBroadcast(data, io) => Broadcast(data, io)
      case DoSubscribe => Subscribe()
      case DoSubscribeResumable(since) => SubscribeResumable(since)
      case DoTakeLegacy(id) => TakeLegacy(id)
      case DoTakeResumable(id) => TakeResumable(id)
      case DoDrop(id) => DropReceiver(id)
    }
  }

  /** How the files behave during one broadcast: the log takes everything, or fails after
      some bytes; the sidecar takes its row or not; the clock shows `now`. */
  datatype FileIo = FileIo(logFailsAfter: Option<nat>, timestampOk: bool, now: nat)

  datatype Subscription =
    | Subscribed(id: nat, snapshotEnd: nat, backlog: Option<Chunk>)
    | LogUnavailable
    | BeyondEnd

  function SatAdd(a: nat, b: nat): nat { Min(a + b, U64_MODULUS - 1) }

  /** Sending to every sender in order; a sender whose receiver is gone is forgotten. */
  function SendAll<T>(ids: seq<nat>, queues: map<nat, seq<T>>, msg: T): (r: (seq<nat>, map<nat, seq<T>>))
    ensures r.1.Keys == queues.Keys
  {
    if ids == [] then (ids, queues)
    else
      var last := ids[|ids| - 1];
      var (kept, sent) := SendAll(ids[..|ids| - 1], queues, msg);
      if last in sent then (kept + [last], sent[last := sent[last] + [msg]]) else (kept, sent)
  }

  // ---------------------------------------------------------------- the object

  class OutputHub {
    var backlog: seq<byte>
    var backlogStart: nat
    var nextOffset: nat
    var disk: seq<byte>
    var logOpen: bool
    var logError: bool
    var rows: seq<Row>
    var timestampsOpen: bool
    var clients: seq<nat>
    var resumeClients: seq<nat>
    var legacyQueues: map<nat, seq<seq<byte>>>
    var resumeQueues: map<nat, seq<Chunk>>
    var nextId: nat

    function Abs(): Hub
      reads this
    {
      Hub(backlog, backlogStart, nextOffset, disk, logOpen, logError, rows, timestampsOpen,
          clients, resumeClients, legacyQueues, resumeQueues, nextId)
    }

    constructor (diskContents: seq<byte>, sidecar: seq<Row>)
      ensures Abs() == NewHub(diskContents, sidecar)
    {
      backlog, backlogStart, nextOffset := [], 0, 0;
      disk, logOpen, logError := diskContents, false, false;
      rows, timestampsOpen := sidecar, false;
      clients, resumeClients, legacyQueues, resumeQueues, nextId := [], [], map[], map[], 0;
    }

    method Configure(opens: bool, timestampsOpens: bool) returns (ok: bool)
      modifies this
      ensures Abs() == old(Abs()).ConfigureLog(opens, timestampsOpens)
      ensures ok <==> logOpen
    {
      if !logOpen {
        if !opens {
          return false;
        }
        nextOffset := |disk|;
        backlogStart := nextOffset;
        if timestampsOpens && nextOffset == 0 {
          rows := [];
        }
        timestampsOpen := timestampsOpens;
        logOpen := true;
        logError := false;
      }
      return true;
    }

    method Broadcast(data: seq<byte>, io: FileIo)
      modifies this
      ensures Abs() == old(Abs()).Broadcast(data, io)
    {
      var offset := nextOffset;
      Record(data, io);
      Retain(data);
      FanOut(Chunk(offset, data));
    }

    /** The log, and the sidecar if the log took the bytes. */
    method Record(data: seq<byte>, io: FileIo)
      modifies this
      ensures Abs() == old(Abs()).Record(data, io)
    {
      var captured := false;
      if logOpen {
        if io.logFailsAfter == None {
          disk := disk + data;
          captured := true;
        } else {
          disk := disk + data[..Min(io.logFailsAfter.value, |data|)];
          logError := true;
          logOpen := false;
          timestampsOpen := false;
        }
      }
      if captured && timestampsOpen {
        if io.timestampOk {
          rows := rows + [Row(nextOffset, |data|, io.now)];
        } else {
          timestampsOpen := false;
        }
      }
    }

    method Retain(data: seq<byte>)
      modifies this
      ensures Abs() == old(Abs()).Retain(data)
    {
      nextOffset := SatAdd(nextOffset, |data|);
      backlog := backlog + data;
      var overflow := Max(|backlog| - BACKLOG_CAP, 0);
      backlog := backlog[overflow..];
      if overflow > 0 {
        backlogStart := SatAdd(backlogStart, overflow);
      }
    }

    method FanOut(chunk: Chunk)
      modifies this
      ensures Abs() == old(Abs()).FanOut(chunk)
    {
      clients, legacyQueues := SendToAll(clients, legacyQueues, chunk.data);
      resumeClients, resumeQueues := SendToAll(resumeClients, resumeQueues, chunk);
    }

    method Subscribe() returns (id: nat)
      modifies this
      ensures Abs() == old(Abs()).Subscribe()
      ensures id == old(nextId)
    {
      id := nextId;
      nextId := nextId + 1;
      legacyQueues := legacyQueues[id := if backlog != [] then [backlog] else []];
      clients := clients + [id];
    }

    method SubscribeResumable(since: Option<nat>) returns (s: Subscription)
      modifies this
      ensures Abs() == old(Abs()).SubscribeResumable(since)
      ensures s == old(Abs()).Subscription(since)
    {
      if logError {
        return LogUnavailable;
      }
      if since.Some? && since.value > nextOffset {
        return BeyondEnd;
      }
      var snapshot := None;
      if since.None? && backlog != [] {
        snapshot := Some(Chunk(backlogStart, backlog));
      }
      s := Subscribed(nextId, nextOffset, snapshot);
      resumeQueues := resumeQueues[nextId := []];
      resumeClients := resumeClients + [nextId];
      nextId := nextId + 1;
    }

    method TryTake(id: nat) returns (r: Option<Chunk>)
      modifies this
      ensures Abs() == old(Abs()).TakeResumable(id)
      ensures r == if id in old(resumeQueues) && old(resumeQueues)[id] != []
                   then Some(old(resumeQueues)[id][0]) else None
    {
      if id in resumeQueues && resumeQueues[id] != [] {
        r := Some(resumeQueues[id][0]);
        resumeQueues := resumeQueues[id := resumeQueues[id][1..]];
      } else {
        r := None;
      }
    }
  }

  /** `retain` over the senders of one kind. */
  method SendToAll<T>(ids: seq<nat>, queues: map<nat, seq<T>>, msg: T)
    returns (kept: seq<nat>, sent: map<nat, seq<T>>)
    ensures (kept, sent) == SendAll(ids, queues, msg)
  {
    kept, sent := [], queues;
    var i := 0;
    while i < |ids|
      invariant 0 <= i <= |ids|
      invariant (kept, sent) == SendAll(ids[..i], queues, msg)
    {
      assert ids[..i + 1][..i] == ids[..i];
      if ids[i] in sent {
        sent := sent[ids[i] := sent[ids[i]] + [msg]];
        kept := kept + [ids[i]];
      }
      i := i + 1;
    }
    assert ids[..|ids|] == ids;
  }

  function NewHub(disk: seq<byte>, rows: seq<Row>): Hub {
    Hub([], 0, 0, disk, false, false, rows, false, [], [], map[], map[], 0)
  }

  // ---------------------------------------------------------------- history and invariants

  /** What one receiver has seen: everything from `start`, so far `taken`. */
  datatype View = View(start: nat, taken: seq<byte>)

  /** The session's output since the log was first created, the length of the log when this
      hub opened it, and the view of every receiver there has been. */
  datatype Audit = Audit(history: seq<byte>, openedAt: nat, views: map<nat, View>)

  predicate IsSegment(bytes: seq<byte>, start: nat, history: seq<byte>) {
    start + |bytes| <= |history| && history[start..start + |bytes|] == bytes
  }

  /** The chunks cover the history from `from` to its end, each at its true offset. */
  predicate Tiles(chunks: seq<Chunk>, from: nat, history: seq<byte>) {
    if chunks == [] then from == |history|
    else
      && chunks[0].offset == from
      && IsSegment(chunks[0].data, from, history)
      && Tiles(chunks[1..], from + |chunks[0].data|, history)
  }

  function Flatten(pieces: seq<seq<byte>>): seq<byte> {
    if pieces == [] then [] else pieces[0] + Flatten(pieces[1..])
  }

  predicate NoDuplicates(ids: seq<nat>) {
    forall i, j | 0 <= i < j < |ids| :: ids[i] != ids[j]
  }

  /** Every live receiver has exactly one sender, and ids are never reused. */
  predicate Registered<T>(ids: seq<nat>, queues: map<nat, seq<T>>, nextId: nat) {
    && NoDuplicates(ids)
    && (forall id | id in ids :: id < nextId)
    && (forall id | id in queues :: id in ids)
  }

  predicate BacklogInv(h: Hub, a: Audit) {
    && h.nextOffset == |a.history| < U64_MODULUS
    && a.openedAt <= |a.history|
    && h.backlogStart == Max(a.openedAt, |a.history| - BACKLOG_CAP)
    && h.backlog == a.history[h.backlogStart..]
  }

  /** While the log has not failed it is the history; after a failure it is a prefix. */
  predicate LogInv(h: Hub, a: Audit) {
    && h.disk <= a.history && a.openedAt <= |h.disk|
    && (h.logOpen ==> !h.logError)
    && (!h.logError ==> h.logOpen && h.disk == a.history)
  }

  /** What a legacy receiver has taken, then what waits for it, is the history from the
      start of its snapshot. */
  predicate LegacyComplete(view: View, queue: seq<seq<byte>>, history: seq<byte>) {
    view.start <= |history| && view.taken + Flatten(queue) == history[view.start..]
  }

  /** The same for a resumable receiver, whose chunks moreover carry their true offsets. */
  predicate ResumeComplete(view: View, queue: seq<Chunk>, history: seq<byte>) {
    && IsSegment(view.taken, view.start, history)
    && Tiles(queue, view.start + |view.taken|, history)
  }

  predicate LegacyInv(h: Hub, a: Audit) {
    && Registered(h.clients, h.legacyQueues, h.nextId)
    && forall id | id in h.legacyQueues ::
         id in a.views && LegacyComplete(a.views[id], h.legacyQueues[id], a.history)
  }

  predicate ResumeInv(h: Hub, a: Audit) {
    && Registered(h.resumeClients, h.resumeQueues, h.nextId)
    && forall id | id in h.resumeQueues ::
         id in a.views && ResumeComplete(a.views[id], h.resumeQueues[id], a.history)
  }

  predicate Inv(h: Hub, a: Audit) {
    && BacklogInv(h, a) && LogInv(h, a) && LegacyInv(h, a) && ResumeInv(h, a)
    && h.legacyQueues.Keys !! h.resumeQueues.Keys
  }

  // ---------------------------------------------------------------- steps

  datatype Op =
    | DoConfigure(opens: bool, timestampsOpen: bool)
    | DoBroadcast(data: seq<byte>, io: FileIo)
    | DoSubscribe
    | DoSubscribeResumable(since: Option<nat>)
    | DoTakeLegacy(id: nat)
    | DoTakeResumable(id: nat)
    | DoDrop(id: nat)

  /** Where the stream of a new resumable subscription starts. */
  function StreamStart(h: Hub, since: Option<nat>): nat {
    if since.Some? then since.value else h.backlogStart
  }

  /** The history grows with broadcasts; views grow as receivers take. The view of a
      resumable receiver starts at its snapshot, because what lies before it is replayed. */
  function NextAudit(h: Hub, a: Audit, op: Op): Audit {
    match op
    case DoBroadcast(data, _) => a.(history := a.history + data)
    case DoSubscribe => a.(views := a.views[h.nextId := View(h.backlogStart, [])])
    case DoSubscribeResumable(since) =>
      if h.Subscription(since).Subscribed?
      then a.(views := a.views[h.nextId := View(h.nextOffset, [])]) else a
    case DoTakeLegacy(id) =>
      if id in a.views && id in h.legacyQueues && h.legacyQueues[id] != []
      then a.(views := a.views[id := a.views[id].(taken := a.views[id].taken + h.legacyQueues[id][0])]) else a
    case DoTakeResumable(id) =>
      if id in a.views && id in h.resumeQueues && h.resumeQueues[id] != []
      then a.(views := a.views[id := a.views[id].(taken := a.views[id].taken + h.resumeQueues[id][0].data)]) else a
    case _ => a
  }

  lemma {:induction false} TilesSnoc(chunks: seq<Chunk>, from: nat, history: seq<byte>, data: seq<byte>)
    requires Tiles(chunks, from, history)
    ensures Tiles(chunks + [Chunk(|history|, data)], from, history + data)
  {
    var longer := history + data;
    var last := Chunk(|history|, data);
    if chunks == [] {
      assert longer[|history|..|history| + |data|] == data;
      assert [last][1..] == [];
      assert Tiles([], |longer|, longer);
      assert chunks + [last] == [last];
    } else {
      TilesSnoc(chunks[1..], from + |chunks[0].data|, history, data);
      assert (chunks + [last])[1..] == chunks[1..] + [last];
      SegmentOfLonger(chunks[0].data, from, history, data);
    }
  }

  lemma SegmentOfLonger(bytes: seq<byte>, start: nat, history: seq<byte>, data: seq<byte>)
    requires IsSegment(bytes, start, history)
    ensures IsSegment(bytes, start, history + data)
  {
    assert (history + data)[start..start + |bytes|] == history[start..start + |bytes|];
  }

  lemma {:induction false} FlattenSnoc(pieces: seq<seq<byte>>, data: seq<byte>)
    ensures Flatten(pieces + [data]) == Flatten(pieces) + data
  {
    if pieces == [] {
      assert pieces + [data] == [data];
      assert Flatten([data]) == data + Flatten([]);
    } else {
      FlattenSnoc(pieces[1..], data);
      assert (pieces + [data])[1..] == pieces[1..] + [data];
    }
  }

  /** Each live receiver gets the message exactly once, each dead sender is forgotten. */
  lemma {:induction false} SendAllDelivers<T>(ids: seq<nat>, queues: map<nat, seq<T>>, msg: T)
    requires NoDuplicates(ids)
    ensures var r := SendAll(ids, queues, msg);
            && NoDuplicates(r.0)
            && (forall id :: id in r.0 <==> id in ids && id in queues)
            && (forall id | id in queues :: r.1[id] == if id in ids then queues[id] + [msg] else queues[id])
  {
    if ids != [] {
      SendAllDelivers(ids[..|ids| - 1], queues, msg);
      assert ids == ids[..|ids| - 1] + [ids[|ids| - 1]];
    }
  }

  lemma BroadcastKeepsBacklog(h: Hub, a: Audit, data: seq<byte>, io: FileIo)
    requires BacklogInv(h, a) && |a.history| + |data| < U64_MODULUS
    ensures BacklogInv(h.Broadcast(data, io), a.(history := a.history + data))
  {
    var all := h.backlog + data;
    var longer := a.history + data;
    assert all == longer[h.backlogStart..];
  }

  lemma LegacyGrows(view: View, queue: seq<seq<byte>>, history: seq<byte>, data: seq<byte>)
    requires LegacyComplete(view, queue, history)
    ensures LegacyComplete(view, queue + [data], history + data)
  {
    FlattenSnoc(queue, data);
    assert (history + data)[view.start..] == history[view.start..] + data;
    assert view.taken + (Flatten(queue) + data) == (view.taken + Flatten(queue)) + data;
  }

  lemma ResumeGrows(view: View, queue: seq<Chunk>, history: seq<byte>, data: seq<byte>)
    requires ResumeComplete(view, queue, history)
    ensures ResumeComplete(view, queue + [Chunk(|history|, data)], history + data)
  {
    SegmentOfLonger(view.taken, view.start, history, data);
    TilesSnoc(queue, view.start + |view.taken|, history, data);
  }

  lemma BroadcastKeepsLegacy(h: Hub, a: Audit, data: seq<byte>, io: FileIo)
    requires LegacyInv(h, a)
    ensures LegacyInv(h.Broadcast(data, io), a.(history := a.history + data))
  {
    hide LegacyComplete, SendAll, NoDuplicates;
    SendAllDelivers(h.clients, h.legacyQueues, data);
    var h' := h.Broadcast(data, io);
    forall id | id in h'.legacyQueues
      ensures LegacyComplete(a.views[id], h'.legacyQueues[id], a.history + data)
    {
      LegacyGrows(a.views[id], h.legacyQueues[id], a.history, data);
    }
  }

  lemma BroadcastKeepsResumable(h: Hub, a: Audit, data: seq<byte>, io: FileIo)
    requires h.nextOffset == |a.history| && ResumeInv(h, a)
    ensures ResumeInv(h.Broadcast(data, io), a.(history := a.history + data))
  {
    hide ResumeComplete, SendAll, NoDuplicates;
    SendAllDelivers(h.resumeClients, h.resumeQueues, Chunk(h.nextOffset, data));
    var h' := h.Broadcast(data, io);
    forall id | id in h'.resumeQueues
      ensures ResumeComplete(a.views[id], h'.resumeQueues[id], a.history + data)
    {
      ResumeGrows(a.views[id], h.resumeQueues[id], a.history, data);
    }
  }

  lemma BroadcastKeepsLog(h: Hub, a: Audit, data: seq<byte>, io: FileIo)
    requires LogInv(h, a)
    ensures LogInv(h.Broadcast(data, io), a.(history := a.history + data))
    ensures h.Broadcast(data, io).legacyQueues.Keys == h.legacyQueues.Keys
    ensures h.Broadcast(data, io).resumeQueues.Keys == h.resumeQueues.Keys
  {
    hide SendAll;
  }

  lemma BroadcastKeepsInv(h: Hub, a: Audit, data: seq<byte>, io: FileIo)
    requires Inv(h, a) && |a.history| + |data| < U64_MODULUS
    ensures Inv(h.Next(DoBroadcast(data, io)), NextAudit(h, a, DoBroadcast(data, io)))
  {
    assert h.nextOffset == |a.history|;
    BroadcastKeepsBacklog(h, a, data, io);
    BroadcastKeepsLog(h, a, data, io);
    BroadcastKeepsLegacy(h, a, data, io);
    BroadcastKeepsResumable(h, a, data, io);
    hide BacklogInv, LogInv, LegacyInv, ResumeInv, Hub.Broadcast;
  }

  lemma TakeLegacyKeeps(view: View, queue: seq<seq<byte>>, history: seq<byte>)
    requires LegacyComplete(view, queue, history) && queue != []
    ensures LegacyComplete(view.(taken := view.taken + queue[0]), queue[1..], history)
  {
    assert (view.taken + queue[0]) + Flatten(queue[1..]) == view.taken + Flatten(queue);
  }

  lemma TakeResumableKeeps(view: View, queue: seq<Chunk>, history: seq<byte>)
    requires ResumeComplete(view, queue, history) && queue != []
    ensures ResumeComplete(view.(taken := view.taken + queue[0].data), queue[1..], history)
  {
    var next := view.start + |view.taken|;
    assert history[view.start..next + |queue[0].data|]
        == history[view.start..next] + history[next..next + |queue[0].data|];
  }

  lemma TakeKeepsInv(h: Hub, a: Audit, op: Op)
    requires Inv(h, a) && (op.DoTakeLegacy? || op.DoTakeResumable?)
    ensures Inv(h.Next(op), NextAudit(h, a, op))
  {
    hide LegacyComplete, ResumeComplete, NoDuplicates;
    if op.DoTakeLegacy? && op.id in h.legacyQueues && h.legacyQueues[op.id] != [] {
      TakeLegacyKeeps(a.views[op.id], h.legacyQueues[op.id], a.history);
    }
    if op.DoTakeResumable? && op.id in h.resumeQueues && h.resumeQueues[op.id] != [] {
      TakeResumableKeeps(a.views[op.id], h.resumeQueues[op.id], a.history);
    }
  }

  lemma RegisterNew<T>(ids: seq<nat>, queues: map<nat, seq<T>>, id: nat, queue: seq<T>)
    requires Registered(ids, queues, id)
    ensures Registered(ids + [id], queues[id := queue], id + 1)
    ensures id !in queues
  {
    var longer := ids + [id];
    assert forall k | 0 <= k < |ids| :: longer[k] == ids[k] && ids[k] in ids;
    assert forall x | x in longer :: x in ids || x == id;
    assert longer[|ids|] == id;
  }

  lemma SnapshotIsComplete(h: Hub, a: Audit)
    requires BacklogInv(h, a)
    ensures LegacyComplete(View(h.backlogStart, []), if h.backlog != [] then [h.backlog] else [], a.history)
  {
    assert [h.backlog][1..] == [];
    assert Flatten([h.backlog]) == h.backlog + Flatten([]) == h.backlog;
    assert [] + h.backlog == h.backlog;
  }

  lemma SubscribeKeepsInv(h: Hub, a: Audit)
    requires Inv(h, a)
    ensures Inv(h.Next(DoSubscribe), NextAudit(h, a, DoSubscribe))
  {
    LegacySubscribes(h, a);
    assert h.nextId !in h.legacyQueues && h.nextId !in h.resumeQueues;
    hide LegacyInv, ResumeComplete, NoDuplicates;
  }

  lemma LegacySubscribes(h: Hub, a: Audit)
    requires BacklogInv(h, a) && LegacyInv(h, a)
    ensures LegacyInv(h.Next(DoSubscribe), NextAudit(h, a, DoSubscribe))
  {
    var snapshot := if h.backlog != [] then [h.backlog] else [];
    SnapshotIsComplete(h, a);
    RegisterNew(h.clients, h.legacyQueues, h.nextId, snapshot);
    var h', a' := h.Next(DoSubscribe), NextAudit(h, a, DoSubscribe);
    assert h'.clients == h.clients + [h.nextId] && h'.nextId == h.nextId + 1;
    assert h'.legacyQueues == h.legacyQueues[h.nextId := snapshot];
    assert a'.history == a.history && a'.views == a.views[h.nextId := View(h.backlogStart, [])];
    hide LegacyComplete, Registered, BacklogInv, Hub.Next, NextAudit, Flatten;
  }

  lemma SubscribeResumableKeepsInv(h: Hub, a: Audit, since: Option<nat>)
    requires Inv(h, a)
    ensures Inv(h.Next(DoSubscribeResumable(since)), NextAudit(h, a, DoSubscribeResumable(since)))
  {
    assert ResumeComplete(View(h.nextOffset, []), [], a.history);
    RegisterNew(h.resumeClients, h.resumeQueues, h.nextId, []);
    hide LegacyComplete, ResumeComplete, NoDuplicates;
  }

  /** A dropped receiver is only missed; the log is open already. */
  lemma OtherOpKeepsInv(h: Hub, a: Audit, op: Op)
    requires Inv(h, a) && (op.DoDrop? || (op.DoConfigure? && h.logOpen))
    ensures Inv(h.Next(op), NextAudit(h, a, op))
  {
    hide LegacyComplete, ResumeComplete, NoDuplicates;
  }

  /** Every operation keeps the invariant, as long as the log is not reopened after a
      failure and offsets stay within 64 bits. */
  lemma StepKeepsInv(h: Hub, a: Audit, op: Op)
    requires Inv(h, a)
    requires op.DoConfigure? ==> h.logOpen
    requires op.DoBroadcast? ==> |a.history| + |op.data| < U64_MODULUS
    ensures Inv(h.Next(op), NextAudit(h, a, op))
  {
    hide Inv, Hub.Next, NextAudit;
    match op
    case DoBroadcast(data, io) => BroadcastKeepsInv(h, a, data, io);
    case DoTakeLegacy(_) => TakeKeepsInv(h, a, op);
    case DoTakeResumable(_) => TakeKeepsInv(h, a, op);
    case DoSubscribe => SubscribeKeepsInv(h, a);
    case DoSubscribeResumable(since) => SubscribeResumableKeepsInv(h, a, since);
    case _ => OtherOpKeepsInv(h, a, op);
  }

  // ---------------------------------------------------------------- runs

  /** The hub of a session, once its log has been opened for the first time. */
  function OpenHub(disk: seq<byte>, rows: seq<Row>, timestampsOpen: bool): Hub {
    NewHub(disk, rows).ConfigureLog(true, timestampsOpen)
  }

  function OpenAudit(disk: seq<byte>): Audit { Audit(disk, |disk|, map[]) }

  predicate Permitted(h: Hub, a: Audit, op: Op) {
    && (op.DoConfigure? ==> h.logOpen)
    && (op.DoBroadcast? ==> |a.history| + |op.data| < U64_MODULUS)
  }

  function Run(h: Hub, a: Audit, ops: seq<Op>): (Hub, Audit)
    decreases |ops|
  {
    if ops == [] then (h, a) else Run(h.Next(ops[0]), NextAudit(h, a, ops[0]), ops[1..])
  }

  predicate PermittedRun(h: Hub, a: Audit, ops: seq<Op>)
    decreases |ops|
  {
    ops == [] || (Permitted(h, a, ops[0]) && PermittedRun(h.Next(ops[0]), NextAudit(h, a, ops[0]), ops[1..]))
  }

  lemma {:induction false} RunKeepsInv(h: Hub, a: Audit, ops: seq<Op>)
    requires Inv(h, a) && PermittedRun(h, a, ops)
    ensures Inv(Run(h, a, ops).0, Run(h, a, ops).1)
    decreases |ops|
  {
    if ops != [] {
      StepKeepsInv(h, a, ops[0]);
      hide Inv;
      RunKeepsInv(h.Next(ops[0]), NextAudit(h, a, ops[0]), ops[1..]);
    }
  }

  function Payloads(chunks: seq<Chunk>): seq<byte> {
    if chunks == [] then [] else chunks[0].data + Payloads(chunks[1..])
  }

  lemma {:induction false} TilesAreTheHistory(chunks: seq<Chunk>, from: nat, history: seq<byte>)
    requires Tiles(chunks, from, history)
    ensures from <= |history| && Payloads(chunks) == history[from..]
  {
    if chunks != [] {
      TilesAreTheHistory(chunks[1..], from + |chunks[0].data|, history);
      assert history[from..] == history[from..from + |chunks[0].data|] + history[from + |chunks[0].data|..];
    }
  }

  /** The hub's promise, in every permitted run from the opening of the log: offsets count
      the bytes of the history, the backlog is its last bytes up to the cap, and what each
      live receiver took plus what waits for it is the history from its snapshot on. */
  lemma EveryReceiverIsComplete(disk: seq<byte>, rows: seq<Row>, timestampsOpen: bool, ops: seq<Op>)
    requires |disk| < U64_MODULUS
    requires PermittedRun(OpenHub(disk, rows, timestampsOpen), OpenAudit(disk), ops)
    ensures var (h, a) := Run(OpenHub(disk, rows, timestampsOpen), OpenAudit(disk), ops);
            && Inv(h, a)
            && h.nextOffset == |a.history|
            && h.backlog == a.history[h.backlogStart..] && |h.backlog| <= BACKLOG_CAP
            && (forall id | id in h.legacyQueues ::
                  && id in a.views && a.views[id].start <= |a.history|
                  && a.views[id].taken + Flatten(h.legacyQueues[id]) == a.history[a.views[id].start..])
            && (forall id | id in h.resumeQueues ::
                  && id in a.views && a.views[id].start <= |a.history|
                  && a.views[id].taken + Payloads(h.resumeQueues[id]) == a.history[a.views[id].start..]
                  && Tiles(h.resumeQueues[id], a.views[id].start + |a.views[id].taken|, a.history))
  {
    hide Run, OpenHub, Tiles, IsSegment, Flatten, Payloads;
    OpenHubInv(disk, rows, timestampsOpen);
    RunKeepsInv(OpenHub(disk, rows, timestampsOpen), OpenAudit(disk), ops);
    var (h, a) := Run(OpenHub(disk, rows, timestampsOpen), OpenAudit(disk), ops);
    forall id | id in h.resumeQueues
      ensures a.views[id].start <= |a.history|
      ensures a.views[id].taken + Payloads(h.resumeQueues[id]) == a.history[a.views[id].start..]
    {
      ResumableIsComplete(a.views[id], h.resumeQueues[id], a.history);
    }
  }

  lemma OpenHubInv(disk: seq<byte>, rows: seq<Row>, timestampsOpen: bool)
    requires |disk| < U64_MODULUS
    ensures Inv(OpenHub(disk, rows, timestampsOpen), OpenAudit(disk))
  {
  }

  lemma ResumableIsComplete(view: View, queue: seq<Chunk>, history: seq<byte>)
    requires ResumeComplete(view, queue, history)
    ensures view.start <= |history| && view.taken + Payloads(queue) == history[view.start..]
  {
    var next := view.start + |view.taken|;
    TilesAreTheHistory(queue, next, history);
    assert history[view.start..] == history[view.start..next] + history[next..];
  }

  /** Once a log write has failed, and as long as the log is not reopened, no resumable
      subscription succeeds, whatever its offset. */
  lemma {:induction false} RefusedAfterFailure(h: Hub, a: Audit, ops: seq<Op>, since: Option<nat>)
    requires h.logError && !h.logOpen
    requires forall op | op in ops :: !op.DoConfigure?
    ensures Run(h, a, ops).0.Subscription(since) == LogUnavailable
    decreases |ops|
  {
    if ops != [] {
      assert ops[0] in ops;
      RefusedAfterFailure(h.Next(ops[0]), NextAudit(h, a, ops[0]), ops[1..], since);
    }
  }

  /** A fresh subscription gets the whole backlog at its true offset, or there is none; a
      resumed one is refused exactly when it asks for bytes that do not exist yet. */
  lemma SubscriptionsAreExact(h: Hub, a: Audit, since: Option<nat>)
    requires Inv(h, a) && !h.logError
    ensures h.Subscription(since).BeyondEnd? <==> since.Some? && since.value > |a.history|
    ensures var s := h.Subscription(since);
            s.Subscribed? ==>
              && s.snapshotEnd == |a.history|
              && (s.backlog.Some? ==>
                    && since.None? && s.backlog.value.offset == StreamStart(h, since)
                    && s.backlog.value.data == a.history[StreamStart(h, since)..])
              && (since.None? && s.backlog.None? ==> StreamStart(h, since) == |a.history|)
  {
  }

  // ---------------------------------------------------------------- when the log is healthy

  predicate FailsLog(op: Op) { op.DoBroadcast? && op.io.logFailsAfter.Some? }

  predicate FailsSidecar(op: Op) { FailsLog(op) || (op.DoBroadcast? && !op.io.timestampOk) }

  predicate Reopens(op: Op) { op.DoConfigure? && op.opens }

  /** Some write to the log failed, and the log has not been reopened since. */
  predicate FailedSince(ops: seq<Op>) {
    exists k | 0 <= k < |ops| :: FailsLog(ops[k]) && forall m | k < m < |ops| :: !Reopens(ops[m])
  }

  /** The sidecar was opened before the operation `k`, at first or with a log that had failed. */
  predicate OpensSidecarAt(timestampsOpen: bool, ops: seq<Op>, k: nat)
    requires k <= |ops|
  {
    if k == 0 then timestampsOpen else ops[k - 1] == DoConfigure(true, true) && FailedSince(ops[..k - 1])
  }

  /** The sidecar was opened, and no write to it or to the log has failed since. */
  predicate SidecarWorks(timestampsOpen: bool, ops: seq<Op>) {
    exists k | 0 <= k <= |ops| ::
      OpensSidecarAt(timestampsOpen, ops, k) && forall m | k <= m < |ops| :: !FailsSidecar(ops[m])
  }

  lemma {:induction false} RunSnoc(h: Hub, a: Audit, ops: seq<Op>, op: Op)
    ensures var (h', a') := Run(h, a, ops);
            Run(h, a, ops + [op]) == (h'.Next(op), NextAudit(h', a', op))
    decreases |ops|
  {
    if ops == [] {
      assert ([] + [op])[1..] == [];
    } else {
      assert (ops + [op])[0] == ops[0] && (ops + [op])[1..] == ops[1..] + [op];
      hide Hub.Next, NextAudit;
      RunSnoc(h.Next(ops[0]), NextAudit(h, a, ops[0]), ops[1..], op);
    }
  }

  lemma FailedSnoc(ops: seq<Op>, op: Op)
    ensures FailedSince(ops + [op]) <==> FailsLog(op) || (FailedSince(ops) && !Reopens(op))
  {
    var longer := ops + [op];
    assert forall k | 0 <= k < |ops| :: longer[k] == ops[k];
    assert longer[|ops|] == op;
    if FailedSince(ops) && !Reopens(op) {
      var k :| 0 <= k < |ops| && FailsLog(ops[k]) && forall m | k < m < |ops| :: !Reopens(ops[m]);
      assert FailsLog(longer[k]) && forall m | k < m < |longer| :: !Reopens(longer[m]);
    }
    if FailedSince(longer) && !FailsLog(op) {
      var k :| 0 <= k < |longer| && FailsLog(longer[k]) && forall m | k < m < |longer| :: !Reopens(longer[m]);
      assert FailsLog(ops[k]) && forall m | k < m < |ops| :: !Reopens(longer[m]);
    }
  }

  lemma OpeningSnoc(timestampsOpen: bool, ops: seq<Op>, op: Op, k: nat)
    requires k <= |ops|
    ensures OpensSidecarAt(timestampsOpen, ops + [op], k) <==> OpensSidecarAt(timestampsOpen, ops, k)
  {
    assert k > 0 ==> (ops + [op])[..k - 1] == ops[..k - 1];
  }

  lemma SidecarSnoc(timestampsOpen: bool, ops: seq<Op>, op: Op)
    ensures SidecarWorks(timestampsOpen, ops + [op])
       <==> || (SidecarWorks(timestampsOpen, ops) && !FailsSidecar(op))
            || (op == DoConfigure(true, true) && FailedSince(ops))
  {
    var longer := ops + [op];
    assert forall k | 0 <= k < |ops| :: longer[k] == ops[k];
    assert longer[|ops|] == op && longer[..|ops|] == ops;
    hide FailsSidecar, FailedSince;
    if SidecarWorks(timestampsOpen, ops) && !FailsSidecar(op) {
      var k :| 0 <= k <= |ops| && OpensSidecarAt(timestampsOpen, ops, k)
               && forall m | k <= m < |ops| :: !FailsSidecar(ops[m]);
      OpeningSnoc(timestampsOpen, ops, op, k);
      assert forall m | k <= m < |longer| :: !FailsSidecar(longer[m]);
    }
    if op == DoConfigure(true, true) && FailedSince(ops) {
      assert OpensSidecarAt(timestampsOpen, longer, |longer|);
    }
    if SidecarWorks(timestampsOpen, longer) {
      var k :| 0 <= k <= |longer| && OpensSidecarAt(timestampsOpen, longer, k)
               && forall m | k <= m < |longer| :: !FailsSidecar(longer[m]);
      if k <= |ops| {
        OpeningSnoc(timestampsOpen, ops, op, k);
        assert forall m | k <= m < |ops| :: !FailsSidecar(longer[m]);
        assert !FailsSidecar(longer[|ops|]);
      }
    }
  }

  lemma HealthStep(h: Hub, op: Op)
    ensures var h' := h.Next(op);
            && (h.logOpen != h.logError ==> h'.logOpen != h'.logError)
            && (h.logOpen != h.logError ==>
                  (h'.logError <==> (h.logError && !Reopens(op)) || (h.logOpen && FailsLog(op))))
            && (h.logOpen != h.logError && (h.timestampsOpen ==> h.logOpen) ==>
                  && (h'.timestampsOpen ==> h'.logOpen)
                  && (h'.timestampsOpen <==>
                        (h.timestampsOpen && !FailsSidecar(op)) || (op == DoConfigure(true, true) && h.logError)))
  {
    hide SendAll, SatAdd;
  }

  /** Over every run from the opening, reopenings included, what the hub thinks of its files
      is what has happened to them: the log has failed if and only if some write to it did
      with no reopening since, and it is open otherwise; the sidecar is open if and only if
      it was opened, and no write to either has failed since. */
  lemma {:induction false} HealthIsExact(disk: seq<byte>, rows: seq<Row>, timestampsOpen: bool, ops: seq<Op>)
    ensures var h := Run(OpenHub(disk, rows, timestampsOpen), OpenAudit(disk), ops).0;
            && (h.logError <==> FailedSince(ops)) && (h.logOpen <==> !h.logError)
            && (h.timestampsOpen <==> SidecarWorks(timestampsOpen, ops)) && (h.timestampsOpen ==> h.logOpen)
    decreases |ops|
  {
    var h0, a0 := OpenHub(disk, rows, timestampsOpen), OpenAudit(disk);
    if ops == [] {
      assert OpensSidecarAt(timestampsOpen, ops, 0) <==> timestampsOpen;
    } else {
      var init, op := ops[..|ops| - 1], ops[|ops| - 1];
      assert ops == init + [op];
      hide *;
      HealthIsExact(disk, rows, timestampsOpen, init);
      RunSnoc(h0, a0, init, op);
      HealthStep(Run(h0, a0, init).0, op);
      FailedSnoc(init, op);
      SidecarSnoc(timestampsOpen, init, op);
      FailuresFail(op);
    }
  }

  lemma FailuresFail(op: Op)
    ensures FailsLog(op) ==> FailsSidecar(op) && !Reopens(op)
    ensures op == DoConfigure(true, true) ==> Reopens(op) && !FailsLog(op)
  {
  }

  lemma DiskStep(h: Hub, a: Audit, op: Op)
    ensures !h.logOpen && !Reopens(op) ==> h.Next(op).disk == h.disk && !h.Next(op).logOpen
    ensures h.logOpen ==>
              && h.Next(op).disk == h.disk + (if !op.DoBroadcast? then []
                                              else if FailsLog(op) then Taken(op) else op.data)
              && NextAudit(h, a, op).history == a.history + (if op.DoBroadcast? then op.data else [])
              && (h.Next(op).logOpen <==> !FailsLog(op))
  {
    hide SendAll, SatAdd;
  }

  /** What the log takes of a write that fails. */
  function Taken(op: Op): seq<byte>
    requires FailsLog(op)
  {
    op.data[..Min(op.io.logFailsAfter.value, |op.data|)]
  }

  /** Without a failing write the log is the history. */
  lemma {:induction false} LogIsHistory(disk: seq<byte>, rows: seq<Row>, timestampsOpen: bool, ops: seq<Op>)
    requires forall op | op in ops :: !FailsLog(op)
    ensures var (h, a) := Run(OpenHub(disk, rows, timestampsOpen), OpenAudit(disk), ops);
            h.disk == a.history && h.logOpen && !h.logError
    decreases |ops|
  {
    if ops != [] {
      var init, op := ops[..|ops| - 1], ops[|ops| - 1];
      assert ops == init + [op] && op in ops && forall x | x in init :: x in ops;
      hide *;
      var h0, a0 := OpenHub(disk, rows, timestampsOpen), OpenAudit(disk);
      LogIsHistory(disk, rows, timestampsOpen, init);
      RunSnoc(h0, a0, init, op);
      DiskStep(Run(h0, a0, init).0, Run(h0, a0, init).1, op);
      HealthStep(Run(h0, a0, init).0, op);
    }
  }

  /** After the first write that fails, and as long as the log is not reopened, the log is
      the history up to that write, and what was taken of it. */
  lemma {:induction false} LogStops(disk: seq<byte>, rows: seq<Row>, timestampsOpen: bool, ops: seq<Op>, k: nat)
    requires k < |ops| && FailsLog(ops[k]) && forall m | 0 <= m < k :: !FailsLog(ops[m])
    requires forall m | k < m < |ops| :: !Reopens(ops[m])
    ensures var h0, a0 := OpenHub(disk, rows, timestampsOpen), OpenAudit(disk);
            Run(h0, a0, ops).0.disk == Run(h0, a0, ops[..k]).1.history + Taken(ops[k]) && !Run(h0, a0, ops).0.logOpen
    decreases |ops|
  {
    var h0, a0 := OpenHub(disk, rows, timestampsOpen), OpenAudit(disk);
    var init, op := ops[..|ops| - 1], ops[|ops| - 1];
    assert ops == init + [op] && init[..Min(k, |init|)] == ops[..Min(k, |init|)];
    hide *;
    RunSnoc(h0, a0, init, op);
    DiskStep(Run(h0, a0, init).0, Run(h0, a0, init).1, op);
    if k == |init| {
      assert init == ops[..k];
      forall x | x in init
        ensures !FailsLog(x)
      {
        var m :| 0 <= m < |init| && init[m] == x;
        assert ops[m] == x;
      }
      LogIsHistory(disk, rows, timestampsOpen, init);
    } else {
      LogStops(disk, rows, timestampsOpen, init, k);
    }
  }

  // ---------------------------------------------------------------- who receives what

  /** The operation makes a receiver of one kind, with the next free id. */
  predicate Registers(h: Hub, op: Op, resumable: bool) {
    if resumable then op.DoSubscribeResumable? && h.Subscription(op.since).Subscribed? else op.DoSubscribe?
  }

  /** The operation `k` of a run makes `id` a receiver, and no later one drops it. */
  predicate RegistersAt(h: Hub, a: Audit, ops: seq<Op>, resumable: bool, id: nat, k: nat)
    requires k < |ops|
  {
    && Registers(Run(h, a, ops[..k]).0, ops[k], resumable) && Run(h, a, ops[..k]).0.nextId == id
    && forall m | k < m < |ops| :: ops[m] != DoDrop(id)
  }

  predicate IsReceiver(h: Hub, a: Audit, ops: seq<Op>, resumable: bool, id: nat) {
    exists k | 0 <= k < |ops| :: RegistersAt(h, a, ops, resumable, id, k)
  }

  lemma RegistersSnoc(h: Hub, a: Audit, ops: seq<Op>, op: Op, resumable: bool, id: nat, k: nat)
    requires k <= |ops|
    ensures RegistersAt(h, a, ops + [op], resumable, id, k)
       <==> if k == |ops| then Registers(Run(h, a, ops).0, op, resumable) && Run(h, a, ops).0.nextId == id
            else RegistersAt(h, a, ops, resumable, id, k) && op != DoDrop(id)
  {
    var longer := ops + [op];
    assert longer[..k] == ops[..k] && ops[..|ops|] == ops && longer[|ops|] == op;
    assert forall m | 0 <= m < |ops| :: longer[m] == ops[m];
    hide Run, Registers;
  }

  lemma ReceiverSnoc(h: Hub, a: Audit, ops: seq<Op>, op: Op, resumable: bool, id: nat)
    ensures IsReceiver(h, a, ops + [op], resumable, id)
       <==> || (Registers(Run(h, a, ops).0, op, resumable) && Run(h, a, ops).0.nextId == id)
            || (IsReceiver(h, a, ops, resumable, id) && op != DoDrop(id))
  {
    hide Run, Registers, RegistersAt;
    var longer := ops + [op];
    forall k | 0 <= k <= |ops|
      ensures RegistersAt(h, a, longer, resumable, id, k)
         <==> if k == |ops| then Registers(Run(h, a, ops).0, op, resumable) && Run(h, a, ops).0.nextId == id
              else RegistersAt(h, a, ops, resumable, id, k) && op != DoDrop(id)
    {
      RegistersSnoc(h, a, ops, op, resumable, id, k);
    }
    assert RegistersAt(h, a, longer, resumable, id, |ops|) ==> IsReceiver(h, a, longer, resumable, id);
  }

  lemma ReceiverStep(h: Hub, op: Op, id: nat)
    ensures id in h.Next(op).legacyQueues
       <==> (Registers(h, op, false) && h.nextId == id) || (id in h.legacyQueues && op != DoDrop(id))
    ensures id in h.Next(op).resumeQueues
       <==> (Registers(h, op, true) && h.nextId == id) || (id in h.resumeQueues && op != DoDrop(id))
  {
    hide SendAll, SatAdd;
  }

  /** Over every run from the opening, failures and reopenings included: whoever subscribed
      successfully is a receiver from then on, until it is dropped, and nobody else is. */
  lemma {:induction false} ReceiversAreExact(disk: seq<byte>, rows: seq<Row>, timestampsOpen: bool, ops: seq<Op>,
                                             id: nat)
    ensures var h0, a0 := OpenHub(disk, rows, timestampsOpen), OpenAudit(disk);
            var h := Run(h0, a0, ops).0;
            && (id in h.legacyQueues <==> IsReceiver(h0, a0, ops, false, id))
            && (id in h.resumeQueues <==> IsReceiver(h0, a0, ops, true, id))
    decreases |ops|
  {
    var h0, a0 := OpenHub(disk, rows, timestampsOpen), OpenAudit(disk);
    if ops != [] {
      var init, op := ops[..|ops| - 1], ops[|ops| - 1];
      assert ops == init + [op];
      hide *;
      ReceiversAreExact(disk, rows, timestampsOpen, init, id);
      RunSnoc(h0, a0, init, op);
      ReceiverStep(Run(h0, a0, init).0, op, id);
      ReceiverSnoc(h0, a0, init, op, false, id);
      ReceiverSnoc(h0, a0, init, op, true, id);
    }
  }

  /** A broadcast reaches every receiver that has a sender, once, as its last message, and
      every receiver has one; of the senders, those whose receivers are gone are forgotten. */
  lemma BroadcastReaches(h: Hub, a: Audit, data: seq<byte>, io: FileIo)
    requires Inv(h, a)
    ensures var h' := h.Broadcast(data, io);
            && (forall id | id in h.legacyQueues ::
                  id in h'.legacyQueues && h'.legacyQueues[id] == h.legacyQueues[id] + [data])
            && (forall id | id in h.resumeQueues ::
                  id in h'.resumeQueues && h'.resumeQueues[id] == h.resumeQueues[id] + [Chunk(|a.history|, data)])
            && (forall id :: id in h'.clients <==> id in h.legacyQueues)
            && (forall id :: id in h'.resumeClients <==> id in h.resumeQueues)
  {
    assert h.nextOffset == |a.history|;
    assert Registered(h.clients, h.legacyQueues, h.nextId) && Registered(h.resumeClients, h.resumeQueues, h.nextId);
    hide Inv, SendAll, NoDuplicates, SatAdd;
    SendAllDelivers(h.clients, h.legacyQueues, data);
    SendAllDelivers(h.resumeClients, h.resumeQueues, Chunk(h.nextOffset, data));
  }

  predicate NoneEmpty(h: Hub) {
    && (forall id, k | id in h.legacyQueues && 0 <= k < |h.legacyQueues[id]| :: h.legacyQueues[id][k] != [])
    && (forall id, k | id in h.resumeQueues && 0 <= k < |h.resumeQueues[id]| :: h.resumeQueues[id][k].data != [])
  }

  lemma {:induction false} SendingAddsOnly<T>(ids: seq<nat>, queues: map<nat, seq<T>>, msg: T, id: nat, k: nat)
    requires var sent := SendAll(ids, queues, msg).1; id in sent && k < |sent[id]|
    ensures SendAll(ids, queues, msg).1[id][k] == msg
         || (k < |queues[id]| && SendAll(ids, queues, msg).1[id][k] == queues[id][k])
  {
    if ids != [] {
      var init := ids[..|ids| - 1];
      if k < |SendAll(init, queues, msg).1[id]| {
        SendingAddsOnly(init, queues, msg, id, k);
      }
    }
  }

  lemma StepKeepsNonEmpty(h: Hub, op: Op)
    requires NoneEmpty(h) && Prints(op)
    ensures NoneEmpty(h.Next(op))
  {
    var h' := h.Next(op);
    if op.DoBroadcast? {
      forall id, k | id in h'.legacyQueues && 0 <= k < |h'.legacyQueues[id]|
        ensures h'.legacyQueues[id][k] != []
      {
        SendingAddsOnly(h.clients, h.legacyQueues, op.data, id, k);
      }
      forall id, k | id in h'.resumeQueues && 0 <= k < |h'.resumeQueues[id]|
        ensures h'.resumeQueues[id][k].data != []
      {
        SendingAddsOnly(h.resumeClients, h.resumeQueues, Chunk(h.nextOffset, op.data), id, k);
      }
    }
    hide SendAll, SatAdd;
  }

  predicate Prints(op: Op) { op.DoBroadcast? ==> op.data != [] }

  /** Nobody is ever sent nothing: as nobody broadcasts nothing, no receiver gets an empty
      message, and no subscriber an empty backlog. */
  lemma {:induction false} NoEmptyMessages(disk: seq<byte>, rows: seq<Row>, timestampsOpen: bool, ops: seq<Op>,
                                           since: Option<nat>)
    requires forall op | op in ops :: Prints(op)
    ensures var h := Run(OpenHub(disk, rows, timestampsOpen), OpenAudit(disk), ops).0;
            && NoneEmpty(h)
            && var s := h.Subscription(since); s.Subscribed? && s.backlog.Some? ==> s.backlog.value.data != []
    decreases |ops|
  {
    if ops != [] {
      var init, op := ops[..|ops| - 1], ops[|ops| - 1];
      assert ops == init + [op] && op in ops && forall x | x in init :: x in ops;
      var h0, a0 := OpenHub(disk, rows, timestampsOpen), OpenAudit(disk);
      hide *;
      NoEmptyMessages(disk, rows, timestampsOpen, init, since);
      RunSnoc(h0, a0, init, op);
      StepKeepsNonEmpty(Run(h0, a0, init).0, op);
    }
    BacklogIsNotEmpty(Run(OpenHub(disk, rows, timestampsOpen), OpenAudit(disk), ops).0, since);
  }

  lemma BacklogIsNotEmpty(h: Hub, since: Option<nat>)
    ensures var s := h.Subscription(since); s.Subscribed? && s.backlog.Some? ==> s.backlog.value.data != []
  {
  }

  // ---------------------------------------------------------------- at the end of 64 bits

  /** The offsets of a hub that has been used for longer than they can count. */
  predicate Saturated(h: Hub, a: Audit) {
    && a.openedAt <= |a.history|
    && h.nextOffset == Min(|a.history|, U64_MODULUS - 1)
    && h.backlogStart == Min(Max(a.openedAt, |a.history| - BACKLOG_CAP), U64_MODULUS - 1)
    && h.backlog == a.history[Max(a.openedAt, |a.history| - BACKLOG_CAP)..]
  }

  lemma SaturatedRetain(h: Hub, a: Audit, data: seq<byte>)
    requires Saturated(h, a)
    ensures Saturated(h.Retain(data), a.(history := a.history + data))
  {
    var longer := a.history + data;
    var at := Max(a.openedAt, |a.history| - BACKLOG_CAP);
    var all := h.backlog + data;
    assert all == longer[at..];
    var overflow := Max(|all| - BACKLOG_CAP, 0);
    assert at + overflow == Max(a.openedAt, |longer| - BACKLOG_CAP);
    assert all[overflow..] == longer[at + overflow..];
  }

  lemma SaturatedStep(h: Hub, a: Audit, op: Op)
    requires Saturated(h, a) && (h.logOpen || !Reopens(op))
    ensures Saturated(h.Next(op), NextAudit(h, a, op))
  {
    if op.DoBroadcast? {
      var h' := h.Record(op.data, op.io);
      RecordKeepsOffsets(h, op.data, op.io);
      SameOffsets(h, h', a);
      SaturatedRetain(h', a, op.data);
      FanOutKeepsOffsets(h'.Retain(op.data), Chunk(h.nextOffset, op.data));
      hide Saturated, Hub.Record, Hub.Retain, Hub.FanOut;
      SameOffsets(h'.Retain(op.data), h.Next(op), NextAudit(h, a, op));
    } else {
      OthersKeepOffsets(h, a, op);
      hide Saturated, Hub.Next, NextAudit;
      SameOffsets(h, h.Next(op), a);
      AuditOffsets(h.Next(op), a, NextAudit(h, a, op));
    }
  }

  lemma SameOffsets(h: Hub, h': Hub, a: Audit)
    requires Saturated(h, a)
    requires h'.nextOffset == h.nextOffset && h'.backlogStart == h.backlogStart && h'.backlog == h.backlog
    ensures Saturated(h', a)
  {
  }

  lemma AuditOffsets(h: Hub, a: Audit, a': Audit)
    requires Saturated(h, a) && a'.history == a.history && a'.openedAt == a.openedAt
    ensures Saturated(h, a')
  {
  }

  lemma RecordKeepsOffsets(h: Hub, data: seq<byte>, io: FileIo)
    ensures var h' := h.Record(data, io);
            h'.nextOffset == h.nextOffset && h'.backlogStart == h.backlogStart && h'.backlog == h.backlog
  {
  }

  lemma FanOutKeepsOffsets(h: Hub, chunk: Chunk)
    ensures var h' := h.FanOut(chunk);
            h'.nextOffset == h.nextOffset && h'.backlogStart == h.backlogStart && h'.backlog == h.backlog
  {
    hide SendAll;
  }

  lemma OthersKeepOffsets(h: Hub, a: Audit, op: Op)
    requires !op.DoBroadcast? && (h.logOpen || !Reopens(op))
    ensures var h' := h.Next(op);
            h'.nextOffset == h.nextOffset && h'.backlogStart == h.backlogStart && h'.backlog == h.backlog
    ensures NextAudit(h, a, op).history == a.history && NextAudit(h, a, op).openedAt == a.openedAt
  {
  }

  /** However much is printed: offsets stop at the last that 64 bits can hold, and the backlog
      goes on to be the last bytes of the history. */
  lemma {:induction false} OffsetsSaturate(disk: seq<byte>, rows: seq<Row>, timestampsOpen: bool, ops: seq<Op>)
    requires |disk| < U64_MODULUS && forall op | op in ops :: !Reopens(op)
    ensures var (h, a) := Run(OpenHub(disk, rows, timestampsOpen), OpenAudit(disk), ops); Saturated(h, a)
    decreases |ops|
  {
    if ops != [] {
      var init, op := ops[..|ops| - 1], ops[|ops| - 1];
      assert ops == init + [op] && op in ops && forall x | x in init :: x in ops;
      var h0, a0 := OpenHub(disk, rows, timestampsOpen), OpenAudit(disk);
      hide Run, OpenHub, OpenAudit, Saturated;
      OffsetsSaturate(disk, rows, timestampsOpen, init);
      RunSnoc(h0, a0, init, op);
      SaturatedStep(Run(h0, a0, init).0, Run(h0, a0, init).1, op);
    }
  }

  // ---------------------------------------------------------------- reopening

  /** Reopening the log after a failed write restarts the offsets at the end of the file
      but keeps the backlog. The hub is then consistent with the file, for whatever its
      receivers are taken to have seen, exactly when its backlog was empty. */
  lemma ReopenIsConsistentIff(h: Hub, a: Audit, timestampsOpens: bool)
    requires Inv(h, a) && !h.logOpen
    ensures (exists views :: Inv(h.ConfigureLog(true, timestampsOpens), Audit(h.disk, |h.disk|, views)))
       <==> h.backlog == []
  {
    var h' := h.ConfigureLog(true, timestampsOpens);
    assert |h.disk| <= |a.history|;
    assert h'.backlogStart == |h.disk| && h.disk[|h.disk|..] == [];
    if h.backlog == [] {
      assert |a.history| == a.openedAt && h.disk == a.history;
      var a' := Audit(h.disk, |h.disk|, a.views);
      assert LegacyInv(h', a') && ResumeInv(h', a');
      hide LegacyInv, ResumeInv;
      assert Inv(h', a');
    }
  }

  /** A failure needs a broadcast, which leaves bytes in the backlog. */
  lemma {:induction false} FailureNeedsOutput(h: Hub, a: Audit, ops: seq<Op>)
    requires Inv(h, a) && PermittedRun(h, a, ops) && forall op | op in ops :: Prints(op)
    requires h.logError ==> a.openedAt < |a.history|
    ensures var (h', a') := Run(h, a, ops); h'.logError ==> a'.openedAt < |a'.history|
    decreases |ops|
  {
    if ops != [] {
      assert ops[0] in ops && Prints(ops[0]) && forall op | op in ops[1..] :: op in ops;
      StepKeepsInv(h, a, ops[0]);
      FailingStep(h, a, ops[0]);
      hide Inv, Hub.Next, NextAudit;
      FailureNeedsOutput(h.Next(ops[0]), NextAudit(h, a, ops[0]), ops[1..]);
    }
  }

  lemma FailingStep(h: Hub, a: Audit, op: Op)
    requires Permitted(h, a, op) && Prints(op) && a.openedAt <= |a.history|
    requires h.logError ==> a.openedAt < |a.history|
    ensures h.Next(op).logError ==> NextAudit(h, a, op).openedAt < |NextAudit(h, a, op).history|
  {
    hide SendAll;
  }

  /** As nobody broadcasts nothing, this never happens: in every run a hub whose log has
      failed has a backlog, and reopening it leaves it inconsistent with the file. */
  lemma ReopenIsNeverConsistent(disk: seq<byte>, rows: seq<Row>, timestampsOpen: bool, ops: seq<Op>,
                                timestampsOpens: bool)
    requires |disk| < U64_MODULUS && forall op | op in ops :: Prints(op)
    requires PermittedRun(OpenHub(disk, rows, timestampsOpen), OpenAudit(disk), ops)
    ensures var (h, a) := Run(OpenHub(disk, rows, timestampsOpen), OpenAudit(disk), ops);
            h.logError ==>
              && h.backlog != []
              && forall views :: !Inv(h.ConfigureLog(true, timestampsOpens), Audit(h.disk, |h.disk|, views))
  {
    var h0, a0 := OpenHub(disk, rows, timestampsOpen), OpenAudit(disk);
    OpenHubInv(disk, rows, timestampsOpen);
    assert !h0.logError;
    hide Run, OpenHub;
    RunKeepsInv(h0, a0, ops);
    FailureNeedsOutput(h0, a0, ops);
    var (h, a) := Run(h0, a0, ops);
    if h.logError {
      assert h.backlog != [] && !h.logOpen;
      hide Inv;
      ReopenIsConsistentIff(h, a, timestampsOpens);
    }
  }

  /** For instance, after a write of three bytes that fails after one, a reopened hub offers
      a fresh client bytes 1 to 4 of a log that holds one byte. */
  lemma ReopenCanMisplaceBacklog()
    ensures var failed := OpenHub([], [], false).Broadcast([97, 98, 99], FileIo(Some(1), false, 0));
            var h := failed.ConfigureLog(true, false);
            && h.disk == [97] && h.nextOffset == 1
            && h.Subscription(None) == Subscribed(0, 1, Some(Chunk(1, [97, 98, 99])))
  {
  }
}
