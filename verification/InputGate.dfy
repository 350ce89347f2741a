/**
 Terminal input of a remote attach across losses and reconnections: what is typed passes a
 queue and the detach filter, and is forwarded only while a connection is attached. The
 object `RemoteInput` updates its state in place and is proved against the steps of `Gate`.
 */
module InputGates {
  import opened Bytes
  import opened DetachFilters

  /** Waiting for READY, forwarding, waiting to reconnect, or finished: left by the hotkey. */
  datatype Phase = Handshake | Attached | Backoff | Over(left: bool)

  /** One connection that got attached: what was typed while it was, what the filter was fed,
      what was sent, and whether sending the last piece failed. */
  datatype Epoch = Epoch(typed: seq<seq<byte>>, events: seq<Event>, forwarded: seq<byte>, broken: bool)

  /** A piece of input that the filter was given, and whether sending what it let through
      then failed. */
  datatype Fed = Fed(event: Event, failed: bool)

  /** `fed` is history: all input of the filter since it was last emptied. */
  datatype Gate = Gate(
    phase: Phase,
    filter: Filter,
    queue: seq<seq<byte>>,
    stdinOpen: bool,
    fed: seq<Fed>,
    epochs: seq<Epoch>)

  const NEW_GATE: Gate := Gate(Handshake, EMPTY, [], true, [], [])

  /** `written` says whether a write to the connection succeeds, `retry` whether a loss is
      survived. */
  datatype Label =
    | Types(chunk: seq<byte>)
    | StdinCloses
    | Receives(written: bool, retry: bool)
    | EscapeTimer(written: bool, retry: bool)
    | ReadyArrives
    | ConnectionFails(retry: bool)
    | SessionEnds
    | SleepEnds
    | StdinGone

  predicate Enabled(g: Gate, l: Label) {
    match l
    case Types(chunk) => g.stdinOpen && chunk != []
    case StdinCloses => g.stdinOpen
    case Receives(_, _) => !g.phase.Over? && g.queue != []
    case EscapeTimer(_, _) => g.phase.Attached? && g.filter.escape != []
    case ReadyArrives => g.phase.Handshake?
    case ConnectionFails(_) => g.phase.Handshake? || g.phase.Attached?
    case SessionEnds => g.phase.Handshake? || g.phase.Attached?
    case SleepEnds => g.phase.Backoff?
    case StdinGone => g.phase.Backoff? && !g.stdinOpen && g.queue == []
  }

  function AfterLoss(retry: bool): Phase { if retry then Backoff else Over(false) }

  function WithLast(epochs: seq<Epoch>, e: Epoch): seq<Epoch>
    requires epochs != []
  {
    epochs[..|epochs| - 1] + [e]
  }

  /** The queue read until it is empty or the hotkey is completed, forwarding nothing. */
  function Drained(f: Filter, queue: seq<seq<byte>>): (r: (Filter, seq<seq<byte>>, bool))
    ensures |r.1| <= |queue|
    decreases |queue|
  {
    if queue == [] then (f, [], false)
    else
      var r := Pushed(f, queue[0]);
      if r.detach then (r.filter, queue[1..], true) else Drained(r.filter, queue[1..])
  }

  /** Chunks read for the hotkey only. */
  function Unsent(chunks: seq<seq<byte>>): seq<Fed> {
    if chunks == [] then [] else [Fed(Chunk(chunks[0]), false)] + Unsent(chunks[1..])
  }

  /** The filter was fed `e` while attached: its output is sent, and only then does the
      hotkey count. */
  function Forwarded(g: Gate, e: Event, r: Outcome, written: bool, retry: bool): Gate
    requires g.epochs != []
  {
    var last := g.epochs[|g.epochs| - 1];
    var longer := last.(events := last.events + [e]);
    var failed := r.out != [] && !written;
    var fed := g.(filter := r.filter, fed := g.fed + [Fed(e, failed)]);
    if failed then fed.(phase := AfterLoss(retry), epochs := WithLast(g.epochs, longer.(broken := true)))
    else fed.(phase := if r.detach then Over(true) else Attached,
              epochs := WithLast(g.epochs, longer.(forwarded := last.forwarded + r.out)))
  }

  function Next(g: Gate, l: Label): Gate
    requires Enabled(g, l) && (g.phase.Attached? ==> g.epochs != [])
  {
    match l
    case Types(chunk) =>
      var typed := g.(queue := g.queue + [chunk]);
      if g.phase.Attached? then
        var last := g.epochs[|g.epochs| - 1];
        typed.(epochs := WithLast(g.epochs, last.(typed := last.typed + [chunk])))
      else typed
    case StdinCloses => g.(stdinOpen := false)
    case Receives(written, retry) =>
      var r := Pushed(g.filter, g.queue[0]);
      var taken := g.(queue := g.queue[1..]);
      if g.phase.Attached? then Forwarded(taken, Chunk(g.queue[0]), r, written, retry)
      else taken.(phase := if r.detach then Over(true) else g.phase, filter := r.filter,
                  fed := g.fed + [Fed(Chunk(g.queue[0]), false)])
    case EscapeTimer(written, retry) => Forwarded(g, EscapeTimeout, EscapeFlushed(g.filter), written, retry)
    case ReadyArrives =>
      var (f, rest, detach) := Drained(g.filter, g.queue);
      if detach then
        g.(phase := Over(true), filter := f, queue := rest,
           fed := g.fed + Unsent(g.queue[..|g.queue| - |rest|]))
      else
        g.(phase := Attached, filter := EMPTY, queue := rest, fed := [],
           epochs := g.epochs + [Epoch([], [], [], false)])
    case ConnectionFails(retry) => g.(phase := AfterLoss(retry))
    case SessionEnds => g.(phase := Over(false))
    case SleepEnds => g.(phase := Handshake, filter := EMPTY, fed := [])
    case StdinGone => g.(phase := Handshake)
  }

  predicate CanStep(g: Gate, l: Label) { Enabled(g, l) && (g.phase.Attached? ==> g.epochs != []) }

  predicate EnabledRun(g: Gate, ls: seq<Label>)
    decreases |ls|
  {
    ls == []
    || (CanStep(g, ls[0]) && EnabledRun(Next(g, ls[0]), ls[1..]))
  }

  function Run(g: Gate, ls: seq<Label>): Gate
    requires EnabledRun(g, ls)
    decreases |ls|
  {
    if ls == [] then g else Run(Next(g, ls[0]), ls[1..])
  }

  lemma {:induction false} RunSnoc(g: Gate, ls: seq<Label>, l: Label)
    requires EnabledRun(g, ls)
    requires CanStep(Run(g, ls), l)
    ensures EnabledRun(g, ls + [l]) && Run(g, ls + [l]) == Next(Run(g, ls), l)
    decreases |ls|
  {
    hide Next, Enabled;
    if ls == [] {
      assert (ls + [l])[0] == l && (ls + [l])[1..] == [];
    } else {
      assert (ls + [l])[0] == ls[0] && (ls + [l])[1..] == ls[1..] + [l];
      RunSnoc(Next(g, ls[0]), ls[1..], l);
    }
  }

  // ---------------------------------------------------------------- the client's own loops

  class RemoteInput {
    const filter: DetachFilter
    var phase: Phase
    var queue: seq<seq<byte>>
    var stdinOpen: bool
    var epochs: seq<Epoch>
    ghost var fed: seq<Fed>

    ghost function Abs(): Gate
      reads this, filter
    {
      Gate(phase, filter.Abs(), queue, stdinOpen, fed, epochs)
    }

    constructor ()
      ensures Abs() == NEW_GATE && fresh(filter)
    {
      filter := new DetachFilter();
      phase, queue, stdinOpen, epochs := Handshake, [], true, [];
      fed := [];
    }

    /** Reads what is queued, for the hotkey only. */
    method DiscardQueuedInput() returns (detach: bool)
      modifies this`queue, filter
      ensures (filter.Abs(), queue, detach) == Drained(old(filter.Abs()), old(queue))
    {
      ghost var f, q := filter.Abs(), queue;
      while queue != []
        invariant Drained(f, q) == Drained(filter.Abs(), queue)
        decreases |queue|
      {
        var chunk := queue[0];
        queue := queue[1..];
        var _, hotkey := filter.Push(chunk);
        if hotkey {
          return true;
        }
      }
      return false;
    }

    /** READY: nothing typed before it may reach the program, but the hotkey still works. */
    method BecomeReady() returns (detach: bool)
      requires phase.Handshake?
      modifies this, filter
      ensures Abs() == Next(old(Abs()), ReadyArrives) && detach == (phase == Over(true))
    {
      ghost var queued := queue;
      detach := DiscardQueuedInput();
      if detach {
        phase := Over(true);
        fed := fed + Unsent(queued[..|queued| - |queue|]);
        return;
      }
      filter.DiscardPending();
      phase := Attached;
      fed := [];
      epochs := epochs + [Epoch([], [], [], false)];
    }

    /** Sends what the filter let through; the hotkey counts only if that succeeded. */
    method Forward(e: Event, forward: seq<byte>, detach: bool, written: bool, retry: bool)
      requires epochs != []
      modifies this
      ensures Abs() == Forwarded(old(Abs()), e, Outcome(old(filter.Abs()), forward, detach), written, retry)
    {
      var last := epochs[|epochs| - 1];
      fed := fed + [Fed(e, forward != [] && !written)];
      if forward != [] && !written {
        phase := AfterLoss(retry);
        epochs := WithLast(epochs, last.(events := last.events + [e], broken := true));
        return;
      }
      epochs := WithLast(epochs, last.(events := last.events + [e], forwarded := last.forwarded + forward));
      phase := if detach then Over(true) else Attached;
    }

    /** A chunk arrives from the queue, in whatever phase. */
    method Receive(written: bool, retry: bool)
      requires Enabled(Abs(), Receives(written, retry)) && (phase.Attached? ==> epochs != [])
      modifies this, filter
      ensures Abs() == Next(old(Abs()), Receives(written, retry))
    {
      var chunk := queue[0];
      queue := queue[1..];
      var forward, detach := filter.Push(chunk);
      if phase.Attached? {
        Forward(Chunk(chunk), forward, detach, written, retry);
      } else {
        fed := fed + [Fed(Chunk(chunk), false)];
        phase := if detach then Over(true) else phase;
      }
    }

    method FireEscapeTimer(written: bool, retry: bool)
      requires Enabled(Abs(), EscapeTimer(written, retry)) && epochs != []
      modifies this, filter
      ensures Abs() == Next(old(Abs()), EscapeTimer(written, retry))
    {
      var forward := filter.FlushPartialEscape();
      Forward(EscapeTimeout, forward, false, written, retry);
    }

    /** Waits to reconnect while `turns` happen, up to the first that ends the wait. */
    method WaitReconnect(turns: seq<Label>) returns (detach: bool, used: nat)
      requires phase.Backoff? && EnabledRun(Abs(), turns)
      requires forall l | l in turns :: l.Types? || l.StdinCloses? || l.Receives? || l.SleepEnds? || l.StdinGone?
      modifies this, filter
      ensures used <= |turns| && EnabledRun(old(Abs()), turns[..used])
      ensures Abs() == Run(old(Abs()), turns[..used])
      ensures used < |turns| ==> !phase.Backoff?
      ensures detach <==> phase == Over(true)
    {
      hide Drained, Forwarded;
      used := 0;
      ghost var before := Abs();
      assert turns[..0] == [] && turns[0..] == turns;
      while used < |turns|
        invariant used <= |turns| && phase.Backoff?
        invariant EnabledRun(before, turns[..used]) && Abs() == Run(before, turns[..used])
        invariant EnabledRun(Abs(), turns[used..])
      {
        var turn := turns[used];
        assert turns[used..][0] == turn && turns[used..][1..] == turns[used + 1..];
        assert turns[..used] + [turn] == turns[..used + 1];
        RunSnoc(before, turns[..used], turn);
        ghost var g := Abs();
        used := used + 1;
        match turn {
          case Types(chunk) => queue := queue + [chunk];
          case StdinCloses => stdinOpen := false;
          case Receives(written, retry) =>
            Receive(written, retry);
            if phase == Over(true) {
              return true, used;
            }
          case SleepEnds =>
            filter.DiscardPending();
            fed := [];
            phase := Handshake;
            return false, used;
          case _ =>
            phase := Handshake;
            return false, used;
        }
        assert Abs() == Next(g, turn);
      }
      return false, used;
    }
  }

  // ---------------------------------------------------------------- feeding piece by piece

  lemma {:induction false} FeedConcat(f: Filter, a: seq<Event>, b: seq<Event>)
    ensures Feed(f, a + b) == if Feed(f, a).detach then Feed(f, a)
                              else Prepend(Feed(f, a).out, Feed(Feed(f, a).filter, b))
    decreases |a|
  {
    hide Apply;
    if a == [] {
      assert a + b == b;
    } else {
      assert (a + b)[0] == a[0] && (a + b)[1..] == a[1..] + b;
      var r := Apply(f, a[0]);
      if !r.detach {
        FeedConcat(r.filter, a[1..], b);
      }
    }
  }

  lemma FeedSnoc(f: Filter, a: seq<Event>, e: Event)
    requires !Feed(f, a).detach
    ensures Feed(f, a + [e]) == Prepend(Feed(f, a).out, Apply(Feed(f, a).filter, e))
  {
    FeedConcat(f, a, [e]);
    FeedOne(Feed(f, a).filter, e);
  }

  lemma FeedOne(f: Filter, e: Event)
    ensures Feed(f, [e]) == Apply(f, e)
  {
    hide Apply;
    assert [e][1..] == [];
    assert Apply(f, e).out + [] == Apply(f, e).out;
  }

  function Events(fed: seq<Fed>): seq<Event> {
    if fed == [] then [] else Events(fed[..|fed| - 1]) + [fed[|fed| - 1].event]
  }

  /** The filter after all of `fed`, whatever was completed on the way. */
  function FilterAfter(fed: seq<Fed>): Filter {
    if fed == [] then EMPTY else Apply(FilterAfter(fed[..|fed| - 1]), fed[|fed| - 1].event).filter
  }

  /** Piece `k` completes the hotkey. */
  predicate CompletesAt(fed: seq<Fed>, k: nat) {
    k < |fed| && Apply(FilterAfter(fed[..k]), fed[k].event).detach
  }

  /** Some piece that was sent without a failure, or with one, completes the hotkey. */
  predicate Completed(fed: seq<Fed>, failed: bool) {
    exists k: nat | k < |fed| :: CompletesAt(fed, k) && fed[k].failed == failed
  }

  lemma FedSnoc(fed: seq<Fed>, p: Fed, failed: bool)
    ensures Events(fed + [p]) == Events(fed) + [p.event]
    ensures FilterAfter(fed + [p]) == Apply(FilterAfter(fed), p.event).filter
    ensures Completed(fed + [p], failed)
       <==> Completed(fed, failed) || (p.failed == failed && Apply(FilterAfter(fed), p.event).detach)
  {
    hide Apply;
    var longer := fed + [p];
    assert longer[..|fed|] == fed;
    forall k: nat | k < |fed|
      ensures CompletesAt(longer, k) <==> CompletesAt(fed, k)
    {
      assert longer[..k] == fed[..k];
    }
    assert CompletesAt(longer, |fed|) <==> Apply(FilterAfter(fed), p.event).detach;
    hide CompletesAt, FilterAfter, Events;
    if Completed(fed, failed) {
      var k: nat :| k < |fed| && CompletesAt(fed, k) && fed[k].failed == failed;
      assert longer[k] == fed[k];
    }
    if Completed(longer, failed) {
      var k: nat :| k < |longer| && CompletesAt(longer, k) && longer[k].failed == failed;
      assert k < |fed| ==> longer[k] == fed[k];
    }
  }

  /** The filter, stopping at the first completion, and the pieces one by one. */
  lemma {:induction false} FeedOfFed(fed: seq<Fed>)
    ensures Feed(EMPTY, Events(fed)).detach <==> Completed(fed, false) || Completed(fed, true)
    ensures !Feed(EMPTY, Events(fed)).detach ==> Feed(EMPTY, Events(fed)).filter == FilterAfter(fed)
  {
    if fed != [] {
      var init, p := fed[..|fed| - 1], fed[|fed| - 1];
      assert fed == init + [p];
      FeedOfFed(init);
      FedSnoc(init, p, false);
      FedSnoc(init, p, true);
      hide Apply, Feed, Completed, FilterAfter, Events;
      FeedConcat(EMPTY, Events(init), [p.event]);
      FeedOne(Feed(EMPTY, Events(init)).filter, p.event);
    }
  }

  lemma DrainStep(fed: seq<Fed>, queue: seq<seq<byte>>)
    requires queue != []
    ensures var next := fed + [Fed(Chunk(queue[0]), false)];
            fed + Unsent(queue) == next + Unsent(queue[1..])
  {
    Regroup(fed, [Fed(Chunk(queue[0]), false)], Unsent(queue[1..]));
  }

  lemma ReadIsLonger(fed: seq<Fed>, queue: seq<seq<byte>>, rest: nat)
    requires queue != [] && rest <= |queue[1..]|
    ensures fed + Unsent(queue[..|queue| - rest])
         == (fed + [Fed(Chunk(queue[0]), false)]) + Unsent(queue[1..][..|queue[1..]| - rest])
  {
    var read := queue[..|queue| - rest];
    assert read[0] == queue[0] && read[1..] == queue[1..][..|queue[1..]| - rest];
    DrainStep(fed, read);
  }

  lemma PushIsApply(f: Filter, chunk: seq<byte>)
    ensures Apply(f, Chunk(chunk)) == Pushed(f, chunk)
  {
  }

  lemma UnsentOne(chunk: seq<byte>)
    ensures Unsent([chunk]) == [Fed(Chunk(chunk), false)]
  {
    assert [chunk][1..] == [];
  }

  /** `drained` is what becomes of a filter fed `fed` that then reads `queue`, and how much
      of the queue it leaves. */
  predicate DrainedAs(fed: seq<Fed>, queue: seq<seq<byte>>, drained: (Filter, seq<seq<byte>>, bool)) {
    && |drained.1| <= |queue|
    && var all := fed + Unsent(queue[..|queue| - |drained.1|]);
       && drained.0 == FilterAfter(all) && (drained.2 <==> Completed(all, false))
       && (!drained.2 ==> drained.1 == [])
  }

  lemma NothingDrained(fed: seq<Fed>)
    requires !Completed(fed, false)
    ensures DrainedAs(fed, [], (FilterAfter(fed), [], false))
  {
    assert fed + [] == fed;
  }

  lemma DrainedLast(fed: seq<Fed>, queue: seq<seq<byte>>)
    requires queue != [] && Pushed(FilterAfter(fed), queue[0]).detach
    ensures DrainedAs(fed, queue, (Pushed(FilterAfter(fed), queue[0]).filter, queue[1..], true))
  {
    var p := Fed(Chunk(queue[0]), false);
    PushIsApply(FilterAfter(fed), queue[0]);
    FedSnoc(fed, p, false);
    UnsentOne(queue[0]);
    assert queue[..|queue| - |queue[1..]|] == [queue[0]];
    hide Pushed, Completed, FilterAfter, Apply, Unsent;
  }

  lemma DrainedLonger(fed: seq<Fed>, queue: seq<seq<byte>>, drained: (Filter, seq<seq<byte>>, bool))
    requires queue != [] && DrainedAs(fed + [Fed(Chunk(queue[0]), false)], queue[1..], drained)
    ensures DrainedAs(fed, queue, drained)
  {
    ReadIsLonger(fed, queue, |drained.1|);
    hide Completed, FilterAfter, Unsent;
  }

  /** Draining feeds the filter what it reads, and stops at a completion. */
  lemma {:induction false} DrainedIsFed(fed: seq<Fed>, queue: seq<seq<byte>>)
    requires !Completed(fed, false)
    ensures DrainedAs(fed, queue, Drained(FilterAfter(fed), queue))
    decreases |queue|
  {
    hide Pushed, Completed, FilterAfter, DrainedAs, Apply;
    if queue == [] {
      NothingDrained(fed);
    } else {
      var p := Fed(Chunk(queue[0]), false);
      PushIsApply(FilterAfter(fed), queue[0]);
      FedSnoc(fed, p, false);
      if Pushed(FilterAfter(fed), queue[0]).detach {
        DrainedLast(fed, queue);
      } else {
        DrainedIsFed(fed + [p], queue[1..]);
        DrainedLonger(fed, queue, Drained(FilterAfter(fed + [p]), queue[1..]));
      }
    }
  }

  /** A step that turns `held` and its input into `out` and `kept`, and then a prefix of
      what follows. */
  lemma PrefixAfter(held: seq<byte>, input: seq<byte>, out: seq<byte>, kept: seq<byte>,
                    more: seq<byte>, rest: seq<byte>)
    requires out + kept == held + input && more <= kept + rest
    ensures out + more <= held + (input + rest)
  {
    calc {
      out + (kept + rest);
      (out + kept) + rest;
      held + (input + rest);
    }
  }

  /** Whatever happens, what is forwarded is a prefix of what was fed. */
  lemma {:induction false} PushForwardsPrefix(f: Filter, chunk: seq<byte>)
    requires Bounded(f)
    ensures Pushed(f, chunk).out <= (f.withheld + f.escape) + chunk
    decreases |chunk|
  {
    hide BytePushed;
    if chunk != [] {
      PushByteConserves(f, chunk[0]);
      var r := BytePushed(f, chunk[0]);
      if !r.detach {
        PushForwardsPrefix(r.filter, chunk[1..]);
        hide Bounded;
        var kept := r.filter.withheld + r.filter.escape;
        assert r.out + kept == (f.withheld + f.escape) + [chunk[0]];
        PrefixAfter(f.withheld + f.escape, [chunk[0]], r.out, kept, Pushed(r.filter, chunk[1..]).out, chunk[1..]);
        assert [chunk[0]] + chunk[1..] == chunk;
      }
    }
  }

  lemma {:induction false} FeedForwardsPrefix(f: Filter, events: seq<Event>)
    requires Bounded(f)
    ensures Feed(f, events).out <= (f.withheld + f.escape) + Typed(events)
    decreases |events|
  {
    if events != [] {
      ApplyForwardsPrefix(f, events[0]);
      hide Apply, Bounded;
      var r := Apply(f, events[0]);
      var one := Typed([events[0]]);
      assert Typed(events) == one + Typed(events[1..]) by {
        TypedOne(events[0]);
      }
      if r.detach {
        assert (f.withheld + f.escape) + (one + Typed(events[1..]))
            == ((f.withheld + f.escape) + one) + Typed(events[1..]);
      } else {
        FeedForwardsPrefix(r.filter, events[1..]);
        var kept := r.filter.withheld + r.filter.escape;
        PrefixAfter(f.withheld + f.escape, one, r.out, kept, Feed(r.filter, events[1..]).out, Typed(events[1..]));
      }
    }
  }

  lemma TypedOne(e: Event)
    ensures Typed([e]) == if e.Chunk? then e.bytes else []
  {
    assert [e][1..] == [];
  }

  lemma ApplyForwardsPrefix(f: Filter, e: Event)
    requires Bounded(f)
    ensures var r := Apply(f, e);
            && Bounded(r.filter)
            && r.out <= (f.withheld + f.escape) + Typed([e])
            && (!r.detach ==> r.out + (r.filter.withheld + r.filter.escape) == (f.withheld + f.escape) + Typed([e]))
  {
    TypedOne(e);
    if e.Chunk? {
      PushConserves(f, e.bytes);
      PushForwardsPrefix(f, e.bytes);
      hide Pushed, Bounded;
      var r := Pushed(f, e.bytes);
      Regroup(r.out, r.filter.withheld, r.filter.escape);
    }
  }

  // ---------------------------------------------------------------- nothing typed offline is sent

  function Chunks(events: seq<Event>): seq<seq<byte>> {
    if events == [] then []
    else
      var init := Chunks(events[..|events| - 1]);
      match events[|events| - 1]
      case Chunk(bytes) => init + [bytes]
      case EscapeTimeout => init
  }

  /** What of an epoch's input was answered by a successful write. */
  function Delivered(e: Epoch): seq<Event> {
    if e.broken && e.events != [] then e.events[..|e.events| - 1] else e.events
  }

  /** The filter saw, from its empty state, only what was typed while attached; what was
      forwarded is what it let through. */
  predicate EpochInv(e: Epoch) {
    && Chunks(e.events) <= e.typed
    && e.forwarded == Feed(EMPTY, Delivered(e)).out
  }

  predicate EpochsInv(epochs: seq<Epoch>) { forall e | e in epochs :: EpochInv(e) }

  /** While attached, the last epoch has the whole input of the filter, and the queue holds
      the rest of what was typed in it. */
  predicate AttachedInv(g: Gate) {
    g.phase.Attached? ==>
      && g.epochs != []
      && var last := g.epochs[|g.epochs| - 1];
         && last.events == Events(g.fed) && !last.broken
         && Feed(EMPTY, last.events).filter == g.filter && !Feed(EMPTY, last.events).detach
         && Chunks(last.events) + g.queue == last.typed
  }

  predicate FilterInv(g: Gate) {
    && g.filter == FilterAfter(g.fed)
    && (g.phase == Over(true) <==> Completed(g.fed, false))
  }

  predicate GateInv(g: Gate) { EpochsInv(g.epochs) && AttachedInv(g) && FilterInv(g) }

  lemma WithLastKeeps(epochs: seq<Epoch>, e: Epoch)
    requires EpochsInv(epochs) && epochs != [] && EpochInv(e)
    ensures EpochsInv(WithLast(epochs, e)) && |WithLast(epochs, e)| == |epochs|
    ensures WithLast(epochs, e)[|epochs| - 1] == e
  {
    hide EpochInv;
    forall x | x in WithLast(epochs, e)
      ensures EpochInv(x)
    {
      assert x in epochs || x == e;
    }
  }

  lemma ChunksSnoc(events: seq<Event>, e: Event)
    ensures Chunks(events + [e]) == Chunks(events) + if e.Chunk? then [e.bytes] else []
  {
    assert (events + [e])[..|events|] == events;
    assert Chunks(events) + [] == Chunks(events);
  }

  lemma FedEpoch(last: Epoch, e: Event, r: Outcome, typed: seq<seq<byte>>)
    requires EpochInv(last) && !last.broken
    requires !Feed(EMPTY, last.events).detach && r == Apply(Feed(EMPTY, last.events).filter, e)
    requires Chunks(last.events) + (if e.Chunk? then [e.bytes] else []) <= last.typed
    ensures EpochInv(last.(events := last.events + [e], broken := true))
    ensures EpochInv(last.(events := last.events + [e], forwarded := last.forwarded + r.out))
  {
    hide Apply, Feed;
    FeedSnoc(EMPTY, last.events, e);
    ChunksSnoc(last.events, e);
    hide Chunks;
    assert (last.events + [e])[..|last.events|] == last.events;
  }

  lemma ForwardedIsGood(g: Gate, e: Event, r: Outcome, written: bool, retry: bool)
    requires g.phase.Attached? && g.epochs != [] && EpochsInv(g.epochs)
    requires g.epochs[|g.epochs| - 1].events == Events(g.fed) && !g.epochs[|g.epochs| - 1].broken
    requires Chunks(Events(g.fed) + [e]) + g.queue == g.epochs[|g.epochs| - 1].typed
    requires r == Apply(FilterAfter(g.fed), e) && !Completed(g.fed, false)
    requires var fed := Feed(EMPTY, Events(g.fed) + [e]); fed.filter == r.filter && fed.detach == r.detach
    requires var last := g.epochs[|g.epochs| - 1];
             && EpochInv(last.(events := last.events + [e], broken := true))
             && EpochInv(last.(events := last.events + [e], forwarded := last.forwarded + r.out))
    ensures GateInv(Forwarded(g, e, r, written, retry))
  {
    FedSnoc(g.fed, Fed(e, r.out != [] && !written), false);
    hide Apply, Feed, Chunks, EpochInv, EpochsInv, WithLast, Completed, FilterAfter, Events;
    var last := g.epochs[|g.epochs| - 1];
    WithLastKeeps(g.epochs, last.(events := last.events + [e], broken := true));
    WithLastKeeps(g.epochs, last.(events := last.events + [e], forwarded := last.forwarded + r.out));
  }

  /** Both ways in which the filter is fed while attached. */
  lemma ForwardKeepsGate(g: Gate, e: Event, queue: seq<seq<byte>>, written: bool, retry: bool)
    requires GateInv(g) && g.phase.Attached?
    requires g.queue == (if e.Chunk? then [e.bytes] else []) + queue
    ensures GateInv(Forwarded(g.(queue := queue), e, Apply(g.filter, e), written, retry))
  {
    var last := g.epochs[|g.epochs| - 1];
    var r := Apply(g.filter, e);
    assert EpochInv(last) by {
      assert last in g.epochs;
    }
    assert r == Apply(FilterAfter(g.fed), e) && !Completed(g.fed, false);
    hide *;
    var one := if e.Chunk? then [e.bytes] else [];
    assert Chunks(last.events + [e]) == Chunks(last.events) + one by {
      ChunksSnoc(last.events, e);
    }
    Regroup(Chunks(last.events), one, queue);
    FedEpoch(last, e, r, last.typed);
    var fed := Feed(EMPTY, last.events + [e]);
    assert fed.filter == r.filter && fed.detach == r.detach by {
      FeedSnoc(EMPTY, last.events, e);
    }
    ForwardedIsGood(g.(queue := queue), e, r, written, retry);
  }

  lemma FeedNothing(f: Filter)
    ensures Feed(f, []) == Outcome(f, [], false)
  {
  }

  lemma NothingFed()
    ensures FilterAfter([]) == EMPTY && Events([]) == [] && !Completed([], false)
  {
  }

  lemma TypingKeepsGate(g: Gate, chunk: seq<byte>)
    requires GateInv(g) && Enabled(g, Types(chunk))
    ensures GateInv(Next(g, Types(chunk)))
  {
    hide Feed, Chunks;
    if g.phase.Attached? {
      var last := g.epochs[|g.epochs| - 1];
      assert last in g.epochs && EpochInv(last.(typed := last.typed + [chunk]));
      hide EpochInv, EpochsInv;
      WithLastKeeps(g.epochs, last.(typed := last.typed + [chunk]));
    }
  }

  lemma OfflineReceiveKeepsGate(g: Gate, l: Label)
    requires GateInv(g) && l.Receives? && Enabled(g, l) && !g.phase.Attached?
    ensures GateInv(Next(g, l))
  {
    hide Feed, EpochsInv, Chunks;
    FedSnoc(g.fed, Fed(Chunk(g.queue[0]), false), false);
    hide Pushed, Completed, FilterAfter, Events;
  }

  lemma ReadyKeepsGate(g: Gate)
    requires GateInv(g) && Enabled(g, ReadyArrives)
    ensures GateInv(Next(g, ReadyArrives))
  {
    DrainedIsFed(g.fed, g.queue);
    if Drained(g.filter, g.queue).2 {
      ReadyLeaves(g);
    } else {
      NewEpoch(g.epochs);
      NothingFed();
      FeedNothing(EMPTY);
      ReadyAttaches(g);
    }
  }

  lemma ReadyLeaves(g: Gate)
    requires EpochsInv(g.epochs) && g.phase.Handshake?
    requires Drained(g.filter, g.queue).2 && DrainedAs(g.fed, g.queue, Drained(g.filter, g.queue))
    ensures GateInv(Next(g, ReadyArrives))
  {
    hide Drained, Completed, FilterAfter, Unsent, EpochsInv;
  }

  lemma ReadyAttaches(g: Gate)
    requires g.phase.Handshake? && !Drained(g.filter, g.queue).2
    requires DrainedAs(g.fed, g.queue, Drained(g.filter, g.queue))
    requires var longer := g.epochs + [Epoch([], [], [], false)];
             EpochsInv(longer) && longer[|longer| - 1] == Epoch([], [], [], false) && Chunks([]) + [] == []
    requires FilterAfter([]) == EMPTY && Events([]) == [] && !Completed([], false)
    requires Feed(EMPTY, []) == Outcome(EMPTY, [], false)
    ensures GateInv(Next(g, ReadyArrives))
  {
    hide Feed, Drained, Completed, FilterAfter, Events, Unsent, EpochsInv, Chunks;
  }

  lemma NewEpoch(epochs: seq<Epoch>)
    requires EpochsInv(epochs)
    ensures var longer := epochs + [Epoch([], [], [], false)];
            EpochsInv(longer) && longer[|longer| - 1] == Epoch([], [], [], false) && Chunks([]) + [] == []
  {
    var e := Epoch([], [], [], false);
    FeedNothing(EMPTY);
    assert EpochInv(e);
    hide EpochInv;
    assert forall x | x in epochs + [e] :: x in epochs || x == e;
  }

  lemma StepKeepsGate(g: Gate, l: Label)
    requires GateInv(g) && Enabled(g, l)
    ensures GateInv(Next(g, l))
  {
    match l
    case Types(chunk) => TypingKeepsGate(g, chunk);
    case Receives(written, retry) =>
      hide Feed, Chunks;
      if g.phase.Attached? {
        assert g.queue == [g.queue[0]] + g.queue[1..];
        ForwardKeepsGate(g, Chunk(g.queue[0]), g.queue[1..], written, retry);
        hide GateInv, Pushed, Forwarded;
      } else {
        OfflineReceiveKeepsGate(g, l);
      }
    case EscapeTimer(written, retry) =>
      hide Feed, Chunks;
      assert [] + g.queue == g.queue && g.(queue := g.queue) == g;
      ForwardKeepsGate(g, EscapeTimeout, g.queue, written, retry);
      hide GateInv, Forwarded;
    case ReadyArrives => ReadyKeepsGate(g);
    case _ =>
      NothingFed();
      hide Feed, EpochsInv, Chunks, Completed, FilterAfter, Events;
  }

  lemma {:induction false} RunKeepsGate(g: Gate, ls: seq<Label>)
    requires GateInv(g) && EnabledRun(g, ls)
    ensures GateInv(Run(g, ls))
    decreases |ls|
  {
    if ls != [] {
      hide Next, Enabled, GateInv;
      StepKeepsGate(g, ls[0]);
      RunKeepsGate(Next(g, ls[0]), ls[1..]);
    }
  }

  lemma {:induction false} TypedIsChunks(events: seq<Event>)
    ensures Typed(events) == Concat(Chunks(events))
  {
    if events != [] {
      var init, e := events[..|events| - 1], events[|events| - 1];
      assert events == init + [e];
      TypedIsChunks(init);
      TypedSnoc(init, e);
      ConcatAppend(Chunks(init), if e.Chunk? then [e.bytes] else []);
      ChunksSnoc(init, e);
      assert e.Chunk? ==> Concat([e.bytes]) == e.bytes by {
        if e.Chunk? {
          assert [e.bytes][1..] == [];
        }
      }
    }
  }

  lemma {:induction false} TypedSnoc(events: seq<Event>, e: Event)
    ensures Typed(events + [e]) == Typed(events) + if e.Chunk? then e.bytes else []
  {
    if events == [] {
      assert (events + [e])[1..] == [];
    } else {
      assert (events + [e])[0] == events[0] && (events + [e])[1..] == events[1..] + [e];
      TypedSnoc(events[1..], e);
    }
  }

  lemma {:induction false} ConcatAppend(a: seq<seq<byte>>, b: seq<seq<byte>>)
    ensures Concat(a + b) == Concat(a) + Concat(b)
  {
    if a == [] {
      assert a + b == b;
    } else {
      assert (a + b)[0] == a[0] && (a + b)[1..] == a[1..] + b;
      ConcatAppend(a[1..], b);
    }
  }

  lemma {:induction false} ChunksOfPrefix(events: seq<Event>, n: nat)
    requires n <= |events|
    ensures Chunks(events[..n]) <= Chunks(events)
  {
    if n < |events| {
      var init := events[..|events| - 1];
      ChunksOfPrefix(init, n);
      assert init[..n] == events[..n];
    } else {
      assert events[..n] == events;
    }
  }

  /** In every run and for every connection: the filter started empty when the connection
      became ready, was fed only what was typed after that, in order and from its beginning,
      and what was forwarded is what it let through. So the bytes forwarded are a prefix of
      the bytes typed while attached, whatever was typed before. */
  lemma OfflineInputNeverLeaks(ls: seq<Label>)
    requires EnabledRun(NEW_GATE, ls)
    ensures forall e | e in Run(NEW_GATE, ls).epochs ::
              && Chunks(e.events) <= e.typed
              && e.forwarded == Feed(EMPTY, Delivered(e)).out
              && e.forwarded <= Concat(e.typed)
  {
    FeedNothing(EMPTY);
    RunKeepsGate(NEW_GATE, ls);
    hide Feed;
    var g := Run(NEW_GATE, ls);
    forall e | e in g.epochs
      ensures EpochInv(e) && e.forwarded <= Concat(e.typed)
    {
      ForwardedIsTyped(e);
    }
  }

  lemma ForwardedIsTyped(e: Epoch)
    requires EpochInv(e)
    ensures e.forwarded <= Concat(e.typed)
  {
    var events := Delivered(e);
    FeedForwardsPrefix(EMPTY, events);
    assert ([] + []) + Typed(events) == Typed(events);
    TypedIsChunks(events);
    ChunksOfPrefix(e.events, |events|);
    assert events == e.events[..|events|];
    hide Feed, Chunks;
    var some := Chunks(events);
    assert e.typed == some + e.typed[|some|..];
    ConcatAppend(some, e.typed[|some|..]);
  }

  /** In every run the client has left by the hotkey exactly if, among all input since the
      filter was last emptied, online or offline, some piece completes the hotkey and was
      not followed by a failed write. */
  lemma HotkeyWorksInEveryPhase(ls: seq<Label>)
    requires EnabledRun(NEW_GATE, ls)
    ensures var g := Run(NEW_GATE, ls);
            g.phase == Over(true) <==> exists k: nat | k < |g.fed| :: CompletesAt(g.fed, k) && !g.fed[k].failed
  {
    NothingFed();
    RunKeepsGate(NEW_GATE, ls);
  }

  /** So in every run that input completes the hotkey exactly if the client has left, or a
      piece that completes it was let through in part and sending that part failed; without
      such a failure the client has left exactly if the input completes the hotkey. */
  lemma HotkeyLeavesIff(ls: seq<Label>)
    requires EnabledRun(NEW_GATE, ls)
    ensures var g := Run(NEW_GATE, ls);
            && (Feed(EMPTY, Events(g.fed)).detach <==> g.phase == Over(true) || Completed(g.fed, true))
            && (!Completed(g.fed, true) ==> (g.phase == Over(true) <==> Feed(EMPTY, Events(g.fed)).detach))
  {
    NothingFed();
    RunKeepsGate(NEW_GATE, ls);
    FeedOfFed(Run(NEW_GATE, ls).fed);
  }

  // ---------------------------------------------------------------- where the input goes

  /** What a step takes from the queue. */
  function Taken(g: Gate, l: Label): seq<seq<byte>>
    requires CanStep(g, l)
  {
    match l
    case Receives(_, _) => [g.queue[0]]
    case ReadyArrives => g.queue[..|g.queue| - |Drained(g.filter, g.queue).1|]
    case _ => []
  }

  function AllTaken(g: Gate, ls: seq<Label>): seq<seq<byte>>
    requires EnabledRun(g, ls)
    decreases |ls|
  {
    if ls == [] then [] else Taken(g, ls[0]) + AllTaken(Next(g, ls[0]), ls[1..])
  }

  function AllTyped(ls: seq<Label>): seq<seq<byte>> {
    if ls == [] then [] else (if ls[0].Types? then [ls[0].chunk] else []) + AllTyped(ls[1..])
  }

  lemma {:induction false} DrainedIsSuffix(f: Filter, queue: seq<seq<byte>>)
    ensures var rest := Drained(f, queue).1;
            queue == queue[..|queue| - |rest|] + rest
    decreases |queue|
  {
    if queue != [] && !Pushed(f, queue[0]).detach {
      DrainedIsSuffix(Pushed(f, queue[0]).filter, queue[1..]);
      var rest := Drained(f, queue).1;
      assert queue[..|queue| - |rest|] == [queue[0]] + queue[1..][..|queue| - 1 - |rest|];
    }
  }

  lemma StepConservesInput(g: Gate, l: Label)
    requires CanStep(g, l)
    ensures g.queue + (if l.Types? then [l.chunk] else []) == Taken(g, l) + Next(g, l).queue
    ensures Next(g, l).stdinOpen <==> g.stdinOpen && !l.StdinCloses?
  {
    if l.ReadyArrives? {
      DrainedIsSuffix(g.filter, g.queue);
    }
    hide Drained, Pushed, EscapeFlushed;
  }

  /** Nothing that is typed is lost or reordered on its way to the filter: over every run, what
      was queued and what is typed is what is taken from the queue, and what is queued then. */
  lemma {:induction false} InputIsConserved(g: Gate, ls: seq<Label>)
    requires EnabledRun(g, ls)
    ensures g.queue + AllTyped(ls) == AllTaken(g, ls) + Run(g, ls).queue
    ensures Run(g, ls).stdinOpen <==> g.stdinOpen && StdinCloses !in ls
    decreases |ls|
  {
    if ls == [] {
      assert g.queue + [] == [] + g.queue;
    } else {
      var next := Next(g, ls[0]);
      var typed := if ls[0].Types? then [ls[0].chunk] else [];
      StepConservesInput(g, ls[0]);
      InputIsConserved(next, ls[1..]);
      hide Next, CanStep, Taken;
      Regroup(g.queue, typed, AllTyped(ls[1..]));
      Regroup(Taken(g, ls[0]), next.queue, AllTyped(ls[1..]));
      Regroup(Taken(g, ls[0]), AllTaken(next, ls[1..]), Run(g, ls).queue);
    }
  }

  /** What a step gives to the filter. */
  function Given(g: Gate, l: Label): seq<Event>
    requires CanStep(g, l)
  {
    match l
    case Receives(_, _) => [Chunk(g.queue[0])]
    case EscapeTimer(_, _) => [EscapeTimeout]
    case ReadyArrives => Events(Unsent(Taken(g, l)))
    case _ => []
  }

  /** Only the end of a wait empties the filter, and READY, if the drain does not complete the
      hotkey. */
  predicate Empties(g: Gate, l: Label)
    requires CanStep(g, l)
  {
    l.SleepEnds? || (l.ReadyArrives? && !Drained(g.filter, g.queue).2)
  }

  /** All that the filter has been given since it was last emptied, if before that it was
      given `sofar`. */
  function InputSince(g: Gate, ls: seq<Label>, sofar: seq<Event>): seq<Event>
    requires EnabledRun(g, ls)
    decreases |ls|
  {
    if ls == [] then sofar
    else InputSince(Next(g, ls[0]), ls[1..], if Empties(g, ls[0]) then [] else sofar + Given(g, ls[0]))
  }

  lemma {:induction false} EventsAppend(a: seq<Fed>, b: seq<Fed>)
    ensures Events(a + b) == Events(a) + Events(b)
    decreases |b|
  {
    if b == [] {
      assert a + b == a;
    } else {
      assert (a + b)[..|a + b| - 1] == a + b[..|b| - 1];
      EventsAppend(a, b[..|b| - 1]);
    }
  }

  lemma ForwardingFeeds(g: Gate, e: Event, r: Outcome, written: bool, retry: bool)
    requires g.epochs != []
    ensures Events(Forwarded(g, e, r, written, retry).fed) == Events(g.fed) + [e]
  {
    OneMore(g.fed, e, r.out != [] && !written);
    hide Events;
  }

  lemma ReceivingFeeds(g: Gate, l: Label)
    requires CanStep(g, l) && (l.Receives? || l.EscapeTimer?)
    ensures Events(Next(g, l).fed) == Events(g.fed) + Given(g, l)
  {
    hide Events, Pushed, EscapeFlushed, Forwarded;
    if l.EscapeTimer? {
      ForwardingFeeds(g, EscapeTimeout, EscapeFlushed(g.filter), l.written, l.retry);
    } else if g.phase.Attached? {
      var taken := g.(queue := g.queue[1..]);
      ForwardingFeeds(taken, Chunk(g.queue[0]), Pushed(g.filter, g.queue[0]), l.written, l.retry);
    } else {
      OneMore(g.fed, Chunk(g.queue[0]), false);
    }
  }

  lemma StepFeeds(g: Gate, l: Label)
    requires CanStep(g, l)
    ensures Events(Next(g, l).fed) == if Empties(g, l) then [] else Events(g.fed) + Given(g, l)
  {
    assert Events(g.fed) + [] == Events(g.fed) && Events([]) == [];
    hide Events, Drained, Unsent, Forwarded;
    if l.Receives? || l.EscapeTimer? {
      ReceivingFeeds(g, l);
      hide Next, Given;
    } else if l.ReadyArrives? {
      EventsAppend(g.fed, Unsent(Taken(g, l)));
    }
  }

  lemma OneMore(fed: seq<Fed>, e: Event, failed: bool)
    ensures Events(fed + [Fed(e, failed)]) == Events(fed) + [e]
  {
    assert (fed + [Fed(e, failed)])[..|fed|] == fed;
  }

  /** In every run the history of the filter is what it was given since it was last emptied. */
  lemma {:induction false} FedIsInput(g: Gate, ls: seq<Label>)
    requires EnabledRun(g, ls)
    ensures Events(Run(g, ls).fed) == InputSince(g, ls, Events(g.fed))
    decreases |ls|
  {
    if ls != [] {
      StepFeeds(g, ls[0]);
      hide Next, CanStep, Events, Empties, Given;
      FedIsInput(Next(g, ls[0]), ls[1..]);
    }
  }

  // ---------------------------------------------------------------- how a client goes on

  /** What the filter lets through in a step. */
  function LetThrough(g: Gate, l: Label): seq<byte>
    requires CanStep(g, l)
  {
    match l
    case Receives(_, _) => Pushed(g.filter, g.queue[0]).out
    case EscapeTimer(_, _) => EscapeFlushed(g.filter).out
    case _ => []
  }

  /** The connection fails, or something cannot be sent on it. */
  predicate LosesConnection(g: Gate, l: Label)
    requires CanStep(g, l)
  {
    || l.ConnectionFails?
    || ((l.Receives? || l.EscapeTimer?) && g.phase.Attached? && LetThrough(g, l) != [] && !l.written)
  }

  /** The session ends, or a loss is not survived. */
  predicate EndsClient(g: Gate, l: Label)
    requires CanStep(g, l)
  {
    l.SessionEnds? || (LosesConnection(g, l) && !l.retry)
  }

  /** A client that does not leave by the hotkey waits after a loss that it survives, connects
      again when the wait is over, or when there is no more input to wait for, and is attached
      once it reads READY; it ends only with the session or by a loss. Nothing else moves it. */
  lemma PhaseIsExact(g: Gate, l: Label)
    requires CanStep(g, l)
    ensures var next := Next(g, l).phase;
            next != Over(true) ==>
              next == if EndsClient(g, l) then Over(false)
                      else if LosesConnection(g, l) then Backoff
                      else if l.ReadyArrives? then Attached
                      else if l.SleepEnds? || l.StdinGone? then Handshake
                      else g.phase
    ensures Next(g, l).phase == Over(true) ==> g.phase == Over(true) || l.Receives? || l.EscapeTimer? || l.ReadyArrives?
  {
    hide Drained, Pushed, EscapeFlushed;
  }

  /** Some step of the run ends the client. */
  predicate EverEnds(g: Gate, ls: seq<Label>)
    requires EnabledRun(g, ls)
    decreases |ls|
  {
    ls != [] && (EndsClient(g, ls[0]) || EverEnds(Next(g, ls[0]), ls[1..]))
  }

  lemma OverStays(g: Gate, l: Label)
    requires CanStep(g, l) && g.phase.Over?
    ensures Next(g, l).phase == g.phase && !EndsClient(g, l)
  {
  }

  lemma EndsNow(g: Gate, l: Label)
    requires CanStep(g, l) && !g.phase.Over?
    ensures Next(g, l).phase == Over(false) <==> EndsClient(g, l)
  {
    hide Drained, Pushed, EscapeFlushed;
  }

  lemma {:induction false} NeverEndsAgain(g: Gate, ls: seq<Label>)
    requires EnabledRun(g, ls) && g.phase.Over?
    ensures Run(g, ls).phase == g.phase && !EverEnds(g, ls)
    decreases |ls|
  {
    if ls != [] {
      OverStays(g, ls[0]);
      hide Next, CanStep, EndsClient;
      NeverEndsAgain(Next(g, ls[0]), ls[1..]);
    }
  }

  /** In every run a client has ended otherwise than by the hotkey if and only if its session
      ended, or it lost a connection and was not to retry. */
  lemma {:induction false} EndsOtherwiseIff(g: Gate, ls: seq<Label>)
    requires EnabledRun(g, ls) && !g.phase.Over?
    ensures Run(g, ls).phase == Over(false) <==> EverEnds(g, ls)
    decreases |ls|
  {
    if ls != [] {
      var next := Next(g, ls[0]);
      EndsNow(g, ls[0]);
      hide Next, CanStep, EndsClient;
      if next.phase.Over? {
        NeverEndsAgain(next, ls[1..]);
      } else {
        EndsOtherwiseIff(next, ls[1..]);
      }
    }
  }

  const LOST_PRESSES: seq<byte> := [0x61, DETACH_KEY, DETACH_KEY]

  const LOST_RUN: seq<Label> := [ReadyArrives, Types(LOST_PRESSES), Receives(false, true)]

  const ATTACHED_GATE: Gate := NEW_GATE.(phase := Attached, epochs := [Epoch([], [], [], false)])

  const LOST_GATE: Gate :=
    NEW_GATE.(phase := Backoff, filter := Filter([DETACH_KEY], []), fed := [Fed(Chunk(LOST_PRESSES), true)],
              epochs := [Epoch([LOST_PRESSES], [Chunk(LOST_PRESSES)], [], true)])

  /** For instance: a letter and two presses arrive together, and sending the letter fails.
      The client reconnects; one more press, even while it waits, then leaves. */
  lemma HotkeyCanBeLost()
    ensures EnabledRun(NEW_GATE, LOST_RUN) && Run(NEW_GATE, LOST_RUN).phase == Backoff
    ensures Feed(EMPTY, Events(Run(NEW_GATE, LOST_RUN).fed)).detach
    ensures var ls := LOST_RUN + [Types([DETACH_KEY])] + [Receives(true, true)];
            EnabledRun(NEW_GATE, ls) && Run(NEW_GATE, ls).phase == Over(true)
  {
    GateIsLost();
    LostInputCompletes();
    LostGateLeaves();
    hide *;
    RunSnoc(NEW_GATE, LOST_RUN, Types([DETACH_KEY]));
    RunSnoc(NEW_GATE, LOST_RUN + [Types([DETACH_KEY])], Receives(true, true));
  }

  lemma GateIsLost()
    ensures EnabledRun(NEW_GATE, LOST_RUN) && Run(NEW_GATE, LOST_RUN) == LOST_GATE && LOST_GATE.phase == Backoff
  {
    PressesArePushed();
    hide Pushed;
    assert Drained(EMPTY, []) == (EMPTY, [], false);
    assert Next(NEW_GATE, ReadyArrives) == ATTACHED_GATE by {
      assert NEW_GATE.epochs + [Epoch([], [], [], false)] == ATTACHED_GATE.epochs;
    }
    var epoch := Epoch([LOST_PRESSES], [], [], false);
    var typed := ATTACHED_GATE.(queue := [LOST_PRESSES], epochs := [epoch]);
    assert Next(ATTACHED_GATE, Types(LOST_PRESSES)) == typed by {
      LastOfOne(ATTACHED_GATE.epochs[0], epoch);
      assert [] + [LOST_PRESSES] == [LOST_PRESSES];
    }
    assert Next(typed, Receives(false, true)) == LOST_GATE by {
      LastOfOne(epoch, LOST_GATE.epochs[0]);
      assert [LOST_PRESSES][1..] == [] && [] + [Chunk(LOST_PRESSES)] == [Chunk(LOST_PRESSES)];
      assert [] + LOST_GATE.fed == LOST_GATE.fed;
    }
    hide Next;
    RunOfThree(NEW_GATE, LOST_RUN);
  }

  lemma LastOfOne(before: Epoch, after: Epoch)
    ensures WithLast([before], after) == [after]
  {
  }

  lemma LostInputCompletes()
    ensures Feed(EMPTY, Events(LOST_GATE.fed)).detach
  {
    PressesArePushed();
    var p := Fed(Chunk(LOST_PRESSES), true);
    FedSnoc([], p, true);
    NothingFed();
    FeedOne(EMPTY, p.event);
    assert [] + [p] == LOST_GATE.fed && [] + [p.event] == [p.event];
    hide Pushed, Events, Feed;
  }

  lemma LostGateLeaves()
    ensures CanStep(LOST_GATE, Types([DETACH_KEY]))
    ensures CanStep(Next(LOST_GATE, Types([DETACH_KEY])), Receives(true, true))
    ensures Next(Next(LOST_GATE, Types([DETACH_KEY])), Receives(true, true)).phase == Over(true)
  {
    PressesArePushed();
    hide Pushed;
    assert Next(LOST_GATE, Types([DETACH_KEY])).queue == [[DETACH_KEY]];
  }

  lemma RunOfThree(g: Gate, ls: seq<Label>)
    requires |ls| == 3 && CanStep(g, ls[0]) && CanStep(Next(g, ls[0]), ls[1])
    requires CanStep(Next(Next(g, ls[0]), ls[1]), ls[2])
    ensures EnabledRun(g, ls) && Run(g, ls) == Next(Next(Next(g, ls[0]), ls[1]), ls[2])
  {
    hide Next, Enabled;
    var g1 := Next(g, ls[0]);
    var g2 := Next(g1, ls[1]);
    var g3 := Next(g2, ls[2]);
    assert EnabledRun(g3, []) && Run(g3, []) == g3;
    assert [ls[2]][1..] == [] && EnabledRun(g2, [ls[2]]) && Run(g2, [ls[2]]) == g3;
    assert ls[1..][1..] == [ls[2]] && EnabledRun(g1, ls[1..]) && Run(g1, ls[1..]) == g3;
  }

  lemma PressesArePushed()
    ensures Pushed(EMPTY, LOST_PRESSES) == Outcome(Filter([DETACH_KEY], []), [0x61], true)
    ensures Pushed(Filter([DETACH_KEY], []), [DETACH_KEY]) == Outcome(Filter([DETACH_KEY], []), [], true)
  {
    var chunk := LOST_PRESSES;
    assert chunk[1..] == [DETACH_KEY, DETACH_KEY] && chunk[1..][1..] == [DETACH_KEY];
    assert BytePushed(EMPTY, 0x61) == Outcome(EMPTY, [0x61], false);
    var one := Filter([DETACH_KEY], []);
    assert BytePushed(EMPTY, DETACH_KEY) == Outcome(one, [], false);
    assert BytePushed(one, DETACH_KEY) == Outcome(one, [], true);
    hide BytePushed;
    assert Pushed(one, [DETACH_KEY]) == Outcome(one, [], true);
    assert Pushed(EMPTY, [DETACH_KEY, DETACH_KEY]) == Outcome(one, [], true) by {
      assert [DETACH_KEY, DETACH_KEY][1..] == [DETACH_KEY];
    }
  }
}
