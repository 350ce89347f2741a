/**
 The life of a session's worker: it records the session's state, supervises one pane at a
 time, stops panes with confirmation, answers kill requests and announces the exit. The
 world outside is an adversary that is fixed beforehand: `Outside` says, moment by moment,
 what works, whether a process group is there, and what is known of its exit. What a worker
 does is a `Trace`; the automaton `Step` says which traces it may have, and `HonestTrace`
 that a trace tells what the world has answered.
 */
module Workers {
  import opened Bytes
  import opened ExitCodes

  // ---------------------------------------------------------------- panes

  datatype Signal = SigHup | SigKill

  /** What is done to a pane to stop it, and what comes of it: a probe of its process group,
      which can fail, a signal, and a wait for its exit. */
  datatype Act = Probed(alive: Option<bool>) | Sent(signal: Signal, ok: bool) | Waited(info: Option<ExitInfo>)

  /** How a pane was stopped: its exit, whether it had to be signalled, and killed. */
  datatype Termination = Termination(info: ExitInfo, signalSent: bool, escalated: bool)

  /** What the world answers to what is done to a pane: whether it works, whether the process
      group is there, and the exit that is known. */
  datatype Moment = Moment(works: bool, alive: bool, exit: Option<ExitInfo>)

  /** Only an exit is final, and a group that is gone stays gone. */
  ghost predicate IsReal(moments: nat -> Moment) {
    forall j: nat, k: nat | j <= k ::
      && (moments(j).exit.Some? ==> moments(k).exit == moments(j).exit)
      && (!moments(j).alive ==> !moments(k).alive)
  }

  /** The act tells what the world answered to it. */
  predicate Answers(act: Act, now: Moment) {
    match act
    case Probed(alive) => alive == if now.works then Some(now.alive) else None
    case Sent(_, ok) => ok == now.works
    case Waited(info) => info == now.exit
  }

  predicate HonestFrom(acts: seq<Act>, moments: nat -> Moment, from: nat) {
    forall k | 0 <= k < |acts| :: Answers(acts[k], moments(from + k))
  }

  const GONE: Act := Probed(Some(false))
  const ALIVE: Act := Probed(Some(true))

  /** Probing for as long as the group is there: until it is gone, a probe fails, or the
      patience is used up. */
  predicate Polled(acts: seq<Act>, ok: bool, patience: nat) {
    && 0 < |acts| <= patience + 1
    && (forall k | 0 <= k < |acts| - 1 :: acts[k] == ALIVE)
    && (ok <==> acts[|acts| - 1] == GONE)
    && (!ok ==> acts[|acts| - 1] == Probed(None) || (acts[|acts| - 1] == ALIVE && |acts| == patience + 1))
  }

  predicate Fails(act: Act) { act == Probed(None) || (act.Sent? && !act.ok) }

  predicate Kills(act: Act) { act.Sent? && act.signal.SigKill? }

  /** Why stopping a pane was given up: a probe or a signal failed, or, after SIGKILL, the
      exit did not become known in time, or the group was there at every probe. */
  predicate GaveUp(acts: seq<Act>, patience: nat) {
    && acts != []
    && (|| Fails(acts[|acts| - 1])
        || (acts[|acts| - 1] == Waited(None) && |acts| > 1 && Kills(acts[|acts| - 2]))
        || (&& |acts| > patience + 1 && (exists k | 0 <= k < |acts| - patience - 1 :: Kills(acts[k]))
            && forall k | |acts| - patience - 1 <= k < |acts| :: acts[k] == ALIVE))
  }

  /** A SIGHUP comes first, and a SIGKILL after a reason for it. */
  predicate Warranted(acts: seq<Act>, k: nat)
    requires k < |acts|
  {
    acts[k].Sent? ==>
      if Kills(acts[k]) then k > 0 && (acts[k - 1] == ALIVE || acts[k - 1] == Waited(None)) else k == 0
  }

  /** What stopping a pane may do, if `before` is its exit as known at first: SIGHUP comes
      first, and only if the exit is not known; time is given to act on it; SIGKILL is sent
      once at most, and only when the group has been found alive or a wait was in vain;
      nothing follows what has failed. */
  predicate SoundSoFar(before: Option<ExitInfo>, acts: seq<Act>) {
    && acts != []
    && (before.None? <==> acts[0].Sent?)
    && (before.None? && |acts| > 1 ==> acts[1].Waited?)
    && (forall k | 0 <= k < |acts| :: Warranted(acts, k))
    && (forall j, k | 0 <= j < k < |acts| && Kills(acts[j]) :: !Kills(acts[k]))
    && (forall k | 0 <= k < |acts| - 1 :: !Fails(acts[k]))
  }

  /** What may come of it: it succeeds if and only if the last probe finds the group gone, and
      fails only for the reasons above; the flags tell what was sent. */
  predicate Sound(before: Option<ExitInfo>, acts: seq<Act>, t: Option<Termination>, patience: nat) {
    && SoundSoFar(before, acts)
    && (t.Some? <==> acts[|acts| - 1] == GONE)
    && (t.None? ==> GaveUp(acts, patience))
    && (t.Some? ==>
          && (t.value.signalSent <==> exists k | 0 <= k < |acts| :: acts[k].Sent?)
          && (t.value.escalated <==> exists k | 0 <= k < |acts| :: Kills(acts[k])))
  }

  /** SIGKILL has been sent, and only polling is left. */
  predicate MayPoll(before: Option<ExitInfo>, acts: seq<Act>) {
    && SoundSoFar(before, acts) && |acts| > 1 && !Fails(acts[|acts| - 1])
    && exists k | 0 <= k < |acts| :: Kills(acts[k])
  }

  const HUNG_UP: Act := Sent(SigHup, true)
  const KILLED: Act := Sent(SigKill, true)

  /** What can happen up to the polling, if the exit is known at first. */
  lemma StepsAfterExit(info: ExitInfo, patience: nat)
    ensures Sound(Some(info), [Probed(None)], None, patience)
    ensures Sound(Some(info), [GONE], Some(Termination(info, false, false)), patience)
    ensures Sound(Some(info), [ALIVE, Sent(SigKill, false)], None, patience)
    ensures MayPoll(Some(info), [ALIVE, KILLED])
  {
    assert Kills([ALIVE, KILLED][1]);
  }

  /** If it is not, but becomes known soon. */
  lemma StepsOfGraceful(info: ExitInfo, patience: nat)
    ensures Sound(None, [HUNG_UP, Waited(Some(info)), Probed(None)], None, patience)
    ensures Sound(None, [HUNG_UP, Waited(Some(info)), GONE], Some(Termination(info, true, false)), patience)
    ensures Sound(None, [HUNG_UP, Waited(Some(info)), ALIVE, Sent(SigKill, false)], None, patience)
    ensures MayPoll(None, [HUNG_UP, Waited(Some(info)), ALIVE, KILLED])
  {
    var some := [HUNG_UP, Waited(Some(info)), Probed(None)];
    var gone := [HUNG_UP, Waited(Some(info)), GONE];
    var failed, killed := [HUNG_UP, Waited(Some(info)), ALIVE, Sent(SigKill, false)],
                          [HUNG_UP, Waited(Some(info)), ALIVE, KILLED];
    assert gone[0].Sent? && Kills(killed[3]);
    assert Warranted(some, 0) && Warranted(some, 1) && Warranted(some, 2);
    assert Warranted(gone, 0) && Warranted(gone, 1) && Warranted(gone, 2);
    assert Warranted(failed, 0) && Warranted(failed, 1) && Warranted(failed, 2) && Warranted(failed, 3);
    assert Warranted(killed, 0) && Warranted(killed, 1) && Warranted(killed, 2) && Warranted(killed, 3);
  }

  /** And if it does not. */
  lemma StepsOfForced(info: Option<ExitInfo>, patience: nat)
    ensures Sound(None, [Sent(SigHup, false)], None, patience)
    ensures Sound(None, [HUNG_UP, Waited(None), Sent(SigKill, false)], None, patience)
    ensures Sound(None, [HUNG_UP, Waited(None), KILLED, Waited(None)], None, patience)
    ensures MayPoll(None, [HUNG_UP, Waited(None), KILLED, Waited(info)])
  {
    var failed, none, some := [HUNG_UP, Waited(None), Sent(SigKill, false)],
                              [HUNG_UP, Waited(None), KILLED, Waited(None)],
                              [HUNG_UP, Waited(None), KILLED, Waited(info)];
    assert Warranted(failed, 0) && Warranted(failed, 1) && Warranted(failed, 2);
    assert Warranted(none, 0) && Warranted(none, 1) && Warranted(none, 2) && Warranted(none, 3);
    assert Warranted(some, 0) && Warranted(some, 1) && Warranted(some, 2) && Warranted(some, 3);
    assert Kills(some[2]);
  }

  /** What has been done when SIGHUP was not enough. */
  ghost function BeforeKill(graceful: Option<ExitInfo>): (acts: seq<Act>)
    ensures acts != []
  {
    if graceful.Some? then [HUNG_UP, Waited(graceful), ALIVE] else [HUNG_UP, Waited(None)]
  }

  /** What can follow. */
  lemma StepsOfKill(graceful: Option<ExitInfo>, info: Option<ExitInfo>, patience: nat)
    ensures Sound(None, BeforeKill(graceful) + [Sent(SigKill, false)], None, patience)
    ensures graceful.None? ==> Sound(None, BeforeKill(graceful) + [KILLED] + [Waited(None)], None, patience)
    ensures MayPoll(None, BeforeKill(graceful) + [KILLED] + if graceful.None? then [Waited(info)] else [])
    ensures graceful.Some? ==> MayPoll(None, BeforeKill(graceful) + [KILLED])
  {
    hide Sound, MayPoll;
    StepsOfForced(info, patience);
    var before := BeforeKill(graceful);
    if graceful.Some? {
      StepsOfGraceful(graceful.value, patience);
      assert before + [KILLED] + [] == before + [KILLED] == [HUNG_UP, Waited(graceful), ALIVE, KILLED];
      assert before + [Sent(SigKill, false)] == [HUNG_UP, Waited(graceful), ALIVE, Sent(SigKill, false)];
    } else {
      assert before + [KILLED] + [Waited(info)] == [HUNG_UP, Waited(None), KILLED, Waited(info)];
      assert before + [KILLED] + [Waited(None)] == [HUNG_UP, Waited(None), KILLED, Waited(None)];
      assert before + [Sent(SigKill, false)] == [HUNG_UP, Waited(None), Sent(SigKill, false)];
    }
  }

  predicate EndsIn(acts: seq<Act>, head: seq<Act>) { |head| <= |acts| && acts[|acts| - |head|..] == head }

  lemma OneMore(start: seq<Act>, head: seq<Act>, act: Act)
    ensures start + head + [act] == start + (head + [act])
    ensures (start + (head + [act]))[|start|..] == head + [act] && EndsIn(start + (head + [act]), head + [act])
  {
  }

  /** After SIGKILL only polling is left. */
  lemma PollingIsSound(before: Option<ExitInfo>, head: seq<Act>, tail: seq<Act>, ok: bool, info: ExitInfo,
                       patience: nat)
    requires MayPoll(before, head) && Polled(tail, ok, patience)
    ensures Sound(before, head + tail, if ok then Some(Termination(info, true, true)) else None, patience)
  {
    var acts := head + tail;
    assert forall k | |head| <= k < |acts| :: acts[k] == tail[k - |head|] && acts[k].Probed?;
    assert forall k | |head| <= k < |acts| - 1 :: acts[k] == ALIVE;
    assert forall k | 0 <= k < |head| :: acts[k] == head[k];
    forall k | 0 <= k < |acts|
      ensures Warranted(acts, k)
    {
      assert k < |head| ==> Warranted(head, k);
    }
    var k :| 0 <= k < |head| && Kills(head[k]);
    assert Kills(acts[k]) && acts[k].Sent?;
    assert acts[|acts| - 1] == tail[|tail| - 1];
    assert SoundSoFar(before, acts);
    if !ok && acts[|acts| - 1] == ALIVE {
      assert |tail| == patience + 1 && k < |acts| - patience - 1;
    }
  }

  lemma FoundGone(acts: seq<Act>, moments: nat -> Moment)
    requires acts != [] && acts[|acts| - 1] == GONE && HonestFrom(acts, moments, 0) && IsReal(moments)
    ensures !moments(|acts|).alive
  {
    assert Answers(acts[|acts| - 1], moments(0 + (|acts| - 1)));
  }

  /** Time passes with what is done to a pane. */
  class Pane {
    const patience: nat
    const moments: nat -> Moment
    var acts: seq<Act>

    ghost predicate Valid()
      reads this
    {
      IsReal(moments) && HonestFrom(acts, moments, 0)
    }

    /** What is known of the exit now. */
    function Exit(): Option<ExitInfo>
      reads this
    {
      moments(|acts|).exit
    }

    function Gone(): bool
      reads this
    {
      !moments(|acts|).alive
    }

    constructor (moments: nat -> Moment, patience: nat)
      requires IsReal(moments)
      ensures Valid() && acts == [] && this.moments == moments && this.patience == patience
    {
      this.moments, this.patience, acts := moments, patience, [];
    }

    /** None if the probe fails. */
    method ProcessGroupAlive() returns (alive: Option<bool>)
      requires Valid()
      modifies this
      ensures Valid() && acts == old(acts) + [Probed(alive)]
    {
      var now := moments(|acts|);
      alive := if now.works then Some(now.alive) else None;
      acts := acts + [Probed(alive)];
    }

    /** Sends a signal, which need not have any effect. */
    method Send(signal: Signal) returns (ok: bool)
      requires Valid()
      modifies this
      ensures Valid() && acts == old(acts) + [Sent(signal, ok)]
    {
      ok := moments(|acts|).works;
      acts := acts + [Sent(signal, ok)];
    }

    /** What is known of the exit when the wait is over. */
    method WaitForExit() returns (info: Option<ExitInfo>)
      requires Valid()
      modifies this
      ensures Valid() && acts == old(acts) + [Waited(info)] && info == old(Exit())
    {
      info := Exit();
      acts := acts + [Waited(info)];
    }

    /** Polls until the group is gone, a probe fails, or the patience is used up. */
    method WaitForProcessGroupExit() returns (ok: bool)
      requires Valid()
      modifies this
      ensures Valid() && (ok ==> Gone())
      ensures old(acts) <= acts && Polled(acts[|old(acts)|..], ok, patience)
    {
      var left: nat := patience;
      while true
        invariant Valid() && left <= patience
        invariant old(acts) <= acts && |acts| == |old(acts)| + patience - left
        invariant forall k | |old(acts)| <= k < |acts| :: acts[k] == ALIVE
        decreases left
      {
        var alive := ProcessGroupAlive();
        ghost var polled := acts[|old(acts)|..];
        assert polled[|polled| - 1] == Probed(alive) && |polled| == patience - left + 1;
        assert forall k | 0 <= k < |polled| - 1 :: polled[k] == acts[|old(acts)| + k] == ALIVE;
        if alive.None? {
          return false;
        }
        if !alive.value {
          FoundGone(acts, moments);
          return true;
        }
        if left == 0 {
          return false;
        }
        left := left - 1;
      }
    }

    /** Stops the pane. Success means that its exit is known and its group is gone. */
    method Terminate() returns (t: Option<Termination>)
      requires Valid()
      modifies this
      ensures Valid() && old(acts) <= acts
      ensures Sound(old(Exit()), acts[|old(acts)|..], t, patience)
      ensures t.Some? ==> Exit() == Some(t.value.info) && Gone()
    {
      hide Sound, Polled, MayPoll;
      ghost var start := acts;
      if Exit().Some? {
        t := CleanUp(Exit().value);
        return;
      }
      var sent := Send(SigHup);
      StepsOfForced(None, patience);
      assert acts[|start|..] == [Sent(SigHup, sent)];
      if !sent {
        return None;
      }
      var graceful := WaitForExit();
      ghost var head := [HUNG_UP, Waited(graceful)];
      assert acts == start + head;
      if graceful.Some? {
        StepsOfGraceful(graceful.value, patience);
        var alive := ProcessGroupAlive();
        head := [HUNG_UP, Waited(graceful), Probed(alive)];
        assert acts == start + head && acts[|start|..] == head;
        if alive.None? {
          return None;
        }
        if !alive.value {
          FoundGone(acts, moments);
          return Some(Termination(graceful.value, true, false));
        }
      }
      assert acts == start + BeforeKill(graceful) && acts[|start|..] == BeforeKill(graceful);
      t := Escalate(graceful);
    }

    /** Kills what SIGHUP has left. */
    method Escalate(graceful: Option<ExitInfo>) returns (t: Option<Termination>)
      requires Valid() && EndsIn(acts, BeforeKill(graceful))
      requires graceful.Some? ==> Exit() == graceful
      modifies this
      ensures Valid() && old(acts) <= acts
      ensures Sound(None, acts[|old(acts)| - |BeforeKill(graceful)|..], t, patience)
      ensures t.Some? ==> Exit() == Some(t.value.info) && Gone()
    {
      hide Sound, Polled, MayPoll, BeforeKill;
      ghost var head := BeforeKill(graceful);
      ghost var start := acts[..|acts| - |head|];
      assert acts == start + head;
      var sent := Send(SigKill);
      StepsOfKill(graceful, None, patience);
      OneMore(start, head, Sent(SigKill, sent));
      head := head + [Sent(SigKill, sent)];
      if !sent {
        return None;
      }
      var info := graceful;
      if info.None? {
        info := WaitForExit();
        OneMore(start, head, Waited(info));
        head := head + [Waited(info)];
        if info.None? {
          return None;
        }
      }
      StepsOfKill(graceful, info, patience);
      var gone := Poll(None, head, info.value);
      return if gone then Some(Termination(info.value, true, true)) else None;
    }

    /** Stops what is left of a pane whose exit is known. */
    method CleanUp(info: ExitInfo) returns (t: Option<Termination>)
      requires Valid() && Exit() == Some(info)
      modifies this
      ensures Valid() && old(acts) <= acts
      ensures Sound(Some(info), acts[|old(acts)|..], t, patience)
      ensures t.Some? ==> t.value.info == info && Exit() == Some(info) && Gone()
    {
      hide Sound, Polled, MayPoll;
      ghost var start := acts;
      StepsAfterExit(info, patience);
      var alive := ProcessGroupAlive();
      assert acts[|start|..] == [Probed(alive)];
      if alive.None? {
        return None;
      }
      if !alive.value {
        FoundGone(acts, moments);
        return Some(Termination(info, false, false));
      }
      var sent := Send(SigKill);
      ghost var head := [ALIVE, Sent(SigKill, sent)];
      assert acts == start + head && acts[|start|..] == head;
      if !sent {
        return None;
      }
      assert head == [ALIVE, KILLED] && acts[|acts| - 2..] == head;
      var gone := Poll(Some(info), head, info);
      return if gone then Some(Termination(info, true, true)) else None;
    }

    /** The last part of stopping a pane that has been killed. */
    method Poll(ghost before: Option<ExitInfo>, ghost head: seq<Act>, ghost info: ExitInfo) returns (ok: bool)
      requires Valid() && EndsIn(acts, head) && MayPoll(before, head)
      modifies this
      ensures Valid() && (ok ==> Gone()) && old(acts) <= acts
      ensures Sound(before, acts[|old(acts)| - |head|..],
                    if ok then Some(Termination(info, true, true)) else None, patience)
    {
      hide Sound, Polled, MayPoll;
      ok := WaitForProcessGroupExit();
      ghost var tail := acts[|old(acts)|..];
      assert acts[|old(acts)| - |head|..] == head + tail;
      PollingIsSound(before, head, tail, ok, info, patience);
    }
  }

  // ---------------------------------------------------------------- traces

  /** What one turn of the worker's main loop reacts to. */
  datatype Turn = Timeout | IdleTick(over: bool) | Restart | Kill(id: nat) | ExitNotified

  /** The answer to a kill request; `Confirmed` is `killed: true`. */
  datatype Reply = Confirmed(escalated: bool, status: Status) | Refused

  /** `gone` says whether the pane's process group was gone at that moment, and for a new
      pane whether that of its predecessor was. `Stopped` is what was done to stop the pane,
      from what was known of its exit, and what came of it; `Noticed` is the exit that a pane
      that has ended by itself reports. */
  datatype Event =
    | Persisted(status: Status, gone: bool)
    | WriteFailed(status: Status)
    | Spawned(gone: bool)
    | SpawnFailed
    | SetupFailed
    | Took(turn: Turn)
    | Stopped(before: Option<ExitInfo>, acts: seq<Act>, t: Option<Termination>, patience: nat, gone: bool)
    | Noticed(exit: Option<ExitInfo>)
    | Replied(id: nat, reply: Reply, gone: bool)
    | ExitSent(info: ExitInfo)

  /** What is known of the end of the session: its exit, whether the worker had to signal
      the pane for it, and to kill it. */
  datatype End = End(info: Option<ExitInfo>, signalSent: bool, escalated: bool)

  datatype Stage =
    | New
    | Launching
    | Unspawned
    | Launched
    | Live
    | Aborting
    | Aborted
    | Ending(turn: Turn)
    | Unstopped(turn: Turn)
    | Cleared
    | Known(turn: Turn, end: End)
    | Finished(status: Status, last: Option<(Turn, End)>)
    | Told(status: Status, info: ExitInfo)
    | Closed(status: Status, info: ExitInfo)
    | Broken

  const STARTING: Status := Status(Starting, None)
  const RUNNING: Status := Status(Running, None)
  const SPAWN_FAILED: Status := Status(Exited, None)
  const SETUP_FAILED: Status := Status(Killed, Some(1))

  predicate Ends(turn: Turn) { turn != IdleTick(false) }

  function EndOf(t: Termination): End { End(Some(t.info), t.signalSent, t.escalated) }

  function StatusOf(end: End): Status { FinalStatus(end.info, end.signalSent) }

  function Answer(end: End): Reply {
    if end.signalSent then Confirmed(end.escalated, StatusOf(end)) else Refused
  }

  predicate SoundStop(e: Event)
    requires e.Stopped?
  {
    && Sound(e.before, e.acts, e.t, e.patience) && (e.t.Some? ==> e.gone)
    && (e.before.Some? && e.t.Some? ==> e.t.value.info == e.before.value)
  }

  /** Which status a worker records next, and what it is then at. */
  function Persists(stage: Stage, s: Status, gone: bool): Option<Stage> {
    match stage
    case New => if s == STARTING then Some(Launching) else None
    case Unspawned => if s == SPAWN_FAILED then Some(Finished(s, None)) else None
    case Launched => if s == RUNNING then Some(Live) else None
    case Aborted => if s == SETUP_FAILED then Some(Finished(s, None)) else None
    case Known(turn, end) =>
      if s == StatusOf(end) && (gone || turn.ExitNotified?) then Some(Finished(s, Some((turn, end)))) else None
    case _ => None
  }

  /** What a worker may do next, and what it is then at. */
  function Step(stage: Stage, e: Event): Option<Stage> {
    match (stage, e)
    case (_, Persisted(s, gone)) => Persists(stage, s, gone)
    case (_, WriteFailed(s)) => if Persists(stage, s, true).Some? then Some(Broken) else None
    case (Launching, Spawned(gone)) => if gone then Some(Launched) else None
    case (Launching, SpawnFailed) => Some(Unspawned)
    case (Live, SetupFailed) => Some(Aborting)
    case (Aborting, Stopped(_, _, _, _, _)) => if SoundStop(e) then Some(Aborted) else None
    case (Live, Took(turn)) => Some(if Ends(turn) then Ending(turn) else Live)
    case (Ending(turn), Stopped(_, _, t, _, _)) =>
      if turn.ExitNotified? || !SoundStop(e) then None
      else if t.None? then Some(Unstopped(turn))
      else if turn.Restart? then Some(Cleared)
      else Some(Known(turn, EndOf(t.value)))
    case (Ending(turn), Noticed(info)) =>
      if turn.ExitNotified? then Some(Known(turn, End(info, false, false))) else None
    case (Unstopped(turn), Replied(id, Refused, _)) => if turn == Kill(id) then Some(Live) else None
    case (Cleared, Spawned(gone)) => if gone then Some(Launched) else None
    case (Cleared, SpawnFailed) => Some(Broken)
    case (Finished(s, Some((turn, end))), Replied(id, reply, gone)) =>
      if turn == Kill(id) && reply == Answer(end) && gone then Some(Told(s, Announced(end.info))) else None
    case (Finished(s, Some((turn, end))), ExitSent(info)) =>
      if !turn.Kill? && info == Announced(end.info) then Some(Closed(s, info)) else None
    case (Told(s, told), ExitSent(info)) => if info == told then Some(Closed(s, info)) else None
    case _ => None
  }

  function Track(trace: seq<Event>): Option<Stage> {
    if trace == [] then Some(New)
    else
      var before := Track(trace[..|trace| - 1]);
      if before.None? then None else Step(before.value, trace[|trace| - 1])
  }

  /** The turns of the main loop, in order. */
  function TurnsOf(trace: seq<Event>): seq<Turn> {
    if trace == [] then []
    else
      var init := TurnsOf(trace[..|trace| - 1]);
      match trace[|trace| - 1]
      case Took(turn) => init + [turn]
      case _ => init
  }

  /** All that was done to the current pane, as the trace tells it. */
  function ActsOf(trace: seq<Event>): seq<Act> {
    if trace == [] then []
    else
      var init := ActsOf(trace[..|trace| - 1]);
      match trace[|trace| - 1]
      case Spawned(_) => []
      case Stopped(_, acts, _, _, _) => init + acts
      case _ => init
  }

  /** How many panes there have been. */
  function SpawnsOf(trace: seq<Event>): nat {
    if trace == [] then 0
    else SpawnsOf(trace[..|trace| - 1]) + if trace[|trace| - 1].Spawned? then 1 else 0
  }

  // ---------------------------------------------------------------- what the world answers

  /** Which of a worker's steps work, if they are status writes or start a command; what
      becomes of each pane; and for how many probes it waits for a process group. */
  datatype Outside = Outside(works: nat -> bool, panes: nat -> (nat -> Moment), patience: nat)

  ghost predicate AllReal(out: Outside) { forall n: nat :: IsReal(out.panes(n)) }

  /** What the world is at for the pane, when it is asked next or after some more acts. */
  function Next(trace: seq<Event>, out: Outside, later: nat): Moment
    requires SpawnsOf(trace) > 0
  {
    out.panes(SpawnsOf(trace) - 1)(|ActsOf(trace)| + later)
  }

  /** Only what is gone is called gone. */
  predicate TrulyGone(trace: seq<Event>, out: Outside, later: nat, gone: bool) {
    gone && SpawnsOf(trace) > 0 ==> !Next(trace, out, later).alive
  }

  /** The event tells what the world has answered. */
  predicate Honest(trace: seq<Event>, out: Outside, e: Event) {
    match e
    case Persisted(_, gone) => out.works(|trace|) && TrulyGone(trace, out, 0, gone)
    case WriteFailed(_) => !out.works(|trace|)
    case Spawned(gone) => out.works(|trace|) && TrulyGone(trace, out, 0, gone)
    case SpawnFailed => !out.works(|trace|)
    case Stopped(before, acts, t, patience, gone) =>
      && SpawnsOf(trace) > 0 && patience == out.patience && before == Next(trace, out, 0).exit
      && HonestFrom(acts, out.panes(SpawnsOf(trace) - 1), |ActsOf(trace)|)
      && (t.Some? ==> Next(trace, out, |acts|).exit == Some(t.value.info)) && TrulyGone(trace, out, |acts|, gone)
    case Noticed(exit) => SpawnsOf(trace) > 0 && exit == Next(trace, out, 0).exit
    case Replied(_, _, gone) => TrulyGone(trace, out, 0, gone)
    case _ => true
  }

  predicate HonestTrace(trace: seq<Event>, out: Outside) {
    trace == []
    || (HonestTrace(trace[..|trace| - 1], out) && Honest(trace[..|trace| - 1], out, trace[|trace| - 1]))
  }

  lemma TraceSnoc(trace: seq<Event>, e: Event, out: Outside)
    ensures TurnsOf(trace + [e]) == if e.Took? then TurnsOf(trace) + [e.turn] else TurnsOf(trace)
    ensures Track(trace + [e]) == if Track(trace).None? then None else Step(Track(trace).value, e)
    ensures ActsOf(trace + [e])
         == if e.Spawned? then [] else if e.Stopped? then ActsOf(trace) + e.acts else ActsOf(trace)
    ensures SpawnsOf(trace + [e]) == SpawnsOf(trace) + if e.Spawned? then 1 else 0
    ensures HonestTrace(trace + [e], out) <==> HonestTrace(trace, out) && Honest(trace, out, e)
  {
    assert (trace + [e])[..|trace|] == trace;
  }

  // ---------------------------------------------------------------- the worker

  /** Still in its loop, returned without error, or returned with one. */
  datatype Verdict = StillRunning | Done | Failed

  class Worker {
    const out: Outside
    var trace: seq<Event>
    var pane: Pane?

    constructor (out: Outside)
      requires AllReal(out)
      ensures this.out == out && trace == [] && pane == null && Valid()
    {
      this.out, trace, pane := out, [], null;
    }

    ghost function Now(): Option<Stage>
      reads this
    {
      Track(trace)
    }

    ghost predicate Valid()
      reads this
    {
      AllReal(out) && HonestTrace(trace, out)
    }

    /** There is a pane, the one that the trace tells of, and what has been done to it is
        what the trace tells. */
    ghost predicate HasPane()
      reads this, pane
    {
      && Valid() && pane != null && pane.Valid() && SpawnsOf(trace) > 0
      && pane.acts == ActsOf(trace) && pane.moments == out.panes(SpawnsOf(trace) - 1) && pane.patience == out.patience
    }

    method Log(e: Event)
      requires Valid() && Now().Some? && Honest(trace, out, e)
      modifies this`trace
      ensures Valid() && trace == old(trace) + [e] && Now() == Step(old(Now()).value, e)
      ensures TurnsOf(trace) == old(TurnsOf(trace)) + if e.Took? then [e.turn] else []
      ensures ActsOf(trace) == if e.Spawned? then [] else old(ActsOf(trace)) + if e.Stopped? then e.acts else []
      ensures SpawnsOf(trace) == old(SpawnsOf(trace)) + if e.Spawned? then 1 else 0
    {
      TraceSnoc(trace, e, out);
      trace := trace + [e];
    }

    /** Replaces the status file atomically, or fails and leaves it. */
    method WriteStatus(status: Status, gone: bool) returns (ok: bool)
      requires Valid() && Now().Some? && TrulyGone(trace, out, 0, gone)
      modifies this`trace
      ensures Valid() && trace == old(trace) + [if ok then Persisted(status, gone) else WriteFailed(status)]
      ensures TurnsOf(trace) == old(TurnsOf(trace)) && ActsOf(trace) == old(ActsOf(trace))
      ensures SpawnsOf(trace) == old(SpawnsOf(trace))
      ensures Now() == Step(old(Now()).value, if ok then Persisted(status, gone) else WriteFailed(status))
    {
      ok := out.works(|trace|);
      Log(if ok then Persisted(status, gone) else WriteFailed(status));
    }

    /** A new pane; `gone` says whether its predecessor's process group, if any, is gone. */
    method Spawn(gone: bool) returns (ok: bool)
      requires Valid() && gone && Now() in {Some(Launching), Some(Cleared)} && TrulyGone(trace, out, 0, gone)
      modifies this
      ensures Valid()
      ensures ok ==> Now() == Some(Launched) && HasPane() && fresh(pane)
      ensures !ok ==> Now() == Some(if old(Now()) == Some(Launching) then Unspawned else Broken)
      ensures !ok ==> trace == old(trace) + [SpawnFailed] && pane == old(pane)
      ensures !ok ==> ActsOf(trace) == old(ActsOf(trace)) && SpawnsOf(trace) == old(SpawnsOf(trace))
      ensures TurnsOf(trace) == old(TurnsOf(trace))
    {
      ok := out.works(|trace|);
      if ok {
        pane := new Pane(out.panes(SpawnsOf(trace)), out.patience);
        Log(Spawned(gone));
      } else {
        Log(SpawnFailed);
      }
    }

    /** Stops the pane; the trace tells how. */
    method Stop() returns (t: Option<Termination>)
      requires HasPane() && Now().Some?
      requires Now() == Some(Aborting) || (Now().value.Ending? && !Now().value.turn.ExitNotified?)
      modifies this`trace, pane
      ensures HasPane() && |trace| == |old(trace)| + 1 && old(trace) <= trace
      ensures var e := trace[|old(trace)|];
              && e.Stopped? && e.t == t && SoundStop(e) && Now() == Step(old(Now()).value, e)
      ensures t.Some? ==> pane.Exit() == Some(t.value.info) && pane.Gone()
      ensures Now().Some? && TurnsOf(trace) == old(TurnsOf(trace)) && SpawnsOf(trace) == old(SpawnsOf(trace))
    {
      hide Sound, Step, Track, ActsOf, TurnsOf, SpawnsOf, HonestTrace, AllReal, IsReal, HonestFrom, Honest, SoundStop;
      var before, done := pane.Exit(), |pane.acts|;
      ghost var acts := pane.acts;
      t := pane.Terminate();
      var e := Stopped(before, pane.acts[done..], t, pane.patience, pane.Gone());
      assert pane.acts == acts + e.acts;
      StopIsHonest(trace, out, e);
      StopIsAllowed(Now().value, e);
      Log(e);
    }

    /** Stops the pane, starts a new one and records it as running. */
    method ServeRestart() returns (ok: bool)
      requires HasPane() && Now() == Some(Ending(Restart))
      modifies this, pane
      ensures HasPane() && (pane == old(pane) || fresh(pane))
      ensures if ok then Now() == Some(Live) else Now() in {Some(Broken), Some(Unstopped(Restart))}
      ensures TurnsOf(trace) == old(TurnsOf(trace))
    {
      hide SoundStop, TurnsOf, ActsOf, Track, SpawnsOf, HonestTrace, AllReal;
      var t := Stop();
      if t.None? {
        return false;
      }
      ok := Spawn(pane.Gone());
      if !ok {
        return false;
      }
      ok := WriteStatus(RUNNING, false);
    }

    /** Stops the pane, records the end of the session, and only then answers. `ended` is
        None if the status could not be written, and Some(None) if the pane goes on. */
    method ServeKill(id: nat) returns (ended: Option<Option<ExitInfo>>)
      requires HasPane() && Now() == Some(Ending(Kill(id)))
      modifies this`trace, pane
      ensures HasPane()
      ensures ended.None? ==> Now() == Some(Broken)
      ensures ended == Some(None) ==> Now() == Some(Live)
      ensures ended.Some? && ended.value.Some? ==>
                exists status :: Now() == Some(Told(status, ended.value.value))
      ensures TurnsOf(trace) == old(TurnsOf(trace))
    {
      hide SoundStop, Step, TurnsOf, ActsOf, Track, SpawnsOf, HonestTrace, AllReal, HonestFrom, IsReal;
      var stopped := Stop();
      KillPath(id, trace[|old(trace)|]);
      if stopped.None? {
        Log(Replied(id, Refused, pane.Gone()));
        return Some(None);
      }
      var t := stopped.value;
      var state := if t.signalSent || t.info.signaled then Killed else Exited;
      var status := Status(state, t.info.code);
      assert status == StatusOf(EndOf(t));
      hide StatusOf;
      var ok := WriteStatus(status, pane.Gone());
      if !ok {
        return None;
      }
      Log(Replied(id, if t.signalSent then Confirmed(t.escalated, status) else Refused, pane.Gone()));
      return Some(Some(t.info));
    }

    /** The worker's whole life, as far as `turns` go; `setUp` is whether the control socket
        could be opened. It takes the turns in order, and all of them if it is still running;
        it fails only after something outside it has. */
    method Serve(turns: seq<Turn>, setUp: bool) returns (verdict: Verdict)
      requires Valid() && trace == [] && pane == null
      modifies this
      ensures Valid() && (pane != null ==> HasPane())
      ensures Now().Some?
      ensures verdict.StillRunning? ==> Now() == Some(Live) && setUp
      ensures verdict.Done? <==> Now().value.Closed?
      ensures verdict.Failed? ==> HasFailed(Now().value) || (!setUp && Now() == Some(Finished(SETUP_FAILED, None)))
      ensures TurnsOf(trace) <= turns && (verdict.StillRunning? ==> TurnsOf(trace) == turns)
    {
      var ok := Launch();
      if !ok {
        return Failed;
      }
      if !setUp {
        Abort();
        return Failed;
      }
      verdict := Supervise(turns);
    }

    /** Records that the session starts, starts the command, and records that it runs. */
    method Launch() returns (ok: bool)
      requires Valid() && trace == [] && pane == null
      modifies this
      ensures Valid() && (pane != null ==> HasPane() && fresh(pane))
      ensures ok ==> pane != null && Now() == Some(Live)
      ensures !ok ==> Now() in {Some(Broken), Some(Finished(SPAWN_FAILED, None))}
      ensures TurnsOf(trace) == []
    {
      hide AllReal;
      ok := WriteStatus(STARTING, true);
      if !ok {
        return false;
      }
      ok := Spawn(true);
      if !ok {
        ok := WriteStatus(SPAWN_FAILED, true);
        return false;
      }
      ok := WriteStatus(RUNNING, false);
    }

    /** Stops the command of a session that nobody could control, and records that. */
    method Abort()
      requires HasPane() && Now() == Some(Live)
      modifies this`trace, pane
      ensures HasPane() && Now() in {Some(Broken), Some(Finished(SETUP_FAILED, None))}
      ensures TurnsOf(trace) == old(TurnsOf(trace))
    {
      hide SoundStop, TurnsOf, ActsOf, Track, SpawnsOf, HonestTrace, AllReal;
      Log(SetupFailed);
      var _ := Stop();
      var _ := WriteStatus(SETUP_FAILED, pane.Gone());
    }

    method Supervise(turns: seq<Turn>) returns (verdict: Verdict)
      requires HasPane() && Now() == Some(Live) && TurnsOf(trace) == []
      modifies this, pane
      ensures HasPane() && Now().Some?
      ensures verdict.StillRunning? ==> Now() == Some(Live)
      ensures verdict.Done? <==> Now().value.Closed?
      ensures verdict.Failed? ==> HasFailed(Now().value)
      ensures TurnsOf(trace) <= turns && (verdict.StillRunning? ==> TurnsOf(trace) == turns)
    {
      hide TurnsOf, ActsOf, SpawnsOf, HonestTrace, AllReal, Track;
      var k := 0;
      while k < |turns|
        invariant HasPane() && (pane == old(pane) || fresh(pane))
        invariant 0 <= k <= |turns|
        invariant Now() == Some(Live) && TurnsOf(trace) == turns[..k]
      {
        var turn := turns[k];
        assert turns[..k + 1] == turns[..k] + [turn];
        k := k + 1;
        Log(Took(turn));
        match turn {
          case Restart =>
            var ok := ServeRestart();
            if !ok {
              return Failed;
            }
          case Kill(id) =>
            var ended := ServeKill(id);
            if ended.None? {
              return Failed;
            }
            if ended.value.Some? {
              verdict := Finish(ended.value);
              return;
            }
          case ExitNotified =>
            verdict := ServeExit();
            return;
          case IdleTick(false) =>
          case _ =>
            verdict := ServeTimeout();
            return;
        }
      }
      return StillRunning;
    }

    /** Stops the pane, and ends the session. */
    method ServeTimeout() returns (verdict: Verdict)
      requires HasPane() && Now().Some? && Now().value.Ending? && Now().value.turn in {Timeout, IdleTick(true)}
      modifies this`trace, pane
      ensures HasPane() && Now().Some? && !verdict.StillRunning?
      ensures verdict.Done? <==> Now().value.Closed?
      ensures verdict.Failed? ==> HasFailed(Now().value)
      ensures TurnsOf(trace) == old(TurnsOf(trace))
    {
      hide SoundStop, TurnsOf, ActsOf, Track, SpawnsOf, HonestTrace, AllReal;
      var t := Stop();
      if t.None? {
        return Failed;
      }
      verdict := Conclude(Some(t.value.info), t.value.signalSent, pane.Gone());
    }

    /** Ends the session with the exit that the pane reports. */
    method ServeExit() returns (verdict: Verdict)
      requires HasPane() && Now() == Some(Ending(ExitNotified))
      modifies this`trace
      ensures HasPane() && Now().Some? && !verdict.StillRunning?
      ensures |trace| > |old(trace)| && trace[|old(trace)|] == Noticed(pane.Exit())
      ensures verdict.Done? <==> Now().value.Closed?
      ensures verdict.Failed? ==> Now() == Some(Broken)
      ensures TurnsOf(trace) == old(TurnsOf(trace))
    {
      hide TurnsOf, ActsOf, Track, SpawnsOf, HonestTrace, AllReal;
      Log(Noticed(pane.Exit()));
      verdict := Conclude(pane.Exit(), false, pane.Gone());
    }

    /** Records how the session ended, unless a kill has done so, and announces the exit. */
    method Conclude(info: Option<ExitInfo>, requested: bool, gone: bool) returns (verdict: Verdict)
      requires Valid() && Now().Some? && Now().value.Known? && !Now().value.turn.Kill?
      requires info == Now().value.end.info && requested == Now().value.end.signalSent
      requires (gone || Now().value.turn.ExitNotified?) && TrulyGone(trace, out, 0, gone)
      modifies this`trace
      ensures Valid() && Now().Some? && !verdict.StillRunning?
      ensures verdict.Done? <==> Now().value.Closed?
      ensures verdict.Failed? ==> Now() == Some(Broken)
      ensures TurnsOf(trace) == old(TurnsOf(trace)) && ActsOf(trace) == old(ActsOf(trace)) && old(trace) <= trace
      ensures SpawnsOf(trace) == old(SpawnsOf(trace))
    {
      hide TurnsOf, ActsOf, Track, SpawnsOf, HonestTrace, AllReal;
      var signaled := info.None? || info.value.signaled;
      var state := if requested || signaled then Killed else Exited;
      var status := Status(state, if info.Some? then info.value.code else None);
      var ok := WriteStatus(status, gone);
      if !ok {
        return Failed;
      }
      Log(ExitSent(if info.Some? then info.value else ExitInfo(None, true)));
      return Done;
    }

    method Finish(info: Option<ExitInfo>) returns (verdict: Verdict)
      requires Valid() && info.Some? && exists status :: Now() == Some(Told(status, info.value))
      modifies this`trace
      ensures Valid() && verdict.Done? && Now().Some? && Now().value.Closed?
      ensures TurnsOf(trace) == old(TurnsOf(trace)) && ActsOf(trace) == old(ActsOf(trace))
      ensures SpawnsOf(trace) == old(SpawnsOf(trace))
    {
      Log(ExitSent(info.value));
      return Done;
    }
  }

  /** A worker has returned with an error: something could not be written or started, or its
      pane could not be stopped. */
  predicate HasFailed(stage: Stage) {
    stage.Broken? || stage == Finished(SPAWN_FAILED, None) || (stage.Unstopped? && !stage.turn.Kill?)
  }

  /** Where serving a kill leads. */
  lemma KillPath(id: nat, e: Event)
    requires e.Stopped? && SoundStop(e)
    ensures e.t.None? ==>
              && Step(Ending(Kill(id)), e) == Some(Unstopped(Kill(id)))
              && forall gone :: Step(Unstopped(Kill(id)), Replied(id, Refused, gone)) == Some(Live)
    ensures e.t.Some? ==>
              var end := EndOf(e.t.value);
              var known, finished := Known(Kill(id), end), Finished(StatusOf(end), Some((Kill(id), end)));
              && Step(Ending(Kill(id)), e) == Some(known)
              && Step(known, WriteFailed(StatusOf(end))) == Some(Broken)
              && Step(known, Persisted(StatusOf(end), true)) == Some(finished)
              && Step(finished, Replied(id, Answer(end), true)) == Some(Told(StatusOf(end), e.t.value.info))
  {
    hide SoundStop;
  }

  lemma StopIsHonest(trace: seq<Event>, out: Outside, e: Event)
    requires SpawnsOf(trace) > 0 && e.Stopped? && e.patience == out.patience
    requires var moments, done := out.panes(SpawnsOf(trace) - 1), ActsOf(trace);
             && IsReal(moments) && HonestFrom(done + e.acts, moments, 0) && e.before == moments(|done|).exit
             && Sound(e.before, e.acts, e.t, e.patience)
             && (e.t.Some? ==> moments(|done + e.acts|).exit == Some(e.t.value.info) && e.gone)
             && e.gone == !moments(|done + e.acts|).alive
    ensures Honest(trace, out, e) && SoundStop(e)
  {
    var moments, done := out.panes(SpawnsOf(trace) - 1), ActsOf(trace);
    HonestRest(done, e.acts, moments);
    ExitStays(moments, |done|, |done + e.acts|);
    hide Sound, IsReal, HonestFrom, SpawnsOf, ActsOf;
  }

  lemma StopIsAllowed(stage: Stage, e: Event)
    requires e.Stopped? && SoundStop(e)
    requires stage == Aborting || (stage.Ending? && !stage.turn.ExitNotified?)
    ensures Step(stage, e).Some?
  {
    hide SoundStop;
  }

  lemma ExitStays(moments: nat -> Moment, from: nat, to: nat)
    requires IsReal(moments) && from <= to
    ensures moments(from).exit.Some? ==> moments(to).exit == moments(from).exit
  {
  }

  lemma HonestRest(done: seq<Act>, acts: seq<Act>, moments: nat -> Moment)
    requires HonestFrom(done + acts, moments, 0)
    ensures HonestFrom(acts, moments, |done|)
  {
    forall k | 0 <= k < |acts|
      ensures Answers(acts[k], moments(|done| + k))
    {
      assert (done + acts)[|done| + k] == acts[k];
    }
  }

  // ---------------------------------------------------------------- what every trace promises

  function Statuses(trace: seq<Event>): seq<Status> {
    if trace == [] then []
    else
      var init := Statuses(trace[..|trace| - 1]);
      match trace[|trace| - 1]
      case Persisted(s, _) => init + [s]
      case _ => init
  }

  /** Starting, then Running any number of times, then at most one terminal state. */
  predicate StatusOrder(ss: seq<Status>) {
    && (ss != [] ==> ss[0] == STARTING)
    && (forall k | 1 <= k < |ss| - 1 :: ss[k] == RUNNING)
    && (|ss| > 1 ==> ss[|ss| - 1] == RUNNING || IsTerminal(ss[|ss| - 1].state))
  }

  /** What a stage says about the statuses persisted so far. */
  predicate StageStatuses(stage: Stage, ss: seq<Status>) {
    match stage
    case New => ss == []
    case Broken => StatusOrder(ss)
    case Launching | Unspawned => ss == [STARTING]
    case Launched => StatusOrder(ss) && |ss| >= 1 && !IsTerminal(ss[|ss| - 1].state)
    case Live | Aborting | Aborted | Ending(_) | Unstopped(_) | Cleared | Known(_, _) =>
      StatusOrder(ss) && |ss| >= 2 && ss[|ss| - 1] == RUNNING
    case Finished(s, _) => StatusOrder(ss) && |ss| >= 2 && ss[|ss| - 1] == s && IsTerminal(s.state)
    case Told(s, _) => StatusOrder(ss) && |ss| >= 2 && ss[|ss| - 1] == s && IsTerminal(s.state)
    case Closed(s, _) => StatusOrder(ss) && |ss| >= 2 && ss[|ss| - 1] == s && IsTerminal(s.state)
  }

  lemma StepKeepsStatuses(stage: Stage, e: Event, ss: seq<Status>)
    requires StageStatuses(stage, ss) && Step(stage, e).Some?
    ensures StageStatuses(Step(stage, e).value, if e.Persisted? then ss + [e.status] else ss)
  {
  }

  lemma {:induction false} TraceStatuses(trace: seq<Event>)
    requires Track(trace).Some?
    ensures StageStatuses(Track(trace).value, Statuses(trace))
  {
    if trace != [] {
      var init := trace[..|trace| - 1];
      TraceStatuses(init);
      hide Step, StageStatuses;
      StepKeepsStatuses(Track(init).value, trace[|trace| - 1], Statuses(init));
    }
  }

  /** Persisted states form Starting, then Running, then at most one terminal state with
      nothing after it; and a worker that has announced an exit has recorded it. */
  lemma LifecycleOrder(trace: seq<Event>)
    requires Track(trace).Some?
    ensures StatusOrder(Statuses(trace))
    ensures Track(trace).value.Closed? ==>
              Statuses(trace) != [] && IsTerminal(Statuses(trace)[|Statuses(trace)| - 1].state)
  {
    TraceStatuses(trace);
  }

  lemma LaunchStep(stage: Stage, e: Event)
    requires Step(stage, e).Some? && e.Persisted?
    ensures stage == New ==> Step(stage, e) == Some(Launching)
    ensures stage == Unspawned ==>
              Step(stage, e) == Some(Finished(Status(Exited, None), None)) && e.status == Status(Exited, None)
    ensures stage == Aborted ==>
              Step(stage, e) == Some(Finished(Status(Killed, Some(1)), None)) && e.status == Status(Killed, Some(1))
  {
  }

  lemma NothingAfterFailure(s: Status, e: Event)
    ensures Step(Finished(s, None), e) == None
    ensures !e.Stopped? ==> Step(Aborting, e) == None
    ensures Step(Aborting, e).Some? ==> Step(Aborting, e) == Some(Aborted)
    ensures forall stage :: Step(stage, SetupFailed).Some? ==> Step(stage, SetupFailed) == Some(Aborting)
    ensures forall stage ::
              Step(stage, SpawnFailed).Some? ==> Step(stage, SpawnFailed) in {Some(Unspawned), Some(Broken)}
  {
  }

  /** A command that could not be started leaves a session that has ended without a code; one
      that nobody could control is stopped, and leaves a session that was killed, with code
      1. Neither session does anything more. */
  lemma FailedStarts(trace: seq<Event>, i: nat)
    requires Track(trace).Some? && 0 < i < |trace| && trace[i].Persisted?
    ensures trace[i - 1].SpawnFailed? ==> trace[i].status == Status(Exited, None) && |trace| == i + 1
    ensures i > 1 && trace[i - 2].SetupFailed? ==>
              && trace[i - 1].Stopped? && trace[i].status == Status(Killed, Some(1)) && |trace| == i + 1
  {
    hide Step, Track;
    EmptyTrace();
    TrackPrefix(trace, i);
    LaunchStep(Track(trace[..i]).value, trace[i]);
    if i + 1 < |trace| {
      TrackPrefix(trace, i + 1);
      NothingAfterFailure(Status(Exited, None), trace[i + 1]);
      NothingAfterFailure(Status(Killed, Some(1)), trace[i + 1]);
    }
    TrackPrefix(trace, i - 1);
    NothingAfterFailure(STARTING, trace[i - 1]);
    BrokenIsFinal(trace[i]);
    if i > 1 && trace[i - 2].SetupFailed? {
      TrackPrefix(trace, i - 2);
      NothingAfterFailure(STARTING, trace[i - 1]);
    }
  }

  predicate Confirms(e: Event) { e.Replied? && e.reply.Confirmed? }

  predicate Quiet(stage: Stage) { stage.Told? || stage.Closed? }

  lemma {:induction false} TrackPrefix(trace: seq<Event>, n: nat)
    requires Track(trace).Some? && n <= |trace|
    ensures Track(trace[..n]).Some?
    ensures n < |trace| ==> Step(Track(trace[..n]).value, trace[n]).Some?
    ensures n < |trace| ==> Track(trace[..n + 1]) == Step(Track(trace[..n]).value, trace[n])
    ensures n < |trace| && Quiet(Track(trace[..n]).value) ==>
              Quiet(Track(trace).value) && trace[n].ExitSent? && n == |trace| - 1
  {
    assert trace[..|trace|] == trace;
    if n < |trace| {
      var init := trace[..|trace| - 1];
      TrackPrefix(init, n);
      assert init[..n] == trace[..n];
      if n < |init| {
        assert init[..n + 1] == trace[..n + 1];
      } else {
        assert trace[..n + 1] == trace && init == trace[..n];
      }
    }
  }

  /** What a stage says about how the session ended. */
  ghost predicate StageEnds(stage: Stage) {
    match stage
    case Finished(s, Some((_, end))) => s == StatusOf(end)
    case Told(s, info) => exists end :: s == StatusOf(end) && info == Announced(end.info)
    case Closed(s, info) => exists end :: s == StatusOf(end) && info == Announced(end.info)
    case _ => true
  }

  lemma StepKeepsEnds(stage: Stage, e: Event)
    requires StageEnds(stage) && Step(stage, e).Some?
    ensures StageEnds(Step(stage, e).value)
  {
    if stage.Finished? && stage.last.Some? {
      var end := stage.last.value.1;
      assert stage.status == StatusOf(end) && Announced(end.info) == Announced(end.info);
    }
  }

  lemma {:induction false} TraceEnds(trace: seq<Event>)
    requires Track(trace).Some?
    ensures StageEnds(Track(trace).value)
  {
    if trace != [] {
      var init := trace[..|trace| - 1];
      TraceEnds(init);
      hide Step, StageEnds;
      StepKeepsEnds(Track(init).value, trace[|trace| - 1]);
    }
  }

  /** Only a persisted Killed, with the group gone, leads to a confirmation. */
  lemma ConfirmingStep(stage: Stage, e: Event)
    requires Step(stage, e).Some? && Confirms(e) && StageEnds(stage)
    ensures stage.Finished? && stage.last.Some? && stage.last.value.0.Kill?
    ensures e.gone && e.reply.status == stage.status && stage.status.state == Killed
    ensures Step(stage, e).value.Told?
  {
  }

  lemma FinishingStep(stage: Stage, e: Event)
    requires Step(stage, e).Some? && Step(stage, e).value.Finished?
    requires Step(stage, e).value.last.Some? && Step(stage, e).value.last.value.0.Kill?
    ensures e == Persisted(Step(stage, e).value.status, true)
  {
  }

  /** At most one kill request is told that it killed the session, and only right after
      Killed has been persisted, with the same status, and when the pane's process group is
      gone; nothing but the announcement of the exit follows. */
  lemma ConfirmedKill(trace: seq<Event>, out: Outside, i: nat)
    requires Track(trace).Some? && HonestTrace(trace, out) && i < |trace| && Confirms(trace[i])
    ensures i > 0 && SpawnsOf(trace[..i]) > 0 && !Next(trace[..i], out, 0).alive
    ensures trace[i - 1] == Persisted(trace[i].reply.status, true) && trace[i].reply.status.state == Killed
    ensures forall j | 0 <= j < |trace| && Confirms(trace[j]) :: j == i
    ensures forall j | i < j < |trace| :: trace[j].ExitSent? && j == |trace| - 1
  {
    ConfirmedAfter(trace, i);
    NothingAfterConfirmation(trace, i);
    ConfirmedIsGone(trace, out, i);
    hide *;
    forall j | 0 <= j < i
      ensures !Confirms(trace[j])
    {
      if Confirms(trace[j]) {
        NothingAfterConfirmation(trace, j);
        NotBoth(trace[i]);
      }
    }
    forall j | i < j < |trace|
      ensures !Confirms(trace[j])
    {
      if Confirms(trace[j]) {
        NotBoth(trace[j]);
      }
    }
  }

  lemma ConfirmedIsGone(trace: seq<Event>, out: Outside, i: nat)
    requires Track(trace).Some? && HonestTrace(trace, out) && i < |trace| && Confirms(trace[i])
    ensures SpawnsOf(trace[..i]) > 0 && !Next(trace[..i], out, 0).alive
  {
    TrackPrefix(trace, i);
    TraceEnds(trace[..i]);
    HonestPrefix(trace, out, i);
    ConfirmingStep(Track(trace[..i]).value, trace[i]);
    hide Step, Track, HonestTrace;
    SpawnsBefore(trace[..i]);
  }

  lemma NotBoth(e: Event)
    ensures !(Confirms(e) && e.ExitSent?)
  {
  }

  lemma ConfirmedAfter(trace: seq<Event>, i: nat)
    requires Track(trace).Some? && i < |trace| && Confirms(trace[i])
    ensures trace[i].gone && i > 0
    ensures trace[i - 1] == Persisted(trace[i].reply.status, true) && trace[i].reply.status.state == Killed
  {
    TrackPrefix(trace, i);
    TraceEnds(trace[..i]);
    ConfirmingStep(Track(trace[..i]).value, trace[i]);
    assert i > 0 by {
      assert trace[..0] == [];
    }
    hide Step, Track;
    TrackPrefix(trace, i - 1);
    FinishingStep(Track(trace[..i - 1]).value, trace[i - 1]);
  }

  lemma NothingAfterConfirmation(trace: seq<Event>, i: nat)
    requires Track(trace).Some? && i < |trace| && Confirms(trace[i])
    ensures forall j | i < j < |trace| :: trace[j].ExitSent? && j == |trace| - 1
  {
    hide Step, Track;
    TrackPrefix(trace, i);
    TraceEnds(trace[..i]);
    ConfirmingStep(Track(trace[..i]).value, trace[i]);
    if i + 1 < |trace| {
      TrackPrefix(trace, i + 1);
    }
  }

  /** Two panes of a session never run at once: when a new pane is started, the process
      group of its predecessor is gone. */
  lemma RestartsNeverOverlap(trace: seq<Event>, out: Outside, i: nat)
    requires Track(trace).Some? && HonestTrace(trace, out) && i < |trace| && trace[i].Spawned?
    ensures SpawnsOf(trace[..i]) > 0 ==> !Next(trace[..i], out, 0).alive
  {
    TrackPrefix(trace, i);
    HonestPrefix(trace, out, i);
    hide Track;
    SpawningStep(Track(trace[..i]).value, trace[i]);
    hide HonestTrace, Step;
  }

  lemma SpawningStep(stage: Stage, e: Event)
    requires Step(stage, e).Some? && e.Spawned?
    ensures e.gone
  {
  }

  lemma {:induction false} HonestPrefix(trace: seq<Event>, out: Outside, n: nat)
    requires HonestTrace(trace, out) && n < |trace|
    ensures HonestTrace(trace[..n], out) && Honest(trace[..n], out, trace[n])
  {
    hide Honest;
    if n < |trace| - 1 {
      HonestPrefix(trace[..|trace| - 1], out, n);
      assert trace[..|trace| - 1][..n] == trace[..n];
    }
  }

  /** There is a pane, or has been one. */
  predicate HasSpawned(stage: Stage) {
    !(stage in {New, Launching, Unspawned, Broken}) && (stage.Finished? ==> stage.last.Some?)
  }

  lemma SpawnedStep(stage: Stage, e: Event)
    requires Step(stage, e).Some? && HasSpawned(Step(stage, e).value)
    ensures HasSpawned(stage) || e.Spawned?
  {
  }

  lemma {:induction false} SpawnsBefore(trace: seq<Event>)
    requires Track(trace).Some? && HasSpawned(Track(trace).value)
    ensures SpawnsOf(trace) > 0
  {
    if trace != [] {
      var init, e := trace[..|trace| - 1], trace[|trace| - 1];
      SpawnedStep(Track(init).value, e);
      hide Step, HasSpawned;
      if !e.Spawned? {
        SpawnsBefore(init);
      }
    }
  }

  /** What is recorded of a stopped pane: Killed if the worker signalled it or a signal ended
      it, Exited otherwise, and its code. */
  function StoppedStatus(t: Termination): Status {
    Status(if t.signalSent || t.info.signaled then Killed else Exited, t.info.code)
  }

  /** The same for a pane that ended by itself; nothing known of it counts as a signal. */
  function NoticedStatus(exit: Option<ExitInfo>): Status {
    match exit
    case None => Status(Killed, None)
    case Some(info) => Status(if info.signaled then Killed else Exited, info.code)
  }

  lemma KillSteps(id: nat, t: Option<Termination>, e: Event)
    requires t.None? ==> Step(Unstopped(Kill(id)), e).Some?
    requires t.Some? ==> Step(Known(Kill(id), EndOf(t.value)), e).Some?
    ensures t.None? ==> e.Replied? && e.id == id && e.reply == Refused && Step(Unstopped(Kill(id)), e) == Some(Live)
    ensures t.Some? && e == WriteFailed(StoppedStatus(t.value)) ==>
              Step(Known(Kill(id), EndOf(t.value)), e) == Some(Broken)
    ensures t.Some? && e != WriteFailed(StoppedStatus(t.value)) ==>
              && e == Persisted(StoppedStatus(t.value), true)
              && Step(Known(Kill(id), EndOf(t.value)), e)
                 == Some(Finished(StoppedStatus(t.value), Some((Kill(id), EndOf(t.value)))))
  {
  }

  lemma StopStep(turn: Turn, e: Event)
    requires Step(Ending(turn), e).Some? && !turn.ExitNotified?
    ensures e.Stopped? && SoundStop(e)
    ensures !turn.Restart? ==>
              Step(Ending(turn), e) == Some(if e.t.Some? then Known(turn, EndOf(e.t.value)) else Unstopped(turn))
  {
  }

  lemma AnswerStep(id: nat, t: Termination, e: Event)
    requires Step(Finished(StoppedStatus(t), Some((Kill(id), EndOf(t)))), e).Some?
    ensures e == Replied(id, if t.signalSent then Confirmed(t.escalated, StoppedStatus(t)) else Refused, true)
  {
  }

  lemma TakeStep(stage: Stage, turn: Turn)
    requires Step(stage, Took(turn)).Some?
    ensures Step(stage, Took(turn)) == Some(if Ends(turn) then Ending(turn) else Live)
  {
  }

  /** Every kill request is answered for what was done. First the pane is stopped. If that
      is given up, which takes a probe or a signal that fails, or a group that outlives
      SIGKILL, the request is refused, and the session goes on. If it succeeds, the end is
      recorded, and if that succeeds the kill is confirmed, with that status, and with
      whether SIGKILL was needed, if the worker signalled the pane; a request that found the
      pane gone is refused. */
  lemma KillIsAnswered(trace: seq<Event>, i: nat, id: nat)
    requires Track(trace).Some? && i < |trace| && trace[i] == Took(Kill(id))
    ensures i + 1 < |trace| ==> trace[i + 1].Stopped? && SoundStop(trace[i + 1])
    ensures i + 2 < |trace| && trace[i + 1].t.None? ==>
              && GaveUp(trace[i + 1].acts, trace[i + 1].patience)
              && trace[i + 2].Replied? && trace[i + 2].id == id && trace[i + 2].reply == Refused
              && Track(trace[..i + 3]) == Some(Live)
    ensures i + 2 < |trace| && trace[i + 1].t.Some? ==>
              var status := StoppedStatus(trace[i + 1].t.value);
              trace[i + 2] == WriteFailed(status) || trace[i + 2] == Persisted(status, true)
    ensures i + 3 < |trace| && trace[i + 1].t.Some? ==>
              var t := trace[i + 1].t.value;
              && trace[i + 2] == Persisted(StoppedStatus(t), true)
              && trace[i + 3]
                 == Replied(id, if t.signalSent then Confirmed(t.escalated, StoppedStatus(t)) else Refused, true)
  {
    hide Step, Track;
    TrackPrefix(trace, i);
    TakeStep(Track(trace[..i]).value, Kill(id));
    if i + 1 < |trace| {
      TrackPrefix(trace, i + 1);
      StopStep(Kill(id), trace[i + 1]);
      if i + 2 < |trace| {
        TrackPrefix(trace, i + 2);
        KillSteps(id, trace[i + 1].t, trace[i + 2]);
        if i + 3 < |trace| && trace[i + 1].t.Some? {
          TrackPrefix(trace, i + 3);
          AfterPersisting(id, trace[i + 1].t.value, trace[i + 2], trace[i + 3]);
        }
      }
    }
  }

  /** From here on everything works that is asked of the pane, its exit is known by the time
      of the fourth act, and its group is gone before the patience can be used up. */
  ghost predicate Cooperates(moments: nat -> Moment, from: nat, patience: nat) {
    && IsReal(moments) && (forall k: nat | k >= from :: moments(k).works)
    && moments(from + 3).exit.Some? && !moments(from + 2 + patience).alive
  }

  lemma ActWorks(acts: seq<Act>, moments: nat -> Moment, from: nat, k: nat)
    requires HonestFrom(acts, moments, from) && k < |acts| && moments(from + k).works
    ensures !Fails(acts[k])
  {
    assert Answers(acts[k], moments(from + k));
  }

  /** A wait that follows SIGKILL finds the exit. */
  lemma WaitFindsExit(before: Option<ExitInfo>, acts: seq<Act>, moments: nat -> Moment, from: nat, k: nat)
    requires IsReal(moments) && HonestFrom(acts, moments, from) && before == moments(from).exit
    requires moments(from + 3).exit.Some? && SoundSoFar(before, acts) && 0 < k < |acts| && Kills(acts[k - 1])
    ensures acts[k] != Waited(None)
  {
    assert Answers(acts[k], moments(from + k)) && Warranted(acts, k - 1);
    if before.None? {
      assert k >= 3;
      ExitStays(moments, from + 3, from + k);
    } else {
      ExitStays(moments, from, from + k);
    }
  }

  /** Polling after SIGKILL finds the group gone at the last probe. */
  lemma PollFindsGone(acts: seq<Act>, moments: nat -> Moment, from: nat, k: nat, patience: nat)
    requires IsReal(moments) && HonestFrom(acts, moments, from) && !moments(from + 2 + patience).alive
    requires k + patience + 1 < |acts| && Warranted(acts, k) && Kills(acts[k])
    ensures acts[|acts| - 1] != ALIVE
  {
    var last := |acts| - 1;
    assert Answers(acts[last], moments(from + last));
    GoneStays(moments, from + 2 + patience, from + last);
  }

  /** Stopping a pane then succeeds. */
  lemma StopSucceeds(moments: nat -> Moment, from: nat, before: Option<ExitInfo>, acts: seq<Act>,
                     t: Option<Termination>, patience: nat)
    requires Cooperates(moments, from, patience) && HonestFrom(acts, moments, from)
    requires before == moments(from).exit && Sound(before, acts, t, patience)
    ensures t.Some?
  {
    var last := |acts| - 1;
    assert acts != [] && moments(from + last).works;
    ActWorks(acts, moments, from, last);
    if |acts| > 1 && Kills(acts[last - 1]) {
      WaitFindsExit(before, acts, moments, from, last);
    }
    forall k | 0 <= k < |acts| - patience - 1 && Kills(acts[k])
      ensures acts[last] != ALIVE
    {
      PollFindsGone(acts, moments, from, k, patience);
    }
  }

  lemma GoneStays(moments: nat -> Moment, from: nat, to: nat)
    requires IsReal(moments) && from <= to && !moments(from).alive
    ensures !moments(to).alive
  {
  }

  /** A kill of a running pane that does die is confirmed, if what the worker needs for it
      works: as Killed, with the code of the command. */
  lemma KillSucceeds(trace: seq<Event>, out: Outside, i: nat, id: nat)
    requires Track(trace).Some? && HonestTrace(trace, out) && i + 3 < |trace| && trace[i] == Took(Kill(id))
    requires SpawnsOf(trace[..i + 1]) > 0
    requires var moments, from := out.panes(SpawnsOf(trace[..i + 1]) - 1), |ActsOf(trace[..i + 1])|;
             Cooperates(moments, from, out.patience) && moments(from).exit.None?
    requires out.works(i + 2)
    ensures trace[i + 1].Stopped? && trace[i + 1].t.Some?
    ensures var t := trace[i + 1].t.value;
            && trace[i + 2] == Persisted(Status(Killed, t.info.code), true)
            && trace[i + 3] == Replied(id, Confirmed(t.escalated, Status(Killed, t.info.code)), true)
            && Next(trace[..i + 1], out, |trace[i + 1].acts|).exit == Some(t.info)
  {
    hide HonestTrace, Track, Step, Cooperates, SpawnsOf, ActsOf, Sound, HonestFrom;
    KillIsAnswered(trace, i, id);
    HonestPrefix(trace, out, i + 1);
    HonestPrefix(trace, out, i + 2);
    var e := trace[i + 1];
    StopSucceeds(out.panes(SpawnsOf(trace[..i + 1]) - 1), |ActsOf(trace[..i + 1])|, e.before, e.acts, e.t, e.patience);
    RunningIsSignalled(e);
  }

  lemma RunningIsSignalled(e: Event)
    requires e.Stopped? && SoundStop(e) && e.before.None? && e.t.Some?
    ensures e.t.value.signalSent
  {
    assert e.acts[0].Sent?;
  }

  /** A worker fails only if a status could not be written, its command could not be started,
      or its pane could not be stopped. */
  lemma FailsOnlyOutside(trace: seq<Event>, out: Outside) returns (k: nat)
    requires Track(trace).Some? && HonestTrace(trace, out) && HasFailed(Track(trace).value)
    ensures k < |trace|
    ensures || (trace[k].WriteFailed? && !out.works(k))
            || (trace[k].SpawnFailed? && !out.works(k))
            || (trace[k].Stopped? && trace[k].t.None? && GaveUp(trace[k].acts, trace[k].patience))
  {
    EmptyTrace();
    k := |trace| - 1;
    TrackPrefix(trace, k);
    assert trace[..|trace|] == trace;
    HonestPrefix(trace, out, k);
    FailingSteps(Track(trace[..k]).value, trace[k]);
    hide Step, HonestTrace, Track;
    if Track(trace).value.Finished? {
      k := k - 1;
      TrackPrefix(trace, k);
      HonestPrefix(trace, out, k);
      UnspawnedFrom(Track(trace[..k]).value, trace[k]);
    }
  }

  lemma FailingSteps(stage: Stage, e: Event)
    requires Step(stage, e).Some? && HasFailed(Step(stage, e).value)
    ensures var failed := Step(stage, e).value;
            && (failed.Broken? ==> e.WriteFailed? || e.SpawnFailed?)
            && (failed.Unstopped? ==> e.Stopped? && e.t.None? && GaveUp(e.acts, e.patience))
            && (failed.Finished? ==> stage == Unspawned)
  {
  }

  lemma UnspawnedFrom(stage: Stage, e: Event)
    requires Step(stage, e) == Some(Unspawned)
    ensures e.SpawnFailed?
  {
  }

  lemma AfterPersisting(id: nat, t: Termination, e: Event, f: Event)
    requires var known := Known(Kill(id), EndOf(t));
             Step(known, e).Some? && Step(Step(known, e).value, f).Some?
    ensures e == Persisted(StoppedStatus(t), true)
    ensures f == Replied(id, if t.signalSent then Confirmed(t.escalated, StoppedStatus(t)) else Refused, true)
  {
    BrokenIsFinal(f);
    KillSteps(id, Some(t), e);
    hide Step;
    if e != WriteFailed(StoppedStatus(t)) {
      AnswerStep(id, t, f);
    }
  }

  lemma BrokenIsFinal(e: Event)
    ensures Step(Broken, e) == None
  {
  }

  function AfterTurn(turn: Turn): Stage { if turn == IdleTick(false) then Live else Ending(turn) }

  lemma TurnStep(turn: Turn, e: Event)
    requires Step(AfterTurn(turn), e).Some?
    ensures turn == IdleTick(false) ==> e.Took? || e.SetupFailed?
    ensures turn.ExitNotified? ==>
              e.Noticed? && Step(AfterTurn(turn), e) == Some(Known(turn, End(e.exit, false, false)))
    ensures turn.Restart? || turn in {Timeout, IdleTick(true)} ==>
              && e.Stopped?
              && Step(AfterTurn(turn), e)
                 == Some(if e.t.None? then Unstopped(turn)
                         else if turn.Restart? then Cleared else Known(turn, EndOf(e.t.value)))
  {
  }

  lemma UnstoppedIsFinal(turn: Turn, e: Event)
    requires !turn.Kill?
    ensures Step(Unstopped(turn), e) == None
  {
  }

  lemma KnownIsRecorded(turn: Turn, end: End, e: Event)
    requires Step(Known(turn, end), e).Some?
    ensures e == WriteFailed(StatusOf(end)) || (e.Persisted? && e.status == StatusOf(end))
    ensures e.Persisted? ==> Step(Known(turn, end), e) == Some(Finished(StatusOf(end), Some((turn, end))))
    ensures e.WriteFailed? ==> Step(Known(turn, end), e) == Some(Broken)
  {
  }

  lemma RecordedIsAnnounced(turn: Turn, end: End, e: Event)
    requires Step(Finished(StatusOf(end), Some((turn, end))), e).Some? && !turn.Kill?
    ensures e == ExitSent(Announced(end.info))
  {
  }

  lemma ClearedStep(e: Event, f: Event)
    requires Step(Cleared, e).Some?
    ensures e == Spawned(true) || e == SpawnFailed
    ensures Step(Step(Cleared, e).value, f).Some? ==>
              e == Spawned(true) && (f == WriteFailed(RUNNING) || (f.Persisted? && f.status == RUNNING))
  {
  }

  /** The status is written, or could not be. */
  predicate Records(e: Event, s: Status) { e == WriteFailed(s) || (e.Persisted? && e.status == s) }

  /** What becomes of the end of a pane, or of a session's, that is known. */
  lemma KnownIsServed(trace: seq<Event>, n: nat, turn: Turn, end: End)
    requires Track(trace).Some? && n < |trace| && Track(trace[..n]) == Some(Known(turn, end)) && !turn.Kill?
    ensures Records(trace[n], StatusOf(end))
    ensures n + 1 < |trace| ==> trace[n].Persisted? && trace[n + 1] == ExitSent(Announced(end.info))
  {
    hide Step, Track;
    TrackPrefix(trace, n);
    KnownIsRecorded(turn, end, trace[n]);
    if n + 1 < |trace| {
      TrackPrefix(trace, n + 1);
      BrokenIsFinal(trace[n + 1]);
      RecordedIsAnnounced(turn, end, trace[n + 1]);
    }
  }

  /** Every turn of the main loop does what it is for, and stops where something fails. A
      timeout, or a session that was idle for too long, stops the pane, records what came of
      it and announces its exit. An exit that is noticed is recorded and announced. A restart
      stops the pane, starts a new one and records that it runs. A tick of a session that is
      not idle does nothing. */
  lemma TurnsAreServed(trace: seq<Event>, i: nat)
    requires Track(trace).Some? && i + 1 < |trace| && trace[i].Took?
    ensures trace[i].turn == IdleTick(false) ==> trace[i + 1].Took? || trace[i + 1].SetupFailed?
    ensures trace[i].turn in {Timeout, IdleTick(true)} ==>
              && trace[i + 1].Stopped?
              && (i + 2 < |trace| ==>
                    trace[i + 1].t.Some? && Records(trace[i + 2], StoppedStatus(trace[i + 1].t.value)))
              && (i + 3 < |trace| ==> trace[i + 1].t.Some? && trace[i + 3] == ExitSent(trace[i + 1].t.value.info))
    ensures trace[i].turn.ExitNotified? ==>
              && trace[i + 1].Noticed?
              && (i + 2 < |trace| ==> Records(trace[i + 2], NoticedStatus(trace[i + 1].exit)))
              && (i + 3 < |trace| ==> trace[i + 3] == ExitSent(Announced(trace[i + 1].exit)))
    ensures trace[i].turn.Restart? ==>
              && trace[i + 1].Stopped?
              && (i + 2 < |trace| ==> trace[i + 1].t.Some? && trace[i + 2] in {Spawned(true), SpawnFailed})
              && (i + 3 < |trace| ==> trace[i + 2] == Spawned(true) && Records(trace[i + 3], RUNNING))
  {
    var turn := trace[i].turn;
    hide Step, Track;
    TrackPrefix(trace, i);
    TakeStep(Track(trace[..i]).value, turn);
    TrackPrefix(trace, i + 1);
    TurnStep(turn, trace[i + 1]);
    if i + 2 < |trace| {
      TrackPrefix(trace, i + 2);
      if turn.ExitNotified? {
        KnownIsServed(trace, i + 2, turn, End(trace[i + 1].exit, false, false));
      } else if turn in {Timeout, IdleTick(true), Restart} {
        ServedAfterStop(trace, i, turn);
      }
    }
  }

  lemma ServedAfterStop(trace: seq<Event>, i: nat, turn: Turn)
    requires Track(trace).Some? && i + 2 < |trace| && trace[i + 1].Stopped?
    requires turn in {Timeout, IdleTick(true), Restart}
    requires var t := trace[i + 1].t;
             Track(trace[..i + 2]) == Some(if t.None? then Unstopped(turn)
                                           else if turn.Restart? then Cleared else Known(turn, EndOf(t.value)))
    ensures var t := trace[i + 1].t;
            if turn.Restart? then
              && t.Some? && trace[i + 2] in {Spawned(true), SpawnFailed}
              && (i + 3 < |trace| ==> trace[i + 2] == Spawned(true) && Records(trace[i + 3], RUNNING))
            else
              && t.Some? && Records(trace[i + 2], StoppedStatus(t.value))
              && (i + 3 < |trace| ==> trace[i + 3] == ExitSent(t.value.info))
  {
    var t := trace[i + 1].t;
    hide Step, Track;
    TrackPrefix(trace, i + 2);
    if i + 3 < |trace| {
      TrackPrefix(trace, i + 3);
    }
    if t.None? {
      UnstoppedIsFinal(turn, trace[i + 2]);
    } else if turn.Restart? {
      ClearedStep(trace[i + 2], if i + 3 < |trace| then trace[i + 3] else SpawnFailed);
    } else {
      KnownIsServed(trace, i + 2, turn, EndOf(t.value));
    }
  }

  /** Once the exit is announced, the payload of the live EXIT frame, the recorded status,
      a bridge that reads it and `wait` all give the same code, unless the command ended
      without any code, unsignalled, after the worker had stopped it. */
  lemma AnnouncedCodeIsRecorded(trace: seq<Event>)
    requires Track(trace).Some? && Track(trace).value.Closed?
    ensures var closed := Track(trace).value;
            closed.info.code.Some? || closed.info.signaled ==>
              && ParseExit(ExitPayload(Some(closed.info))) == RecordedCode(Some(closed.status))
              && ParseExit(ExitPayload(Some(BridgedInfo(closed.status)))) == RecordedCode(Some(closed.status))
              && WaitVerdict(Look(Some(closed.status), None, false)) == Some(RecordedCode(Some(closed.status)))
  {
    TraceEnds(trace);
    var closed := Track(trace).value;
    var end :| closed.status == StatusOf(end) && closed.info == Announced(end.info);
    CodesAgreeIff(end.info, end.signalSent);
    hide Track, Step, ParseExit, ExitPayload;
  }

  /** How a session ends: with a stop by the worker or with an exit that the pane reported,
      directly followed by the record of exactly that, and in the end by its announcement. */
  lemma EndIsRecorded(trace: seq<Event>) returns (i: nat)
    requires Track(trace).Some? && Track(trace).value.Closed?
    ensures i + 2 < |trace| <= i + 4 && trace[i + 1].Persisted? && trace[i + 1].status == Track(trace).value.status
    ensures trace[|trace| - 1] == ExitSent(Track(trace).value.info)
    ensures (trace[i].Stopped? && trace[i].t.Some?) || trace[i].Noticed?
    ensures trace[i].Stopped? ==>
              && Track(trace).value.status == StoppedStatus(trace[i].t.value)
              && Track(trace).value.info == trace[i].t.value.info
    ensures trace[i].Noticed? ==>
              && Track(trace).value.status == NoticedStatus(trace[i].exit)
              && Track(trace).value.info == if trace[i].exit.Some? then trace[i].exit.value else ExitInfo(None, true)
  {
    hide Step, Track;
    var n := |trace|;
    EmptyTrace();
    TrackPrefix(trace, n - 1);
    assert trace[..n] == trace;
    ClosingFrom(Track(trace[..n - 1]).value, trace[n - 1]);
    var m := n - 1;
    if Track(trace[..m]).value.Told? {
      TrackPrefix(trace, m - 1);
      TellingFrom(Track(trace[..m - 1]).value, trace[m - 1]);
      m := m - 1;
    }
    TrackPrefix(trace, m - 1);
    FinishedFrom(Track(trace[..m - 1]).value, trace[m - 1]);
    TrackPrefix(trace, m - 2);
    KnownFrom(Track(trace[..m - 2]).value, trace[m - 2]);
    i := m - 2;
  }

  lemma EmptyTrace()
    ensures Track([]) == Some(New) && forall trace: seq<Event> :: trace[..0] == []
  {
  }

  lemma ClosingFrom(stage: Stage, e: Event)
    requires Step(stage, e).Some? && Step(stage, e).value.Closed?
    ensures var closed := Step(stage, e).value;
            && e == ExitSent(closed.info)
            && (stage == Told(closed.status, closed.info)
                || (stage.Finished? && stage.last.Some? && stage.status == closed.status
                    && closed.info == Announced(stage.last.value.1.info)))
  {
  }

  lemma TellingFrom(stage: Stage, e: Event)
    requires Step(stage, e).Some? && Step(stage, e).value.Told?
    ensures stage.Finished? && stage.last.Some? && stage.status == Step(stage, e).value.status
    ensures Step(stage, e).value.info == Announced(stage.last.value.1.info)
  {
  }

  lemma FinishedFrom(stage: Stage, e: Event)
    requires Step(stage, e).Some? && Step(stage, e).value.Finished? && Step(stage, e).value.last.Some?
    ensures stage == Known(Step(stage, e).value.last.value.0, Step(stage, e).value.last.value.1)
    ensures e.Persisted? && e.status == Step(stage, e).value.status == StatusOf(stage.end)
  {
  }

  lemma KnownFrom(stage: Stage, e: Event)
    requires Step(stage, e).Some? && Step(stage, e).value.Known?
    ensures (e.Stopped? && e.t.Some?) || e.Noticed?
    ensures var end := Step(stage, e).value.end;
            && (e.Stopped? ==> StatusOf(end) == StoppedStatus(e.t.value) && Announced(end.info) == e.t.value.info)
            && (e.Noticed? ==>
                  && StatusOf(end) == NoticedStatus(e.exit)
                  && Announced(end.info) == if e.exit.Some? then e.exit.value else ExitInfo(None, true))
  {
  }

  // ---------------------------------------------------------------- the kill request

  /** What becomes of the answer: it arrives, the worker drops it, or it takes too long. */
  datatype Arrival = Answered(reply: Reply) | Dropped | TimedOut

  datatype KillResponse = Success(reply: Reply) | RefusedByWorker | FinishedBefore(state: State) | NoStatus | Unfinished

  /** The requester's side: without an answer it looks for a terminal status for a while,
      but whatever it finds it does not claim the kill. */
  method AwaitKill(arrival: Arrival, looks: seq<Option<Status>>) returns (r: KillResponse)
    ensures r.Success? <==> arrival.Answered? && arrival.reply.Confirmed?
    ensures r.Success? ==> r.reply == arrival.reply
    ensures r.RefusedByWorker? <==> arrival == Answered(Refused)
    ensures r.NoStatus? ==> !arrival.Answered? && None in looks
    ensures r.FinishedBefore? ==> IsTerminal(r.state) && exists s | s in looks :: s.Some? && s.value.state == r.state
    ensures r.Unfinished? ==> forall s | s in looks :: s.Some? && !IsTerminal(s.value.state)
  {
    if arrival.Answered? {
      return if arrival.reply.Confirmed? then Success(arrival.reply) else RefusedByWorker;
    }
    var k := 0;
    while k < |looks|
      invariant 0 <= k <= |looks|
      invariant forall s | s in looks[..k] :: s.Some? && !IsTerminal(s.value.state)
    {
      var look := looks[k];
      if look.None? {
        return NoStatus;
      }
      if IsTerminal(look.value.state) {
        return FinishedBefore(look.value.state);
      }
      assert looks[..k + 1] == looks[..k] + [look];
      k := k + 1;
    }
    assert looks[..k] == looks;
    return Unfinished;
  }
}
