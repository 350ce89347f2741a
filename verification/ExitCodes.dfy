/**
 Exit codes: how a finished command's exit information reaches a live client (the payload
 of the EXIT frame), the status file, a client served from disk, and `wait`.
 */
module ExitCodes {
  import opened Bytes

  type i32 = x: int | -0x8000_0000 <= x < 0x8000_0000

  type u32 = x: int | 0 <= x < U32_MODULUS

  datatype ExitInfo = ExitInfo(code: Option<i32>, signaled: bool)

  datatype State = Starting | Running | Exited | Killed

  datatype Status = Status(state: State, exitCode: Option<i32>)

  predicate IsTerminal(state: State) { state.Exited? || state.Killed? }

  function CodeOr(code: Option<i32>, default: i32): i32 { if code.Some? then code.value else default }

  /** Two's complement. */
  function ToWord(x: i32): nat { if x >= 0 then x else x + U32_MODULUS }

  function FromWord(w: nat): i32
    requires w < U32_MODULUS
  {
    if w < 0x8000_0000 then w else w - U32_MODULUS
  }

  function ExitPayload(info: Option<ExitInfo>): seq<byte> {
    var signaled := info.None? || info.value.signaled;
    var code := if info.None? then 130 else CodeOr(info.value.code, if signaled then 130 else 0);
    [if signaled then 1 else 0] + BigEndian(ToWord(code), 4)
  }

  function ParseExit(payload: seq<byte>): i32 {
    if |payload| == 5 then
      Capacities(); FromBigEndianRoundTrip(payload[1..5]);
      FromWord(FromBigEndian(payload[1..5]))
    else 0
  }

  /** The code a client reads from the EXIT frame is the one the server had, for every
      signed 32-bit code; missing codes read as 130 after a signal and 0 otherwise. */
  lemma LiveCode(info: Option<ExitInfo>)
    ensures ParseExit(ExitPayload(info))
         == if info.None? then 130 else CodeOr(info.value.code, if info.value.signaled then 130 else 0)
  {
    Capacities();
    var signaled := info.None? || info.value.signaled;
    var code := if info.None? then 130 else CodeOr(info.value.code, if signaled then 130 else 0);
    BigEndianRoundTrip(ToWord(code), 4);
    assert ExitPayload(info)[1..5] == BigEndian(ToWord(code), 4);
  }

  /** The payload also says whether a signal ended the command, or nothing is known of how it
      ended. A reader needs only the code: whatever the first byte says, it reads the code;
      a payload of another length reads as 0, and so does a status that is missing. */
  lemma ExitPayloads(info: Option<ExitInfo>, first: byte, code: i32, payload: seq<byte>)
    ensures |ExitPayload(info)| == 5
    ensures ExitPayload(info)[0] == if info.None? || info.value.signaled then 1 else 0
    ensures ParseExit([first] + BigEndian(ToWord(code), 4)) == code
    ensures |payload| != 5 ==> ParseExit(payload) == 0
    ensures RecordedCode(None) == 0
  {
    Capacities();
    BigEndianRoundTrip(ToWord(code), 4);
    assert ([first] + BigEndian(ToWord(code), 4))[1..5] == BigEndian(ToWord(code), 4);
  }

  /** What the worker records for a command that ended with `info`, where `requested` says
      that the worker itself signalled the command. */
  function FinalStatus(info: Option<ExitInfo>, requested: bool): Status {
    var signaled := info.None? || info.value.signaled;
    Status(if requested || signaled then Killed else Exited, if info.Some? then info.value.code else None)
  }

  /** How waiting for the command ended: it failed, or gave a signal or an exit code. */
  datatype WaitStatus = WaitFailed | Reaped(signaled: bool, exitCode: u32)

  /** What the waiting thread makes of it. */
  function Observed(w: WaitStatus): ExitInfo {
    match w
    case WaitFailed => ExitInfo(None, true)
    case Reaped(true, _) => ExitInfo(None, true)
    case Reaped(false, exitCode) => ExitInfo(if exitCode < 0x8000_0000 then Some(exitCode) else None, false)
  }

  /** What the worker announces to attached clients. */
  function Announced(info: Option<ExitInfo>): ExitInfo {
    if info.Some? then info.value else ExitInfo(None, true)
  }

  /** The recorded code, as an attached client falls back to it. */
  function RecordedCode(status: Option<Status>): i32 {
    if status.None? then 0
    else CodeOr(status.value.exitCode, if status.value.state == Killed then 130 else 0)
  }

  /** The exit information that a bridge reconstructs from the status file. */
  function BridgedInfo(status: Status): ExitInfo { ExitInfo(status.exitCode, status.state == Killed) }

  /** What `wait` makes of one look at the session, if it ends the wait. */
  datatype Look = Look(status: Option<Status>, ownerAlive: Option<bool>, pastDeadline: bool)

  function WaitVerdict(look: Look): Option<i32> {
    match look.status
    case Some(Status(Exited, code)) => Some(CodeOr(code, 0))
    case Some(Status(Killed, code)) => Some(CodeOr(code, 130))
    case Some(_) =>
      if look.ownerAlive == Some(false) then Some(137) else if look.pastDeadline then Some(124) else None
    case None => if look.pastDeadline then Some(124) else None
  }

  predicate HasEnded(look: Look) { look.status.Some? && IsTerminal(look.status.value.state) }

  predicate OwnerDied(look: Look) { look.status.Some? && look.ownerAlive == Some(false) }

  predicate GoesOn(look: Look) { !HasEnded(look) && !OwnerDied(look) && !look.pastDeadline }

  /** What `wait` returns for a look, in words of its own: the recorded code of a finished
      session, or 0 or 130 if there is none; 137 if its owner died before it finished, and
      124 at the deadline. */
  predicate WaitReturns(look: Look, code: i32) {
    if HasEnded(look) then
      code == CodeOr(look.status.value.exitCode, if look.status.value.state.Killed? then 130 else 0)
    else if OwnerDied(look) then code == 137
    else look.pastDeadline && code == 124
  }

  /** The polling loop of `wait`: the verdict of the first look that has one. */
  method Wait(looks: seq<Look>) returns (code: Option<i32>)
    ensures code.None? ==> forall k | 0 <= k < |looks| :: GoesOn(looks[k])
    ensures code.Some? ==>
              exists k | 0 <= k < |looks| :: WaitReturns(looks[k], code.value)
                && forall j | 0 <= j < k :: GoesOn(looks[j])
    ensures code.None? ==> forall k | 0 <= k < |looks| :: WaitVerdict(looks[k]).None?
    ensures code.Some? ==>
              exists k | 0 <= k < |looks| :: WaitVerdict(looks[k]) == code
                && forall j | 0 <= j < k :: WaitVerdict(looks[j]).None?
  {
    var i := 0;
    while i < |looks|
      invariant 0 <= i <= |looks|
      invariant forall j | 0 <= j < i :: WaitVerdict(looks[j]).None?
    {
      var look := looks[i];
      if look.status.Some? {
        var status := look.status.value;
        if status.state == Exited {
          return Some(CodeOr(status.exitCode, 0));
        } else if status.state == Killed {
          return Some(CodeOr(status.exitCode, 130));
        } else if look.ownerAlive == Some(false) {
          return Some(137);
        }
      }
      if look.pastDeadline {
        return Some(124);
      }
      i := i + 1;
    }
    return None;
  }

  /** The live payload, the recorded status, the bridge and `wait` give the same code. */
  predicate AllCodesAgree(info: Option<ExitInfo>, requested: bool) {
    var status := FinalStatus(info, requested);
    var live := ParseExit(ExitPayload(Some(Announced(info))));
    && live == RecordedCode(Some(status))
    && live == ParseExit(ExitPayload(Some(BridgedInfo(status))))
    && Some(live) == WaitVerdict(Look(Some(status), None, false))
  }

  /** The four ways of learning an exit code agree exactly when the command reported a code,
      or died from a signal, or was not signalled by the worker. */
  lemma CodesAgreeIff(info: Option<ExitInfo>, requested: bool)
    ensures AllCodesAgree(info, requested)
       <==> Announced(info).code.Some? || Announced(info).signaled || !requested
  {
    LiveCode(Some(Announced(info)));
    LiveCode(Some(BridgedInfo(FinalStatus(info, requested))));
  }

  /** So they agree for every way a command can end, stopped by the worker or not, with one
      exception: an exit code that does not fit 31 bits, after the worker stopped it. */
  lemma ObservedCodesAgreeIff(w: WaitStatus, requested: bool)
    ensures AllCodesAgree(Some(Observed(w)), requested)
       <==> !(w.Reaped? && !w.signaled && w.exitCode >= 0x8000_0000 && requested)
  {
    CodesAgreeIff(Some(Observed(w)), requested);
  }

  /** In particular for the exit codes of Unix, which are below 256: everybody is told that
      code, or 130 after a signal. */
  lemma UnixCodesAgree(w: WaitStatus, requested: bool)
    requires w.Reaped? ==> w.exitCode < 256
    ensures AllCodesAgree(Some(Observed(w)), requested)
    ensures ParseExit(ExitPayload(Some(Observed(w)))) == if w.Reaped? && !w.signaled then w.exitCode else 130
  {
    ObservedCodesAgreeIff(w, requested);
    LiveCode(Some(Observed(w)));
  }

  /** The exception, which takes a system with wider exit codes: attached clients are told 0,
      everybody else 130. */
  lemma UnrepresentableCodeDisagrees()
    ensures var info := Some(Observed(Reaped(false, 0x8000_0000)));
            && ParseExit(ExitPayload(Some(Announced(info)))) == 0
            && RecordedCode(Some(FinalStatus(info, true))) == 130
  {
    LiveCode(Some(ExitInfo(None, false)));
  }
}
