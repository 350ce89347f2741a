/**
 The Ctrl-\ Ctrl-\ detach hotkey: a streaming filter over terminal input. The class
 `DetachFilter` works byte by byte across reads; `Pushed` is its specification, and the
 module's main lemmas relate it to a reference that first splits the whole input into
 tokens and then looks for the hotkey among them.
 */
module DetachFilters {
  import opened Bytes

  const BRACKET: byte := 0x5b
  const DETACH_KEY: byte := 0x1c
  const BACKSLASH: nat := 92
  const MAX_WITHHELD_INPUT: nat := 1024
  const MAX_ESCAPE: nat := 128

  // ---------------------------------------------------------------- events

  datatype DetachEvent = Press | RepeatOrRelease

  function AppendDigit(value: Option<nat>, b: byte): Option<nat> {
    if value.None? || !(0x30 <= b <= 0x39) || value.value * 10 + (b - 0x30) >= U16_MODULUS
    then None
    else Some(value.value * 10 + (b - 0x30))
  }

  function DigitsValue(bytes: seq<byte>): Option<nat> {
    if bytes == [] then Some(0) else AppendDigit(DigitsValue(bytes[..|bytes| - 1]), bytes[|bytes| - 1])
  }

  /** A decimal number below 2^16, or nothing. */
  function DecimalValue(bytes: seq<byte>): Option<nat> {
    if bytes == [] then None else DigitsValue(bytes)
  }

  /** The fields of `bytes` between separators: always at least one. */
  function Split(bytes: seq<byte>, separator: byte): (fields: seq<seq<byte>>)
    ensures |fields| > 0
  {
    if bytes == [] then [[]]
    else
      var rest := Split(bytes[1..], separator);
      if bytes[0] == separator then [[]] + rest else [[bytes[0]] + rest[0]] + rest[1..]
  }

  /** Bits 6 and 7 are the caps-lock and num-lock flags; control alone is bit 2. */
  predicate ControlOnly(modifier: nat) {
    modifier - (modifier / 64 % 4) * 64 == 4
  }

  function Modifier(field: seq<byte>): Option<nat> {
    var v := DecimalValue(field);
    if v.None? || v.value == 0 then None else Some(v.value - 1)
  }

  /** Kitty CSI-u: `ESC [ code(:alternates) ; modifier(:event) u`. */
  function CsiUEvent(body: seq<byte>): Option<DetachEvent> {
    var params := Split(body, 0x3b);
    var codepoint := DecimalValue(Split(params[0], 0x3a)[0]);
    if codepoint.None? || |params| < 2 then None
    else
      var parts := Split(params[1], 0x3a);
      var modifier := Modifier(parts[0]);
      var event := if |parts| > 1 then DecimalValue(parts[1]) else Some(1);
      if modifier.None? || event.None? then None
      else if codepoint.value != BACKSLASH || !ControlOnly(modifier.value) then None
      else if event.value == 1 then Some(Press)
      else if event.value == 2 || event.value == 3 then Some(RepeatOrRelease)
      else None
  }

  /** xterm modifyOtherKeys: `ESC [ 27 ; modifier ; code ~`. */
  function TildeEvent(body: seq<byte>): Option<DetachEvent> {
    var params := Split(body, 0x3b);
    if |params| < 3 then None
    else
      var modifier := Modifier(params[1]);
      if DecimalValue(params[0]) == Some(27) && modifier.Some? && ControlOnly(modifier.value)
         && DecimalValue(params[2]) == Some(BACKSLASH)
      then Some(Press)
      else None
  }

  function EnhancedDetachEvent(token: seq<byte>): Option<DetachEvent> {
    if |token| < 3 || token[0] != ESC || token[1] != BRACKET then None
    else
      var body := token[2..|token| - 1];
      if token[|token| - 1] == 0x75 then CsiUEvent(body)
      else if token[|token| - 1] == 0x7e then TildeEvent(body)
      else None
  }

  function EventOf(token: seq<byte>): Option<DetachEvent> {
    if token == [DETACH_KEY] then Some(Press) else EnhancedDetachEvent(token)
  }

  predicate IsPress(token: seq<byte>) { EventOf(token) == Some(Press) }

  predicate IsRepeat(token: seq<byte>) { EventOf(token) == Some(RepeatOrRelease) }

  /** The loop of the source's decimal parser, proved against `DecimalValue`. */
  method ParseDecimal(bytes: seq<byte>) returns (r: Option<nat>)
    ensures r == DecimalValue(bytes)
    ensures r.Some? ==> r.value < U16_MODULUS && forall b | b in bytes :: 0x30 <= b <= 0x39
  {
    if bytes == [] {
      return None;
    }
    var value := 0;
    var i := 0;
    while i < |bytes|
      invariant 0 <= i <= |bytes|
      invariant 0 <= value < U16_MODULUS
      invariant DigitsValue(bytes[..i]) == Some(value)
      invariant forall k | 0 <= k < i :: 0x30 <= bytes[k] <= 0x39
    {
      assert bytes[..i + 1][..i] == bytes[..i];
      if !(0x30 <= bytes[i] <= 0x39) || value * 10 + (bytes[i] - 0x30) >= U16_MODULUS {
        assert DigitsValue(bytes[..i + 1]) == None;
        NoDigitsBeyond(bytes, i + 1);
        return None;
      }
      value := value * 10 + (bytes[i] - 0x30);
      i := i + 1;
    }
    assert bytes[..|bytes|] == bytes;
    return Some(value);
  }

  lemma {:induction false} NoDigitsBeyond(bytes: seq<byte>, n: nat)
    requires n <= |bytes| && DigitsValue(bytes[..n]) == None
    ensures DigitsValue(bytes) == None
  {
    if n == |bytes| {
      assert bytes[..n] == bytes;
    } else {
      assert bytes[..|bytes| - 1][..n] == bytes[..n];
      NoDigitsBeyond(bytes[..|bytes| - 1], n);
    }
  }

  function Joined(fields: seq<seq<byte>>, separator: byte): seq<byte>
    requires fields != []
  {
    if |fields| == 1 then fields[0] else fields[0] + [separator] + Joined(fields[1..], separator)
  }

  predicate NoneHas(fields: seq<seq<byte>>, separator: byte) {
    forall k | 0 <= k < |fields| :: separator !in fields[k]
  }

  lemma JoinedLonger(x: byte, fields: seq<seq<byte>>, separator: byte)
    requires fields != []
    ensures Joined([[x] + fields[0]] + fields[1..], separator) == [x] + Joined(fields, separator)
  {
    var longer := [[x] + fields[0]] + fields[1..];
    assert longer[1..] == fields[1..];
    if |fields| > 1 {
      var rest := [separator] + Joined(fields[1..], separator);
      assert ([x] + fields[0]) + rest == [x] + (fields[0] + rest);
    }
  }

  /** Splitting loses nothing and splits everywhere. */
  lemma {:induction false} SplitJoins(bytes: seq<byte>, separator: byte)
    ensures NoneHas(Split(bytes, separator), separator)
    ensures Joined(Split(bytes, separator), separator) == bytes
  {
    if bytes != [] {
      SplitJoins(bytes[1..], separator);
      var rest := Split(bytes[1..], separator);
      assert bytes == [bytes[0]] + bytes[1..];
      if bytes[0] == separator {
        assert ([[]] + rest)[1..] == rest;
        assert Joined([[]] + rest, separator) == [] + [separator] + Joined(rest, separator);
      } else {
        JoinedLonger(bytes[0], rest, separator);
      }
    }
  }

  /** Fields without separators are found again. */
  lemma {:induction false} SplitOfJoined(fields: seq<seq<byte>>, separator: byte)
    requires fields != [] && NoneHas(fields, separator)
    ensures Split(Joined(fields, separator), separator) == fields
    decreases |fields|
  {
    if |fields| == 1 {
      SplitOfField(fields[0], [], separator);
      assert fields[0] + [] == fields[0];
    } else {
      SplitOfJoined(fields[1..], separator);
      var tail := [separator] + Joined(fields[1..], separator);
      assert tail[1..] == Joined(fields[1..], separator);
      assert Split(tail, separator) == [[]] + fields[1..];
      SplitOfField(fields[0], tail, separator);
      assert fields[0] + tail == fields[0] + [separator] + Joined(fields[1..], separator);
    }
  }

  lemma {:induction false} SplitOfField(field: seq<byte>, tail: seq<byte>, separator: byte)
    requires separator !in field && Split(tail, separator)[0] == []
    ensures Split(field + tail, separator) == [field] + Split(tail, separator)[1..]
  {
    if field == [] {
      assert field + tail == tail;
    } else {
      assert field[0] in field && forall b | b in field[1..] :: b in field;
      SplitOfField(field[1..], tail, separator);
      assert (field + tail)[0] == field[0] && (field + tail)[1..] == field[1..] + tail;
      assert [field[0]] + field[1..] == field;
    }
  }

  lemma ControlOnlyValues(modifier: nat)
    ensures ControlOnly(modifier) <==> modifier in {4, 68, 132, 196}
  {
    if ControlOnly(modifier) {
      assert modifier == 4 + (modifier / 64 % 4) * 64;
    }
  }

  /** The CSI-u forms of the key: `\` with control, for any locks; without an event type
      and with event 1 it is pressed, with 2 or 3 it repeats or is released. Alternate
      codes, text and further parameters are ignored. */
  lemma CsiUForms(code: seq<seq<byte>>, modifiers: seq<seq<byte>>, more: seq<seq<byte>>)
    requires code != [] && modifiers != []
    requires NoneHas(code, 0x3a) && NoneHas(modifiers, 0x3a)
    requires NoneHas([Joined(code, 0x3a), Joined(modifiers, 0x3a)] + more, 0x3b)
    ensures var token := [ESC, BRACKET] + Joined([Joined(code, 0x3a), Joined(modifiers, 0x3a)] + more, 0x3b) + [0x75];
            var key := DecimalValue(code[0]) == Some(92)
                       && DecimalValue(modifiers[0]) in {Some(5), Some(69), Some(133), Some(197)};
            var event := if |modifiers| > 1 then DecimalValue(modifiers[1]) else Some(1);
            && (EventOf(token) == Some(Press) <==> key && event == Some(1))
            && (EventOf(token) == Some(RepeatOrRelease) <==> key && event in {Some(2), Some(3)})
  {
    var params := [Joined(code, 0x3a), Joined(modifiers, 0x3a)] + more;
    var token := [ESC, BRACKET] + Joined(params, 0x3b) + [0x75];
    assert token[2..|token| - 1] == Joined(params, 0x3b);
    assert token != [DETACH_KEY] && EventOf(token) == CsiUEvent(token[2..|token| - 1]);
    SplitOfJoined(params, 0x3b);
    SplitOfJoined(code, 0x3a);
    SplitOfJoined(modifiers, 0x3a);
    hide Split, Joined, ControlOnly, NoneHas, DecimalValue, EventOf;
    KeyModifier(modifiers[0]);
  }

  lemma KeyModifier(field: seq<byte>)
    ensures var m := Modifier(field);
            m.Some? && ControlOnly(m.value)
            <==> DecimalValue(field) in {Some(5), Some(69), Some(133), Some(197)}
  {
    hide DecimalValue, ControlOnly;
    var m := Modifier(field);
    if m.Some? {
      ControlOnlyValues(m.value);
    }
  }

  /** A CSI-u event without a modifier field is none of them. */
  lemma CsiUNeedsModifier(code: seq<byte>)
    requires 0x3b !in code
    ensures EventOf([ESC, BRACKET] + code + [0x75]) == None
  {
    var token := [ESC, BRACKET] + code + [0x75];
    assert token[2..|token| - 1] == code == Joined([code], 0x3b);
    SplitOfJoined([code], 0x3b);
    hide Split, Joined, DecimalValue;
  }

  /** The form of xterm's modifyOtherKeys: it is a press of the key, for any list of fields,
      if and only if there are at least three, namely 27, control with any locks, and 92. */
  lemma TildeForms(fields: seq<seq<byte>>)
    requires fields != [] && NoneHas(fields, 0x3b)
    ensures var token := [ESC, BRACKET] + Joined(fields, 0x3b) + [0x7e];
            var key := |fields| >= 3 && DecimalValue(fields[0]) == Some(27)
                       && DecimalValue(fields[1]) in {Some(5), Some(69), Some(133), Some(197)}
                       && DecimalValue(fields[2]) == Some(92);
            EventOf(token) == if key then Some(Press) else None
  {
    var token := [ESC, BRACKET] + Joined(fields, 0x3b) + [0x7e];
    assert token[2..|token| - 1] == Joined(fields, 0x3b);
    assert token != [DETACH_KEY] && EventOf(token) == TildeEvent(token[2..|token| - 1]);
    hide *;
    SplitOfJoined(fields, 0x3b);
    TildeOfFields(Joined(fields, 0x3b), fields);
  }

  lemma TildeOfFields(body: seq<byte>, fields: seq<seq<byte>>)
    requires Split(body, 0x3b) == fields
    ensures var key := |fields| >= 3 && DecimalValue(fields[0]) == Some(27)
                       && DecimalValue(fields[1]) in {Some(5), Some(69), Some(133), Some(197)}
                       && DecimalValue(fields[2]) == Some(92);
            TildeEvent(body) == if key then Some(Press) else None
  {
    hide Split, ControlOnly, DecimalValue, Modifier;
    if |fields| >= 3 {
      KeyModifier(fields[1]);
    }
  }

  /** The control character is a press, and nothing else than it and the two forms is any
      event. */
  lemma OtherTokens(token: seq<byte>)
    ensures EventOf([0x1c]) == Some(Press)
    ensures token != [0x1c] && !([0x1b, 0x5b] < token && token[|token| - 1] in {0x75, 0x7e}) ==> EventOf(token) == None
  {
    assert |token| >= 3 && token[0] == 0x1b && token[1] == 0x5b ==> [0x1b, 0x5b] < token;
    hide CsiUEvent, TildeEvent;
  }

  function Power10(n: nat): nat { if n == 0 then 1 else 10 * Power10(n - 1) }

  /** What digits mean, by their places. */
  function Positional(digits: seq<byte>): nat
    requires forall k | 0 <= k < |digits| :: 0x30 <= digits[k] <= 0x39
  {
    if digits == [] then 0 else (digits[0] - 0x30) * Power10(|digits| - 1) + Positional(digits[1..])
  }

  lemma {:induction false} PositionalSnoc(digits: seq<byte>, d: byte)
    requires forall k | 0 <= k < |digits| :: 0x30 <= digits[k] <= 0x39
    requires 0x30 <= d <= 0x39
    ensures Positional(digits + [d]) == Positional(digits) * 10 + (d - 0x30)
  {
    var longer := digits + [d];
    if digits == [] {
      assert longer[1..] == [] && Power10(0) == 1;
    } else {
      assert longer[0] == digits[0] && longer[1..] == digits[1..] + [d];
      PositionalSnoc(digits[1..], d);
      assert Power10(|digits|) == 10 * Power10(|digits| - 1);
      TenTimes(digits[0] - 0x30, Power10(|digits| - 1));
    }
  }

  lemma TenTimes(a: int, b: int)
    ensures a * (10 * b) == a * b * 10
  {
  }

  /** A field is a number if and only if it is a decimal below 2^16, leading zeros allowed. */
  lemma {:induction false} DecimalIsPositional(bytes: seq<byte>)
    ensures var digits := forall k | 0 <= k < |bytes| :: 0x30 <= bytes[k] <= 0x39;
            && (DecimalValue(bytes).Some? <==> bytes != [] && digits && Positional(bytes) < 0x1_0000)
            && (DecimalValue(bytes).Some? ==> DecimalValue(bytes).value == Positional(bytes))
  {
    DigitsArePositional(bytes);
  }

  lemma {:induction false} DigitsArePositional(bytes: seq<byte>)
    ensures var digits := forall k | 0 <= k < |bytes| :: 0x30 <= bytes[k] <= 0x39;
            && (DigitsValue(bytes).Some? <==> digits && Positional(bytes) < 0x1_0000)
            && (DigitsValue(bytes).Some? ==> DigitsValue(bytes).value == Positional(bytes))
  {
    if bytes != [] {
      var init, d := bytes[..|bytes| - 1], bytes[|bytes| - 1];
      assert bytes == init + [d];
      DigitsArePositional(init);
      if (forall k | 0 <= k < |init| :: 0x30 <= init[k] <= 0x39) && 0x30 <= d <= 0x39 {
        PositionalSnoc(init, d);
        assert forall k | 0 <= k < |bytes| :: 0x30 <= bytes[k] <= 0x39;
      } else {
        assert forall k | 0 <= k < |init| :: init[k] == bytes[k];
      }
    }
  }

  // ---------------------------------------------------------------- the streaming filter

  datatype Filter = Filter(withheld: seq<byte>, escape: seq<byte>)

  const EMPTY: Filter := Filter([], [])

  /** The filter afterwards, the bytes to forward, whether the hotkey was completed. */
  datatype Outcome = Outcome(filter: Filter, out: seq<byte>, detach: bool)

  function OtherHandled(f: Filter, token: seq<byte>): Outcome {
    Outcome(f.(withheld := []), f.withheld + token, false)
  }

  function TokenHandled(f: Filter, token: seq<byte>): Outcome {
    match EventOf(token)
    case Some(Press) =>
      if f.withheld != [] then Outcome(f, [], true) else Outcome(f.(withheld := token), [], false)
    case Some(RepeatOrRelease) =>
      if f.withheld != [] && |f.withheld| + |token| <= MAX_WITHHELD_INPUT
      then Outcome(f.(withheld := f.withheld + token), [], false)
      else OtherHandled(f, token)
    case None => OtherHandled(f, token)
  }

  /** Is this escape run, whose last byte has just arrived, a whole token? */
  predicate TokenEnds(escape: seq<byte>)
    requires escape != []
  {
    var last := escape[|escape| - 1];
    || (|escape| == 2 && last != BRACKET)
    || (|escape| >= 3 && IsFinal(last))
    || |escape| > MAX_ESCAPE
  }

  function BytePushed(f: Filter, b: byte): Outcome {
    if f.escape != [] then
      var escape := f.escape + [b];
      if TokenEnds(escape) then TokenHandled(f.(escape := []), escape)
      else Outcome(f.(escape := escape), [], false)
    else if b == ESC then Outcome(f.(escape := [b]), [], false)
    else TokenHandled(f, [b])
  }

  function Prepend(out: seq<byte>, r: Outcome): Outcome { r.(out := out + r.out) }

  lemma PrependTwice(a: seq<byte>, b: seq<byte>, r: Outcome)
    ensures Prepend(a, Prepend(b, r)) == Prepend(a + b, r)
  {
    Regroup(a, b, r.out);
  }

  /** Bytes are taken one by one until the hotkey is completed; the rest is ignored. */
  function Pushed(f: Filter, chunk: seq<byte>): Outcome
    decreases |chunk|
  {
    if chunk == [] then Outcome(f, [], false)
    else
      var r := BytePushed(f, chunk[0]);
      if r.detach then r else Prepend(r.out, Pushed(r.filter, chunk[1..]))
  }

  function EscapeFlushed(f: Filter): Outcome {
    OtherHandled(f.(escape := []), f.escape)
  }

  /** What `escape` can be between reads: nothing, a lone ESC, or an open CSI. */
  predicate OpenEscape(escape: seq<byte>) {
    || escape == []
    || escape == [ESC]
    || (&& 2 <= |escape| <= MAX_ESCAPE && escape[0] == ESC && escape[1] == BRACKET
        && forall k | 2 <= k < |escape| :: !IsFinal(escape[k]))
  }

  predicate Bounded(f: Filter) {
    |f.withheld| <= MAX_WITHHELD_INPUT && OpenEscape(f.escape)
  }

  class DetachFilter {
    var withheld: seq<byte>
    var escape: seq<byte>

    function Abs(): Filter
      reads this
    {
      Filter(withheld, escape)
    }

    constructor ()
      ensures Abs() == EMPTY
    {
      withheld, escape := [], [];
    }

    method Push(chunk: seq<byte>) returns (out: seq<byte>, detach: bool)
      modifies this
      ensures Outcome(Abs(), out, detach) == Pushed(old(Abs()), chunk)
    {
      hide TokenHandled, EventOf, EnhancedDetachEvent;
      out, detach := [], false;
      ghost var before := Abs();
      var i := 0;
      while i < |chunk|
        invariant 0 <= i <= |chunk|
        invariant Pushed(before, chunk)
               == Prepend(out, Pushed(Abs(), chunk[i..]))
      {
        var byte := chunk[i];
        ghost var f := Abs();
        var more := [];
        if escape != [] {
          escape := escape + [byte];
          if TokenEnds(escape) {
            var sequence := escape;
            escape := [];
            more, detach := HandleToken(sequence);
          }
        } else if byte == ESC {
          escape := [byte];
        } else {
          more, detach := HandleToken([byte]);
        }
        assert BytePushed(f, byte) == Outcome(Abs(), more, detach);
        hide BytePushed;
        assert chunk[i..][0] == byte && chunk[i..][1..] == chunk[i + 1..];
        PrependTwice(out, more, Pushed(Abs(), chunk[i + 1..]));
        out := out + more;
        if detach {
          return;
        }
        i := i + 1;
      }
    }

    method HandleToken(token: seq<byte>) returns (out: seq<byte>, detach: bool)
      modifies this
      ensures Outcome(Abs(), out, detach) == TokenHandled(old(Abs()), token)
    {
      out, detach := [], false;
      var event := EventOf(token);
      if event == Some(Press) && withheld != [] {
        detach := true;
      } else if event == Some(Press) {
        withheld := token;
      } else if event == Some(RepeatOrRelease) && withheld != []
                && |withheld| + |token| <= MAX_WITHHELD_INPUT {
        withheld := withheld + token;
      } else {
        out := HandleOther(token);
      }
    }

    method HandleOther(token: seq<byte>) returns (out: seq<byte>)
      modifies this
      ensures Outcome(Abs(), out, false) == OtherHandled(old(Abs()), token)
    {
      out := withheld + token;
      withheld := [];
    }

    method FlushPartialEscape() returns (out: seq<byte>)
      modifies this
      ensures Outcome(Abs(), out, false) == EscapeFlushed(old(Abs()))
    {
      var sequence := escape;
      escape := [];
      out := HandleOther(sequence);
    }

    method DiscardPending()
      modifies this
      ensures Abs() == EMPTY
    {
      withheld, escape := [], [];
    }
  }

  // ---------------------------------------------------------------- conservation

  lemma TokenConserves(w: seq<byte>, token: seq<byte>)
    requires |w| <= MAX_WITHHELD_INPUT && 1 <= |token| <= MAX_ESCAPE + 1
    ensures var r := TokenHandled(Filter(w, []), token);
            && r.filter.escape == [] && |r.filter.withheld| <= MAX_WITHHELD_INPUT
            && (!r.detach ==> r.out + r.filter.withheld == w + token)
            && (r.detach ==> r == Outcome(Filter(w, []), [], true) && w != [] && IsPress(token))
  {
    hide EnhancedDetachEvent;
  }

  /** One byte in: without a detach nothing is lost, invented or reordered. */
  lemma PushByteConserves(f: Filter, b: byte)
    requires Bounded(f)
    ensures Bounded(BytePushed(f, b).filter)
    ensures !BytePushed(f, b).detach ==>
              BytePushed(f, b).out + BytePushed(f, b).filter.withheld + BytePushed(f, b).filter.escape
              == f.withheld + f.escape + [b]
    ensures BytePushed(f, b).detach ==>
              && BytePushed(f, b) == Outcome(Filter(f.withheld, []), [], true)
              && f.withheld != [] && IsPress(f.escape + [b])
  {
    hide TokenHandled, EventOf;
    var token := f.escape + [b];
    assert f.escape == [] ==> token == [b];
    TokenConserves(f.withheld, token);
    Regroup(f.withheld, f.escape, [b]);
    if BytePushed(f, b).filter.escape == [] {
      assert BytePushed(f, b) == TokenHandled(Filter(f.withheld, []), token);
    }
  }

  /** Chunk boundaries are invisible: two reads act as one read of both. */
  lemma {:induction false} PushConcat(f: Filter, a: seq<byte>, b: seq<byte>)
    ensures Pushed(f, a + b) == if Pushed(f, a).detach then Pushed(f, a)
                              else Prepend(Pushed(f, a).out, Pushed(Pushed(f, a).filter, b))
    decreases |a|
  {
    hide BytePushed;
    if a == [] {
      assert a + b == b;
    } else {
      assert (a + b)[0] == a[0] && (a + b)[1..] == a[1..] + b;
      var r := BytePushed(f, a[0]);
      if !r.detach {
        PushConcat(r.filter, a[1..], b);
      }
    }
  }

  lemma ConservedInSequence(f: Filter, input: seq<byte>, r: Outcome, rest: seq<byte>, q: Outcome)
    requires r.out + r.filter.withheld + r.filter.escape == f.withheld + f.escape + input
    requires q.out + q.filter.withheld + q.filter.escape == r.filter.withheld + r.filter.escape + rest
    ensures (r.out + q.out) + q.filter.withheld + q.filter.escape == f.withheld + f.escape + (input + rest)
  {
    var kept, left := r.filter.withheld + r.filter.escape, q.filter.withheld + q.filter.escape;
    calc {
      (r.out + q.out) + q.filter.withheld + q.filter.escape;
      { Regroup(r.out + q.out, q.filter.withheld, q.filter.escape); }
      (r.out + q.out) + left;
      { Regroup(r.out, q.out, left); }
      r.out + (q.out + left);
      { Regroup(q.out, q.filter.withheld, q.filter.escape); }
      r.out + (kept + rest);
      { Regroup(r.out, kept, rest); }
      (r.out + kept) + rest;
      { Regroup(r.out, r.filter.withheld, r.filter.escape); }
      ((f.withheld + f.escape) + input) + rest;
      { Regroup(f.withheld + f.escape, input, rest); }
      (f.withheld + f.escape) + (input + rest);
    }
  }

  lemma {:induction false} PushConserves(f: Filter, chunk: seq<byte>)
    requires Bounded(f)
    ensures Bounded(Pushed(f, chunk).filter)
    ensures !Pushed(f, chunk).detach ==>
              Pushed(f, chunk).out + Pushed(f, chunk).filter.withheld + Pushed(f, chunk).filter.escape
              == f.withheld + f.escape + chunk
    decreases |chunk|
  {
    hide BytePushed;
    if chunk != [] {
      PushByteConserves(f, chunk[0]);
      var r := BytePushed(f, chunk[0]);
      if !r.detach {
        PushConserves(r.filter, chunk[1..]);
        if !Pushed(f, chunk).detach {
          assert [chunk[0]] + chunk[1..] == chunk;
          var q := Pushed(r.filter, chunk[1..]);
          hide Pushed, Bounded;
          ConservedInSequence(f, [chunk[0]], r, chunk[1..], q);
        }
      }
    }
  }

  /** Terminal input as the client sees it: chunks, and the escape timer firing. */
  datatype Event = Chunk(bytes: seq<byte>) | EscapeTimeout

  function Apply(f: Filter, e: Event): Outcome {
    match e
    case Chunk(bytes) => Pushed(f, bytes)
    case EscapeTimeout => EscapeFlushed(f)
  }

  /** A whole session of input, stopping at the first detach. */
  function Feed(f: Filter, events: seq<Event>): Outcome
    decreases |events|
  {
    if events == [] then Outcome(f, [], false)
    else
      var r := Apply(f, events[0]);
      if r.detach then r else Prepend(r.out, Feed(r.filter, events[1..]))
  }

  function Typed(events: seq<Event>): seq<byte> {
    if events == [] then []
    else (if events[0].Chunk? then events[0].bytes else []) + Typed(events[1..])
  }

  /** Conservation over any session without a detach: what was forwarded, then what is
      withheld, then the open escape, is the whole input in order; both stay bounded. */
  lemma {:induction false} FeedConserves(f: Filter, events: seq<Event>)
    requires Bounded(f)
    ensures Bounded(Feed(f, events).filter)
    ensures !Feed(f, events).detach ==>
              Feed(f, events).out + Feed(f, events).filter.withheld + Feed(f, events).filter.escape
              == f.withheld + f.escape + Typed(events)
    decreases |events|
  {
    hide Pushed;
    if events != [] {
      var r := Apply(f, events[0]);
      if events[0].Chunk? {
        PushConserves(f, events[0].bytes);
      }
      if !r.detach {
        FeedConserves(r.filter, events[1..]);
        var q := Feed(r.filter, events[1..]);
        if !q.detach {
          var input := if events[0].Chunk? then events[0].bytes else [];
          assert r.out + r.filter.withheld + r.filter.escape == f.withheld + f.escape + input;
          hide Bounded;
          ConservedInSequence(f, input, r, Typed(events[1..]), q);
        }
      }
    }
  }

  // ---------------------------------------------------------------- the two-pass reference

  /** Pass one, by lookahead: where does the first token of `s` end? A byte that is not
      ESC is a token, ESC and a byte other than `[` is a token, and a CSI runs to its
      final byte or is given up at 129 bytes. */
  predicate EndsAt(s: seq<byte>, n: nat) {
    && 1 <= n <= |s|
    && if s[0] != ESC then n == 1
       else && n >= 2
            && if s[1] != BRACKET then n == 2
               else && 3 <= n <= MAX_ESCAPE + 1
                    && (IsFinal(s[n - 1]) || n == MAX_ESCAPE + 1)
                    && forall k | 2 <= k < n - 1 :: !IsFinal(s[k])
  }

  ghost predicate HasToken(s: seq<byte>) { exists n :: EndsAt(s, n) }

  lemma EndIsUnique(s: seq<byte>, m: nat, n: nat)
    requires EndsAt(s, m) && EndsAt(s, n)
    ensures m == n
  {
  }

  ghost function TokenLength(s: seq<byte>): (n: nat)
    requires HasToken(s)
    ensures EndsAt(s, n)
  {
    var n :| EndsAt(s, n); n
  }

  ghost function Tokens(s: seq<byte>): seq<seq<byte>>
    decreases |s|
  {
    if !HasToken(s) then [] else [s[..TokenLength(s)]] + Tokens(s[TokenLength(s)..])
  }

  /** What is left after the last whole token. */
  ghost function Remainder(s: seq<byte>): seq<byte>
    decreases |s|
  {
    if !HasToken(s) then s else Remainder(s[TokenLength(s)..])
  }

  function Concat(tokens: seq<seq<byte>>): seq<byte> {
    if tokens == [] then [] else tokens[0] + Concat(tokens[1..])
  }

  /** Pass two: tokens `i` up to `n` are a press, then repeats or releases of it only,
      within the limit. */
  predicate PressRun(tokens: seq<seq<byte>>, i: nat, n: nat) {
    && i < n <= |tokens|
    && IsPress(tokens[i])
    && (forall k | i < k < n :: IsRepeat(tokens[k]))
    && |Concat(tokens[i..n])| <= MAX_WITHHELD_INPUT
  }

  /** Token `j` completes the hotkey. */
  ghost predicate DetachAt(tokens: seq<seq<byte>>, j: nat) {
    && j < |tokens| && IsPress(tokens[j]) && exists i: nat :: PressRun(tokens, i, j)
  }

  /** The bytes among the first `n` tokens that the hotkey search still holds on to. */
  ghost function Held(tokens: seq<seq<byte>>, n: nat): seq<byte>
    requires n <= |tokens|
  {
    if exists i: nat :: PressRun(tokens, i, n) then
      var i: nat :| PressRun(tokens, i, n); Concat(tokens[i..n])
    else []
  }

  function HandleAll(f: Filter, tokens: seq<seq<byte>>): Outcome
    decreases |tokens|
  {
    if tokens == [] then Outcome(f, [], false)
    else
      var r := TokenHandled(f, tokens[0]);
      if r.detach then r else Prepend(r.out, HandleAll(r.filter, tokens[1..]))
  }

  /** Bytes that do not yet complete a token are kept in the open escape. */
  lemma {:induction false} OpenPrefix(w: seq<byte>, s: seq<byte>, k: nat)
    requires k <= |s| && forall m | 1 <= m <= k :: !EndsAt(s, m)
    ensures Pushed(Filter(w, []), s[..k]) == Outcome(Filter(w, s[..k]), [], false)
  {
    if k > 0 {
      assert !EndsAt(s, 1);
      OpenPrefix(w, s, k - 1);
      assert s[..k] == s[..k - 1] + [s[k - 1]];
      PushConcat(Filter(w, []), s[..k - 1], [s[k - 1]]);
      if k > 1 {
        assert s[..k - 1] + [s[k - 1]] != [];
        OpenMeansNotFinal(s, k);
      }
    }
  }

  lemma {:induction false} OpenMeansNotFinal(s: seq<byte>, k: nat)
    requires 2 <= k <= |s| && forall m | 1 <= m <= k :: !EndsAt(s, m)
    ensures s[0] == ESC && s[1] == BRACKET && k <= MAX_ESCAPE
    ensures forall m | 2 <= m < k :: !IsFinal(s[m])
    ensures !TokenEnds(s[..k])
  {
    assert !EndsAt(s, 1) && !EndsAt(s, 2);
    if k > 2 {
      OpenMeansNotFinal(s, k - 1);
      assert !EndsAt(s, k);
    }
  }

  /** Streaming a whole token through the filter is handling it at once. */
  lemma TokenPushed(w: seq<byte>, s: seq<byte>)
    requires HasToken(s)
    ensures var token := s[..TokenLength(s)]; Pushed(Filter(w, []), token) == TokenHandled(Filter(w, []), token)
  {
    var n := TokenLength(s);
    forall m | 1 <= m <= n - 1
      ensures !EndsAt(s, m)
    {
      if EndsAt(s, m) {
        EndIsUnique(s, m, n);
      }
    }
    OpenPrefix(w, s, n - 1);
    hide EventOf, EnhancedDetachEvent, BytePushed, TokenHandled, EndsAt;
    var f := Filter(w, []);
    assert s[..n] == s[..n - 1] + [s[n - 1]];
    PushConcat(f, s[..n - 1], [s[n - 1]]);
    LastByteEndsToken(w, s, n);
    PrependNothing(TokenHandled(f, s[..n]));
    hide Prepend, Pushed;
  }

  lemma PrependNothing(r: Outcome)
    ensures Prepend([], r) == r
  {
    assert [] + r.out == r.out;
  }

  lemma PushToken(w: seq<byte>, s: seq<byte>)
    requires HasToken(s)
    ensures var r := TokenHandled(Filter(w, []), s[..TokenLength(s)]);
            Pushed(Filter(w, []), s)
            == if r.detach then r else Prepend(r.out, Pushed(r.filter, s[TokenLength(s)..]))
  {
    var n := TokenLength(s);
    assert EndsAt(s, n);
    assert s == s[..n] + s[n..];
    hide *;
    TokenPushed(w, s);
    PushConcat(Filter(w, []), s[..n], s[n..]);
  }

  lemma LastByteEndsToken(w: seq<byte>, s: seq<byte>, n: nat)
    requires EndsAt(s, n)
    ensures Pushed(Filter(w, s[..n - 1]), [s[n - 1]]) == TokenHandled(Filter(w, []), s[..n])
  {
    assert s[..n - 1] + [s[n - 1]] == s[..n];
    var r := BytePushed(Filter(w, s[..n - 1]), s[n - 1]);
    assert r == TokenHandled(Filter(w, []), s[..n]);
    assert Prepend(r.out, Pushed(r.filter, [])) == r.(detach := false);
  }

  /** Reading byte by byte is splitting into tokens and handling each. */
  lemma {:induction false} PushIsTokenwise(w: seq<byte>, s: seq<byte>)
    ensures var r := HandleAll(Filter(w, []), Tokens(s));
            Pushed(Filter(w, []), s)
            == if r.detach then r else r.(filter := r.filter.(escape := Remainder(s)))
    decreases |s|
  {
    if HasToken(s) {
      PushToken(w, s);
      var r := TokenHandled(Filter(w, []), s[..TokenLength(s)]);
      assert Tokens(s)[1..] == Tokens(s[TokenLength(s)..]);
      if !r.detach {
        PushIsTokenwise(r.filter.withheld, s[TokenLength(s)..]);
      }
    } else {
      OpenPrefix(w, s, |s|);
      assert s[..|s|] == s;
    }
  }

  lemma ConcatCons(token: seq<byte>, tokens: seq<seq<byte>>)
    ensures Concat([token] + tokens) == token + Concat(tokens)
  {
    assert ([token] + tokens)[1..] == tokens;
  }

  lemma {:induction false} TokensPartition(s: seq<byte>)
    ensures Concat(Tokens(s)) + Remainder(s) == s
    decreases |s|
  {
    hide Concat;
    if HasToken(s) {
      var n := TokenLength(s);
      assert 1 <= n <= |s|;
      hide EndsAt;
      var rest := s[n..];
      TokensPartition(rest);
      hide HasToken;
      ConcatCons(s[..n], Tokens(rest));
      Regroup(s[..n], Concat(Tokens(rest)), Remainder(rest));
    } else {
      ConcatNothing();
      hide HasToken;
      assert [] + s == s;
    }
  }

  lemma ConcatNothing()
    ensures Concat([]) == []
  {
  }

  lemma {:induction false} TokensAreShort(s: seq<byte>)
    ensures WellSized(Tokens(s))
    decreases |s|
  {
    if HasToken(s) {
      TokensAreShort(s[TokenLength(s)..]);
    }
  }

  lemma {:induction false} HandleSnoc(f: Filter, tokens: seq<seq<byte>>, t: seq<byte>)
    ensures HandleAll(f, tokens + [t])
         == if HandleAll(f, tokens).detach then HandleAll(f, tokens)
            else Prepend(HandleAll(f, tokens).out, TokenHandled(HandleAll(f, tokens).filter, t))
    decreases |tokens|
  {
    if tokens == [] {
      var r := TokenHandled(f, t);
      assert [t][1..] == [];
      assert tokens + [t] == [t];
      assert Prepend(r.out, Outcome(r.filter, [], false)) == r.(detach := false);
    } else {
      assert (tokens + [t])[1..] == tokens[1..] + [t];
      var r := TokenHandled(f, tokens[0]);
      if !r.detach {
        HandleSnoc(r.filter, tokens[1..], t);
      }
    }
  }

  lemma {:induction false} ConcatSplit(tokens: seq<seq<byte>>, i: nat)
    requires i <= |tokens|
    ensures Concat(tokens) == Concat(tokens[..i]) + Concat(tokens[i..])
  {
    if i > 0 {
      ConcatSplit(tokens[1..], i - 1);
      assert tokens[..i][1..] == tokens[1..][..i - 1] && tokens[i..] == tokens[1..][i - 1..];
    } else {
      assert tokens[0..] == tokens;
    }
  }

  lemma ConcatSnoc(tokens: seq<seq<byte>>, i: nat, n: nat)
    requires i <= n < |tokens|
    ensures Concat(tokens[i..n + 1]) == Concat(tokens[i..n]) + tokens[n]
  {
    var s := tokens[i..n + 1];
    ConcatSplit(s, n - i);
    assert s[..n - i] == tokens[i..n] && s[n - i..] == [tokens[n]];
    assert Concat([tokens[n]]) == tokens[n] + Concat([]);
  }

  /** At most one press can be under way. */
  lemma PressRunIsUnique(tokens: seq<seq<byte>>, i: nat, j: nat, n: nat)
    requires PressRun(tokens, i, n) && PressRun(tokens, j, n)
    ensures i == j
  {
  }

  lemma HeldIs(tokens: seq<seq<byte>>, i: nat, n: nat)
    requires PressRun(tokens, i, n)
    ensures Held(tokens, n) == Concat(tokens[i..n])
  {
    var j: nat :| PressRun(tokens, j, n) && Held(tokens, n) == Concat(tokens[j..n]);
    PressRunIsUnique(tokens, i, j, n);
  }

  ghost predicate WellSized(tokens: seq<seq<byte>>) {
    forall t | t in tokens :: 1 <= |t| <= MAX_ESCAPE + 1
  }

  lemma RunExtends(tokens: seq<seq<byte>>, i: nat, n: nat)
    requires i < n < |tokens|
    ensures PressRun(tokens, i, n + 1)
       <==> && PressRun(tokens, i, n) && IsRepeat(tokens[n])
            && |Concat(tokens[i..n])| + |tokens[n]| <= MAX_WITHHELD_INPUT
  {
    hide EventOf, Concat;
    ConcatSnoc(tokens, i, n);
  }

  lemma RunStarts(tokens: seq<seq<byte>>, n: nat)
    requires n < |tokens| && WellSized(tokens)
    ensures Concat(tokens[n..n + 1]) == tokens[n]
    ensures PressRun(tokens, n, n + 1) <==> IsPress(tokens[n])
  {
    hide EventOf;
    assert tokens[n] in tokens && tokens[n..n + 1] == [tokens[n]];
    assert Concat([tokens[n]]) == tokens[n] + Concat([]);
  }

  lemma HeldNonempty(tokens: seq<seq<byte>>, n: nat)
    requires n <= |tokens| && WellSized(tokens)
    ensures Held(tokens, n) != [] <==> exists i: nat :: PressRun(tokens, i, n)
  {
    hide EventOf;
    if i: nat :| PressRun(tokens, i, n) {
      HeldIs(tokens, i, n);
      assert tokens[i] in tokens && tokens[i..n][0] == tokens[i];
    }
  }

  /** How one more token changes what is held. */
  lemma HeldStep(tokens: seq<seq<byte>>, n: nat)
    requires n < |tokens| && WellSized(tokens)
    ensures !DetachAt(tokens, n) ==>
              Held(tokens, n + 1)
              == if IsPress(tokens[n]) then tokens[n]
                 else if && IsRepeat(tokens[n]) && Held(tokens, n) != []
                         && |Held(tokens, n)| + |tokens[n]| <= MAX_WITHHELD_INPUT
                 then Held(tokens, n) + tokens[n]
                 else []
  {
    hide EventOf, Concat;
    RunStarts(tokens, n);
    HeldNonempty(tokens, n);
    var next := n + 1;
    if IsPress(tokens[n]) {
      hide PressRun, Held;
      HeldIs(tokens, n, next);
    } else {
      if i: nat :| PressRun(tokens, i, n) {
        hide PressRun, Held;
        HeldIs(tokens, i, n);
        RunExtends(tokens, i, n);
        ConcatSnoc(tokens, i, n);
        if PressRun(tokens, i, next) {
          HeldIs(tokens, i, next);
        }
      }
      if i: nat :| PressRun(tokens, i, next) {
        hide Held;
        RunExtends(tokens, i, n);
        HeldIs(tokens, i, n);
        HeldIs(tokens, i, next);
        ConcatSnoc(tokens, i, n);
      }
    }
  }

  /** One token that does not complete the hotkey: what leaves and what is held. */
  lemma ReferenceStep(tokens: seq<seq<byte>>, n: nat)
    requires n < |tokens| && WellSized(tokens) && !DetachAt(tokens, n)
    ensures var r := TokenHandled(Filter(Held(tokens, n), []), tokens[n]);
            && r.filter == Filter(Held(tokens, n + 1), []) && !r.detach
            && r.out + Held(tokens, n + 1) == Held(tokens, n) + tokens[n]
  {
    HeldStep(tokens, n);
    HeldNonempty(tokens, n);
    assert IsPress(tokens[n]) ==> Held(tokens, n) == [];
    hide *;
    HandledStep(Held(tokens, n), tokens[n]);
  }

  lemma HandledStep(w: seq<byte>, token: seq<byte>)
    requires IsPress(token) ==> w == []
    ensures var r := TokenHandled(Filter(w, []), token);
            var next := if IsPress(token) then token
                        else if IsRepeat(token) && w != [] && |w| + |token| <= MAX_WITHHELD_INPUT then w + token
                        else [];
            r.filter == Filter(next, []) && !r.detach && r.out + next == w + token
  {
    hide EnhancedDetachEvent;
  }

  /** After `n` tokens the held bytes are withheld and all others have been forwarded. */
  ghost predicate Agrees(tokens: seq<seq<byte>>, n: nat)
    requires n <= |tokens|
  {
    var r := HandleAll(EMPTY, tokens[..n]);
    && r.filter == Filter(Held(tokens, n), []) && !r.detach
    && r.out + Held(tokens, n) == Concat(tokens[..n])
  }

  lemma AgreesStep(tokens: seq<seq<byte>>, n: nat)
    requires n < |tokens| && WellSized(tokens) && !DetachAt(tokens, n) && Agrees(tokens, n)
    ensures Agrees(tokens, n + 1)
  {
    hide TokenHandled, PressRun, Held, DetachAt, HandleAll, Concat;
    ReferenceStep(tokens, n);
    assert tokens[..n + 1] == tokens[..n] + [tokens[n]];
    HandleSnoc(EMPTY, tokens[..n], tokens[n]);
    ConcatSnoc(tokens, 0, n);
    assert tokens[0..n + 1] == tokens[..n + 1] && tokens[0..n] == tokens[..n];
    var before := HandleAll(EMPTY, tokens[..n]);
    var r := TokenHandled(before.filter, tokens[n]);
    calc {
      (before.out + r.out) + Held(tokens, n + 1);
      before.out + (r.out + Held(tokens, n + 1));
      before.out + (Held(tokens, n) + tokens[n]);
      (before.out + Held(tokens, n)) + tokens[n];
      Concat(tokens[..n + 1]);
    }
  }

  /** Until some token completes the hotkey, exactly the held bytes are withheld and all
      the others have been forwarded in order. */
  lemma {:induction false} ReferenceBeforeDetach(tokens: seq<seq<byte>>, n: nat)
    requires n <= |tokens| && WellSized(tokens)
    requires forall j | 0 <= j < n :: !DetachAt(tokens, j)
    ensures Agrees(tokens, n)
  {
    if n == 0 {
      assert !exists i: nat :: PressRun(tokens, i, 0);
    } else {
      hide Agrees, DetachAt;
      ReferenceBeforeDetach(tokens, n - 1);
      AgreesStep(tokens, n - 1);
    }
  }

  /** At the first token that completes the hotkey the filter reports it, having forwarded
      exactly what came before the press that started it. */
  lemma ReferenceAtDetach(tokens: seq<seq<byte>>, i: nat, j: nat)
    requires WellSized(tokens) && DetachAt(tokens, j) && PressRun(tokens, i, j)
    requires forall k | 0 <= k < j :: !DetachAt(tokens, k)
    ensures HandleAll(EMPTY, tokens) == Outcome(Filter(Concat(tokens[i..j]), []), Concat(tokens[..i]), true)
  {
    hide TokenHandled, EventOf, Held, Concat, HandleAll;
    ReferenceBeforeDetach(tokens, j);
    HeldIs(tokens, i, j);
    var before := HandleAll(EMPTY, tokens[..j]);
    ConcatSplit(tokens[..j], i);
    assert tokens[..j][..i] == tokens[..i] && tokens[..j][i..] == tokens[i..j];
    SuffixCancels(before.out, Concat(tokens[..i]), Concat(tokens[i..j]));
    PressCompletes(tokens, i, j);
    HandleSnoc(EMPTY, tokens[..j], tokens[j]);
    assert tokens[..j + 1] == tokens[..j] + [tokens[j]];
    DetachIsFinal(EMPTY, tokens, j + 1);
  }

  lemma SuffixCancels(a: seq<byte>, b: seq<byte>, c: seq<byte>)
    requires a + c == b + c
    ensures a == b
  {
    assert |a| == |b|;
    assert a == (a + c)[..|a|] && b == (b + c)[..|b|];
  }

  lemma PressCompletes(tokens: seq<seq<byte>>, i: nat, j: nat)
    requires DetachAt(tokens, j) && PressRun(tokens, i, j)
    ensures Concat(tokens[i..j]) != []
    ensures var f := Filter(Concat(tokens[i..j]), []);
            TokenHandled(f, tokens[j]) == Outcome(f, [], true)
  {
    assert tokens[i..j][0] == tokens[i];
    assert tokens[i] != [];
  }

  lemma {:induction false} DetachIsFinal(f: Filter, tokens: seq<seq<byte>>, n: nat)
    requires n <= |tokens| && HandleAll(f, tokens[..n]).detach
    ensures HandleAll(f, tokens) == HandleAll(f, tokens[..n])
    decreases |tokens|
  {
    assert n > 0;
    assert tokens[..n][0] == tokens[0] && tokens[..n][1..] == tokens[1..][..n - 1];
    var r := TokenHandled(f, tokens[0]);
    if !r.detach {
      DetachIsFinal(r.filter, tokens[1..], n - 1);
    }
  }

  /** The filter refines the two-pass reference, for every input: it detaches exactly when
      a press, repeats and releases of it within the limit, and another press occur in the
      token stream, and has then forwarded exactly what came before that first press, and
      holds the tokens from it up to the second press; otherwise it has forwarded everything
      but the bytes the reference holds. */
  lemma RefinesReference(input: seq<byte>)
    ensures Pushed(EMPTY, input).detach <==> exists j: nat :: DetachAt(Tokens(input), j)
    ensures Pushed(EMPTY, input).detach ==>
              exists i: nat, j: nat ::
                && PressRun(Tokens(input), i, j) && DetachAt(Tokens(input), j)
                && (forall k | 0 <= k < j :: !DetachAt(Tokens(input), k))
                && Pushed(EMPTY, input)
                   == Outcome(Filter(Concat(Tokens(input)[i..j]), []), Concat(Tokens(input)[..i]), true)
    ensures !Pushed(EMPTY, input).detach ==>
              && Pushed(EMPTY, input).filter == Filter(Held(Tokens(input), |Tokens(input)|), Remainder(input))
              && Pushed(EMPTY, input).out + Held(Tokens(input), |Tokens(input)|) == Concat(Tokens(input))
  {
    var tokens := Tokens(input);
    PushIsTokenwise([], input);
    TokensPartition(input);
    TokensAreShort(input);
    if j: nat :| DetachAt(tokens, j) {
      var first := FirstDetach(tokens, j);
      var i: nat :| PressRun(tokens, i, first);
      ReferenceAtDetach(tokens, i, first);
    } else {
      ReferenceBeforeDetach(tokens, |tokens|);
      assert tokens[..|tokens|] == tokens;
    }
  }

  lemma {:induction false} FirstDetach(tokens: seq<seq<byte>>, j: nat) returns (first: nat)
    requires DetachAt(tokens, j)
    ensures DetachAt(tokens, first) && forall k | 0 <= k < first :: !DetachAt(tokens, k)
  {
    if k :| 0 <= k < j && DetachAt(tokens, k) {
      first := FirstDetach(tokens, k);
    } else {
      first := j;
    }
  }

  // ---------------------------------------------------------------- as it is typed

  /** A press as terminals send it: the byte itself, or a control sequence of at most 129
      bytes, with parameter and intermediate bytes only (section 5.4 of ECMA-48). */
  predicate IsTypedPress(p: seq<byte>) {
    IsPress(p) && (|p| == 1 || (|p| <= 129 && forall k | 2 <= k < |p| - 1 :: 0x20 <= p[k] < 0x40))
  }

  lemma PressIsWhole(p: seq<byte>)
    requires IsTypedPress(p)
    ensures EndsAt(p, |p|)
  {
    OtherTokens(p);
    hide EventOf;
    if |p| != 1 {
      assert [0x1b, 0x5b] < p && p[0] == [0x1b, 0x5b][0] && p[1] == [0x1b, 0x5b][1];
    } else {
      assert !([0x1b, 0x5b] < p);
    }
  }

  lemma WholeTokenPushed(w: seq<byte>, t: seq<byte>)
    requires EndsAt(t, |t|)
    ensures Pushed(Filter(w, []), t) == TokenHandled(Filter(w, []), t)
  {
    assert HasToken(t);
    EndIsUnique(t, TokenLength(t), |t|);
    assert t[..|t|] == t;
    hide EndsAt, Pushed, TokenHandled;
    TokenPushed(w, t);
  }

  /** Two presses in a row, each in any encoding, detach, and nothing of them is forwarded.
      After one press anything else is forwarded with it. */
  lemma TwoPressesDetach(p: seq<byte>, q: seq<byte>, t: seq<byte>)
    requires IsTypedPress(p) && IsTypedPress(q)
    ensures Pushed(EMPTY, p + q) == Outcome(Filter(p, []), [], true)
    ensures EndsAt(t, |t|) && EventOf(t) == None ==> Pushed(EMPTY, p + t) == Outcome(EMPTY, p + t, false)
  {
    PressIsWhole(p);
    PressIsWhole(q);
    assert p != [];
    hide EventOf, EndsAt;
    WholeTokenPushed([], p);
    WholeTokenPushed(p, q);
    hide Pushed;
    PushConcat(EMPTY, p, q);
    if EndsAt(t, |t|) && EventOf(t) == None {
      WholeTokenPushed(p, t);
      PushConcat(EMPTY, p, t);
    }
  }

  const XTERM_PRESS: seq<byte> := [0x1b, 0x5b, 0x32, 0x37, 0x3b, 0x35, 0x3b, 0x39, 0x32, 0x7e]
  const KITTY_PRESS: seq<byte> := [0x1b, 0x5b, 0x39, 0x32, 0x3b, 0x35, 0x75]

  lemma SmallDecimals()
    ensures DecimalValue([0x35]) == Some(5)
    ensures DecimalValue([0x32, 0x37]) == Some(27) && DecimalValue([0x39, 0x32]) == Some(92)
  {
    assert [0x35][..0] == [] && [0x32, 0x37][..1] == [0x32] && [0x32][..0] == [];
    assert [0x39, 0x32][..1] == [0x39] && [0x39][..0] == [];
  }

  lemma XtermPress()
    ensures EventOf(XTERM_PRESS) == Some(Press)
  {
    var fields: seq<seq<byte>> := [[0x32, 0x37], [0x35], [0x39, 0x32]];
    assert fields[1..] == [[0x35], [0x39, 0x32]] && fields[1..][1..] == [[0x39, 0x32]];
    assert Joined(fields, 0x3b) == [0x32, 0x37] + [0x3b] + ([0x35] + [0x3b] + [0x39, 0x32]);
    assert XTERM_PRESS == [ESC, BRACKET] + Joined(fields, 0x3b) + [0x7e];
    SmallDecimals();
    hide *;
    TildeForms(fields) by {
      assert NoneHas(fields, 0x3b);
    }
  }

  lemma KittyPress()
    ensures EventOf(KITTY_PRESS) == Some(Press)
  {
    var code: seq<seq<byte>>, modifiers: seq<seq<byte>> := [[0x39, 0x32]], [[0x35]];
    var params := [Joined(code, 0x3a), Joined(modifiers, 0x3a)] + [];
    assert params == [[0x39, 0x32], [0x35]] && params[1..] == [[0x35]];
    assert Joined(params, 0x3b) == [0x39, 0x32] + [0x3b] + [0x35];
    assert KITTY_PRESS == [ESC, BRACKET] + Joined(params, 0x3b) + [0x75];
    assert NoneHas(code, 0x3a) && NoneHas(modifiers, 0x3a) && NoneHas(params, 0x3b);
    SmallDecimals();
    hide *;
    CsiUForms(code, modifiers, []);
  }

  /** For instance `ESC [ 27 ; 5 ; 92 ~` and `ESC [ 92 ; 5 u`. */
  lemma PressEncodings()
    ensures IsTypedPress([0x1c]) && IsTypedPress(XTERM_PRESS) && IsTypedPress(KITTY_PRESS)
  {
    XtermPress();
    KittyPress();
    hide EnhancedDetachEvent;
  }

  /** A control sequence ends with a byte from `@` to `~`, and with no other. */
  lemma ControlSequencesEnd(b: byte)
    ensures Pushed(EMPTY, [0x1b, 0x5b, b]).filter.escape == [] <==> 0x40 <= b <= 0x7e
  {
    var s: seq<byte> := [0x1b, 0x5b, b];
    if 0x40 <= b <= 0x7e {
      assert EndsAt(s, |s|);
      WholeTokenPushed([], s);
    } else {
      OpenPrefix([], s, 3);
      assert s[..3] == s;
    }
    hide Pushed, EventOf;
  }

  /** One that does not end is kept for 128 bytes, and forwarded with the next. */
  lemma LongSequenceIsForwarded(params: seq<byte>)
    requires |params| == 127 && forall k | 0 <= k < |params| :: !(0x40 <= params[k] <= 0x7e)
    ensures var s := [0x1b, 0x5b] + params;
            && Pushed(EMPTY, s[..128]) == Outcome(Filter([], s[..128]), [], false)
            && Pushed(EMPTY, s) == Outcome(EMPTY, s, false)
  {
    var s: seq<byte> := [0x1b, 0x5b] + params;
    assert forall k | 2 <= k < |s| :: s[k] == params[k - 2];
    assert forall m | 1 <= m <= 128 :: !EndsAt(s, m);
    OpenPrefix([], s, 128);
    assert EndsAt(s, |s|) && s[128] == params[126];
    OtherTokens(s);
    hide EndsAt, EventOf;
    WholeTokenPushed([], s);
    assert [] + s == s;
    hide Pushed;
  }
}
