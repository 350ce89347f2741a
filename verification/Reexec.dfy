/**
 Timeouts and terminal sizes on their way from the command line to the detached worker: the
 parent parses them, prints them into the worker's arguments, and the worker parses them
 again. Durations are whole milliseconds.
 */
module Reexec {
  import opened Bytes

  datatype Parsed<T> = Ok(value: T) | Err

  // ---------------------------------------------------------------- text

  /** The characters with the Unicode White_Space property. */
  predicate IsSpace(c: char) {
    var x := c as int;
    || 0x09 <= x <= 0x0d || x == 0x20 || x == 0x85 || x == 0xa0 || x == 0x1680
    || 0x2000 <= x <= 0x200a || x == 0x2028 || x == 0x2029 || x == 0x202f || x == 0x205f || x == 0x3000
  }

  function TrimStart(s: string): string {
    if s != "" && IsSpace(s[0]) then TrimStart(s[1..]) else s
  }

  function TrimEnd(s: string): string {
    if s != "" && IsSpace(s[|s| - 1]) then TrimEnd(s[..|s| - 1]) else s
  }

  function Trim(s: string): string { TrimEnd(TrimStart(s)) }

  function ToLower(s: string): string {
    if s == "" then "" else [if 'A' <= s[0] <= 'Z' then s[0] - 'A' + 'a' else s[0]] + ToLower(s[1..])
  }

  predicate IsDigit(c: char) { '0' <= c <= '9' }

  function Digit(d: nat): char
    requires d < 10
  {
    '0' + d as char
  }

  /** Decimal, without leading zeros. */
  function PrintNat(n: nat): (s: string)
    ensures s != "" && forall c | c in s :: IsDigit(c)
  {
    if n < 10 then [Digit(n)] else PrintNat(n / 10) + [Digit(n % 10)]
  }

  /** Digits accumulated with overflow checks at every step. */
  function ParseDigits(s: string, max: nat): Option<nat> {
    if s == "" then Some(0)
    else
      var high := ParseDigits(s[..|s| - 1], max);
      var c := s[|s| - 1];
      if high.None? || !IsDigit(c) || high.value * 10 + (c as int - '0' as int) > max then None
      else Some(high.value * 10 + (c as int - '0' as int))
  }

  /** An unsigned number of at most `max`; a plus sign is allowed. */
  function ParseUnsigned(s: string, max: nat): Option<nat> {
    var digits := if s != "" && s[0] == '+' then s[1..] else s;
    if digits == "" then None else ParseDigits(digits, max)
  }

  // ---------------------------------------------------------------- durations and sizes

  function UnitSeconds(c: char): Option<nat> {
    if c == 's' || c == 'S' then Some(1)
    else if c == 'm' || c == 'M' then Some(60)
    else if c == 'h' || c == 'H' then Some(3600)
    else if c == 'd' || c == 'D' then Some(86400)
    else None
  }

  predicate HasMillis(s: string) { |s| >= 2 && (s[|s| - 2..] == "ms" || s[|s| - 2..] == "MS") }

  /** A number of units, by default seconds; the product is taken modulo 2^64. */
  function ParseDuration(s: string): Parsed<nat> {
    var t := Trim(s);
    if t == "" then Err
    else if HasMillis(t) then
      var n := ParseUnsigned(Trim(t[..|t| - 2]), U64_MODULUS - 1);
      if n.Some? then Ok(n.value) else Err
    else
      var seconds := UnitSeconds(t[|t| - 1]);
      var n := ParseUnsigned(Trim(if seconds.Some? then t[..|t| - 1] else t), U64_MODULUS - 1);
      if n.Some? then Ok(n.value * (if seconds.Some? then seconds.value else 1) % U64_MODULUS * 1000) else Err
  }

  function ParseTimeout(s: string): Parsed<Option<nat>> {
    var t := Trim(s);
    if t == "" || ToLower(t) == "none" || ToLower(t) == "off" || ToLower(t) == "never" then Ok(None)
    else
      match ParseDuration(t)
      case Ok(d) => Ok(if d == 0 then None else Some(d))
      case Err => Err
  }

  function PrintTimeout(millis: nat): string { PrintNat(millis) + "ms" }

  function SplitAtX(s: string): Option<(string, string)> {
    if s == "" then None
    else if s[0] == 'x' || s[0] == 'X' then Some(("", s[1..]))
    else
      match SplitAtX(s[1..])
      case Some((left, right)) => Some(([s[0]] + left, right))
      case None => None
  }

  function ParseSize(s: string): (r: Parsed<(nat, nat)>)
    ensures r.Ok? ==> 0 < r.value.0 < U16_MODULUS && 0 < r.value.1 < U16_MODULUS
  {
    match SplitAtX(s)
    case None => Err
    case Some((left, right)) =>
      var cols := ParseUnsigned(Trim(left), U16_MODULUS - 1);
      var rows := ParseUnsigned(Trim(right), U16_MODULUS - 1);
      if cols.None? || rows.None? || cols.value == 0 || rows.value == 0 then Err
      else
        DigitsBounded(Trim(left), U16_MODULUS - 1);
        DigitsBounded(Trim(right), U16_MODULUS - 1);
        Ok((cols.value, rows.value))
  }

  function PrintSize(cols: nat, rows: nat): string { PrintNat(cols) + "x" + PrintNat(rows) }

  // ---------------------------------------------------------------- round trips

  lemma DigitsBounded(s: string, max: nat)
    ensures ParseUnsigned(s, max).Some? ==> ParseUnsigned(s, max).value <= max
  {
  }

  /** The checked parser reads back every printed number that fits, and refuses the others. */
  lemma {:induction false} DigitsRoundTrip(n: nat, max: nat)
    ensures ParseDigits(PrintNat(n), max) == if n <= max then Some(n) else None
  {
    var s := PrintNat(n);
    if n < 10 {
      assert s[..|s| - 1] == "";
    } else {
      DigitsRoundTrip(n / 10, max);
      assert s[..|s| - 1] == PrintNat(n / 10);
    }
  }

  function Power10(n: nat): nat { if n == 0 then 1 else 10 * Power10(n - 1) }

  predicate AllDigits(s: string) { forall k | 0 <= k < |s| :: IsDigit(s[k]) }

  /** What decimal digits mean, by their places. */
  function PlaceValue(s: string): nat
    requires AllDigits(s)
  {
    if s == "" then 0 else (s[0] as int - '0' as int) * Power10(|s| - 1) + PlaceValue(s[1..])
  }

  lemma {:induction false} PlaceValueSnoc(s: string, c: char)
    requires AllDigits(s) && IsDigit(c)
    ensures AllDigits(s + [c]) && PlaceValue(s + [c]) == PlaceValue(s) * 10 + (c as int - '0' as int)
  {
    var t := s + [c];
    if s == "" {
      assert t[1..] == "" && Power10(0) == 1;
    } else {
      assert t[0] == s[0] && t[1..] == s[1..] + [c];
      PlaceValueSnoc(s[1..], c);
      assert Power10(|s|) == 10 * Power10(|s| - 1);
      TenTimes(s[0] as int - '0' as int, Power10(|s| - 1));
    }
  }

  lemma TenTimes(a: int, b: int)
    ensures a * (10 * b) == a * b * 10
  {
  }

  /** The parser reads decimals, and nothing else, up to its maximum. */
  lemma {:induction false} ParsesDecimals(s: string, max: nat)
    ensures ParseDigits(s, max).Some? <==> AllDigits(s) && PlaceValue(s) <= max
    ensures ParseDigits(s, max).Some? ==> ParseDigits(s, max).value == PlaceValue(s)
  {
    if s != "" {
      var init, c := s[..|s| - 1], s[|s| - 1];
      assert s == init + [c];
      ParsesDecimals(init, max);
      if AllDigits(init) && IsDigit(c) {
        PlaceValueSnoc(init, c);
      } else {
        assert forall k | 0 <= k < |init| :: init[k] == s[k];
      }
    }
  }

  lemma UnsignedRoundTrip(n: nat, max: nat)
    ensures ParseUnsigned(PrintNat(n), max) == if n <= max then Some(n) else None
    ensures Trim(PrintNat(n)) == PrintNat(n)
  {
    DigitsRoundTrip(n, max);
    var s := PrintNat(n);
    hide PrintNat, ParseDigits;
    assert IsDigit(s[0]) && IsDigit(s[|s| - 1]) by {
      assert s[0] in s && s[|s| - 1] in s;
    }
    NotTrimmed(s);
    hide Trim;
  }

  lemma NotTrimmed(s: string)
    requires s != "" && !IsSpace(s[0]) && !IsSpace(s[|s| - 1])
    ensures Trim(s) == s
  {
  }

  lemma NotASentinel(s: string)
    requires s != "" && IsDigit(s[0])
    ensures ToLower(s) != "none" && ToLower(s) != "off" && ToLower(s) != "never"
  {
    assert ToLower(s)[0] == s[0];
  }

  /** A number with a unit that is not blank is left alone by trimming. */
  lemma PrintedIsTrimmed(n: nat, unit: string)
    requires unit != "" && !IsSpace(unit[|unit| - 1])
    ensures Trim(PrintNat(n) + unit) == PrintNat(n) + unit
  {
    var s := PrintNat(n) + unit;
    assert s[0] == PrintNat(n)[0] && PrintNat(n)[0] in PrintNat(n);
    assert s[|s| - 1] == unit[|unit| - 1];
    NotTrimmed(s);
  }

  /** A duration printed for the worker comes back, or is refused if it does not fit. */
  lemma PrintedTimeout(millis: nat)
    ensures ParseTimeout(PrintTimeout(millis))
         == if millis == 0 then Ok(None) else if millis < U64_MODULUS then Ok(Some(millis)) else Err
  {
    var s := PrintTimeout(millis);
    PrintedIsTrimmed(millis, "ms");
    UnsignedRoundTrip(millis, U64_MODULUS - 1);
    assert s[|s| - 2..] == "ms" && s[..|s| - 2] == PrintNat(millis);
    assert s[0] == PrintNat(millis)[0] && PrintNat(millis)[0] in PrintNat(millis);
    NotASentinel(s);
    hide Trim, ToLower, ParseUnsigned, PrintNat;
  }

  /** For every text that the parent accepts as a timeout, the worker gets the same timeout
      exactly when it is below 2^64 milliseconds; otherwise the worker refuses to start. */
  lemma WorkerTimeoutIff(s: string)
    requires ParseTimeout(s).Ok? && ParseTimeout(s).value.Some?
    ensures var d := ParseTimeout(s).value.value;
            && (ParseTimeout(PrintTimeout(d)) == ParseTimeout(s) <==> d < U64_MODULUS)
            && (d >= U64_MODULUS ==> ParseTimeout(PrintTimeout(d)) == Err)
  {
    PrintedTimeout(ParseTimeout(s).value.value);
    hide ParseDuration, PrintTimeout, Trim;
  }

  /** In particular whatever was given in milliseconds arrives. */
  lemma MillisAlwaysArrive(s: string)
    requires ParseTimeout(s).Ok? && ParseTimeout(s).value.Some? && HasMillis(Trim(Trim(s)))
    ensures ParseTimeout(PrintTimeout(ParseTimeout(s).value.value)) == ParseTimeout(s)
  {
    WorkerTimeoutIff(s);
    var t := Trim(Trim(s));
    DigitsBounded(Trim(t[..|t| - 2]), U64_MODULUS - 1);
  }

  /** What a unit letter means in seconds. */
  function Factor(unit: char): nat {
    match unit
    case 's' => 1
    case 'S' => 1
    case 'm' => 60
    case 'M' => 60
    case 'h' => 3600
    case 'H' => 3600
    case 'd' => 86400
    case 'D' => 86400
    case _ => 0
  }

  predicate IsUnit(unit: char) { unit in {'s', 'S', 'm', 'M', 'h', 'H', 'd', 'D'} }

  predicate Blank(s: string) { forall c | c in s :: IsSpace(c) }

  /** Digits, after a plus sign or not. */
  predicate IsNumber(number: string, digits: string) {
    digits != "" && AllDigits(digits) && (number == digits || number == "+" + digits)
  }

  predicate IsUnitText(unit: string) { unit in {"", "ms", "MS"} || (|unit| == 1 && IsUnit(unit[0])) }

  /** Milliseconds for `ms`, for a letter that many seconds, minutes, hours or days, and
      seconds without a unit. A product of 2^64 seconds or more wraps around. */
  function Meaning(n: nat, unit: string): nat
    requires IsUnitText(unit)
  {
    if unit == "" then n * 1000 else if |unit| == 2 then n else n * Factor(unit[0]) % U64_MODULUS * 1000
  }

  /** What texts of a number and a unit mean, blanks around either ignored. */
  lemma DurationText(a: string, number: string, digits: string, b: string, unit: string, c: string)
    requires Blank(a) && IsNumber(number, digits) && Blank(b) && IsUnitText(unit) && Blank(c)
    ensures ParseDuration(a + (number + b + unit) + c)
         == if PlaceValue(digits) < U64_MODULUS then Ok(Meaning(PlaceValue(digits), unit)) else Err
  {
    NumberEnds(number, digits);
    NumberParses(number, digits, U64_MODULUS - 1);
    hide Trim, ParseUnsigned, PlaceValue, IsNumber;
    if unit == "" {
      assert a + (number + b + unit) + c == a + number + (b + c);
      TrimPadded(a, number, b + c);
      NotTrimmed(number);
      BareDuration(number, a + (number + b + unit) + c);
    } else {
      assert !IsSpace(unit[|unit| - 1]);
      TrimAfter(number, b);
      EndsOf(number, b, unit);
      TrimPadded(a, number + b + unit, c);
      if |unit| == 2 {
        MillisDuration(number + b, unit, a + (number + b + unit) + c);
      } else {
        NoMillis(number, b, unit[0]);
        UnitDuration(number + b, unit[0], a + (number + b + unit) + c);
        assert unit == [unit[0]];
      }
    }
  }

  lemma PlainForm(n: nat, unit: string)
    requires IsUnitText(unit)
    ensures ParseDuration(PrintNat(n) + unit) == if n < U64_MODULUS then Ok(Meaning(n, unit)) else Err
  {
    PrintedIsNumber(n);
    var s := PrintNat(n);
    assert Blank("") && "" + (s + "" + unit) + "" == s + unit;
    hide *;
    DurationText("", s, s, "", unit, "");
  }

  /** For instance, numbers as they are usually written. */
  lemma TimeoutForms(n: nat, unit: char)
    requires n < U64_MODULUS
    ensures ParseDuration(PrintNat(n)) == Ok(n * 1000)
    ensures ParseDuration(PrintNat(n) + "ms") == Ok(n)
    ensures IsUnit(unit) && n * Factor(unit) < U64_MODULUS ==>
              ParseDuration(PrintNat(n) + [unit]) == Ok(n * Factor(unit) * 1000)
  {
    assert PrintNat(n) + "" == PrintNat(n);
    hide ParseDuration, PrintNat;
    PlainForm(n, "");
    PlainForm(n, "ms");
    if IsUnit(unit) && n * Factor(unit) < U64_MODULUS {
      PlainForm(n, [unit]);
      SmallModulus(n * Factor(unit), U64_MODULUS);
    }
  }

  lemma PrintedIsNumber(n: nat)
    ensures IsNumber(PrintNat(n), PrintNat(n)) && PlaceValue(PrintNat(n)) == n
  {
    var s := PrintNat(n);
    assert AllDigits(s) by {
      forall k | 0 <= k < |s|
        ensures IsDigit(s[k])
      {
        assert s[k] in s;
      }
    }
    DigitsRoundTrip(n, n);
    ParsesDecimals(s, n);
  }

  lemma SmallModulus(n: nat, m: nat)
    requires m > 0
    ensures n < m ==> n % m == n
  {
  }

  lemma NumberEnds(number: string, digits: string)
    requires IsNumber(number, digits)
    ensures number != "" && IsDigit(number[|number| - 1]) && !IsSpace(number[0]) && !IsSpace(number[|number| - 1])
  {
    assert number[|number| - 1] == digits[|digits| - 1];
  }

  lemma NumberParses(number: string, digits: string, max: nat)
    requires IsNumber(number, digits)
    ensures ParseUnsigned(number, max) == if PlaceValue(digits) <= max then Some(PlaceValue(digits)) else None
  {
    ParsesDecimals(digits, max);
    assert number != digits ==> number[1..] == digits;
    hide ParseDigits, PlaceValue;
  }

  lemma ParsedIsNumber(number: string, max: nat) returns (digits: string)
    requires ParseUnsigned(number, max).Some?
    ensures IsNumber(number, digits) && PlaceValue(digits) <= max
  {
    digits := if number[0] == '+' then number[1..] else number;
    ParsesDecimals(digits, max);
    assert number[0] == '+' ==> number == "+" + digits;
    hide ParseDigits, PlaceValue;
  }

  lemma TrimAfter(s: string, b: string)
    requires Blank(b) && s != "" && !IsSpace(s[0]) && !IsSpace(s[|s| - 1])
    ensures Trim(s + b) == s
  {
    assert (s + b)[0] == s[0];
    TrimEndPadded(s, b);
  }

  lemma EndsOf(s: string, b: string, unit: string)
    requires s != "" && unit != ""
    ensures var t := s + b + unit; t != "" && t[0] == s[0] && t[|t| - 1] == unit[|unit| - 1]
  {
  }

  lemma {:induction false} TrimStartSplits(s: string) returns (a: string)
    ensures Blank(a) && s == a + TrimStart(s) && (TrimStart(s) != "" ==> !IsSpace(TrimStart(s)[0]))
  {
    if s != "" && IsSpace(s[0]) {
      a := TrimStartSplits(s[1..]);
      assert s == [s[0]] + (a + TrimStart(s));
      a := [s[0]] + a;
    } else {
      a := "";
    }
  }

  lemma {:induction false} TrimEndSplits(s: string) returns (c: string)
    ensures Blank(c) && s == TrimEnd(s) + c && (TrimEnd(s) != "" ==> !IsSpace(TrimEnd(s)[|TrimEnd(s)| - 1]))
  {
    if s != "" && IsSpace(s[|s| - 1]) {
      c := TrimEndSplits(s[..|s| - 1]);
      assert s == (TrimEnd(s) + c) + [s[|s| - 1]];
      c := c + [s[|s| - 1]];
    } else {
      c := "";
    }
  }

  /** Trimming removes blanks, and all at either end. */
  lemma TrimSplits(s: string) returns (a: string, c: string)
    ensures Blank(a) && Blank(c) && s == a + Trim(s) + c
    ensures Trim(s) != "" ==> !IsSpace(Trim(s)[0]) && !IsSpace(Trim(s)[|Trim(s)| - 1])
  {
    a := TrimStartSplits(s);
    c := TrimEndSplits(TrimStart(s));
    assert TrimStart(s) != "" && Trim(s) != "" ==> TrimStart(s)[0] == Trim(s)[0];
  }

  lemma BlankStart(a: string, s: string)
    requires Blank(a) && a <= s
    ensures a != "" ==> IsSpace(s[0])
  {
    assert a != "" ==> a[0] in a;
  }

  /** A text that starts with something, then blanks and a number at most, trimmed. */
  lemma NumberAtStart(s: string, max: nat) returns (number: string, digits: string, b: string)
    requires ParseUnsigned(Trim(s), max).Some? && s != "" && !IsSpace(s[0])
    ensures s == number + b && number == Trim(s) && Blank(b) && IsNumber(number, digits) && PlaceValue(digits) <= max
  {
    hide *;
    var a;
    a, b := TrimSplits(s);
    number := Trim(s);
    digits := ParsedIsNumber(number, max);
    assert s == a + (number + b);
    BlankStart(a, s);
    assert "" + number == number;
  }

  /** Nothing else is accepted as a duration. */
  lemma DurationIsText(s: string)
    returns (a: string, number: string, digits: string, b: string, unit: string, c: string)
    requires ParseDuration(s).Ok?
    ensures Blank(a) && IsNumber(number, digits) && Blank(b) && IsUnitText(unit) && Blank(c)
    ensures s == a + (number + b + unit) + c && PlaceValue(digits) < U64_MODULUS
  {
    var t := Trim(s);
    a, c := TrimSplits(s);
    var left := if HasMillis(t) then t[..|t| - 2] else if UnitSeconds(t[|t| - 1]).Some? then t[..|t| - 1] else t;
    unit := t[|left|..];
    assert t == left + unit && IsUnitText(unit);
    hide PlaceValue, IsNumber, AllDigits, UnitSeconds, HasMillis, IsUnitText;
    assert left != "" by {
      assert Trim("") == "";
    }
    assert left[0] == t[0];
    hide Trim, ParseUnsigned;
    number, digits, b := NumberAtStart(left, U64_MODULUS - 1);
  }

  lemma {:induction false} TrimStartPadded(a: string, s: string)
    requires Blank(a) && (s == "" || !IsSpace(s[0]))
    ensures TrimStart(a + s) == s
  {
    if a == "" {
      assert a + s == s;
    } else {
      assert a[0] in a && forall c | c in a[1..] :: c in a;
      assert (a + s)[1..] == a[1..] + s;
      TrimStartPadded(a[1..], s);
    }
  }

  lemma {:induction false} TrimEndPadded(s: string, b: string)
    requires Blank(b) && (s == "" || !IsSpace(s[|s| - 1]))
    ensures TrimEnd(s + b) == s
    decreases |b|
  {
    if b == "" {
      assert s + b == s;
    } else {
      assert b[|b| - 1] in b && forall c | c in b[..|b| - 1] :: c in b;
      assert (s + b)[..|s + b| - 1] == s + b[..|b| - 1];
      TrimEndPadded(s, b[..|b| - 1]);
    }
  }

  /** Blanks around a text that begins and ends with something else are ignored. */
  lemma TrimPadded(a: string, s: string, b: string)
    requires Blank(a) && Blank(b) && s != "" && !IsSpace(s[0]) && !IsSpace(s[|s| - 1])
    ensures Trim(a + s + b) == s
  {
    assert a + s + b == a + (s + b);
    TrimStartPadded(a, s + b);
    TrimEndPadded(s, b);
  }

  lemma BareDuration(number: string, s: string)
    requires number != "" && IsDigit(number[|number| - 1]) && Trim(s) == number == Trim(number)
    ensures var n := ParseUnsigned(number, U64_MODULUS - 1);
            ParseDuration(s) == if n.Some? then Ok(n.value * 1000) else Err
  {
    DigitsBounded(number, U64_MODULUS - 1);
    hide Trim, ParseUnsigned;
    assert |number| >= 2 ==> number[|number| - 2..][1] == number[|number| - 1];
    assert forall n: nat | n < U64_MODULUS :: n * 1 % U64_MODULUS == n;
  }

  lemma MillisDuration(number: string, unit: string, s: string)
    requires unit in {"ms", "MS"} && Trim(s) == number + unit
    ensures var n := ParseUnsigned(Trim(number), U64_MODULUS - 1);
            ParseDuration(s) == if n.Some? then Ok(n.value) else Err
  {
    hide Trim, ParseUnsigned;
    var t := number + unit;
    assert t[|t| - 2..] == unit && t[..|t| - 2] == number;
  }

  lemma NoMillis(number: string, b: string, unit: char)
    requires number != "" && IsDigit(number[|number| - 1]) && Blank(b)
    ensures !HasMillis(number + b + [unit])
  {
    var t := number + b + [unit];
    assert t[|t| - 2..][0] == if b == "" then number[|number| - 1] else b[|b| - 1];
    assert b != "" ==> b[|b| - 1] in b;
  }

  lemma UnitDuration(number: string, unit: char, s: string)
    requires IsUnit(unit) && Trim(s) == number + [unit] && !HasMillis(number + [unit])
    ensures var n := ParseUnsigned(Trim(number), U64_MODULUS - 1);
            ParseDuration(s) == if n.Some? then Ok(n.value * Factor(unit) % U64_MODULUS * 1000) else Err
  {
    hide Trim, ParseUnsigned, HasMillis;
    var t := number + [unit];
    assert t[|t| - 1] == unit && t[..|t| - 1] == number;
    assert UnitSeconds(unit) == Some(Factor(unit));
  }

  /** A timeout is the duration, if it is not zero; these texts and blanks mean that there
      is none. */
  lemma TimeoutIsDuration(s: string)
    ensures !NoTimeout(Trim(s)) && ParseDuration(Trim(s)).Ok? ==>
              var d := ParseDuration(Trim(s)).value;
              ParseTimeout(s) == Ok(if d == 0 then None else Some(d))
    ensures !NoTimeout(Trim(s)) && ParseDuration(Trim(s)).Err? ==> ParseTimeout(s) == Err
    ensures NoTimeout(Trim(s)) ==> ParseTimeout(s) == Ok(None)
  {
    hide Trim, ParseDuration, ToLower;
  }

  lemma {:induction false} LowerCase(s: string)
    ensures |ToLower(s)| == |s|
    ensures forall k | 0 <= k < |s| :: ToLower(s)[k] == if 'A' <= s[k] <= 'Z' then s[k] - 'A' + 'a' else s[k]
  {
    if s != "" {
      LowerCase(s[1..]);
    }
  }

  /** The texts that mean no timeout, in any mixture of cases; a zero is none of them, but a
      duration of zero. */
  lemma NoTimeoutTexts(t: string)
    ensures NoTimeout("") && NoTimeout("none") && NoTimeout("off") && NoTimeout("never") && !NoTimeout("0")
    ensures ToLower(t) in {ToLower("none"), ToLower("off"), ToLower("never")} ==> NoTimeout(t)
  {
    LowerCase("0");
    hide ToLower;
    LowerIsKept("none");
    LowerIsKept("off");
    LowerIsKept("never");
  }

  lemma LowerIsKept(s: string)
    requires forall k | 0 <= k < |s| :: 'a' <= s[k] <= 'z'
    ensures ToLower(s) == s
  {
    LowerCase(s);
  }

  predicate NoTimeout(t: string) { t == "" || ToLower(t) in {"none", "off", "never"} }

  lemma PrintedSeconds(n: nat)
    requires 0 < n < U64_MODULUS
    ensures ParseTimeout(PrintNat(n) + "s") == Ok(Some(n * 1000))
  {
    var s := PrintNat(n) + "s";
    PrintedIsTrimmed(n, "s");
    PrintedIsNumber(n);
    assert s[0] == PrintNat(n)[0];
    NotASentinel(s);
    hide *;
    TimeoutForms(n, 's');
    SecondsAreSeconds(n);
    TimeoutOfSeconds(s, n);
  }

  lemma SecondsAreSeconds(n: nat)
    ensures IsUnit('s') && n * Factor('s') == n
  {
  }

  lemma TimeoutOfSeconds(s: string, n: nat)
    requires Trim(s) == s && s != "" && n > 0
    requires ToLower(s) != "none" && ToLower(s) != "off" && ToLower(s) != "never"
    requires ParseDuration(s) == Ok(n * Factor('s') * 1000)
    ensures ParseTimeout(s) == Ok(Some(n * 1000))
  {
    hide Trim, ToLower, ParseDuration;
  }

  /** The parent accepts 2^64 - 1 seconds; no worker can be started with it. */
  lemma LongTimeoutIsLost()
    ensures ParseTimeout(PrintNat(U64_MODULUS - 1) + "s") == Ok(Some((U64_MODULUS - 1) * 1000))
    ensures ParseTimeout(PrintTimeout((U64_MODULUS - 1) * 1000)) == Err
  {
    PrintedSeconds(U64_MODULUS - 1);
    PrintedTimeout((U64_MODULUS - 1) * 1000);
  }

  lemma {:induction false} SplitAtFirst(left: string, x: char, right: string)
    requires x in {'x', 'X'} && forall c | c in left :: c != 'x' && c != 'X'
    ensures SplitAtX(left + [x] + right) == Some((left, right))
  {
    var s := left + [x] + right;
    if left == "" {
      assert s[0] == x && s[1..] == right;
    } else {
      assert s[0] == left[0] && left[0] in left;
      assert s[1..] == left[1..] + [x] + right;
      assert forall c | c in left[1..] :: c in left;
      SplitAtFirst(left[1..], x, right);
      assert [left[0]] + left[1..] == left;
    }
  }

  /** Every size that a terminal can have survives printing and parsing. */
  lemma PrintedSize(cols: nat, rows: nat)
    requires 0 < cols < U16_MODULUS && 0 < rows < U16_MODULUS
    ensures ParseSize(PrintSize(cols, rows)) == Ok((cols, rows))
  {
    SplitAtFirst(PrintNat(cols), 'x', PrintNat(rows));
    UnsignedRoundTrip(cols, U16_MODULUS - 1);
    UnsignedRoundTrip(rows, U16_MODULUS - 1);
  }

  /** A size may be written with either x, and with blanks around its numbers; one that is
      zero or has more than 16 bits is refused. */
  lemma SizeForms(a: string, number: string, digits: string, b: string, x: char,
                  c: string, number': string, digits': string, d: string)
    requires Blank(a) && Blank(b) && Blank(c) && Blank(d) && x in {'x', 'X'}
    requires IsNumber(number, digits) && IsNumber(number', digits')
    ensures var cols, rows := PlaceValue(digits), PlaceValue(digits');
            ParseSize((a + number + b) + [x] + (c + number' + d))
            == if 0 < cols < U16_MODULUS && 0 < rows < U16_MODULUS then Ok((cols, rows)) else Err
  {
    NumberParses(number, digits, U16_MODULUS - 1);
    NumberParses(number', digits', U16_MODULUS - 1);
    NumberEnds(number, digits);
    NumberEnds(number', digits');
    NoX(a, number, digits, b);
    hide Trim, ParseUnsigned, SplitAtX, PlaceValue, IsNumber;
    TrimPadded(a, number, b);
    TrimPadded(c, number', d);
    SplitAtFirst(a + number + b, x, c + number' + d);
  }

  lemma NoX(a: string, number: string, digits: string, b: string)
    requires Blank(a) && Blank(b) && IsNumber(number, digits)
    ensures forall c | c in a + number + b :: c != 'x' && c != 'X'
  {
    forall c | c in a + number + b
      ensures c != 'x' && c != 'X'
    {
      assert c in a || c in number || c in b;
      assert c in number ==> c == '+' || c in digits;
    }
  }

  lemma {:induction false} SplitSplits(s: string) returns (left: string, x: char, right: string)
    requires SplitAtX(s).Some?
    ensures SplitAtX(s) == Some((left, right)) && s == left + [x] + right && x in {'x', 'X'}
  {
    if s[0] == 'x' || s[0] == 'X' {
      left, x, right := "", s[0], s[1..];
    } else {
      left, x, right := SplitSplits(s[1..]);
      assert s == [s[0]] + (left + [x] + right);
      left := [s[0]] + left;
    }
  }

  /** Nothing else is accepted as a size. */
  lemma SizeIsText(s: string)
    returns (a: string, number: string, digits: string, b: string, x: char,
             c: string, number': string, digits': string, d: string)
    requires ParseSize(s).Ok?
    ensures Blank(a) && Blank(b) && Blank(c) && Blank(d) && x in {'x', 'X'}
    ensures IsNumber(number, digits) && IsNumber(number', digits')
    ensures s == (a + number + b) + [x] + (c + number' + d)
    ensures ParseSize(s) == Ok((PlaceValue(digits), PlaceValue(digits')))
  {
    var left, right;
    left, x, right := SplitSplits(s);
    a, b := TrimSplits(left);
    c, d := TrimSplits(right);
    number, number' := Trim(left), Trim(right);
    hide Trim, SplitAtX, PlaceValue;
    digits := ParsedIsNumber(number, U16_MODULUS - 1);
    digits' := ParsedIsNumber(number', U16_MODULUS - 1);
    NumberParses(number, digits, U16_MODULUS - 1);
    NumberParses(number', digits', U16_MODULUS - 1);
  }

  /** Every size the parent accepts reaches the worker unchanged. */
  lemma WorkerSize(s: string)
    requires ParseSize(s).Ok?
    ensures ParseSize(PrintSize(ParseSize(s).value.0, ParseSize(s).value.1)) == ParseSize(s)
  {
    PrintedSize(ParseSize(s).value.0, ParseSize(s).value.1);
  }
}
