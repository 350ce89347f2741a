/**
 Removing the global host selector from a command line before it is run elsewhere. The
 reference form of a line is a list of parts, then what starts at the separator `--`.
 */
module HostArgs {
  import opened Bytes

  const SEPARATOR: string := "--"
  const HOST: string := "--host"
  const HOST_EQUALS: string := "--host="

  predicate StartsWith(s: string, prefix: string) { prefix <= s }

  function Prefixed(a: seq<string>, r: Option<seq<string>>): Option<seq<string>> {
    if r.None? then None else Some(a + r.value)
  }

  function Stripped(raw: seq<string>): Option<seq<string>> {
    if raw == [] then Some([])
    else if raw[0] == SEPARATOR then Some(raw)
    else if raw[0] == HOST then if |raw| == 1 then None else Stripped(raw[2..])
    else if StartsWith(raw[0], HOST_EQUALS) then Stripped(raw[1..])
    else Prefixed([raw[0]], Stripped(raw[1..]))
  }

  lemma PrefixedTwice(a: seq<string>, b: seq<string>, r: Option<seq<string>>)
    ensures Prefixed(a, Prefixed(b, r)) == Prefixed(a + b, r)
    ensures Prefixed([], r) == r
  {
    if r.Some? {
      Regroup(a, b, r.value);
      assert [] + r.value == r.value;
    }
  }

  /** What the loop still has to add when it is at `index`. */
  function Remaining(raw: seq<string>, index: nat, afterSeparator: bool): Option<seq<string>>
    requires index <= |raw|
  {
    if afterSeparator then Some(raw[index..]) else Stripped(raw[index..])
  }

  lemma RemainingStep(raw: seq<string>, index: nat, afterSeparator: bool)
    requires index < |raw|
    ensures var arg := raw[index];
            Remaining(raw, index, afterSeparator)
            == if afterSeparator || arg == SEPARATOR then Prefixed([arg], Remaining(raw, index + 1, true))
               else if arg == HOST then if index + 1 == |raw| then None else Remaining(raw, index + 2, false)
               else if StartsWith(arg, HOST_EQUALS) then Remaining(raw, index + 1, false)
               else Prefixed([arg], Remaining(raw, index + 1, false))
  {
    var line := raw[index..];
    assert line[0] == raw[index] && line[1..] == raw[index + 1..] && line == [line[0]] + line[1..];
    assert |line| > 1 ==> line[2..] == raw[index + 2..];
  }

  method StripHostArgs(raw: seq<string>) returns (r: Option<seq<string>>)
    ensures r == Stripped(raw)
  {
    hide Stripped, StartsWith;
    var result: seq<string> := [];
    var index := 0;
    var afterSeparator := false;
    assert raw[0..] == raw;
    PrefixedTwice([], [], Stripped(raw));
    while index < |raw|
      invariant 0 <= index <= |raw|
      invariant Stripped(raw) == Prefixed(result, Remaining(raw, index, afterSeparator))
    {
      var arg := raw[index];
      RemainingStep(raw, index, afterSeparator);
      PrefixedTwice(result, [arg], Remaining(raw, index + 1, afterSeparator || arg == SEPARATOR));
      hide Remaining, Prefixed;
      if afterSeparator {
        result := result + [arg];
      } else if arg == SEPARATOR {
        afterSeparator := true;
        result := result + [arg];
      } else if arg == HOST {
        index := index + 1;
        if index >= |raw| {
          PrefixedNone(result);
          return None;
        }
      } else if !StartsWith(arg, HOST_EQUALS) {
        result := result + [arg];
      }
      index := index + 1;
    }
    NothingRemains(raw, result, afterSeparator);
    return Some(result);
  }

  lemma PrefixedNone(a: seq<string>)
    ensures Prefixed(a, None) == None
  {
  }

  lemma NothingRemains(raw: seq<string>, result: seq<string>, afterSeparator: bool)
    ensures Prefixed(result, Remaining(raw, |raw|, afterSeparator)) == Some(result)
  {
    assert result + [] == result;
  }

  // ---------------------------------------------------------------- the reference

  /** `--host value`, `--host=value`, or any other argument before the separator. */
  datatype Part = Selector(value: string) | SelectorEquals(value: string) | Other(arg: string)

  predicate GoodParts(parts: seq<Part>) {
    forall k | 0 <= k < |parts| && parts[k].Other? ::
      parts[k].arg != SEPARATOR && parts[k].arg != HOST && !StartsWith(parts[k].arg, HOST_EQUALS)
  }

  function PartArgs(p: Part): seq<string> {
    match p
    case Selector(value) => [HOST, value]
    case SelectorEquals(value) => [HOST_EQUALS + value]
    case Other(arg) => [arg]
  }

  function Line(parts: seq<Part>): seq<string> {
    if parts == [] then [] else PartArgs(parts[0]) + Line(parts[1..])
  }

  function Kept(parts: seq<Part>): seq<string> {
    if parts == [] then []
    else (match parts[0] case Other(arg) => [arg] case _ => []) + Kept(parts[1..])
  }

  lemma StripPart(p: Part, rest: seq<string>)
    requires GoodParts([p])
    ensures Stripped(PartArgs(p) + rest) == Prefixed(Kept([p]), Stripped(rest))
  {
    assert [p][0] == p && [p][1..] == [] && Kept([]) == [];
    PrefixedTwice([], [], Stripped(rest));
    var line := PartArgs(p) + rest;
    match p
    case Selector(_) =>
      assert line[0] == HOST && line[2..] == rest && Kept([p]) == [] + [];
    case SelectorEquals(value) =>
      assert Kept([p]) == [] + [] && StartsWith(line[0], HOST_EQUALS);
      assert line[0] == HOST_EQUALS + value && line[1..] == rest;
      assert line[0] != SEPARATOR && line[0] != HOST by {
        assert |line[0]| >= 7;
      }
    case Other(arg) =>
      assert line[0] == arg && line[1..] == rest;
      assert Kept([p]) == [arg] + [] == [arg] && GoodParts([p]);
  }

  lemma KeptFirst(parts: seq<Part>)
    requires parts != []
    ensures Kept(parts) == Kept([parts[0]]) + Kept(parts[1..])
  {
    var one := [parts[0]];
    assert one[1..] == [] && Kept([]) == [];
    assert parts[0].Other? ==> Kept(one) == [parts[0].arg] + [] == [parts[0].arg];
    assert !parts[0].Other? ==> Kept(one) == [] + [] == [];
  }

  /** Before the separator exactly the selectors go; from it on nothing changes. */
  lemma {:induction false} StripOfParts(parts: seq<Part>, tail: seq<string>)
    requires GoodParts(parts) && (tail == [] || tail[0] == SEPARATOR || tail == [HOST])
    ensures Stripped(Line(parts) + tail) == if tail == [HOST] then None else Some(Kept(parts) + tail)
  {
    if parts == [] {
      assert [] + tail == tail;
    } else {
      assert GoodParts([parts[0]]) && GoodParts(parts[1..]);
      StripOfParts(parts[1..], tail);
      assert Line(parts) == PartArgs(parts[0]) + Line(parts[1..]);
      Regroup(PartArgs(parts[0]), Line(parts[1..]), tail);
      StripPart(parts[0], Line(parts[1..]) + tail);
      KeptFirst(parts);
      hide Stripped, Kept, Line, GoodParts, PartArgs;
      PrefixedTwice(Kept([parts[0]]), Kept(parts[1..]), Some(tail));
      Regroup(Kept([parts[0]]), Kept(parts[1..]), tail);
    }
  }

  /** Every command line has that form, so stripping is decided for every line; it fails
      exactly for a selector without its value at the end. */
  lemma {:induction false} EveryLineHasParts(raw: seq<string>) returns (parts: seq<Part>, tail: seq<string>)
    ensures GoodParts(parts) && (tail == [] || tail[0] == SEPARATOR || tail == [HOST])
    ensures raw == Line(parts) + tail
    ensures Stripped(raw) == if tail == [HOST] then None else Some(Kept(parts) + tail)
  {
    if raw == [] || raw[0] == SEPARATOR || raw == [HOST] {
      parts, tail := [], raw;
      assert [] + raw == raw;
    } else {
      var p := if raw[0] == HOST then Selector(raw[1])
               else if StartsWith(raw[0], HOST_EQUALS) then SelectorEquals(raw[0][7..])
               else Other(raw[0]);
      var rest := if raw[0] == HOST then raw[2..] else raw[1..];
      assert |HOST_EQUALS| == 7;
      assert StartsWith(raw[0], HOST_EQUALS) ==> raw[0] == HOST_EQUALS + raw[0][7..];
      assert raw == PartArgs(p) + rest;
      var more, end := EveryLineHasParts(rest);
      parts, tail := [p] + more, end;
      assert parts[1..] == more;
      Regroup(PartArgs(p), Line(more), end);
    }
    StripOfParts(parts, tail);
  }

  /** The stripped line has no selector left before its separator. */
  lemma StrippedStaysStripped(raw: seq<string>)
    ensures Stripped(raw).Some? ==> Stripped(Stripped(raw).value) == Stripped(raw)
  {
    var parts, tail := EveryLineHasParts(raw);
    if tail != [HOST] {
      var others := OthersOf(parts);
      StripOfParts(others, tail);
    }
  }

  lemma {:induction false} OthersOf(parts: seq<Part>) returns (others: seq<Part>)
    requires GoodParts(parts)
    ensures GoodParts(others) && Line(others) == Kept(parts) == Kept(others)
  {
    if parts == [] {
      others := [];
    } else {
      var rest := OthersOf(parts[1..]);
      if parts[0].Other? {
        others := [parts[0]] + rest;
        assert others[1..] == rest;
      } else {
        others := rest;
        assert [] + Kept(parts[1..]) == Kept(parts[1..]);
      }
    }
  }
}
