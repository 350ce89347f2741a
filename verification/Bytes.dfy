/** Bytes, options, and the fixed-width big-endian integers of the wire format. */
module Bytes {

  type byte = b: int | 0 <= b < 0x100

  datatype Option<+T> = None | Some(value: T)

  const U16_MODULUS: nat := 0x1_0000
  const U32_MODULUS: nat := 0x1_0000_0000
  const U64_MODULUS: nat := 0x1_0000_0000_0000_0000

  const ESC: byte := 0x1b

  /** The final byte of a control sequence (section 5.4 of ECMA-48). */
  predicate IsFinal(b: byte) { 0x40 <= b <= 0x7e }

  function Min(a: int, b: int): int { if a <= b then a else b }

  function Max(a: int, b: int): int { if a <= b then b else a }

  lemma Regroup<T>(a: seq<T>, b: seq<T>, c: seq<T>)
    ensures a + (b + c) == (a + b) + c && a + b <= a + (b + c)
  {
    assert a + (b + c) == (a + b) + c;
  }

  /** 256 to the power `width`: how many values `width` bytes can hold. */
  function Capacity(width: nat): (c: nat)
    ensures c > 0
  {
    if width == 0 then 1 else 0x100 * Capacity(width - 1)
  }

  lemma Capacities()
    ensures Capacity(2) == U16_MODULUS && Capacity(4) == U32_MODULUS && Capacity(8) == U64_MODULUS
  {
    assert Capacity(4) == 0x1_0000 * Capacity(2);
    assert Capacity(6) == 0x1_0000 * Capacity(4);
  }

  /** The low `width` bytes of `n`, most significant first. */
  function BigEndian(n: nat, width: nat): (s: seq<byte>)
    ensures |s| == width
  {
    if width == 0 then [] else BigEndian(n / 0x100, width - 1) + [n % 0x100]
  }

  function FromBigEndian(s: seq<byte>): nat {
    if s == [] then 0 else FromBigEndian(s[..|s| - 1]) * 0x100 + s[|s| - 1]
  }

  /** A value that fits comes back from its bytes. */
  lemma {:induction false} BigEndianRoundTrip(n: nat, width: nat)
    requires n < Capacity(width)
    ensures FromBigEndian(BigEndian(n, width)) == n
  {
    if width > 0 {
      BigEndianRoundTrip(n / 0x100, width - 1);
      var s := BigEndian(n, width);
      assert s[..|s| - 1] == BigEndian(n / 0x100, width - 1);
    }
  }

  /** Every byte string of that width is the encoding of exactly one value that fits. */
  lemma {:induction false} FromBigEndianRoundTrip(s: seq<byte>)
    ensures FromBigEndian(s) < Capacity(|s|)
    ensures BigEndian(FromBigEndian(s), |s|) == s
  {
    if s != [] {
      FromBigEndianRoundTrip(s[..|s| - 1]);
      assert s[..|s| - 1] + [s[|s| - 1]] == s;
    }
  }
}
