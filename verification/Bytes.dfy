/** Bytes, 32-bit lengths and the length-prefixed block that every format of the library is built from. */
module Bytes {

  type byte = x: int | 0 <= x < 256

  type bytes = seq<byte>

  const U32_LIMIT: int := 0x1_0000_0000

  type u32 = x: int | 0 <= x < 0x1_0000_0000

  datatype Option<+T> = None | Some(value: T)

  /** What a parser returns: a value and the bytes after it, or nothing. */
  datatype Parsed<+T> = Rejected | Parsed(value: T, rest: bytes) {
    predicate IsFailure() { Rejected? }

    function PropagateFailure<U>(): Parsed<U>
      requires Rejected?
    {
      Rejected
    }

    function Extract(): (T, bytes)
      requires Parsed?
    {
      (value, rest)
    }
  }

  /** The cast `len as u32` keeps the low 32 bits. */
  function AsU32(n: nat): u32 {
    n % U32_LIMIT
  }

  lemma ShortLength(n: nat)
    requires n < U32_LIMIT
    ensures AsU32(n) == n
  {
  }

  // ---- 32-bit lengths as bytes ---------------------------------------------

  function Power(width: nat): nat {
    if width == 0 then 1 else 256 * Power(width - 1)
  }

  /** The low digits of n, base 256, least first. */
  function LeDigits(n: nat, width: nat): (b: bytes)
    ensures |b| == width
  {
    if width == 0 then [] else [n % 256] + LeDigits(n / 256, width - 1)
  }

  function FromLeDigits(b: bytes): (n: nat)
    ensures n < Power(|b|)
  {
    if b == [] then 0 else b[0] + 256 * FromLeDigits(b[1..])
  }

  /** The same, greatest first. */
  function BeDigits(n: nat, width: nat): (b: bytes)
    ensures |b| == width
  {
    if width == 0 then [] else BeDigits(n / 256, width - 1) + [n % 256]
  }

  function FromBeDigits(b: bytes): (n: nat)
    ensures n < Power(|b|)
  {
    if b == [] then 0 else 256 * FromBeDigits(b[..|b| - 1]) + b[|b| - 1]
  }

  lemma FourBytes()
    ensures Power(4) == U32_LIMIT
  {
    assert Power(2) == 0x1_0000;
  }

  function Le32(n: u32): (b: bytes)
    ensures |b| == 4
  {
    LeDigits(n, 4)
  }

  function FromLe32(b: bytes): u32
    requires |b| == 4
  {
    FourBytes();
    FromLeDigits(b)
  }

  function Be32(n: u32): (b: bytes)
    ensures |b| == 4
  {
    BeDigits(n, 4)
  }

  function FromBe32(b: bytes): u32
    requires |b| == 4
  {
    FourBytes();
    FromBeDigits(b)
  }

  lemma {:induction false} LeRoundTrip(n: nat, width: nat)
    requires n < Power(width)
    ensures FromLeDigits(LeDigits(n, width)) == n
  {
    if width > 0 {
      LeRoundTrip(n / 256, width - 1);
      assert LeDigits(n, width)[1..] == LeDigits(n / 256, width - 1);
    }
  }

  lemma {:induction false} LeInverse(b: bytes)
    ensures LeDigits(FromLeDigits(b), |b|) == b
  {
    if b != [] {
      LeInverse(b[1..]);
      var high := FromLeDigits(b[1..]);
      LowDigit(b[0], high);
      assert FromLeDigits(b) == b[0] + 256 * high;
    }
  }

  lemma LowDigit(x: byte, high: nat)
    ensures (x + 256 * high) % 256 == x && (x + 256 * high) / 256 == high
  {
  }

  lemma {:induction false} BeRoundTrip(n: nat, width: nat)
    requires n < Power(width)
    ensures FromBeDigits(BeDigits(n, width)) == n
  {
    if width > 0 {
      BeRoundTrip(n / 256, width - 1);
      assert BeDigits(n, width)[..width - 1] == BeDigits(n / 256, width - 1);
    }
  }

  lemma {:induction false} BeInverse(b: bytes)
    ensures BeDigits(FromBeDigits(b), |b|) == b
  {
    if b != [] {
      BeInverse(b[..|b| - 1]);
    }
  }

  lemma Quotients(n: nat, n1: nat, n2: nat)
    requires n1 == n / 0x100 && n2 == n1 / 0x100
    ensures n2 == n / 0x1_0000 && n2 / 0x100 == n / 0x100_0000
  {
    var n3 := n2 / 0x100;
    assert n == 0x100 * n1 + n % 0x100;
    assert n1 == 0x100 * n2 + n1 % 0x100;
    assert n2 == 0x100 * n3 + n2 % 0x100;
  }

  lemma OneDigit(n: nat, width: nat)
    ensures LeDigits(n, width + 1) == [n % 256] + LeDigits(n / 256, width)
    ensures BeDigits(n, width + 1) == BeDigits(n / 256, width) + [n % 256]
    ensures LeDigits(n, 0) == BeDigits(n, 0) == []
  {
  }

  /** The lengths and codes of the formats: the least significant byte first in messages and headers, the most
      significant first in frames. */
  lemma ByteOrder(n: u32)
    ensures Le32(n) == [n % 256, n / 0x100 % 256, n / 0x1_0000 % 256, n / 0x100_0000 % 256]
    ensures Be32(n) == [n / 0x100_0000 % 256, n / 0x1_0000 % 256, n / 0x100 % 256, n % 256]
  {
    hide LeDigits, BeDigits;
    var n1 := n / 0x100;
    var n2 := n1 / 0x100;
    var n3 := n2 / 0x100;
    OneDigit(n, 3);
    OneDigit(n1, 2);
    OneDigit(n2, 1);
    OneDigit(n3, 0);
    Quotients(n, n1, n2);
  }

  lemma U32RoundTrip(n: u32)
    ensures FromLe32(Le32(n)) == n
    ensures FromBe32(Be32(n)) == n
  {
    FourBytes();
    LeRoundTrip(n, 4);
    BeRoundTrip(n, 4);
  }

  lemma U32BytesRoundTrip(b: bytes)
    requires |b| == 4
    ensures Le32(FromLe32(b)) == b
    ensures Be32(FromBe32(b)) == b
  {
    LeInverse(b);
    BeInverse(b);
  }

  // ---- Parsers -------------------------------------------------------------

  /** `read_exact` into a buffer of n bytes. */
  function TakeBytes(b: bytes, n: nat): Parsed<bytes> {
    if |b| < n then Rejected else Parsed(b[..n], b[n..])
  }

  function TakeLe32(b: bytes): Parsed<u32> {
    var (raw, rest) :- TakeBytes(b, 4);
    Parsed(FromLe32(raw), rest)
  }

  /** A little-endian length and that many bytes. */
  function TakeBlock(b: bytes): Parsed<bytes> {
    var (n, rest) :- TakeLe32(b);
    TakeBytes(rest, n)
  }

  function Block(d: bytes): bytes {
    Le32(AsU32(|d|)) + d
  }

  lemma TakeBytesBack(d: bytes, rest: bytes)
    ensures TakeBytes(d + rest, |d|) == Parsed(d, rest)
  {
    assert (d + rest)[..|d|] == d && (d + rest)[|d|..] == rest;
  }

  lemma TakeLe32Back(n: u32, rest: bytes)
    ensures TakeLe32(Le32(n) + rest) == Parsed(n, rest)
  {
    TakeBytesBack(Le32(n), rest);
    U32RoundTrip(n);
  }

  lemma TakeLe32Inverse(b: bytes)
    requires TakeLe32(b).Parsed?
    ensures b == Le32(TakeLe32(b).value) + TakeLe32(b).rest
  {
    U32BytesRoundTrip(b[..4]);
    assert b == b[..4] + b[4..];
  }

  /** A block is read back exactly when its length fits in the 32-bit length field. */
  lemma BlockRoundTripIff(d: bytes, rest: bytes)
    ensures TakeBlock(Block(d) + rest) == Parsed(d, rest) <==> |d| < U32_LIMIT
  {
    hide Le32, FromLe32;
    var n := AsU32(|d|);
    assert Block(d) + rest == Le32(n) + (d + rest);
    TakeLe32Back(n, d + rest);
    if |d| < U32_LIMIT {
      TakeBytesBack(d, rest);
    }
  }

  lemma BlockInverse(b: bytes)
    requires TakeBlock(b).Parsed?
    ensures |TakeBlock(b).value| < U32_LIMIT
    ensures b == Block(TakeBlock(b).value) + TakeBlock(b).rest
  {
    hide Le32, FromLe32;
    TakeLe32Inverse(b);
    var Parsed(n, rest) := TakeLe32(b);
    Regroup(Le32(n), rest[..n], rest[n..]);
    assert rest == rest[..n] + rest[n..];
    assert AsU32(|rest[..n]|) == n;
  }

  lemma Regroup(a: bytes, b: bytes, c: bytes)
    ensures a + (b + c) == a + b + c
  {
  }

  /** A read position over a buffer, as the decoders use it. */
  class Cursor {
    const data: bytes
    var pos: nat

    ghost predicate Valid()
      reads this
    {
      pos <= |data|
    }

    ghost function Remaining(): bytes
      requires Valid()
      reads this
    {
      data[pos..]
    }

    constructor (data: bytes)
      ensures Valid() && this.data == data && Remaining() == data
    {
      this.data := data;
      pos := 0;
    }

    /** Fails, as `read_exact` does, when fewer than n bytes are left. */
    method ReadExact(n: nat) returns (r: Option<bytes>)
      requires Valid()
      modifies this
      ensures Valid()
      ensures match TakeBytes(old(Remaining()), n)
              case Rejected => r.None?
              case Parsed(v, rest) => r == Some(v) && Remaining() == rest
    {
      if |data| - pos < n {
        return None;
      }
      assert data[pos..][..n] == data[pos..pos + n] && data[pos..][n..] == data[pos + n..];
      r := Some(data[pos..pos + n]);
      pos := pos + n;
    }

    method ReadLe32() returns (r: Option<u32>)
      requires Valid()
      modifies this
      ensures Valid()
      ensures match TakeLe32(old(Remaining()))
              case Rejected => r.None?
              case Parsed(v, rest) => r == Some(v) && Remaining() == rest
    {
      var raw := ReadExact(4);
      r := if raw.None? then None else Some(FromLe32(raw.value));
    }

    method ReadBlock() returns (r: Option<bytes>)
      requires Valid()
      modifies this
      ensures Valid()
      ensures match TakeBlock(old(Remaining()))
              case Rejected => r.None?
              case Parsed(v, rest) => r == Some(v) && Remaining() == rest
    {
      var n := ReadLe32();
      if n.None? {
        return None;
      }
      r := ReadExact(n.value);
    }
  }
}
