/** Which byte sequences are strings: the grammar of section 4 of RFC 3629, as `String::from_utf8` applies it. */
module Utf8 {
  import opened Bytes

  predicate Tail(x: byte) {
    0x80 <= x <= 0xBF
  }

  /** Length of the well-formed character that starts b, or 0 if none does. */
  function CharLength(b: bytes): (n: nat)
    ensures n <= |b|
  {
    if |b| >= 1 && b[0] <= 0x7F then 1
    else if |b| >= 2 && 0xC2 <= b[0] <= 0xDF && Tail(b[1]) then 2
    else if |b| >= 3 && ThreeByteLead(b[0], b[1]) && Tail(b[2]) then 3
    else if |b| >= 4 && FourByteLead(b[0], b[1]) && Tail(b[2]) && Tail(b[3]) then 4
    else 0
  }

  predicate ThreeByteLead(x: byte, y: byte) {
    || (x == 0xE0 && 0xA0 <= y <= 0xBF)
    || (0xE1 <= x <= 0xEC && Tail(y))
    || (x == 0xED && 0x80 <= y <= 0x9F)
    || (0xEE <= x <= 0xEF && Tail(y))
  }

  predicate FourByteLead(x: byte, y: byte) {
    || (x == 0xF0 && 0x90 <= y <= 0xBF)
    || (0xF1 <= x <= 0xF3 && Tail(y))
    || (x == 0xF4 && 0x80 <= y <= 0x8F)
  }

  predicate ValidUtf8(b: bytes) {
    b == [] || (CharLength(b) > 0 && ValidUtf8(b[CharLength(b)..]))
  }

  // ---- Encoded characters --------------------------------------------------

  /** A Unicode scalar value: a code point that is no surrogate. */
  predicate Scalar(n: nat) {
    n < 0xD800 || 0xE000 <= n <= 0x10_FFFF
  }

  /** The encoding of section 3 of RFC 3629. */
  function Encode(n: nat): bytes
    requires Scalar(n)
  {
    if n < 0x80 then [n]
    else if n < 0x800 then [0xC0 + n / 64, 0x80 + n % 64]
    else if n < 0x1_0000 then [0xE0 + n / 4096, 0x80 + n / 64 % 64, 0x80 + n % 64]
    else [0xF0 + n / 262144, 0x80 + n / 4096 % 64, 0x80 + n / 64 % 64, 0x80 + n % 64]
  }

  ghost predicate AllScalar(text: seq<nat>) {
    forall i :: 0 <= i < |text| ==> Scalar(text[i])
  }

  function EncodeAll(text: seq<nat>): bytes
    requires AllScalar(text)
  {
    if text == [] then [] else Encode(text[0]) + EncodeAll(text[1..])
  }

  /** Three digits to the base 64, and what they make up. */
  lemma Digits64(n: nat, a: nat, b: nat, c: nat)
    requires n == a * 4096 + b * 64 + c && b < 64 && c < 64
    ensures n / 4096 == a && n / 64 % 64 == b && n % 64 == c && n / 64 == a * 64 + b
  {
  }

  lemma HighDigit64(n: nat, a: nat, b: nat)
    requires n / 4096 == a * 64 + b && b < 64
    ensures n / 262144 == a && n / 4096 % 64 == b
  {
    var low := n % 4096;
    assert n == 262144 * a + 4096 * b + low;
  }

  lemma ThreeByteEncoding(a: nat, b: nat, c: nat)
    requires 0x800 <= a * 4096 + b * 64 + c < 0x1_0000 && b < 64 && c < 64
    requires Scalar(a * 4096 + b * 64 + c)
    ensures Encode(a * 4096 + b * 64 + c) == [0xE0 + a, 0x80 + b, 0x80 + c]
  {
    Digits64(a * 4096 + b * 64 + c, a, b, c);
  }

  lemma FourByteEncoding(a: nat, b: nat, c: nat, d: nat)
    requires 0x10 <= a * 64 + b <= 0x10F && b < 64 && c < 64 && d < 64
    ensures Encode((a * 64 + b) * 4096 + c * 64 + d) == [0xF0 + a, 0x80 + b, 0x80 + c, 0x80 + d]
  {
    Digits64((a * 64 + b) * 4096 + c * 64 + d, a * 64 + b, c, d);
    HighDigit64((a * 64 + b) * 4096 + c * 64 + d, a, b);
  }

  lemma CharIsEncoded(b: bytes) returns (n: nat)
    requires CharLength(b) > 0
    ensures Scalar(n) && Encode(n) == b[..CharLength(b)]
  {
    match CharLength(b) {
      case 1 => n := b[0];
      case 2 =>
        var x: nat, y: nat := b[0] - 0xC0, b[1] - 0x80;
        n := x * 64 + y;
      case 3 =>
        var x: nat, y: nat, z: nat := b[0] - 0xE0, b[1] - 0x80, b[2] - 0x80;
        n := x * 4096 + y * 64 + z;
        ThreeByteEncoding(x, y, z);
      case _ =>
        var w: nat, x: nat, y: nat, z: nat := b[0] - 0xF0, b[1] - 0x80, b[2] - 0x80, b[3] - 0x80;
        n := (w * 64 + x) * 4096 + y * 64 + z;
        FourByteEncoding(w, x, y, z);
    }
  }

  lemma ThreeByteChar(a: nat, b: nat, c: nat, rest: bytes)
    requires 0x800 <= a * 4096 + b * 64 + c < 0x1_0000 && b < 64 && c < 64
    requires Scalar(a * 4096 + b * 64 + c)
    ensures CharLength([0xE0 + a, 0x80 + b, 0x80 + c] + rest) == 3
  {
    assert ThreeByteLead(0xE0 + a, 0x80 + b);
  }

  lemma FourByteChar(a: nat, b: nat, c: nat, d: nat, rest: bytes)
    requires 0x10 <= a * 64 + b <= 0x10F && b < 64 && c < 64 && d < 64
    ensures CharLength([0xF0 + a, 0x80 + b, 0x80 + c, 0x80 + d] + rest) == 4
  {
    assert FourByteLead(0xF0 + a, 0x80 + b);
  }

  lemma EncodedIsChar(n: nat, rest: bytes)
    requires Scalar(n)
    ensures CharLength(Encode(n) + rest) == |Encode(n)| && |Encode(n)| > 0
  {
    if n >= 0x800 {
      hide CharLength;
      var high, c, d := n / 4096, n / 64 % 64, n % 64;
      assert n == high * 4096 + c * 64 + d;
      if n < 0x1_0000 {
        ThreeByteChar(high, c, d, rest);
      } else {
        assert high == n / 262144 * 64 + high % 64;
        FourByteChar(n / 262144, high % 64, c, d, rest);
      }
    }
  }

  /** What the grammar accepts is what there is to encode: a byte sequence is a string exactly when it is the
      encoding of some sequence of scalar values. */
  lemma ValidIffEncoded(b: bytes)
    ensures ValidUtf8(b) <==> exists text :: AllScalar(text) && EncodeAll(text) == b
  {
    if ValidUtf8(b) {
      var text := Decoded(b);
    }
    if text :| AllScalar(text) && EncodeAll(text) == b {
      EncodedIsValid(text);
    }
  }

  lemma {:induction false} Decoded(b: bytes) returns (text: seq<nat>)
    requires ValidUtf8(b)
    ensures AllScalar(text) && EncodeAll(text) == b
    decreases |b|
  {
    hide Encode, Scalar;
    if b == [] {
      text := [];
    } else {
      var k := CharLength(b);
      var n := CharIsEncoded(b);
      var rest := Decoded(b[k..]);
      hide CharLength;
      text := [n] + rest;
      assert text[1..] == rest && b == b[..k] + b[k..];
    }
  }

  lemma {:induction false} EncodedIsValid(text: seq<nat>)
    requires AllScalar(text)
    ensures ValidUtf8(EncodeAll(text))
  {
    hide Encode, CharLength;
    if text != [] {
      var rest := EncodeAll(text[1..]);
      EncodedIsValid(text[1..]);
      EncodedIsChar(text[0], rest);
      assert (Encode(text[0]) + rest)[|Encode(text[0])|..] == rest;
    }
  }
}
