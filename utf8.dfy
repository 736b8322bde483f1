/**
 * Strict UTF-8 (RFC 3629), the check behind Rust's `str::from_utf8` and
 * hence behind mlua's `LuaString::to_str`: no overlong forms, no
 * surrogates, nothing above U+10FFFF.
 */
module Utf8 {
  import opened Wrappers

  type byte = b: int | 0 <= b < 0x100

  predicate IsContinuation(b: byte) {
    0x80 <= b < 0xC0
  }

  /** The bytes that encode one scalar value. */
  function EncodeChar(c: char): (r: seq<byte>)
    ensures 1 <= |r| <= 4
  {
    var n := c as int;
    var q1, q2 := n / 64, n / 64 / 64;
    if n < 0x80 then [n]
    else if n < 0x800 then [0xC0 + q1, 0x80 + n % 64]
    else if n < 0x10000 then [0xE0 + q2, 0x80 + q1 % 64, 0x80 + n % 64]
    else [0xF0 + q2 / 64, 0x80 + q2 % 64, 0x80 + q1 % 64, 0x80 + n % 64]
  }

  function Encode(s: string): (r: seq<byte>)
    ensures |s| <= |r| <= 4 * |s|
  {
    if s == [] then [] else EncodeChar(s[0]) + Encode(s[1..])
  }

  /** One decoded scalar value and the number of bytes it took. */
  datatype Decoded = Decoded(c: char, length: nat)

  /** Second byte of a three-byte sequence: excludes overlong forms and surrogates. */
  predicate SecondOfThree(b0: byte, b1: byte) {
    if b0 == 0xE0 then 0xA0 <= b1 < 0xC0
    else if b0 == 0xED then 0x80 <= b1 < 0xA0
    else IsContinuation(b1)
  }

  /** Second byte of a four-byte sequence: excludes overlong forms and values past U+10FFFF. */
  predicate SecondOfFour(b0: byte, b1: byte) {
    if b0 == 0xF0 then 0x90 <= b1 < 0xC0
    else if b0 == 0xF4 then 0x80 <= b1 < 0x90
    else IsContinuation(b1)
  }

  /** Decodes the scalar value at the front of `b`, if the bytes there are well formed. */
  function DecodeFirst(b: seq<byte>): (r: Option<Decoded>)
    requires b != []
    ensures r.Some? ==> 1 <= r.value.length <= |b|
  {
    var b0: int := b[0];
    if b0 < 0x80 then Some(Decoded(b0 as char, 1))
    else if 0xC2 <= b0 < 0xE0 then
      if |b| >= 2 && IsContinuation(b[1])
      then Some(Decoded(Two(b0, b[1]) as char, 2))
      else None
    else if 0xE0 <= b0 < 0xF0 then
      if |b| >= 3 && SecondOfThree(b0, b[1]) && IsContinuation(b[2])
      then Some(Decoded(Three(b0, b[1], b[2]) as char, 3))
      else None
    else if 0xF0 <= b0 < 0xF5 then
      if |b| >= 4 && SecondOfFour(b0, b[1]) && IsContinuation(b[2]) && IsContinuation(b[3])
      then Some(Decoded(Four(b0, b[1], b[2], b[3]) as char, 4))
      else None
    else None
  }

  /** The scalar value of a two-byte sequence. */
  function Two(b0: byte, b1: byte): (n: int)
    requires 0xC2 <= b0 < 0xE0 && IsContinuation(b1)
    ensures 0x80 <= n < 0x800
  {
    (b0 - 0xC0) as int * 64 + (b1 - 0x80) as int
  }

  /** The scalar value of a three-byte sequence. */
  function Three(b0: byte, b1: byte, b2: byte): (n: int)
    requires 0xE0 <= b0 < 0xF0 && SecondOfThree(b0, b1) && IsContinuation(b2)
    ensures 0x800 <= n < 0xD800 || 0xE000 <= n < 0x10000
  {
    (b0 - 0xE0) as int * 4096 + (b1 - 0x80) as int * 64 + (b2 - 0x80) as int
  }

  /** The scalar value of a four-byte sequence. */
  function Four(b0: byte, b1: byte, b2: byte, b3: byte): (n: int)
    requires 0xF0 <= b0 < 0xF5 && SecondOfFour(b0, b1) && IsContinuation(b2) && IsContinuation(b3)
    ensures 0x10000 <= n < 0x110000
  {
    (b0 - 0xF0) as int * 262144 + (b1 - 0x80) as int * 4096 + (b2 - 0x80) as int * 64 + (b3 - 0x80) as int
  }

  /** The text `b` encodes, or `None` when `b` is not valid UTF-8. */
  function Decode(b: seq<byte>): (r: Option<string>)
    ensures r.Some? ==> |r.value| <= |b|
    decreases |b|
  {
    if b == [] then Some("")
    else match DecodeFirst(b)
      case None => None
      case Some(d) =>
        match Decode(b[d.length..])
        case None => None
        case Some(rest) => Some([d.c] + rest)
  }

  /** Splitting `q * 64 + r` into six-bit groups gives back `q` and `r`. */
  lemma DivMod64(q: int, r: int)
    requires 0 <= r < 64
    ensures (q * 64 + r) / 64 == q && (q * 64 + r) % 64 == r
  {
  }

  lemma DecodeFirstOfEncodeChar(c: char, rest: seq<byte>)
    ensures DecodeFirst(EncodeChar(c) + rest) == Some(Decoded(c, |EncodeChar(c)|))
  {
    var n := c as int;
    var b := EncodeChar(c) + rest;
    if 0x80 <= n < 0x800 {
      assert Two(b[0], b[1]) == n;
    } else if 0x800 <= n < 0x10000 {
      DecodeThreeOfEncode(n);
    } else if 0x10000 <= n {
      DecodeFourOfEncode(n);
    }
  }

  lemma DecodeThreeOfEncode(n: int)
    requires 0x800 <= n < 0xD800 || 0xE000 <= n < 0x10000
    ensures var q1 := n / 64; var q2 := q1 / 64;
      && 0xE0 <= 0xE0 + q2 < 0xF0
      && SecondOfThree(0xE0 + q2, 0x80 + q1 % 64)
      && Three(0xE0 + q2, 0x80 + q1 % 64, 0x80 + n % 64) == n
  {
    var q1 := n / 64;
    var q2 := q1 / 64;
    assert n == q1 * 64 + n % 64;
    assert q1 == q2 * 64 + q1 % 64;
  }

  lemma DecodeFourOfEncode(n: int)
    requires 0x10000 <= n < 0x110000
    ensures var q1 := n / 64; var q2 := q1 / 64;
      && 0xF0 <= 0xF0 + q2 / 64 < 0xF5
      && SecondOfFour(0xF0 + q2 / 64, 0x80 + q2 % 64)
      && Four(0xF0 + q2 / 64, 0x80 + q2 % 64, 0x80 + q1 % 64, 0x80 + n % 64) == n
  {
    var q1 := n / 64;
    var q2 := q1 / 64;
    assert n == q1 * 64 + n % 64;
    assert q1 == q2 * 64 + q1 % 64;
    assert q2 == (q2 / 64) * 64 + q2 % 64;
  }

  lemma EncodeCharOfDecodeFirst(b: seq<byte>)
    requires b != [] && DecodeFirst(b).Some?
    ensures EncodeChar(DecodeFirst(b).value.c) == b[..DecodeFirst(b).value.length]
  {
    var d := DecodeFirst(b).value;
    var n := d.c as int;
    if d.length == 2 {
      DivMod64(b[0] - 0xC0, b[1] - 0x80);
    } else if d.length == 3 {
      var hi: int := (b[0] - 0xE0) as int * 64 + (b[1] - 0x80);
      assert n == hi * 64 + (b[2] - 0x80);
      DivMod64(hi, b[2] - 0x80);
      DivMod64(b[0] - 0xE0, b[1] - 0x80);
    } else if d.length == 4 {
      var top: int := (b[0] - 0xF0) as int * 64 + (b[1] - 0x80);
      var hi: int := top * 64 + (b[2] - 0x80);
      assert n == hi * 64 + (b[3] - 0x80);
      DivMod64(hi, b[3] - 0x80);
      DivMod64(top, b[2] - 0x80);
      DivMod64(b[0] - 0xF0, b[1] - 0x80);
    }
  }

  /** Every string's encoding is valid UTF-8 and decodes back to the string. */
  lemma {:induction false} DecodeEncode(s: string)
    ensures Decode(Encode(s)) == Some(s)
  {
    if s != [] {
      var e := EncodeChar(s[0]);
      DecodeFirstOfEncodeChar(s[0], Encode(s[1..]));
      assert (e + Encode(s[1..]))[|e|..] == Encode(s[1..]);
      DecodeEncode(s[1..]);
      assert [s[0]] + s[1..] == s;
    }
  }

  /** Valid UTF-8 is exactly the encoding of the text it decodes to. */
  lemma {:induction false} EncodeDecode(b: seq<byte>)
    requires Decode(b).Some?
    ensures Encode(Decode(b).value) == b
  {
    if b != [] {
      var d := DecodeFirst(b).value;
      EncodeCharOfDecodeFirst(b);
      EncodeDecode(b[d.length..]);
      var s := Decode(b).value;
      assert s[0] == d.c && s[1..] == Decode(b[d.length..]).value;
      assert b == b[..d.length] + b[d.length..];
    }
  }

  /** A byte string is valid UTF-8 exactly when some text encodes to it. */
  lemma DecodeSucceedsIffEncoded(b: seq<byte>)
    ensures Decode(b).Some? <==> exists s :: Encode(s) == b
  {
    if Decode(b).Some? {
      EncodeDecode(b);
    }
    if s :| Encode(s) == b {
      DecodeEncode(s);
    }
  }
}
