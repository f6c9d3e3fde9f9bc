/**
 * The string codec behind the lister's hash token: `encode` turns a string
 * into its UTF-8 bytes (RFC 3629) and those into base64 text (section 4 of
 * RFC 4648, with padding); `decode` undoes both and fails on malformed input.
 */
module Codec {
  import opened Wrappers

  type Byte = b: int | 0 <= b < 256

  // ---------------------------------------------------------------- UTF-8

  predicate IsContinuation(b: Byte) {
    0x80 <= b < 0xC0
  }

  /** The UTF-8 form of one Unicode scalar value: one to four bytes. */
  function EncodeScalar(c: char): (r: seq<Byte>)
    ensures 1 <= |r| <= 4
  {
    var n := c as int;
    if n < 0x80 then [n]
    else if n < 0x800 then [0xC0 + n / 64, 0x80 + n % 64]
    else if n < 0x10000 then [0xE0 + n / 4096, 0x80 + n / 64 % 64, 0x80 + n % 64]
    else [0xF0 + n / 0x40000, 0x80 + n / 4096 % 64, 0x80 + n / 64 % 64, 0x80 + n % 64]
  }

  function Utf8Encode(s: string): seq<Byte>
    decreases |s|
  {
    if s == [] then [] else EncodeScalar(s[0]) + Utf8Encode(s[1..])
  }

  /**
   * The scalar value at the front of `b` and the number of bytes it takes,
   * or None when `b` does not start with a well-formed UTF-8 sequence
   * (a stray continuation byte, a truncated sequence, an overlong form, a
   * surrogate, or a value above U+10FFFF).
   */
  function DecodeScalar(b: seq<Byte>): (r: Option<(char, nat)>)
    requires |b| > 0
    ensures r.Some? ==> 1 <= r.value.1 <= |b| && r.value.1 <= 4
  {
    var b0, b1, b2, b3 := b[0] as int, if |b| > 1 then b[1] as int else 0,
      if |b| > 2 then b[2] as int else 0, if |b| > 3 then b[3] as int else 0;
    if b0 < 0x80 then Some((b0 as char, 1))
    else if b0 < 0xC2 then None
    else if b0 < 0xE0 then
      if |b| < 2 || !IsContinuation(b[1]) then None
      else Some((((b0 - 0xC0) * 64 + (b1 - 0x80)) as char, 2))
    else if b0 < 0xF0 then
      if |b| < 3 || !IsContinuation(b[1]) || !IsContinuation(b[2]) then None
      else
        var n := (b0 - 0xE0) * 4096 + (b1 - 0x80) * 64 + (b2 - 0x80);
        if n < 0x800 || 0xD800 <= n < 0xE000 then None else Some((n as char, 3))
    else if b0 < 0xF5 then
      if |b| < 4 || !IsContinuation(b[1]) || !IsContinuation(b[2]) || !IsContinuation(b[3]) then None
      else
        var n := (b0 - 0xF0) * 0x40000 + (b1 - 0x80) * 4096 + (b2 - 0x80) * 64 + (b3 - 0x80);
        if n < 0x10000 || 0x110000 <= n then None else Some((n as char, 4))
    else None
  }

  function Utf8Decode(b: seq<Byte>): Option<string>
    decreases |b|
  {
    if b == [] then Some([])
    else match DecodeScalar(b)
      case None => None
      case Some((c, k)) =>
        match Utf8Decode(b[k..])
        case None => None
        case Some(s) => Some([c] + s)
  }

  /** Decoding the bytes of one scalar value, whatever follows them, gives that value back. */
  lemma DecodeEncodedScalar(c: char, rest: seq<Byte>)
    ensures DecodeScalar(EncodeScalar(c) + rest) == Some((c, |EncodeScalar(c)|))
  {
    var n := c as int;
    if n < 0x80 {
    } else if n < 0x800 {
      DecodeTwoBytes(c, rest);
    } else if n < 0x10000 {
      DecodeThreeBytes(c, rest);
    } else {
      DecodeFourBytes(c, rest);
    }
  }

  lemma DecodeTwoBytes(c: char, rest: seq<Byte>)
    requires 0x80 <= c as int < 0x800
    ensures DecodeScalar(EncodeScalar(c) + rest) == Some((c, 2))
  {
    var n := c as int;
    var b := EncodeScalar(c) + rest;
    var b0, b1 := b[0] as int, b[1] as int;
    assert b0 == 0xC0 + n / 64 && b1 == 0x80 + n % 64;
    assert (b0 - 0xC0) * 64 + (b1 - 0x80) == n;
  }

  lemma DecodeThreeBytes(c: char, rest: seq<Byte>)
    requires 0x800 <= c as int < 0x10000
    ensures DecodeScalar(EncodeScalar(c) + rest) == Some((c, 3))
  {
    var n := c as int;
    var b := EncodeScalar(c) + rest;
    var b0, b1, b2 := b[0] as int, b[1] as int, b[2] as int;
    assert b0 == 0xE0 + n / 4096 && b1 == 0x80 + n / 64 % 64 && b2 == 0x80 + n % 64;
    SplitSextets(n, 1);
    assert (b0 - 0xE0) * 4096 + (b1 - 0x80) * 64 + (b2 - 0x80) == n;
  }

  lemma DecodeFourBytes(c: char, rest: seq<Byte>)
    requires 0x10000 <= c as int
    ensures DecodeScalar(EncodeScalar(c) + rest) == Some((c, 4))
  {
    var n := c as int;
    var b := EncodeScalar(c) + rest;
    var b0, b1, b2, b3 := b[0] as int, b[1] as int, b[2] as int, b[3] as int;
    assert b0 == 0xF0 + n / 0x40000 && b1 == 0x80 + n / 4096 % 64;
    assert b2 == 0x80 + n / 64 % 64 && b3 == 0x80 + n % 64;
    SplitSextets(n, 2);
    assert (b0 - 0xF0) * 0x40000 + (b1 - 0x80) * 4096 + (b2 - 0x80) * 64 + (b3 - 0x80) == n;
  }

  /** The base-64 digits of `n` below position `k + 1` recombine to `n`. */
  lemma SplitSextets(n: nat, k: nat)
    requires k <= 2
    ensures n == n / 64 * 64 + n % 64
    ensures k >= 1 ==> n / 64 == n / 4096 * 64 + n / 64 % 64
    ensures k >= 2 ==> n / 4096 == n / 0x40000 * 64 + n / 4096 % 64
  {
  }

  /**
   * The decoder accepts only what the encoder writes: the bytes a decoded
   * scalar value takes are exactly its UTF-8 form, so overlong forms,
   * surrogates and values above U+10FFFF are all refused.
   */
  lemma DecodeScalarSound(b: seq<Byte>)
    requires |b| > 0 && DecodeScalar(b).Some?
    ensures var (c, k) := DecodeScalar(b).value; b[..k] == EncodeScalar(c)
  {
    var (c, k) := DecodeScalar(b).value;
    var b0 := b[0] as int;
    if k == 2 {
      TwoBytesSound(b0, b[1] as int);
      assert b[..2] == [b[0], b[1]];
    } else if k == 3 {
      ThreeBytesSound(b0, b[1] as int, b[2] as int);
      assert b[..3] == [b[0], b[1], b[2]];
    } else if k == 4 {
      FourBytesSound(b0, b[1] as int, b[2] as int, b[3] as int);
      assert b[..4] == [b[0], b[1], b[2], b[3]];
    }
  }

  lemma TwoBytesSound(b0: int, b1: int)
    requires 0xC2 <= b0 < 0xE0 && 0x80 <= b1 < 0xC0
    ensures var n := (b0 - 0xC0) * 64 + (b1 - 0x80);
      0x80 <= n < 0x800 && b0 == 0xC0 + n / 64 && b1 == 0x80 + n % 64
  {
  }

  lemma ThreeBytesSound(b0: int, b1: int, b2: int)
    requires 0xE0 <= b0 < 0xF0 && 0x80 <= b1 < 0xC0 && 0x80 <= b2 < 0xC0
    ensures var n := (b0 - 0xE0) * 4096 + (b1 - 0x80) * 64 + (b2 - 0x80);
      n < 0x10000 && b0 == 0xE0 + n / 4096 && b1 == 0x80 + n / 64 % 64 && b2 == 0x80 + n % 64
  {
    var n := (b0 - 0xE0) * 4096 + (b1 - 0x80) * 64 + (b2 - 0x80);
    SplitSextets(n, 1);
  }

  lemma FourBytesSound(b0: int, b1: int, b2: int, b3: int)
    requires 0xF0 <= b0 < 0xF5 && 0x80 <= b1 < 0xC0 && 0x80 <= b2 < 0xC0 && 0x80 <= b3 < 0xC0
    ensures var n := (b0 - 0xF0) * 0x40000 + (b1 - 0x80) * 4096 + (b2 - 0x80) * 64 + (b3 - 0x80);
      b0 == 0xF0 + n / 0x40000 && b1 == 0x80 + n / 4096 % 64 && b2 == 0x80 + n / 64 % 64 && b3 == 0x80 + n % 64
  {
    var n := (b0 - 0xF0) * 0x40000 + (b1 - 0x80) * 4096 + (b2 - 0x80) * 64 + (b3 - 0x80);
    SplitSextets(n, 2);
  }

  /** A byte string decodes only if it is the UTF-8 encoding of what it decodes to. */
  lemma {:induction false} Utf8DecodeSound(b: seq<Byte>)
    requires Utf8Decode(b).Some?
    ensures Utf8Encode(Utf8Decode(b).value) == b
    decreases |b|
  {
    if b != [] {
      var head := DecodeScalar(b).value;
      var c, k := head.0, head.1;
      var tail := Utf8Decode(b[k..]).value;
      var s := [c] + tail;
      assert Utf8Decode(b) == Some(s);
      DecodeScalarSound(b);
      Utf8DecodeSound(b[k..]);
      assert s[0] == c && s[1..] == tail;
      assert b == b[..k] + b[k..];
    }
  }

  /** UTF-8 decoding inverts UTF-8 encoding on every string of scalar values. */
  lemma {:induction false} Utf8RoundTrip(s: string)
    ensures Utf8Decode(Utf8Encode(s)) == Some(s)
    decreases |s|
  {
    if s != [] {
      var e := EncodeScalar(s[0]);
      var rest := Utf8Encode(s[1..]);
      DecodeEncodedScalar(s[0], rest);
      assert (e + rest)[|e|..] == rest;
      Utf8RoundTrip(s[1..]);
      assert [s[0]] + s[1..] == s;
    }
  }

  // -------------------------------------------------------------- base64

  /** The base64 alphabet of RFC 4648, table 1. */
  function Sextet(v: int): (c: char)
    requires 0 <= v < 64
    ensures c != '='
  {
    if v < 26 then ('A' as int + v) as char
    else if v < 52 then ('a' as int + v - 26) as char
    else if v < 62 then ('0' as int + v - 52) as char
    else if v == 62 then '+'
    else '/'
  }

  /** The value of a base64 alphabet character; None for any other character, padding included. */
  function SextetValue(c: char): (r: Option<int>)
    ensures r.Some? ==> 0 <= r.value < 64 && Sextet(r.value) == c
  {
    if 'A' <= c <= 'Z' then Some(c as int - 'A' as int)
    else if 'a' <= c <= 'z' then Some(c as int - 'a' as int + 26)
    else if '0' <= c <= '9' then Some(c as int - '0' as int + 52)
    else if c == '+' then Some(62)
    else if c == '/' then Some(63)
    else None
  }

  lemma SextetRoundTrip(v: int)
    requires 0 <= v < 64
    ensures SextetValue(Sextet(v)) == Some(v)
  {
  }

  /** The four characters for three bytes. */
  function Quantum(b0: Byte, b1: Byte, b2: Byte): (q: string)
    ensures |q| == 4
  {
    [Sextet(b0 / 4), Sextet(b0 % 4 * 16 + b1 / 16), Sextet(b1 % 16 * 4 + b2 / 64), Sextet(b2 % 64)]
  }

  /** Base64 with `=` padding: each group of three bytes becomes four characters. */
  function Base64Encode(b: seq<Byte>): (r: string)
    decreases |b|
  {
    if |b| == 0 then ""
    else if |b| == 1 then Quantum(b[0], 0, 0)[..2] + "=="
    else if |b| == 2 then Quantum(b[0], b[1], 0)[..3] + "="
    else Quantum(b[0], b[1], b[2]) + Base64Encode(b[3..])
  }

  /** Four characters for every started group of three bytes. */
  lemma {:induction false} Base64Length(b: seq<Byte>)
    ensures |Base64Encode(b)| == (|b| + 2) / 3 * 4
    decreases |b|
  {
    if |b| >= 3 {
      Base64Length(b[3..]);
      assert (|b| + 2) / 3 == (|b[3..]| + 2) / 3 + 1;
    }
  }

  /** One four-character group; padding is accepted only in the `last` group. */
  function DecodeQuantum(q: string, last: bool): (r: Option<seq<Byte>>)
    requires |q| == 4
    ensures r.Some? ==> 1 <= |r.value| <= 3
    ensures r.Some? && !last ==> |r.value| == 3
  {
    var v0, v1 := SextetValue(q[0]), SextetValue(q[1]);
    if v0.None? || v1.None? then None
    else if last && q[2] == '=' && q[3] == '=' then
      Some([v0.value * 4 + v1.value / 16])
    else
      var v2 := SextetValue(q[2]);
      if v2.None? then None
      else if last && q[3] == '=' then
        Some([v0.value * 4 + v1.value / 16, v1.value % 16 * 16 + v2.value / 4])
      else
        var v3 := SextetValue(q[3]);
        if v3.None? then None
        else Some([v0.value * 4 + v1.value / 16, v1.value % 16 * 16 + v2.value / 4, v2.value % 4 * 64 + v3.value])
  }

  function Base64Decode(s: string): Option<seq<Byte>>
    decreases |s|
  {
    if |s| == 0 then Some([])
    else if |s| < 4 then None
    else
      var q := DecodeQuantum(s[..4], |s| == 4);
      if q.None? then None
      else if |s| == 4 then q
      else match Base64Decode(s[4..])
        case None => None
        case Some(rest) => Some(q.value + rest)
  }

  /** Only text whose length is a multiple of four decodes. */
  lemma {:induction false} Base64DecodeLength(s: string)
    ensures Base64Decode(s).Some? ==> |s| % 4 == 0
    decreases |s|
  {
    if |s| > 4 {
      Base64DecodeLength(s[4..]);
    }
  }

  /** The arithmetic of one full group: three bytes survive the trip through four sextets. */
  lemma QuantumArithmetic(b0: Byte, b1: Byte, b2: Byte)
    ensures (b0 / 4) * 4 + (b0 % 4 * 16 + b1 / 16) / 16 == b0
    ensures (b0 % 4 * 16 + b1 / 16) % 16 * 16 + (b1 % 16 * 4 + b2 / 64) / 4 == b1
    ensures (b1 % 16 * 4 + b2 / 64) % 4 * 64 + b2 % 64 == b2
  {
    assert (b0 % 4 * 16 + b1 / 16) / 16 == b0 % 4;
    assert (b0 % 4 * 16 + b1 / 16) % 16 == b1 / 16;
    assert (b1 % 16 * 4 + b2 / 64) / 4 == b1 % 16;
    assert (b1 % 16 * 4 + b2 / 64) % 4 == b2 / 64;
  }

  /** The sextets of a group decode to the values they were made from. */
  lemma QuantumSextets(b0: Byte, b1: Byte, b2: Byte)
    ensures var q := Quantum(b0, b1, b2);
      && SextetValue(q[0]) == Some(b0 / 4)
      && SextetValue(q[1]) == Some(b0 % 4 * 16 + b1 / 16)
      && SextetValue(q[2]) == Some(b1 % 16 * 4 + b2 / 64)
      && SextetValue(q[3]) == Some(b2 % 64)
  {
    SextetRoundTrip(b0 / 4);
    SextetRoundTrip(b0 % 4 * 16 + b1 / 16);
    SextetRoundTrip(b1 % 16 * 4 + b2 / 64);
    SextetRoundTrip(b2 % 64);
  }

  /** A full group decodes to its three bytes, in the last position or not. */
  lemma DecodeFullQuantum(b0: Byte, b1: Byte, b2: Byte, last: bool)
    ensures DecodeQuantum(Quantum(b0, b1, b2), last) == Some([b0, b1, b2])
  {
    QuantumSextets(b0, b1, b2);
    QuantumArithmetic(b0, b1, b2);
  }

  /** A final group padded after one or two bytes decodes to those bytes. */
  lemma DecodePaddedQuantum(b0: Byte, b1: Byte)
    ensures DecodeQuantum(Quantum(b0, 0, 0)[..2] + "==", true) == Some([b0])
    ensures DecodeQuantum(Quantum(b0, b1, 0)[..3] + "=", true) == Some([b0, b1])
  {
    QuantumSextets(b0, 0, 0);
    QuantumArithmetic(b0, 0, 0);
    QuantumSextets(b0, b1, 0);
    QuantumArithmetic(b0, b1, 0);
  }

  /** Base64 decoding inverts base64 encoding on every byte string. */
  lemma {:induction false} Base64RoundTrip(b: seq<Byte>)
    ensures Base64Decode(Base64Encode(b)) == Some(b)
    decreases |b|
  {
    if |b| == 1 || |b| == 2 {
      PaddedRoundTrip(b);
    } else if |b| >= 3 {
      Base64RoundTrip(b[3..]);
      GroupThenRest(b);
    }
  }

  /** One or two bytes make a single padded group that decodes back to them. */
  lemma PaddedRoundTrip(b: seq<Byte>)
    requires 1 <= |b| <= 2
    ensures Base64Decode(Base64Encode(b)) == Some(b)
  {
    var s := Base64Encode(b);
    if |b| == 1 {
      DecodePaddedQuantum(b[0], 0);
      assert s[..4] == s;
      assert [b[0]] == b;
    } else {
      DecodePaddedQuantum(b[0], b[1]);
      assert s[..4] == s;
      assert [b[0], b[1]] == b;
    }
  }

  /** A full first group followed by a tail that round-trips round-trips as a whole. */
  lemma GroupThenRest(b: seq<Byte>)
    requires |b| >= 3
    requires Base64Decode(Base64Encode(b[3..])) == Some(b[3..])
    ensures Base64Decode(Base64Encode(b)) == Some(b)
  {
    var head, tail := [b[0], b[1], b[2]], b[3..];
    SplitHead(b);
    var s := Base64Encode(b);
    assert s == Quantum(b[0], b[1], b[2]) + Base64Encode(tail);
    assert s[..4] == Quantum(b[0], b[1], b[2]);
    DecodeFullQuantum(b[0], b[1], b[2], |s| == 4);
    if |b| == 3 {
      assert |s| == 4 && tail == [];
      assert Base64Decode(s) == Some(head);
      assert b == head;
    } else {
      Base64Length(tail);
      assert |Base64Encode(tail)| > 0 && |s| > 4;
      assert s[4..] == Base64Encode(tail);
      assert Base64Decode(s) == Some(head + tail);
      assert b == head + tail;
    }
  }

  lemma SplitHead(b: seq<Byte>)
    requires |b| >= 3
    ensures b == [b[0], b[1], b[2]] + b[3..]
  {
  }

  // ------------------------------------------------------------ the codec

  /** `encode` (src/useLister.ts:213-215): base64 of the UTF-8 bytes. */
  function Encode(s: string): (t: string)
    ensures |t| % 4 == 0
  {
    Base64Length(Utf8Encode(s));
    Base64Encode(Utf8Encode(s))
  }

  /**
   * `decode` (src/useLister.ts:216-218); None where the host functions
   * would throw. A decoded text base64-decodes to exactly the UTF-8 bytes
   * of the result.
   */
  function Decode(t: string): (r: Option<string>)
    ensures r.Some? ==> |t| % 4 == 0
    ensures r.Some? ==> Base64Decode(t) == Some(Utf8Encode(r.value))
  {
    match Base64Decode(t)
    case None => None
    case Some(b) =>
      Base64DecodeLength(t);
      match Utf8Decode(b)
      case None => None
      case Some(s) =>
        Utf8DecodeSound(b);
        Some(s)
  }

  /** Every string of Unicode scalar values survives encode then decode. */
  lemma {:induction false} RoundTrip(s: string)
    ensures Decode(Encode(s)) == Some(s)
  {
    Base64RoundTrip(Utf8Encode(s));
    Utf8RoundTrip(s);
  }
}
