/**
 * UTF-8, the byte form of a Rust `String`. `String::into_bytes` hands out this
 * encoding; reading a string back from bytes is `Decode`, which accepts exactly
 * the well-formed (shortest-form, non-surrogate) encodings.
 */
module Utf8 {
  import opened Ints
  import opened Wrappers

  predicate IsContinuation(b: u8) {
    0x80 <= b < 0xC0
  }

  /** The one to four bytes of one Unicode scalar value. */
  function EncodeChar(c: char): (r: seq<u8>)
    ensures 1 <= |r| <= 4
    ensures r[0] < 0x80 <==> |r| == 1
    ensures forall i :: 1 <= i < |r| ==> IsContinuation(r[i])
  {
    var n := c as int;
    if n < 0x80 then [n]
    else if n < 0x800 then [0xC0 + n / 64, 0x80 + n % 64]
    else if n < 0x1_0000 then [0xE0 + n / 4096, 0x80 + n / 64 % 64, 0x80 + n % 64]
    else [0xF0 + n / 262144, 0x80 + n / 4096 % 64, 0x80 + n / 64 % 64, 0x80 + n % 64]
  }

  function Encode(s: string): (r: seq<u8>)
    ensures |s| <= |r| <= 4 * |s|
  {
    if s == [] then [] else EncodeChar(s[0]) + Encode(s[1..])
  }

  /** The first scalar value of `b` and the number of bytes it takes, if `b` starts well formed. */
  function DecodeChar(b: seq<u8>): (r: Option<(char, nat)>)
    ensures r.Some? ==> 1 <= r.value.1 <= |b| && r.value.1 <= 4
  {
    if |b| == 0 then None
    else if b[0] < 0x80 then Some((b[0] as char, 1))
    else if 0xC0 <= b[0] < 0xE0 then
      if |b| < 2 || !IsContinuation(b[1]) then None
      else
        var n := (b[0] as int - 0xC0) * 64 + (b[1] as int - 0x80);
        if 0x80 <= n then Some((n as char, 2)) else None
    else if 0xE0 <= b[0] < 0xF0 then
      if |b| < 3 || !IsContinuation(b[1]) || !IsContinuation(b[2]) then None
      else
        var n := (b[0] as int - 0xE0) * 4096 + (b[1] as int - 0x80) * 64 + (b[2] as int - 0x80);
        if 0x800 <= n && !(0xD800 <= n < 0xE000) then Some((n as char, 3)) else None
    else if 0xF0 <= b[0] < 0xF8 then
      if |b| < 4 || !IsContinuation(b[1]) || !IsContinuation(b[2]) || !IsContinuation(b[3]) then None
      else
        var n := (b[0] as int - 0xF0) * 262144 + (b[1] as int - 0x80) * 4096 + (b[2] as int - 0x80) * 64 + (b[3] as int - 0x80);
        if 0x1_0000 <= n < 0x11_0000 then Some((n as char, 4)) else None
    else None
  }

  function Decode(b: seq<u8>): (r: Option<string>)
    decreases |b|
  {
    if b == [] then Some([])
    else match DecodeChar(b)
      case None => None
      case Some((c, k)) =>
        match Decode(b[k..])
        case None => None
        case Some(rest) => Some([c] + rest)
  }

  /** Decoding the encoding of one character, whatever follows it, gives back that character. */
  lemma DecodeEncodeChar(c: char, rest: seq<u8>)
    ensures DecodeChar(EncodeChar(c) + rest) == Some((c, |EncodeChar(c)|))
  {
    var n := c as int;
    var b := EncodeChar(c) + rest;
    if n < 0x80 {
    } else if n < 0x800 {
      DecodeTwo(n, b);
    } else if n < 0x1_0000 {
      DecodeThree(n, b);
    } else {
      DecodeFour(n, b);
    }
  }

  lemma DecodeTwo(n: int, b: seq<u8>)
    requires 0x80 <= n < 0x800
    requires |b| >= 2 && b[0] == 0xC0 + n / 64 && b[1] == 0x80 + n % 64
    ensures DecodeChar(b) == Some((n as char, 2))
  {
    assert (b[0] as int - 0xC0) * 64 + (b[1] as int - 0x80) == n;
  }

  lemma DecodeThree(n: int, b: seq<u8>)
    requires 0x800 <= n < 0x1_0000 && !(0xD800 <= n < 0xE000)
    requires |b| >= 3 && b[0] == 0xE0 + n / 4096 && b[1] == 0x80 + n / 64 % 64 && b[2] == 0x80 + n % 64
    ensures DecodeChar(b) == Some((n as char, 3))
  {
    var q := n / 64;
    assert n == q * 64 + n % 64;
    assert q == (n / 4096) * 64 + q % 64;
    assert (b[0] as int - 0xE0) * 4096 + (b[1] as int - 0x80) * 64 + (b[2] as int - 0x80) == n;
  }

  lemma DecodeFour(n: int, b: seq<u8>)
    requires 0x1_0000 <= n < 0x11_0000
    requires |b| >= 4 && b[0] == 0xF0 + n / 262144 && b[1] == 0x80 + n / 4096 % 64
    requires b[2] == 0x80 + n / 64 % 64 && b[3] == 0x80 + n % 64
    ensures DecodeChar(b) == Some((n as char, 4))
  {
    var q := n / 64;
    var p := n / 4096;
    assert n == q * 64 + n % 64;
    assert q == p * 64 + q % 64;
    assert p == (n / 262144) * 64 + p % 64;
    assert (b[0] as int - 0xF0) * 262144 + (b[1] as int - 0x80) * 4096 + (b[2] as int - 0x80) * 64 + (b[3] as int - 0x80) == n;
  }

  /** Round trip: the bytes of a string read back as that string. */
  lemma {:induction false} DecodeEncode(s: string)
    ensures Decode(Encode(s)) == Some(s)
  {
    if s != [] {
      var head := EncodeChar(s[0]);
      var tail := Encode(s[1..]);
      DecodeEncodeChar(s[0], tail);
      assert (head + tail)[|head|..] == tail;
      DecodeEncode(s[1..]);
      assert [s[0]] + s[1..] == s;
    }
  }

  /** A character read from the front of `b` is encoded by exactly the bytes it was read from. */
  lemma EncodeDecodeChar(b: seq<u8>)
    requires DecodeChar(b).Some?
    ensures var (c, k) := DecodeChar(b).value; EncodeChar(c) == b[..k]
  {
    if b[0] < 0x80 {
    } else if b[0] < 0xE0 {
      EncodeTwo(b[0] as int - 0xC0, b[1] as int - 0x80);
    } else if b[0] < 0xF0 {
      EncodeThree(b[0] as int - 0xE0, b[1] as int - 0x80, b[2] as int - 0x80);
    } else {
      EncodeFour(b[0] as int - 0xF0, b[1] as int - 0x80, b[2] as int - 0x80, b[3] as int - 0x80);
    }
  }

  lemma EncodeTwo(hi: int, lo: int)
    requires 0 <= hi < 32 && 0 <= lo < 64 && 0x80 <= hi * 64 + lo
    ensures var n := hi * 64 + lo; EncodeChar(n as char) == [0xC0 + hi, 0x80 + lo]
  {
    var n := hi * 64 + lo;
    assert n / 64 == hi && n % 64 == lo;
  }

  lemma EncodeThree(hi: int, mid: int, lo: int)
    requires 0 <= hi < 16 && 0 <= mid < 64 && 0 <= lo < 64
    requires var n := (hi * 64 + mid) * 64 + lo; 0x800 <= n && !(0xD800 <= n < 0xE000)
    ensures var n := (hi * 64 + mid) * 64 + lo; EncodeChar(n as char) == [0xE0 + hi, 0x80 + mid, 0x80 + lo]
  {
    var n := (hi * 64 + mid) * 64 + lo;
    assert n / 64 == hi * 64 + mid && n % 64 == lo;
    assert (n / 64) / 64 == hi && (n / 64) % 64 == mid;
    assert n / 4096 == (n / 64) / 64;
  }

  lemma EncodeFour(top: int, hi: int, mid: int, lo: int)
    requires 0 <= top < 8 && 0 <= hi < 64 && 0 <= mid < 64 && 0 <= lo < 64
    requires var n := ((top * 64 + hi) * 64 + mid) * 64 + lo; 0x1_0000 <= n < 0x11_0000
    ensures var n := ((top * 64 + hi) * 64 + mid) * 64 + lo;
      EncodeChar(n as char) == [0xF0 + top, 0x80 + hi, 0x80 + mid, 0x80 + lo]
  {
    var n := ((top * 64 + hi) * 64 + mid) * 64 + lo;
    assert n / 64 == (top * 64 + hi) * 64 + mid && n % 64 == lo;
    assert (n / 64) / 64 == top * 64 + hi && (n / 64) % 64 == mid;
    assert ((n / 64) / 64) / 64 == top && ((n / 64) / 64) % 64 == hi;
    assert n / 4096 == (n / 64) / 64;
    assert n / 262144 == ((n / 64) / 64) / 64;
  }

  /** How a successful decode of a non-empty buffer splits into its first character and the rest. */
  lemma DecodeSplit(b: seq<u8>)
    requires b != [] && Decode(b).Some?
    ensures DecodeChar(b).Some?
    ensures var (c, k) := DecodeChar(b).value;
      Decode(b[k..]).Some? && Decode(b).value == [c] + Decode(b[k..]).value
  {
  }

  /** The first character read from `b`, the bytes it took, and the rest of the reading. */
  lemma DecodeStep(b: seq<u8>) returns (c: char, k: nat)
    requires b != [] && Decode(b).Some?
    ensures 1 <= k <= |b| && EncodeChar(c) == b[..k]
    ensures Decode(b[k..]).Some? && Decode(b).value == [c] + Decode(b[k..]).value
  {
    DecodeSplit(b);
    EncodeDecodeChar(b);
    c, k := DecodeChar(b).value.0, DecodeChar(b).value.1;
  }

  /** Decoding is exact: bytes that read as a string are that string's encoding. */
  lemma {:induction false} EncodeDecode(b: seq<u8>)
    requires Decode(b).Some?
    ensures Encode(Decode(b).value) == b
    decreases |b|
  {
    if b != [] {
      var c, k := DecodeStep(b);
      var rest := Decode(b[k..]).value;
      var s := Decode(b).value;
      EncodeDecode(b[k..]);
      assert s[0] == c && s[1..] == rest;
      assert Encode(s) == EncodeChar(c) + Encode(rest);
      assert b == b[..k] + b[k..];
    }
  }

  /** `b` decodes to `s` exactly when `b` is the encoding of `s`. */
  lemma DecodeExactly(b: seq<u8>)
    ensures forall s :: Decode(b) == Some(s) <==> Encode(s) == b
  {
    if Decode(b).Some? {
      EncodeDecode(b);
    }
    forall s | Encode(s) == b
      ensures Decode(b) == Some(s)
    {
      DecodeEncode(s);
    }
  }
}
