/** UTF-8 as Python's `str.encode()` and `bytes.decode()` use it.  A Dafny
    `char` is a Unicode scalar value, so a `string` is exactly a Python string
    without lone surrogates. */
module Utf8 {
  import opened Common

  function EncodeChar(c: char): (bs: seq<Byte>)
    ensures 1 <= |bs| <= 4
  {
    var n := c as int;
    if n < 0x80 then [n]
    else if n < 0x800 then [0xC0 + n / 0x40, 0x80 + n % 0x40]
    else if n < 0x1_0000 then [0xE0 + n / 0x40 / 0x40, 0x80 + n / 0x40 % 0x40, 0x80 + n % 0x40]
    else [0xF0 + n / 0x40 / 0x40 / 0x40, 0x80 + n / 0x40 / 0x40 % 0x40, 0x80 + n / 0x40 % 0x40, 0x80 + n % 0x40]
  }

  function Encode(s: string): seq<Byte> {
    if s == [] then [] else EncodeChar(s[0]) + Encode(s[1..])
  }

  predicate Continuation(bs: seq<Byte>, i: nat) {
    i < |bs| && 0x80 <= bs[i] < 0xC0
  }

  /** The value of a two-, three- or four-byte form, given its payload bits. */
  function Combine(high: int, low: int): int {
    high * 0x40 + low
  }

  /** The scalar value at the head of `bs` and the number of bytes it takes;
      overlong forms, surrogates and values past U+10FFFF are malformed. */
  function DecodeChar(bs: seq<Byte>): (r: Option<(char, nat)>)
    requires bs != []
    ensures r.Some? ==> 1 <= r.value.1 <= |bs|
  {
    var b: int := bs[0];
    if b < 0x80 then Some((b as char, 1))
    else if 0xC2 <= b < 0xE0 && Continuation(bs, 1) then
      Some((Combine(b - 0xC0, (bs[1] as int) - 0x80) as char, 2))
    else if 0xE0 <= b < 0xF0 && Continuation(bs, 1) && Continuation(bs, 2) then
      var n := Combine(Combine(b - 0xE0, (bs[1] as int) - 0x80), (bs[2] as int) - 0x80);
      if 0x800 <= n && !(0xD800 <= n < 0xE000) then Some((n as char, 3)) else None
    else if 0xF0 <= b < 0xF5 && Continuation(bs, 1) && Continuation(bs, 2) && Continuation(bs, 3) then
      var n := Combine(Combine(Combine(b - 0xF0, (bs[1] as int) - 0x80), (bs[2] as int) - 0x80), (bs[3] as int) - 0x80);
      if 0x1_0000 <= n < 0x11_0000 then Some((n as char, 4)) else None
    else None
  }

  function Decode(bs: seq<Byte>): Option<string> {
    if bs == [] then Some([])
    else
      match DecodeChar(bs)
      case None => None
      case Some((c, k)) =>
        match Decode(bs[k..])
        case None => None
        case Some(s) => Some([c] + s)
  }

  lemma CharRoundTrip(c: char, t: seq<Byte>)
    ensures DecodeChar(EncodeChar(c) + t) == Some((c, |EncodeChar(c)|))
  {
    var n := c as int;
    var bs := EncodeChar(c) + t;
    if n < 0x80 {
    } else if n < 0x800 {
      assert bs[0] == 0xC0 + n / 0x40 && bs[1] == 0x80 + n % 0x40;
    } else {
      var m := n / 0x40;
      assert n == Combine(m, n % 0x40);
      if n < 0x1_0000 {
        assert bs[0] == 0xE0 + m / 0x40 && bs[1] == 0x80 + m % 0x40 && bs[2] == 0x80 + n % 0x40;
        assert m == Combine(m / 0x40, m % 0x40);
      } else {
        var h := m / 0x40;
        assert bs[0] == 0xF0 + h / 0x40 && bs[1] == 0x80 + h % 0x40 && bs[2] == 0x80 + m % 0x40 && bs[3] == 0x80 + n % 0x40;
        assert h == Combine(h / 0x40, h % 0x40);
        assert m == Combine(h, m % 0x40);
      }
    }
  }

  /** Decoding undoes encoding for every string. */
  lemma {:induction false} RoundTrip(s: string)
    ensures Decode(Encode(s)) == Some(s)
  {
    if s == [] {
    } else {
      var h, t := EncodeChar(s[0]), Encode(s[1..]);
      CharRoundTrip(s[0], t);
      assert (h + t)[|h|..] == t;
      RoundTrip(s[1..]);
      assert s == [s[0]] + s[1..];
    }
  }

  lemma CharCanonical(bs: seq<Byte>)
    requires bs != [] && DecodeChar(bs).Some?
    ensures EncodeChar(DecodeChar(bs).value.0) == bs[..DecodeChar(bs).value.1]
  {
    var (c, k) := DecodeChar(bs).value;
    var n := c as int;
    if k == 2 {
      assert n / 0x40 == bs[0] - 0xC0 && n % 0x40 == bs[1] - 0x80;
    } else if k == 3 {
      assert n / 0x40 / 0x40 == bs[0] - 0xE0 && n / 0x40 % 0x40 == bs[1] - 0x80 && n % 0x40 == bs[2] - 0x80;
    } else if k == 4 {
      assert n / 0x40 / 0x40 / 0x40 == bs[0] - 0xF0 && n / 0x40 / 0x40 % 0x40 == bs[1] - 0x80;
      assert n / 0x40 % 0x40 == bs[2] - 0x80 && n % 0x40 == bs[3] - 0x80;
    }
  }

  /** Bytes decode to a string exactly when they are its encoding. */
  lemma {:induction false} DecodesExactly(bs: seq<Byte>, s: string)
    ensures Decode(bs) == Some(s) <==> bs == Encode(s)
  {
    RoundTrip(s);
    if bs != [] && Decode(bs) == Some(s) {
      var (c, k) := DecodeChar(bs).value;
      CharCanonical(bs);
      DecodesExactly(bs[k..], s[1..]);
      assert bs == bs[..k] + bs[k..];
    }
  }

  predicate Ascii(s: string) {
    forall i :: 0 <= i < |s| ==> s[i] < 128 as char
  }

  /** ASCII text has as many bytes as characters. */
  lemma {:induction false} AsciiLength(s: string)
    requires Ascii(s)
    ensures |Encode(s)| == |s|
  {
    if s == [] {
    } else {
      assert Ascii(s[1..]);
      AsciiLength(s[1..]);
    }
  }
}
