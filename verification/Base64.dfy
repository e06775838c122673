/** Base64 with padding (section 4 of RFC 4648): the encoder behind
    `base64.b64encode` and the lenient decoder behind `base64.b64decode`, which
    skips characters outside the alphabet and stops at a complete padding. */
module Base64 {
  import opened Common

  type Sextet = v: int | 0 <= v < 64

  function Symbol(v: Sextet): char {
    if v < 26 then (65 + v) as char          // 'A'..'Z'
    else if v < 52 then (71 + v) as char     // 'a'..'z'
    else if v < 62 then (v - 4) as char      // '0'..'9'
    else if v == 62 then '+' else '/'
  }

  function SymbolValue(c: char): Option<Sextet> {
    if 'A' <= c <= 'Z' then Some(c as int - 65)
    else if 'a' <= c <= 'z' then Some(c as int - 71)
    else if '0' <= c <= '9' then Some(c as int + 4)
    else if c == '+' then Some(62)
    else if c == '/' then Some(63)
    else None
  }

  lemma SymbolInverse(v: Sextet)
    ensures SymbolValue(Symbol(v)) == Some(v)
    ensures Plain(Symbol(v)) && Symbol(v) != '='
  {
  }

  function Encode(b: seq<Byte>): string {
    if |b| == 0 then ""
    else if |b| == 1 then [Symbol(b[0] / 4), Symbol(b[0] % 4 * 16), '=', '=']
    else if |b| == 2 then
      [Symbol(b[0] / 4), Symbol(b[0] % 4 * 16 + b[1] / 16), Symbol(b[1] % 16 * 4), '=']
    else
      [Symbol(b[0] / 4), Symbol(b[0] % 4 * 16 + b[1] / 16),
       Symbol(b[1] % 16 * 4 + b[2] / 64), Symbol(b[2] % 64)] + Encode(b[3..])
  }

  /** The alphabet of section 4 of RFC 4648, by value. */
  const ALPHABET := UPPER + LOWER + DIGITS + "+/"
  const UPPER := "ABCDEFGHIJKLMNOPQRSTUVWXYZ"
  const LOWER := "abcdefghijklmnopqrstuvwxyz"
  const DIGITS := "0123456789"

  /** Three bytes from index `i` on as one 24-bit number, with zeros for what
      is not there. */
  function Group(b: seq<Byte>, i: nat): nat {
    ByteAt(b, i) * 0x1_0000 + ByteAt(b, i + 1) * 0x100 + ByteAt(b, i + 2)
  }

  function ByteAt(b: seq<Byte>, i: nat): Byte {
    if i < |b| then b[i] else 0
  }

  /** The six bits of a 24-bit number at place `j`, the highest first. */
  function SixBits(n: nat, j: nat): Sextet {
    (if j == 0 then n / 0x4_0000 else if j == 1 then n / 0x1000 else if j == 2 then n / 0x40 else n) % 64
  }

  lemma InAlphabet(v: Sextet)
    ensures |ALPHABET| == 64 && Symbol(v) == ALPHABET[v]
  {
  }

  lemma SixBitsOf(x: Byte, y: Byte, z: Byte)
    ensures var n := x * 0x1_0000 + y * 0x100 + z;
            SixBits(n, 0) == x / 4 && SixBits(n, 1) == x % 4 * 16 + y / 16
            && SixBits(n, 2) == y % 16 * 4 + z / 64 && SixBits(n, 3) == z % 64
  {
    var n := x * 0x1_0000 + y * 0x100 + z;
    var v0, v1, v2, v3 := x / 4, x % 4 * 16 + y / 16, y % 16 * 4 + z / 64, z % 64;
    assert n == v0 * 0x4_0000 + v1 * 0x1000 + v2 * 0x40 + v3;
    assert n / 0x4_0000 == v0;
    assert n / 0x1000 == v0 * 64 + v1;
    assert n / 0x40 == (v0 * 64 + v1) * 64 + v2;
    assert n == ((v0 * 64 + v1) * 64 + v2) * 64 + v3;
  }

  /** The values whose symbols an encoding starts with. */
  lemma FirstSixBits(b: seq<Byte>)
    requires b != []
    ensures SixBits(Group(b, 0), 0) == b[0] / 4
    ensures SixBits(Group(b, 0), 1) == if |b| == 1 then b[0] % 4 * 16 else b[0] % 4 * 16 + b[1] / 16
    ensures |b| >= 2 ==> SixBits(Group(b, 0), 2) == if |b| == 2 then b[1] % 16 * 4 else b[1] % 16 * 4 + b[2] / 64
    ensures |b| >= 3 ==> SixBits(Group(b, 0), 3) == b[2] % 64
  {
    hide SixBits;
    SixBitsOf(ByteAt(b, 0), ByteAt(b, 1), ByteAt(b, 2));
  }

  /** The characters of the first group. */
  lemma FirstGroup(b: seq<Byte>)
    requires b != []
    ensures var n := Group(b, 0);
            var first, second := Symbol(SixBits(n, 0)), Symbol(SixBits(n, 1));
            var third, fourth := Symbol(SixBits(n, 2)), Symbol(SixBits(n, 3));
            Encode(b) ==
            if |b| == 1 then [first, second, '=', '=']
            else if |b| == 2 then [first, second, third, '=']
            else [first, second, third, fourth] + Encode(b[3..])
  {
    hide Symbol, SixBits, Group;
    FirstSixBits(b);
  }

  lemma FirstSymbols(b: seq<Byte>, j: nat)
    requires b != [] && j < |Encode(b)| && j < 4
    ensures Encode(b)[j] == if 6 * j >= 8 * |b| then '=' else Symbol(SixBits(Group(b, 0), j))
  {
    hide Encode, Symbol, SixBits, Group;
    FirstGroup(b);
  }

  lemma NextGroup(b: seq<Byte>, j: nat)
    requires j >= 4 && |b| >= 3
    ensures j / 4 * 3 == (j - 4) / 4 * 3 + 3 && j % 4 == (j - 4) % 4
    ensures Group(b, j / 4 * 3) == Group(b[3..], (j - 4) / 4 * 3)
  {
  }

  lemma {:induction false} EncodeSymbols(b: seq<Byte>, j: nat)
    requires j < |Encode(b)|
    ensures Encode(b)[j] == if 6 * j >= 8 * |b| then '=' else Symbol(SixBits(Group(b, j / 4 * 3), j % 4))
  {
    hide Symbol, SixBits, Group;
    if j >= 4 {
      EncodeSymbols(b[3..], j - 4);
      NextGroup(b, j);
    } else {
      FirstSymbols(b, j);
    }
  }

  /** Every character of an encoding: padding past the last bit, and elsewhere
      the letter of the six bits at its place in its group of 24. */
  lemma EncodeExactly(b: seq<Byte>, j: nat)
    requires j < |Encode(b)|
    ensures |ALPHABET| == 64
    ensures Encode(b)[j] == if 6 * j >= 8 * |b| then '=' else ALPHABET[SixBits(Group(b, j / 4 * 3), j % 4)]
  {
    hide Symbol, Encode, SixBits, Group;
    EncodeSymbols(b, j);
    InAlphabet(SixBits(Group(b, j / 4 * 3), j % 4));
  }

  /** Prepends a byte to a successful decode. */
  function Prepend(x: Byte, r: Option<seq<Byte>>): Option<seq<Byte>> {
    match r
    case None => None
    case Some(t) => Some([x] + t)
  }

  /** How many values the carried bits can have at each position. */
  function Carry(quad: int): int {
    if quad == 1 then 64 else if quad == 2 then 16 else if quad == 3 then 4 else 1
  }

  /** The decoder's state machine: `quad` is the position in the current group
      of four, `left` the bits carried over from the previous symbol and `pads`
      the length of the current run of '='. */
  function Scan(s: string, quad: int, left: int, pads: nat): Option<seq<Byte>>
    requires 0 <= quad < 4
    requires 0 <= left < Carry(quad)
  {
    if s == "" then (if quad == 0 then Some([]) else None)
    else if s[0] == '=' then
      if quad >= 2 && quad + pads + 1 >= 4 then Some([])
      else Scan(s[1..], quad, left, if quad >= 2 then pads + 1 else pads)
    else
      match SymbolValue(s[0])
      case None => Scan(s[1..], quad, left, pads)
      case Some(v) =>
        if quad == 0 then Scan(s[1..], 1, v, 0)
        else if quad == 1 then Prepend(left * 4 + v / 16, Scan(s[1..], 2, v % 16, 0))
        else if quad == 2 then Prepend(left * 16 + v / 4, Scan(s[1..], 3, v % 4, 0))
        else Prepend(left * 64 + v, Scan(s[1..], 0, 0, 0))
  }

  /** `base64.b64decode` on a string: non-ASCII text is a `ValueError`. */
  function Decode(s: string): Option<seq<Byte>> {
    if exists i :: 0 <= i < |s| && s[i] >= 128 as char then None else Scan(s, 0, 0, 0)
  }

  /** One step of the decoder over an alphabet symbol. */
  lemma ScanSymbol(v: Sextet, t: string, quad: int, left: int, pads: nat)
    requires 0 <= quad < 4
    requires 0 <= left < Carry(quad)
    ensures Scan([Symbol(v)] + t, quad, left, pads) ==
            if quad == 0 then Scan(t, 1, v, 0)
            else if quad == 1 then Prepend(left * 4 + v / 16, Scan(t, 2, v % 16, 0))
            else if quad == 2 then Prepend(left * 16 + v / 4, Scan(t, 3, v % 4, 0))
            else Prepend(left * 64 + v, Scan(t, 0, 0, 0))
  {
    SymbolInverse(v);
    assert ([Symbol(v)] + t)[1..] == t;
  }

  /** The bits regrouped from eights into sixes and back. */
  lemma Regroup(x: Byte, y: Byte, z: Byte)
    ensures x / 4 * 4 + (x % 4 * 16 + y / 16) / 16 == x
    ensures (x % 4 * 16 + y / 16) % 16 * 16 + (y % 16 * 4 + z / 64) / 4 == y
    ensures (y % 16 * 4 + z / 64) % 4 * 64 + z % 64 == z
  {
  }

  /** Four full symbols from a group boundary yield their three bytes. */
  lemma ScanGroup(x: Byte, y: Byte, z: Byte, t: string, pads: nat)
    ensures var g := [Symbol(x / 4), Symbol(x % 4 * 16 + y / 16),
                      Symbol(y % 16 * 4 + z / 64), Symbol(z % 64)];
            Scan(g + t, 0, 0, pads)
            == Prepend(x, Prepend(y, Prepend(z, Scan(t, 0, 0, 0))))
  {
    hide Symbol, SymbolValue, Scan, Prepend;
    Regroup(x, y, z);
    var v0: Sextet, v1: Sextet := x / 4, x % 4 * 16 + y / 16;
    var v2: Sextet, v3: Sextet := y % 16 * 4 + z / 64, z % 64;
    var t3 := [Symbol(v3)] + t;
    var t2 := [Symbol(v2)] + t3;
    var t1 := [Symbol(v1)] + t2;
    assert Scan([Symbol(v0)] + t1, 0, 0, pads) == Scan(t1, 1, v0, 0) by { ScanSymbol(v0, t1, 0, 0, pads); }
    assert Scan(t1, 1, v0, 0) == Prepend(x, Scan(t2, 2, v1 % 16, 0)) by { ScanSymbol(v1, t2, 1, v0, 0); }
    assert Scan(t2, 2, v1 % 16, 0) == Prepend(y, Scan(t3, 3, v2 % 4, 0)) by { ScanSymbol(v2, t3, 2, v1 % 16, 0); }
    assert Scan(t3, 3, v2 % 4, 0) == Prepend(z, Scan(t, 0, 0, 0)) by { ScanSymbol(v3, t, 3, v2 % 4, 0); }
    assert [Symbol(v0), Symbol(v1), Symbol(v2), Symbol(v3)] + t == [Symbol(v0)] + t1;
  }

  /** A padded tail of one byte decodes to that byte. */
  lemma ScanTail1(x: Byte, pads: nat)
    ensures Scan([Symbol(x / 4), Symbol(x % 4 * 16), '=', '='], 0, 0, pads) == Some([x])
  {
    hide Symbol, SymbolValue;
    Regroup(x, 0, 0);
    var v0: Sextet, v1: Sextet := x / 4, x % 4 * 16;
    var t1 := [Symbol(v1)] + "==";
    assert Scan([Symbol(v0)] + t1, 0, 0, pads) == Scan(t1, 1, v0, 0) by { ScanSymbol(v0, t1, 0, 0, pads); }
    assert Scan(t1, 1, v0, 0) == Prepend(x, Scan("==", 2, 0, 0)) by { ScanSymbol(v1, "==", 1, v0, 0); }
    assert Scan("==", 2, 0, 0) == Scan("=", 2, 0, 1) == Some([]) by { assert "=="[1..] == "="; }
    assert [Symbol(v0), Symbol(v1), '=', '='] == [Symbol(v0)] + t1;
    assert [x] + [] == [x];
  }

  /** A padded tail of two bytes decodes to those bytes. */
  lemma ScanTail2(x: Byte, y: Byte, pads: nat)
    ensures Scan([Symbol(x / 4), Symbol(x % 4 * 16 + y / 16), Symbol(y % 16 * 4), '='], 0, 0, pads) == Some([x, y])
  {
    hide Symbol, SymbolValue;
    Regroup(x, y, 0);
    var v0: Sextet, v1: Sextet, v2: Sextet := x / 4, x % 4 * 16 + y / 16, y % 16 * 4;
    var t2 := [Symbol(v2)] + "=";
    var t1 := [Symbol(v1)] + t2;
    assert Scan([Symbol(v0)] + t1, 0, 0, pads) == Scan(t1, 1, v0, 0) by { ScanSymbol(v0, t1, 0, 0, pads); }
    assert Scan(t1, 1, v0, 0) == Prepend(x, Scan(t2, 2, v1 % 16, 0)) by { ScanSymbol(v1, t2, 1, v0, 0); }
    assert Scan(t2, 2, v1 % 16, 0) == Prepend(y, Scan("=", 3, 0, 0)) by { ScanSymbol(v2, "=", 2, v1 % 16, 0); }
    assert Scan("=", 3, 0, 0) == Some([]);
    assert [Symbol(v0), Symbol(v1), Symbol(v2), '='] == [Symbol(v0)] + t1;
    assert [x] + ([y] + []) == [x, y];
  }

  lemma {:induction false} ScanEncode(b: seq<Byte>, pads: nat)
    ensures Scan(Encode(b), 0, 0, pads) == Some(b)
  {
    hide Symbol, SymbolValue;
    if |b| == 0 {
    } else if |b| == 1 {
      ScanTail1(b[0], pads);
      assert b == [b[0]];
    } else if |b| == 2 {
      ScanTail2(b[0], b[1], pads);
      assert b == [b[0], b[1]];
    } else {
      ScanGroup(b[0], b[1], b[2], Encode(b[3..]), pads);
      ScanEncode(b[3..], 0);
      assert b == [b[0]] + ([b[1]] + ([b[2]] + b[3..]));
    }
  }

  /** Printable ASCII that neither JSON nor UTF-8 has to escape. */
  predicate Plain(c: char) {
    ' ' <= c <= '~' && c != '"' && c != '\\'
  }

  /** Four symbols for each group of up to three bytes. */
  lemma {:induction false} EncodeLength(b: seq<Byte>)
    ensures |Encode(b)| == (|b| + 2) / 3 * 4
  {
    hide Symbol;
    if |b| >= 3 {
      EncodeLength(b[3..]);
      assert (|b| - 3 + 2) / 3 == (|b| + 2) / 3 - 1;
    }
  }

  lemma {:induction false} EncodePlain(b: seq<Byte>)
    ensures forall i :: 0 <= i < |Encode(b)| ==> Plain(Encode(b)[i])
  {
    hide Symbol, SymbolValue;
    if |b| == 0 {
    } else if |b| == 1 {
      SymbolInverse(b[0] / 4); SymbolInverse(b[0] % 4 * 16);
    } else if |b| == 2 {
      SymbolInverse(b[0] / 4); SymbolInverse(b[0] % 4 * 16 + b[1] / 16); SymbolInverse(b[1] % 16 * 4);
    } else {
      SymbolInverse(b[0] / 4); SymbolInverse(b[0] % 4 * 16 + b[1] / 16);
      SymbolInverse(b[1] % 16 * 4 + b[2] / 64); SymbolInverse(b[2] % 64);
      EncodePlain(b[3..]);
    }
  }

  /** Decoding undoes encoding for every byte string. */
  lemma RoundTrip(b: seq<Byte>)
    ensures Decode(Encode(b)) == Some(b)
  {
    EncodePlain(b);
    ScanEncode(b, 0);
  }
}
