/** JSON text as Python's `json.dumps` writes it with its default settings and
    `json.loads` reads it (sections 4 to 7 of RFC 8259): a printer and a parser
    for nested values of any depth.  A Python dictionary is a list of members
    with distinct keys, in insertion order. */
module Json {
  import opened Common

  datatype Member = Member(key: string, val: Value)

  /** A float read from a text is kept as the literal it was written as. */
  datatype Value =
    | Null
    | Bool(b: bool)
    | Int(i: int)
    | Float(text: string)
    | Str(s: string)
    | Bytes(bytes: seq<Byte>)
    | Arr(items: seq<Value>)
    | Obj(members: seq<Member>)

  // ---------------------------------------------------------------- numbers

  function Digit(d: int): char
    requires 0 <= d < 10
  {
    (48 + d) as char
  }

  predicate IsDigit(c: char) { '0' <= c <= '9' }

  function DumpNat(n: nat): (s: string)
    ensures s != ""
  {
    if n < 10 then [Digit(n)] else DumpNat(n / 10) + [Digit(n % 10)]
  }

  function DumpInt(i: int): string {
    if i < 0 then "-" + DumpNat(-i) else DumpNat(i)
  }

  /** Length of the longest prefix of decimal digits. */
  function DigitRun(s: string): (k: nat)
    ensures k <= |s|
    ensures forall j :: 0 <= j < k ==> IsDigit(s[j])
    ensures k < |s| ==> !IsDigit(s[k])
  {
    if s == "" || !IsDigit(s[0]) then 0 else 1 + DigitRun(s[1..])
  }

  function DigitsValue(s: string): int {
    if s == "" then 0
    else DigitsValue(s[..|s| - 1]) * 10 + (s[|s| - 1] as int - 48)
  }

  /** What may not follow an integer: a digit, or the start of a fraction or
      exponent, which would make it a float. */
  predicate EndsNumber(t: string) {
    t == "" || !(IsDigit(t[0]) || t[0] == '.' || t[0] == 'e' || t[0] == 'E')
  }

  function ParseNat(s: string): (r: Option<(int, string)>)
    ensures r.Some? ==> |r.value.1| < |s|
  {
    var k := if s != "" && s[0] == '0' then 1 else DigitRun(s);
    if k == 0 || !EndsNumber(s[k..]) then None
    else Some((DigitsValue(s[..k]), s[k..]))
  }

  function ParseInt(s: string): (r: Option<(int, string)>)
    ensures r.Some? ==> |r.value.1| < |s|
  {
    if s != "" && s[0] == '-' then
      match ParseNat(s[1..])
      case None => None
      case Some((n, rest)) => Some((-n, rest))
    else ParseNat(s)
  }

  /** The length of an integer's text: a sign, and a zero or digits. */
  function IntegerLength(s: string): (k: nat)
    ensures k <= |s|
  {
    var sign := if s != "" && s[0] == '-' then 1 else 0;
    var t := s[sign..];
    var digits := if t != "" && t[0] == '0' then 1 else DigitRun(t);
    if digits == 0 then 0 else sign + digits
  }

  /** The length of a fraction, a point and digits, or zero without one. */
  function FractionLength(s: string): (k: nat)
    ensures k <= |s|
  {
    if s == "" || s[0] != '.' || DigitRun(s[1..]) == 0 then 0 else 1 + DigitRun(s[1..])
  }

  /** The length of an exponent, or zero without one. */
  function ExponentLength(s: string): (k: nat)
    ensures k <= |s|
  {
    if s == "" || !(s[0] == 'e' || s[0] == 'E') then 0
    else
      var sign := if |s| > 1 && (s[1] == '+' || s[1] == '-') then 1 else 0;
      var digits := DigitRun(s[1 + sign..]);
      if digits == 0 then 0 else 1 + sign + digits
  }

  /** A number with a fraction or an exponent, or one of the three names that
      `json` knows besides. */
  function ParseFloat(s: string): (r: Option<(string, string)>)
    ensures r.Some? ==> |r.value.1| < |s| && r.value.0 + r.value.1 == s
  {
    if StartsWith(s, "NaN") then Some((s[..3], s[3..]))
    else if StartsWith(s, "Infinity") then Some((s[..8], s[8..]))
    else if StartsWith(s, "-Infinity") then Some((s[..9], s[9..]))
    else
      var i := IntegerLength(s);
      var f := i + FractionLength(s[i..]);
      var k := f + ExponentLength(s[f..]);
      if i == 0 || k == i then None else Some((s[..k], s[k..]))
  }

  // ---------------------------------------------------------------- strings

  type Nibble = d: int | 0 <= d < 16

  function HexDigit(d: Nibble): char {
    if d < 10 then (48 + d) as char else (87 + d) as char
  }

  function HexValue(c: char): Option<Nibble> {
    if '0' <= c <= '9' then Some(c as int - 48)
    else if 'a' <= c <= 'f' then Some(c as int - 87)
    else if 'A' <= c <= 'F' then Some(c as int - 55)
    else None
  }

  /** A UTF-16 code unit as a \uXXXX escape. */
  function EscapeUnit(u: int): string
    requires 0 <= u < 0x1_0000
  {
    ['\\', 'u', HexDigit(u / 16 / 16 / 16), HexDigit(u / 16 / 16 % 16), HexDigit(u / 16 % 16), HexDigit(u % 16)]
  }

  function EscapeChar(c: char): (e: string)
    ensures e != "" && e[0] != '"'
  {
    var n := c as int;
    if c == '"' then "\\\""
    else if c == '\\' then "\\\\"
    else if ' ' <= c <= '~' then [c]
    else if n == 8 then "\\b"
    else if n == 9 then "\\t"
    else if n == 10 then "\\n"
    else if n == 12 then "\\f"
    else if n == 13 then "\\r"
    else if n < 0x1_0000 then EscapeUnit(n)
    else
      EscapeUnit(0xD800 + (n - 0x1_0000) / 0x400) + EscapeUnit(0xDC00 + (n - 0x1_0000) % 0x400)
  }

  function Escape(s: string): string {
    if s == "" then "" else EscapeChar(s[0]) + Escape(s[1..])
  }

  function DumpString(s: string): string {
    "\"" + Escape(s) + "\""
  }

  function Unit(a: Nibble, b: Nibble, c: Nibble, d: Nibble): (u: int)
    ensures 0 <= u < 0x1_0000
  {
    ((a as int * 16 + b) * 16 + c) * 16 + d
  }

  /** Four hexadecimal digits after a \u. */
  function ParseUnit(s: string): (r: Option<(int, string)>)
    ensures r.Some? ==> 0 <= r.value.0 < 0x1_0000 && |r.value.1| < |s|
  {
    if |s| < 4 then None
    else
      match (HexValue(s[0]), HexValue(s[1]), HexValue(s[2]), HexValue(s[3]))
      case (Some(a), Some(b), Some(c), Some(d)) => Some((Unit(a, b, c, d), s[4..]))
      case _ => None
  }

  /** The text after \u: one unit, or a surrogate pair.  Python keeps a lone
      surrogate; a `char` cannot hold one, so it is an error here. */
  function ParseUnicode(s: string): (r: Option<(char, string)>)
    ensures r.Some? ==> |r.value.1| < |s|
  {
    match ParseUnit(s)
    case None => None
    case Some((u, rest)) =>
      if 0xD800 <= u < 0xDC00 then
        if |rest| >= 2 && rest[0] == '\\' && rest[1] == 'u' then
          match ParseUnit(rest[2..])
          case None => None
          case Some((w, rest')) =>
            if 0xDC00 <= w < 0xE000 then Some(((0x1_0000 + (u - 0xD800) * 0x400 + (w - 0xDC00)) as char, rest'))
            else None
        else None
      else if 0xDC00 <= u < 0xE000 then None
      else Some((u as char, rest))
  }

  /** One possibly escaped character inside a string literal. */
  function ParseChar(s: string): (r: Option<(char, string)>)
    requires s != "" && s[0] != '"'
    ensures r.Some? ==> |r.value.1| < |s|
  {
    if s[0] == '\\' then
      if |s| < 2 then None
      else if s[1] == '"' || s[1] == '\\' || s[1] == '/' then Some((s[1], s[2..]))
      else if s[1] == 'b' then Some((8 as char, s[2..]))
      else if s[1] == 'f' then Some((12 as char, s[2..]))
      else if s[1] == 'n' then Some((10 as char, s[2..]))
      else if s[1] == 'r' then Some((13 as char, s[2..]))
      else if s[1] == 't' then Some((9 as char, s[2..]))
      else if s[1] == 'u' then ParseUnicode(s[2..])
      else None
    else if s[0] < ' ' then None
    else Some((s[0], s[1..]))
  }

  /** A string literal after its opening quote. */
  function ParseString(s: string): (r: Option<(string, string)>)
    ensures r.Some? ==> |r.value.1| < |s|
    decreases |s|
  {
    if s == "" then None
    else if s[0] == '"' then Some(("", s[1..]))
    else
      match ParseChar(s)
      case None => None
      case Some((c, rest)) =>
        match ParseString(rest)
        case None => None
        case Some((cs, rest')) => Some(([c] + cs, rest'))
  }

  // ----------------------------------------------------------- dictionaries

  /** `d[key] = val`: an existing key keeps its place. */
  function Put(ms: seq<Member>, key: string, val: Value): seq<Member> {
    if ms == [] then [Member(key, val)]
    else if ms[0].key == key then [Member(key, val)] + ms[1..]
    else [ms[0]] + Put(ms[1..], key, val)
  }

  function Get(ms: seq<Member>, key: string): Option<Value> {
    if ms == [] then None
    else if ms[0].key == key then Some(ms[0].val)
    else Get(ms[1..], key)
  }

  predicate LacksKey(ms: seq<Member>, key: string) {
    forall i :: 0 <= i < |ms| ==> ms[i].key != key
  }

  predicate DistinctKeys(ms: seq<Member>) {
    forall i, j :: 0 <= i < j < |ms| ==> ms[i].key != ms[j].key
  }

  /** The dictionary `dict(pairs)` builds: the last value of a key wins. */
  function DictOf(ms: seq<Member>): seq<Member> {
    if ms == [] then []
    else
      var last := ms[|ms| - 1];
      Put(DictOf(ms[..|ms| - 1]), last.key, last.val)
  }

  lemma {:induction false} PutNew(ms: seq<Member>, key: string, val: Value)
    requires LacksKey(ms, key)
    ensures Put(ms, key, val) == ms + [Member(key, val)]
  {
    if ms == [] {
    } else {
      PutNew(ms[1..], key, val);
      assert ms == [ms[0]] + ms[1..];
    }
  }

  /** A list of members with distinct keys already is its dictionary. */
  lemma {:induction false} DictOfDistinct(ms: seq<Member>)
    requires DistinctKeys(ms)
    ensures DictOf(ms) == ms
  {
    if ms == [] {
    } else {
      var k := |ms| - 1;
      DictOfDistinct(ms[..k]);
      PutNew(ms[..k], ms[k].key, ms[k].val);
      assert ms == ms[..k] + [Member(ms[k].key, ms[k].val)];
    }
  }

  /** Reading and overwriting an existing key of a dictionary. */
  lemma {:induction false} MemberAt(ms: seq<Member>, i: nat, val: Value)
    requires DistinctKeys(ms) && i < |ms|
    ensures Get(ms, ms[i].key) == Some(ms[i].val)
    ensures Put(ms, ms[i].key, val) == ms[i := Member(ms[i].key, val)]
  {
    if i == 0 {
    } else {
      assert ms[0].key != ms[i].key;
      MemberAt(ms[1..], i - 1, val);
      assert ms[1..][i - 1] == ms[i];
    }
  }

  // ----------------------------------------------------------------- values

  /** Values this model prints: no floats, which datagrams do not hold, no raw
      bytes, which `json.dumps` refuses, and dictionaries really are
      dictionaries. */
  ghost predicate Writable(v: Value) {
    match v
    case Float(_) => false
    case Bytes(_) => false
    case Arr(items) => forall i :: 0 <= i < |items| ==> Writable(items[i])
    case Obj(ms) => DistinctKeys(ms) && forall i :: 0 <= i < |ms| ==> Writable(ms[i].val)
    case _ => true
  }

  /** `json.dumps` with separators ", " and ": "; values that are not `Writable`
      print as nothing. */
  function Dump(v: Value): string
    decreases v, 1
  {
    match v
    case Null => "null"
    case Bool(b) => if b then "true" else "false"
    case Int(i) => DumpInt(i)
    case Str(s) => DumpString(s)
    case Float(_) => ""
    case Bytes(_) => ""
    case Arr(items) => "[" + DumpItems(items) + "]"
    case Obj(ms) => "{" + DumpMembers(ms) + "}"
  }

  function DumpItems(items: seq<Value>): string
    decreases items, 0
  {
    if items == [] then ""
    else if |items| == 1 then Dump(items[0])
    else Dump(items[0]) + ", " + DumpItems(items[1..])
  }

  function DumpMember(m: Member): string
    decreases m, 2
  {
    DumpString(m.key) + ": " + Dump(m.val)
  }

  function DumpMembers(ms: seq<Member>): string
    decreases ms, 0
  {
    if ms == [] then ""
    else if |ms| == 1 then DumpMember(ms[0])
    else DumpMember(ms[0]) + ", " + DumpMembers(ms[1..])
  }

  predicate IsSpace(c: char) { c == ' ' || c == '\t' || c == '\n' || c == '\r' }

  function SkipSpace(s: string): (t: string)
    ensures |t| <= |s|
  {
    if s != "" && IsSpace(s[0]) then SkipSpace(s[1..]) else s
  }

  predicate StartsWith(s: string, p: string) {
    |p| <= |s| && s[..|p|] == p
  }

  function ParseValue(s: string): (r: Option<(Value, string)>)
    ensures r.Some? ==> |r.value.1| < |s|
    decreases |s|, 0
  {
    if s == "" then None
    else if s[0] == '"' then
      match ParseString(s[1..])
      case None => None
      case Some((cs, rest)) => Some((Str(cs), rest))
    else if s[0] == '{' then
      var t := SkipSpace(s[1..]);
      if t != "" && t[0] == '}' then Some((Obj([]), t[1..]))
      else
        match ParseMembers(t)
        case None => None
        case Some((ms, rest)) => Some((Obj(DictOf(ms)), rest))
    else if s[0] == '[' then
      var t := SkipSpace(s[1..]);
      if t != "" && t[0] == ']' then Some((Arr([]), t[1..]))
      else
        match ParseItems(t)
        case None => None
        case Some((items, rest)) => Some((Arr(items), rest))
    else if StartsWith(s, "null") then Some((Null, s[4..]))
    else if StartsWith(s, "true") then Some((Bool(true), s[4..]))
    else if StartsWith(s, "false") then Some((Bool(false), s[5..]))
    else
      match ParseInt(s)
      case Some((i, rest)) => Some((Int(i), rest))
      case None =>
        match ParseFloat(s)
        case None => None
        case Some((text, rest)) => Some((Float(text), rest))
  }

  /** One or more array elements and the closing bracket. */
  function ParseItems(s: string): (r: Option<(seq<Value>, string)>)
    ensures r.Some? ==> |r.value.1| < |s|
    decreases |s|, 1
  {
    match ParseValue(s)
    case None => None
    case Some((v, rest)) =>
      var t := SkipSpace(rest);
      if t == "" then None
      else if t[0] == ']' then Some(([v], t[1..]))
      else if t[0] == ',' then
        match ParseItems(SkipSpace(t[1..]))
        case None => None
        case Some((vs, rest')) => Some(([v] + vs, rest'))
      else None
  }

  /** One `"key": value` pair. */
  function ParseMember(s: string): (r: Option<(Member, string)>)
    ensures r.Some? ==> |r.value.1| < |s|
    decreases |s|, 1
  {
    if s == "" || s[0] != '"' then None
    else
      match ParseString(s[1..])
      case None => None
      case Some((key, rest)) =>
        var t := SkipSpace(rest);
        if t == "" || t[0] != ':' then None
        else
          match ParseValue(SkipSpace(t[1..]))
          case None => None
          case Some((v, rest')) => Some((Member(key, v), rest'))
  }

  /** One or more members and the closing brace. */
  function ParseMembers(s: string): (r: Option<(seq<Member>, string)>)
    ensures r.Some? ==> |r.value.1| < |s|
    decreases |s|, 2
  {
    match ParseMember(s)
    case None => None
    case Some((m, rest)) =>
      var t := SkipSpace(rest);
      if t == "" then None
      else if t[0] == '}' then Some(([m], t[1..]))
      else if t[0] == ',' then
        match ParseMembers(SkipSpace(t[1..]))
        case None => None
        case Some((ms, rest')) => Some(([m] + ms, rest'))
      else None
  }

  /** `json.loads` on text: one value, surrounded by optional white space. */
  function Parse(s: string): Option<Value> {
    match ParseValue(SkipSpace(s))
    case None => None
    case Some((v, rest)) => if SkipSpace(rest) == "" then Some(v) else None
  }
}
