/** The Protocol Buffers wire format (encoding specification: "Base 128
    Varints", "Message Structure", "Length-Delimited Records"), as far as the
    sample messages need it. */
module Wire {
  import opened Common

  const TWO31: int := 0x8000_0000
  const TWO32: int := 0x1_0000_0000
  const TWO63: int := 0x8000_0000_0000_0000
  const TWO64: int := 0x1_0000_0000_0000_0000

  type U32 = n: int | 0 <= n < TWO32
  type U64 = n: int | 0 <= n < TWO64
  type I32 = n: int | -TWO31 <= n < TWO31
  type I64 = n: int | -TWO63 <= n < TWO63

  /** Seven bits a byte, least significant group first. */
  function Varint(n: nat): (bs: seq<Byte>)
    ensures bs != []
  {
    if n < 128 then [n] else [n % 128 + 128] + Varint(n / 128)
  }

  function ReadGroups(bs: seq<Byte>, budget: nat): (r: Option<(nat, seq<Byte>)>)
    ensures r.Some? ==> |r.value.1| < |bs|
  {
    if budget == 0 || bs == [] then None
    else if bs[0] < 128 then Some((bs[0], bs[1..]))
    else
      match ReadGroups(bs[1..], budget - 1)
      case None => None
      case Some((n, rest)) => Some(((bs[0] as int) - 128 + 128 * n, rest))
  }

  /** At most ten groups, and no value past 64 bits. */
  function ReadVarint(bs: seq<Byte>): (r: Option<(U64, seq<Byte>)>)
    ensures r.Some? ==> |r.value.1| < |bs|
  {
    match ReadGroups(bs, 10)
    case None => None
    case Some((n, rest)) => if n < TWO64 then Some((n, rest)) else None
  }

  /** Little-endian numbers of a fixed number of bytes. */
  function Fixed(n: nat, k: nat): (bs: seq<Byte>)
    ensures |bs| == k
  {
    if k == 0 then [] else [n % 256] + Fixed(n / 256, k - 1)
  }

  function FixedValue(bs: seq<Byte>): nat {
    if bs == [] then 0 else bs[0] + 256 * FixedValue(bs[1..])
  }

  function Power(b: nat, k: nat): nat {
    if k == 0 then 1 else b * Power(b, k - 1)
  }

  lemma {:induction false} GroupsRoundTrip(n: nat, budget: nat, t: seq<Byte>)
    requires budget >= 1 && n < Power(128, budget)
    ensures ReadGroups(Varint(n) + t, budget) == Some((n, t))
  {
    if n < 128 {
      assert (Varint(n) + t)[1..] == t;
    } else {
      assert n / 128 < Power(128, budget - 1);
      assert (Varint(n) + t)[1..] == Varint(n / 128) + t;
      GroupsRoundTrip(n / 128, budget - 1, t);
    }
  }

  lemma Powers()
    ensures TWO64 <= Power(128, 10)
    ensures Power(256, 4) == TWO32 && Power(256, 8) == TWO64
  {
    assert Power(128, 5) == 0x8_0000_0000;
    assert Power(128, 10) == 128 * (128 * (128 * (128 * (128 * Power(128, 5)))));
    assert Power(256, 4) == 256 * (256 * (256 * (256 * 1)));
    assert Power(256, 8) == 256 * (256 * (256 * (256 * Power(256, 4))));
  }

  lemma VarintRoundTrip(n: U64, t: seq<Byte>)
    ensures ReadVarint(Varint(n) + t) == Some((n, t))
  {
    Powers();
    GroupsRoundTrip(n, 10, t);
  }

  /** How many bytes a varint takes. */
  lemma VarintLength(n: nat)
    ensures n < 128 <==> |Varint(n)| == 1
    ensures 128 <= n < 0x4000 ==> |Varint(n)| == 2
  {
    if n >= 128 {
      assert |Varint(n)| == 1 + |Varint(n / 128)|;
    }
  }

  lemma {:induction false} VarintAtMost(n: nat, k: nat)
    requires k >= 1 && n < Power(128, k)
    ensures |Varint(n)| <= k
  {
    if n >= 128 {
      assert n / 128 < Power(128, k - 1);
      VarintAtMost(n / 128, k - 1);
    }
  }

  lemma {:induction false} FixedRoundTrip(n: nat, k: nat)
    requires n < Power(256, k)
    ensures FixedValue(Fixed(n, k)) == n
  {
    if k > 0 {
      FixedRoundTrip(n / 256, k - 1);
    }
  }

  // ----------------------------------------------------------------- records

  /** One record: a field number and a payload of one of the four wire types
      that are in use. */
  datatype Field =
    | VarintField(num: nat, value: U64)
    | Fixed64Field(num: nat, bits64: U64)
    | LengthField(num: nat, bytes: seq<Byte>)
    | Fixed32Field(num: nat, bits32: U32)

  /** Field numbers as the specification bounds them; lengths fit a varint. */
  predicate ValidField(f: Field) {
    1 <= f.num < 0x2000_0000 && (f.LengthField? ==> |f.bytes| < TWO64)
  }

  function WireType(f: Field): nat {
    match f
    case VarintField(_, _) => 0
    case Fixed64Field(_, _) => 1
    case LengthField(_, _) => 2
    case Fixed32Field(_, _) => 5
  }

  function EncodePayload(f: Field): seq<Byte> {
    match f
    case VarintField(_, v) => Varint(v)
    case Fixed64Field(_, v) => Fixed(v, 8)
    case LengthField(_, bs) => Varint(|bs|) + bs
    case Fixed32Field(_, v) => Fixed(v, 4)
  }

  function EncodeField(f: Field): seq<Byte> {
    Varint(f.num * 8 + WireType(f)) + EncodePayload(f)
  }

  function EncodeFields(fs: seq<Field>): seq<Byte> {
    if fs == [] then [] else EncodeField(fs[0]) + EncodeFields(fs[1..])
  }

  function ReadPayload(num: nat, wire: nat, bs: seq<Byte>): (r: Option<(Field, seq<Byte>)>)
    ensures r.Some? ==> |r.value.1| <= |bs|
  {
    if wire == 0 then
      match ReadVarint(bs)
      case None => None
      case Some((v, rest)) => Some((VarintField(num, v), rest))
    else if wire == 1 then
      if |bs| < 8 then None
      else (BoundedFixed(bs[..8]); Some((Fixed64Field(num, FixedValue(bs[..8])), bs[8..])))
    else if wire == 2 then
      match ReadVarint(bs)
      case None => None
      case Some((n, rest)) =>
        if n <= |rest| then Some((LengthField(num, rest[..n]), rest[n..])) else None
    else if wire == 5 then
      if |bs| < 4 then None
      else (BoundedFixed(bs[..4]); Some((Fixed32Field(num, FixedValue(bs[..4])), bs[4..])))
    else None
  }

  lemma {:induction false} FixedBelow(bs: seq<Byte>)
    ensures FixedValue(bs) < Power(256, |bs|)
  {
    if bs != [] {
      FixedBelow(bs[1..]);
    }
  }

  lemma BoundedFixed(bs: seq<Byte>)
    ensures |bs| == 4 ==> FixedValue(bs) < TWO32
    ensures |bs| == 8 ==> FixedValue(bs) < TWO64
  {
    hide FixedValue, Power;
    Powers();
    FixedBelow(bs);
  }

  function ReadField(bs: seq<Byte>): (r: Option<(Field, seq<Byte>)>)
    ensures r.Some? ==> |r.value.1| < |bs|
  {
    match ReadVarint(bs)
    case None => None
    case Some((key, rest)) =>
      if key / 8 == 0 then None else ReadPayload(key / 8, key % 8, rest)
  }

  /** A message is a sequence of records up to the end of its bytes. */
  function ReadFields(bs: seq<Byte>): Option<seq<Field>>
    decreases |bs|
  {
    if bs == [] then Some([])
    else
      match ReadField(bs)
      case None => None
      case Some((f, rest)) =>
        match ReadFields(rest)
        case None => None
        case Some(fs) => Some([f] + fs)
  }

  lemma PayloadRoundTrip(f: Field, t: seq<Byte>)
    requires ValidField(f)
    ensures ReadPayload(f.num, WireType(f), EncodePayload(f) + t) == Some((f, t))
  {
    hide ReadVarint, Varint, Fixed, FixedValue, Power;
    Powers();
    var s := EncodePayload(f) + t;
    match f
    case VarintField(_, v) => VarintRoundTrip(v, t);
    case Fixed64Field(_, v) =>
      FixedRoundTrip(v, 8);
      assert s[..8] == Fixed(v, 8) && s[8..] == t;
    case LengthField(_, bs) =>
      VarintRoundTrip(|bs|, bs + t);
      assert s == Varint(|bs|) + (bs + t);
      assert (bs + t)[..|bs|] == bs && (bs + t)[|bs|..] == t;
    case Fixed32Field(_, v) =>
      FixedRoundTrip(v, 4);
      assert s[..4] == Fixed(v, 4) && s[4..] == t;
  }

  lemma FieldRoundTrip(f: Field, t: seq<Byte>)
    requires ValidField(f)
    ensures ReadField(EncodeField(f) + t) == Some((f, t))
  {
    hide ReadVarint, Varint, EncodePayload, ReadPayload;
    var key := f.num * 8 + WireType(f);
    var rest := EncodePayload(f) + t;
    VarintRoundTrip(key, rest);
    assert EncodeField(f) + t == Varint(key) + rest;
    assert key / 8 == f.num && key % 8 == WireType(f);
    PayloadRoundTrip(f, t);
  }

  /** Any list of valid records reads back as itself. */
  lemma {:induction false} FieldsRoundTrip(fs: seq<Field>)
    requires forall i :: 0 <= i < |fs| ==> ValidField(fs[i])
    ensures ReadFields(EncodeFields(fs)) == Some(fs)
  {
    hide ReadField, EncodeField;
    if fs == [] {
    } else {
      var t := EncodeFields(fs[1..]);
      FieldRoundTrip(fs[0], t);
      assert EncodeField(fs[0]) != [] by { EncodeFieldNonempty(fs[0]); }
      FieldsRoundTrip(fs[1..]);
      assert fs == [fs[0]] + fs[1..];
    }
  }

  lemma EncodeFieldNonempty(f: Field)
    ensures EncodeField(f) != []
  {
  }

  lemma {:induction false} EncodeFieldsAppend(fs: seq<Field>, gs: seq<Field>)
    ensures EncodeFields(fs + gs) == EncodeFields(fs) + EncodeFields(gs)
  {
    hide EncodeField;
    if fs == [] {
      assert fs + gs == gs;
    } else {
      assert (fs + gs)[1..] == fs[1..] + gs;
      EncodeFieldsAppend(fs[1..], gs);
    }
  }
}
