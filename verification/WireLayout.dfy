/** The bytes of an encoded sample, one by one: varints and fixed numbers digit
    by digit, and the records of sample.pb.h and primitive.pb.h under the tags
    that their field numbers and types stand for. */
module WireLayout {
  import opened Common
  import opened Wire
  import opened SampleMessage

  // ------------------------------------------------------------------- numbers

  lemma Multiples(a: int, b: int, m: int)
    requires a <= b && m >= 0
    ensures a * m <= b * m
    ensures (a + 1) * m == a * m + m
  {
  }

  lemma QuotientOf(n: nat, m: nat, q: nat, r: nat)
    requires n == q * m + r && r < m
    ensures n / m == q
  {
    var p := n / m;
    assert n == p * m + n % m;
    if p < q {
      Multiples(p + 1, q, m);
      Multiples(p, p, m);
    } else if p > q {
      Multiples(q + 1, p, m);
      Multiples(q, q, m);
    }
  }

  lemma DivMod(n: nat, m: nat)
    requires m >= 1
    ensures n == n / m * m + n % m && 0 <= n % m < m
  {
  }

  lemma Regroup(p: nat, q: nat, a: nat, b: nat, r: nat, t: nat)
    requires p == q * b + r && r < b && t < a
    ensures p * a + t == q * (a * b) + (r * a + t)
    ensures r * a + t < a * b
  {
    Multiples(r + 1, b, a);
    Multiples(r, r, a);
  }

  /** Dividing twice; the last two numbers are the quotients, under names. */
  lemma DivDiv(n: nat, a: nat, b: nat, p: nat, q: nat)
    requires a >= 1 && b >= 1 && p == n / a && q == p / b
    ensures a * b >= 1 && q == n / (a * b)
  {
    var r, t := p % b, n % a;
    DivMod(n, a);
    DivMod(p, b);
    assert p == q * b + r && n == p * a + t;
    Regroup(p, q, a, b, r, t);
    ProductPositive(a, b);
    QuotientOf(n, a * b, q, r * a + t);
  }

  lemma ProductPositive(a: nat, b: nat)
    requires a >= 1 && b >= 1
    ensures a * b >= 1
  {
    Multiples(1, a, b);
  }

  lemma {:induction false} PowerPositive(b: nat, k: nat)
    requires b >= 1
    ensures Power(b, k) >= 1
  {
    if k > 0 {
      PowerPositive(b, k - 1);
    }
  }

  /** The digit of a number at a place. */
  function Digit(n: nat, base: nat, i: nat): nat
    requires base >= 1
  {
    PowerPositive(base, i);
    n / Power(base, i) % base
  }

  lemma DigitNext(n: nat, base: nat, i: nat)
    requires base >= 1
    ensures Digit(n, base, i + 1) == Digit(n / base, base, i)
  {
    PowerPositive(base, i);
    DivDiv(n, base, Power(base, i), n / base, n / base / Power(base, i));
  }

  lemma DigitFirst(n: nat, base: nat)
    requires base >= 1
    ensures Digit(n, base, 0) == n % base
  {
    assert Power(base, 0) == 1;
  }

  /** A varint is the base-128 digits of its number, the least first, with the
      top bit set on all but the last, and it has no more of them than needed. */
  lemma {:induction false} VarintExactly(n: nat, i: nat)
    requires i < |Varint(n)|
    ensures Varint(n)[i] == Digit(n, 128, i) + if i < |Varint(n)| - 1 then 128 else 0
    ensures i == |Varint(n)| - 1 > 0 ==> Digit(n, 128, i) > 0
  {
    hide Digit;
    DigitFirst(n, 128);
    if n >= 128 && i > 0 {
      VarintExactly(n / 128, i - 1);
      DigitNext(n, 128, i - 1);
      DigitFirst(n / 128, 128);
    }
  }

  /** A fixed number is its base-256 digits, the least first. */
  lemma {:induction false} FixedExactly(n: nat, k: nat, i: nat)
    requires i < k
    ensures Fixed(n, k)[i] == Digit(n, 256, i)
  {
    hide Digit;
    DigitFirst(n, 256);
    if i > 0 {
      FixedExactly(n / 256, k - 1, i - 1);
      DigitNext(n, 256, i - 1);
    }
  }

  // ------------------------------------------------------------------ messages

  /** A number of bytes, and the bytes. */
  function Prefixed(bs: seq<Byte>): seq<Byte> {
    Varint(|bs|) + bs
  }

  function PrimitiveBytes(p: Primitive): seq<Byte> {
    match p
    case NoValue => []
    case IntVal(i) => [0x08] + Varint(if i < 0 then i + 0x1_0000_0000_0000_0000 else i)
    case LongVal(i) => [0x10] + Varint(if i < 0 then i + 0x1_0000_0000_0000_0000 else i)
    case FloatVal(bits) => [0x1D] + Fixed(bits, 4)
    case DoubleVal(bits) => [0x21] + Fixed(bits, 8)
    case BoolVal(b) => [0x28, if b then 1 else 0]
    case StringVal(s) => [0x32] + Prefixed(s)
  }

  function FileBytes(f: File): seq<Byte> {
    (if f.filepath == [] then [] else [0x0A] + Prefixed(f.filepath))
    + (if f.extension == [] then [] else [0x12] + Prefixed(f.extension))
  }

  function MessageBytes(m: Message): seq<Byte> {
    (if m.metricId == [] then [] else [0x0A] + Prefixed(m.metricId))
    + (if m.timestamp == 0 then [] else [0x15] + Fixed(m.timestamp, 4))
    + DataBytes(m.data)
  }

  function DataBytes(d: Data): seq<Byte> {
    match d
    case NoData => []
    case PrimitiveData(p) => [0x1A] + Prefixed(PrimitiveBytes(p))
    case FileData(f) => [0x22] + Prefixed(FileBytes(f))
  }

  /** A tag below 128 is one byte. */
  lemma OneTag(f: Field)
    requires 1 <= f.num < 16
    ensures EncodeFields([f]) == [f.num * 8 + WireType(f)] + EncodePayload(f)
  {
    hide EncodePayload;
    assert [f][1..] == [] && EncodeFields([]) == [];
    assert EncodeFields([f]) == EncodeField(f);
    assert Varint(f.num * 8 + WireType(f)) == [f.num * 8 + WireType(f)];
  }

  lemma TextBytes(num: nat, s: CText)
    requires 1 <= num < 16
    ensures EncodeFields(TextRecord(num, s)) == if s == [] then [] else [num * 8 + 2] + Prefixed(s)
  {
    hide Varint, EncodeFields;
    if s == [] {
      NoBytes();
    } else {
      OneTag(LengthField(num, s));
    }
  }

  lemma NoBytes()
    ensures EncodeFields([]) == []
  {
  }

  lemma PrimitiveExactly(p: Primitive)
    ensures EncodeFields(PrimitiveRecords(p)) == PrimitiveBytes(p)
  {
    hide EncodeFields, Fixed;
    match p
    case NoValue => NoBytes();
    case IntVal(i) => OneTag(VarintField(1, Unsigned(i)));
    case LongVal(i) => OneTag(VarintField(2, Unsigned(i)));
    case FloatVal(bits) => OneTag(Fixed32Field(3, bits));
    case DoubleVal(bits) => OneTag(Fixed64Field(4, bits));
    case BoolVal(b) =>
      OneTag(VarintField(5, if b then 1 else 0));
      assert Varint(if b then 1 else 0) == [if b then 1 else 0];
    case StringVal(s) => OneTag(LengthField(6, s));
  }

  lemma FileExactly(f: File)
    ensures EncodeFields(FileRecords(f)) == FileBytes(f)
  {
    hide EncodeFields, Varint;
    TextBytes(1, f.filepath);
    TextBytes(2, f.extension);
    EncodeFieldsAppend(TextRecord(1, f.filepath), TextRecord(2, f.extension));
  }

  lemma DataExactly(d: Data)
    ensures EncodeFields(DataRecords(d)) == DataBytes(d)
  {
    hide EncodeFields, Varint, PrimitiveRecords, FileRecords, PrimitiveBytes, FileBytes;
    match d
    case NoData => NoBytes();
    case PrimitiveData(p) =>
      PrimitiveExactly(p);
      OneTag(LengthField(3, PrimitiveBytes(p)));
    case FileData(f) =>
      FileExactly(f);
      OneTag(LengthField(4, FileBytes(f)));
  }

  lemma TimestampExactly(bits: U32)
    ensures EncodeFields(TimestampRecord(bits)) == if bits == 0 then [] else [0x15] + Fixed(bits, 4)
  {
    hide EncodeFields, Fixed;
    if bits == 0 {
      NoBytes();
    } else {
      OneTag(Fixed32Field(2, bits));
    }
  }

  /** The whole encoding of every message. */
  lemma EncodeExactly(m: Message)
    ensures Encode(m) == MessageBytes(m)
  {
    hide EncodeFields, Fixed, TextRecord, TimestampRecord, DataRecords, DataBytes, Prefixed;
    var id, ts, data := TextRecord(1, m.metricId), TimestampRecord(m.timestamp), DataRecords(m.data);
    TextBytes(1, m.metricId);
    TimestampExactly(m.timestamp);
    DataExactly(m.data);
    EncodeFieldsAppend(id, ts);
    EncodeFieldsAppend(id + ts, data);
  }
}
