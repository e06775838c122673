/** The sample message (sample.pb.h and primitive.pb.h): which records each
    value is written as, how a decoder folds records back into a value, and how
    large the encodings can get. */
module SampleMessage {
  import opened Common
  import opened Wire

  const METRIC_ID_MAX_SIZE := 64
  const STRING_VALUE_MAX_SIZE := 4096
  const FILE_PATH_MAX_SIZE := 128
  const EXTENSION_MAX_SIZE := 16

  const SAMPLE_SIZE := 4171

  /** The bytes of a C string, without its terminator. */
  type CText = s: seq<Byte> | 0 !in s

  /** The `value` oneof; floats and doubles are bit patterns. */
  datatype Primitive =
    | NoValue
    | IntVal(int32: I32)
    | LongVal(int64: I64)
    | FloatVal(float: U32)
    | DoubleVal(double: U64)
    | BoolVal(flag: bool)
    | StringVal(text: CText)

  datatype File = File(filepath: CText, extension: CText)

  /** The `data` oneof. */
  datatype Data = NoData | PrimitiveData(primitive: Primitive) | FileData(file: File)

  datatype Message = Message(metricId: CText, timestamp: U32, data: Data)

  /** What fits the fixed character arrays of the structs. */
  predicate FitsPrimitive(p: Primitive) {
    p.StringVal? ==> |p.text| < STRING_VALUE_MAX_SIZE
  }

  predicate FitsFile(f: File) {
    |f.filepath| < FILE_PATH_MAX_SIZE && |f.extension| < EXTENSION_MAX_SIZE
  }

  predicate Fits(m: Message) {
    |m.metricId| < METRIC_ID_MAX_SIZE
    && (m.data.PrimitiveData? ==> FitsPrimitive(m.data.primitive))
    && (m.data.FileData? ==> FitsFile(m.data.file))
  }

  // ----------------------------------------------------------------- encoding

  /** Negative numbers are sign-extended to 64 bits. */
  function Unsigned(i: I64): U64 {
    if i < 0 then i + TWO64 else i
  }

  function Signed64(n: U64): I64 {
    if n < TWO63 then n else n - TWO64
  }

  /** An int32 field keeps the low 32 bits of its varint. */
  function Signed32(n: U64): I32 {
    var low := n % TWO32;
    if low < TWO31 then low else low - TWO32
  }

  /** A singular string is left out when it is empty. */
  function TextRecord(num: nat, s: CText): seq<Field> {
    if s == [] then [] else [LengthField(num, s)]
  }

  /** A chosen oneof member is written even when it is zero. */
  function PrimitiveRecords(p: Primitive): seq<Field> {
    match p
    case NoValue => []
    case IntVal(i) => [VarintField(1, Unsigned(i))]
    case LongVal(i) => [VarintField(2, Unsigned(i))]
    case FloatVal(bits) => [Fixed32Field(3, bits)]
    case DoubleVal(bits) => [Fixed64Field(4, bits)]
    case BoolVal(b) => [VarintField(5, if b then 1 else 0)]
    case StringVal(s) => [LengthField(6, s)]
  }

  function FileRecords(f: File): seq<Field> {
    TextRecord(1, f.filepath) + TextRecord(2, f.extension)
  }

  function DataRecords(d: Data): seq<Field> {
    match d
    case NoData => []
    case PrimitiveData(p) => [LengthField(3, EncodeFields(PrimitiveRecords(p)))]
    case FileData(f) => [LengthField(4, EncodeFields(FileRecords(f)))]
  }

  /** A singular float is left out when all its bits are zero. */
  function TimestampRecord(bits: U32): seq<Field> {
    if bits == 0 then [] else [Fixed32Field(2, bits)]
  }

  function Records(m: Message): seq<Field> {
    TextRecord(1, m.metricId) + TimestampRecord(m.timestamp) + DataRecords(m.data)
  }

  function Encode(m: Message): seq<Byte> {
    EncodeFields(Records(m))
  }

  // ----------------------------------------------------------------- decoding

  /** A character array as a C string: up to its first NUL. */
  function CString(a: seq<Byte>): (s: CText)
    ensures |s| <= |a|
    ensures 0 !in a ==> s == a
  {
    if a == [] || a[0] == 0 then [] else [a[0]] + CString(a[1..])
  }

  /** A string field, if it leaves room for its terminator. */
  function ReadText(f: Field, size: nat): Option<CText> {
    if f.LengthField? && |f.bytes| < size then Some(CString(f.bytes)) else None
  }

  /** One record applied to a primitive: unknown numbers are skipped, a known
      number with another wire type is an error. */
  function StorePrimitive(p: Primitive, f: Field): Option<Primitive> {
    if f.num == 1 then (if f.VarintField? then Some(IntVal(Signed32(f.value))) else None)
    else if f.num == 2 then (if f.VarintField? then Some(LongVal(Signed64(f.value))) else None)
    else if f.num == 3 then (if f.Fixed32Field? then Some(FloatVal(f.bits32)) else None)
    else if f.num == 4 then (if f.Fixed64Field? then Some(DoubleVal(f.bits64)) else None)
    else if f.num == 5 then (if f.VarintField? then Some(BoolVal(f.value != 0)) else None)
    else if f.num == 6 then
      match ReadText(f, STRING_VALUE_MAX_SIZE)
      case None => None
      case Some(s) => Some(StringVal(s))
    else Some(p)
  }

  function StorePrimitives(p: Primitive, fs: seq<Field>): Option<Primitive>
    decreases |fs|
  {
    if fs == [] then Some(p)
    else
      match StorePrimitive(p, fs[0])
      case None => None
      case Some(q) => StorePrimitives(q, fs[1..])
  }

  function StoreFile(g: File, f: Field): Option<File> {
    if f.num == 1 then
      match ReadText(f, FILE_PATH_MAX_SIZE)
      case None => None
      case Some(s) => Some(g.(filepath := s))
    else if f.num == 2 then
      match ReadText(f, EXTENSION_MAX_SIZE)
      case None => None
      case Some(s) => Some(g.(extension := s))
    else Some(g)
  }

  function StoreFiles(g: File, fs: seq<Field>): Option<File>
    decreases |fs|
  {
    if fs == [] then Some(g)
    else
      match StoreFile(g, fs[0])
      case None => None
      case Some(h) => StoreFiles(h, fs[1..])
  }

  /** A submessage is merged into the member the oneof already holds; choosing
      the other member starts it from zero. */
  function StoreData(d: Data, num: nat, bytes: seq<Byte>): Option<Data> {
    match ReadFields(bytes)
    case None => None
    case Some(fs) =>
      if num == 3 then
        match StorePrimitives(if d.PrimitiveData? then d.primitive else NoValue, fs)
        case None => None
        case Some(p) => Some(PrimitiveData(p))
      else
        match StoreFiles(if d.FileData? then d.file else File([], []), fs)
        case None => None
        case Some(g) => Some(FileData(g))
  }

  function Store(m: Message, f: Field): Option<Message> {
    if f.num == 1 then
      match ReadText(f, METRIC_ID_MAX_SIZE)
      case None => None
      case Some(s) => Some(m.(metricId := s))
    else if f.num == 2 then
      if f.Fixed32Field? then Some(m.(timestamp := f.bits32)) else None
    else if f.num == 3 || f.num == 4 then
      if !f.LengthField? then None
      else
        match StoreData(m.data, f.num, f.bytes)
        case None => None
        case Some(d) => Some(m.(data := d))
    else Some(m)
  }

  function StoreAll(m: Message, fs: seq<Field>): Option<Message>
    decreases |fs|
  {
    if fs == [] then Some(m)
    else
      match Store(m, fs[0])
      case None => None
      case Some(n) => StoreAll(n, fs[1..])
  }

  const Zero := Message([], 0, NoData)

  /** Decoding from an accumulated message, for the decoder's loop. */
  function DecodeOnto(m: Message, bs: seq<Byte>): Option<Message> {
    match ReadFields(bs)
    case None => None
    case Some(fs) => StoreAll(m, fs)
  }

  function Decode(bs: seq<Byte>): Option<Message> {
    DecodeOnto(Zero, bs)
  }

  /** `decode_sample`: a zeroed sample, filled record by record; `None` is the
      null pointer of a failed decode. */
  method DecodeSample(data: seq<Byte>) returns (sample: Option<Message>)
    ensures sample == Decode(data)
  {
    hide ReadField, Store;
    var rest := data;
    var m := Zero;
    while rest != []
      invariant Decode(data) == DecodeOnto(m, rest)
      decreases |rest|
    {
      var field := ReadField(rest);
      if field.None? {
        return None;
      }
      var next := Store(m, field.value.0);
      if next.None? {
        return None;
      }
      rest := field.value.1;
      m := next.value;
    }
    sample := Some(m);
  }

  // --------------------------------------------------------------- round trip

  lemma SignInverse(i: I64)
    ensures Signed64(Unsigned(i)) == i
    ensures -TWO31 <= i < TWO31 ==> Signed32(Unsigned(i)) == i
  {
    if -TWO31 <= i < 0 {
      assert i + TWO64 == (TWO32 - 1) * TWO32 + (i + TWO32);
      assert (i + TWO64) % TWO32 == i + TWO32;
    }
  }

  lemma PrimitiveStored(q: Primitive, p: Primitive)
    requires FitsPrimitive(p) && p != NoValue
    ensures StorePrimitives(q, PrimitiveRecords(p)) == Some(p)
  {
    assert PrimitiveRecords(p)[1..] == [];
    match p
    case IntVal(i) => SignInverse(i);
    case LongVal(i) => SignInverse(i);
    case _ =>
  }

  lemma FileStored(f: File)
    requires FitsFile(f)
    ensures StoreFiles(File([], []), FileRecords(f)) == Some(f)
  {
    var path, ext := TextRecord(1, f.filepath), TextRecord(2, f.extension);
    assert StoreFiles(File(f.filepath, []), ext) == Some(f) by {
      assert ext != [] ==> ext[1..] == [];
    }
    if path != [] {
      assert FileRecords(f)[0] == path[0] && FileRecords(f)[1..] == ext;
    } else {
      assert FileRecords(f) == ext;
    }
  }

  lemma {:induction false} RecordLengths(fs: seq<Field>)
    requires forall i :: 0 <= i < |fs| ==> ValidField(fs[i]) && (fs[i].LengthField? ==> |fs[i].bytes| < 0x4000)
    ensures |EncodeFields(fs)| <= |fs| * 0x5000
  {
    hide EncodeField;
    if fs == [] {
    } else {
      RecordLength(fs[0]);
      RecordLengths(fs[1..]);
    }
  }

  lemma RecordLength(f: Field)
    requires ValidField(f)
    ensures !f.LengthField? ==> |EncodeField(f)| <= 20
    ensures f.LengthField? ==> |EncodeField(f)| <= 20 + |f.bytes|
  {
    Powers();
    VarintAtMost(f.num * 8 + WireType(f), 10);
    match f
    case VarintField(_, v) => VarintAtMost(v, 10);
    case LengthField(_, bs) => VarintAtMost(|bs|, 10);
    case _ =>
  }

  /** The nested messages are short enough for their length prefix. */
  lemma DataValid(d: Data)
    requires d.PrimitiveData? ==> FitsPrimitive(d.primitive)
    requires d.FileData? ==> FitsFile(d.file)
    ensures forall i :: 0 <= i < |DataRecords(d)| ==> ValidField(DataRecords(d)[i])
    ensures d.PrimitiveData? ==> forall i :: 0 <= i < |PrimitiveRecords(d.primitive)| ==> ValidField(PrimitiveRecords(d.primitive)[i])
    ensures d.FileData? ==> forall i :: 0 <= i < |FileRecords(d.file)| ==> ValidField(FileRecords(d.file)[i])
  {
    match d
    case NoData =>
    case PrimitiveData(p) => RecordLengths(PrimitiveRecords(p));
    case FileData(f) => RecordLengths(FileRecords(f));
  }

  /** A nested message reads back into an empty oneof. */
  lemma DataStored(d: Data)
    requires d.PrimitiveData? ==> FitsPrimitive(d.primitive)
    requires d.FileData? ==> FitsFile(d.file)
    requires d != NoData
    ensures StoreData(NoData, DataRecords(d)[0].num, DataRecords(d)[0].bytes) == Some(d)
  {
    hide ReadFields, EncodeFields, StorePrimitives, StoreFiles, PrimitiveRecords, FileRecords;
    DataValid(d);
    match d
    case PrimitiveData(p) =>
      FieldsRoundTrip(PrimitiveRecords(p));
      if p == NoValue {
        EmptyPrimitive();
      } else {
        PrimitiveStored(NoValue, p);
      }
    case FileData(f) =>
      FieldsRoundTrip(FileRecords(f));
      FileStored(f);
  }

  lemma EmptyPrimitive()
    ensures StorePrimitives(NoValue, PrimitiveRecords(NoValue)) == Some(NoValue)
  {
  }

  lemma StoreConcat(m: Message, fs: seq<Field>, gs: seq<Field>)
    ensures StoreAll(m, fs + gs) ==
            match StoreAll(m, fs) case None => None case Some(n) => StoreAll(n, gs)
    decreases |fs|
  {
    hide Store;
    if fs == [] {
      assert fs + gs == gs;
    } else {
      assert (fs + gs)[1..] == fs[1..] + gs;
      match Store(m, fs[0])
      case None =>
      case Some(n) => StoreConcat(n, fs[1..], gs);
    }
  }

  lemma MessageStored(m: Message)
    requires Fits(m)
    ensures StoreAll(Zero, Records(m)) == Some(m)
  {
    hide StoreData, DataRecords;
    var id, ts, data := TextRecord(1, m.metricId), TimestampRecord(m.timestamp), DataRecords(m.data);
    var m1 := Zero.(metricId := m.metricId);
    var m2 := m1.(timestamp := m.timestamp);
    assert StoreAll(Zero, id) == Some(m1) by {
      assert m.metricId != [] ==> id[1..] == [];
    }
    assert StoreAll(m1, ts) == Some(m2) by {
      assert m.timestamp != 0 ==> ts[1..] == [];
    }
    StoreConcat(Zero, id, ts);
    StoreConcat(Zero, id + ts, data);
    DataApplied(m2, m.data);
  }

  lemma DataApplied(m: Message, d: Data)
    requires d.PrimitiveData? ==> FitsPrimitive(d.primitive)
    requires d.FileData? ==> FitsFile(d.file)
    requires m.data == NoData
    ensures StoreAll(m, DataRecords(d)) == Some(m.(data := d))
  {
    hide StoreData;
    if d != NoData {
      DataStored(d);
      assert DataRecords(d)[1..] == [];
    }
  }

  /** Decoding undoes encoding for every message that fits the structs. */
  lemma MessageRoundTrip(m: Message)
    requires Fits(m)
    ensures Decode(Encode(m)) == Some(m)
  {
    hide ReadFields, EncodeFields, StoreAll, DataRecords;
    DataValid(m.data);
    FieldsRoundTrip(Records(m));
    MessageStored(m);
  }
}
