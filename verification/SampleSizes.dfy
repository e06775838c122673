/** How large an encoded sample can get, against the constants of the generated
    headers. */
module SampleSizes {
  import opened Common
  import opened Wire
  import opened SampleMessage

  /** A record of a low field number has a one-byte tag. */
  lemma LowFieldSize(f: Field)
    requires 1 <= f.num < 16
    ensures |EncodeField(f)| == 1 + |EncodePayload(f)|
  {
    VarintLength(f.num * 8 + WireType(f));
  }

  lemma OneRecord(f: Field)
    requires 1 <= f.num < 16
    ensures |EncodeFields([f])| == 1 + |EncodePayload(f)|
  {
    LowFieldSize(f);
    assert [f][1..] == [];
    assert EncodeFields([f]) == EncodeField(f) + EncodeFields([f][1..]);
  }

  lemma TextSize(num: nat, s: CText)
    requires 1 <= num < 16
    ensures |EncodeFields(TextRecord(num, s))| == if s == [] then 0 else 1 + |Varint(|s|)| + |s|
  {
    if s != [] {
      OneRecord(LengthField(num, s));
    }
  }

  /** The bound 4098 of a primitive, met by the longest string alone. */
  lemma PrimitiveBound(p: Primitive)
    requires FitsPrimitive(p)
    ensures |EncodeFields(PrimitiveRecords(p))| <= 4098
    ensures |EncodeFields(PrimitiveRecords(p))| == 4098 <==>
            p.StringVal? && |p.text| == 4095
  {
    hide Varint, EncodeFields;
    match p
    case NoValue => assert EncodeFields([]) == [] by { NoRecords(); }
    case StringVal(s) =>
      OneRecord(LengthField(6, s));
      VarintLength(|s|);
    case IntVal(i) => Scalar(VarintField(1, Unsigned(i)));
    case LongVal(i) => Scalar(VarintField(2, Unsigned(i)));
    case FloatVal(bits) => Scalar(Fixed32Field(3, bits));
    case DoubleVal(bits) => Scalar(Fixed64Field(4, bits));
    case BoolVal(b) => Scalar(VarintField(5, if b then 1 else 0));
  }

  lemma NoRecords()
    ensures EncodeFields([]) == []
  {
  }

  lemma Scalar(f: Field)
    requires 1 <= f.num < 16 && !f.LengthField?
    ensures |EncodeFields([f])| <= 11
  {
    OneRecord(f);
    if f.VarintField? {
      Powers();
      VarintAtMost(f.value, 10);
    }
  }

  /** A file takes at most 146 bytes, one fewer than the header's constant. */
  lemma FileBound(f: File)
    requires FitsFile(f)
    ensures |EncodeFields(FileRecords(f))| <= 146
    ensures |EncodeFields(FileRecords(f))| == 146 <==>
            |f.filepath| == 127 && |f.extension| == 15
  {
    hide Varint, EncodeFields;
    TextSize(1, f.filepath);
    TextSize(2, f.extension);
    EncodeFieldsAppend(TextRecord(1, f.filepath), TextRecord(2, f.extension));
    VarintLength(|f.filepath|);
    VarintLength(|f.extension|);
  }

  lemma DataBound(d: Data)
    requires d.PrimitiveData? ==> FitsPrimitive(d.primitive)
    requires d.FileData? ==> FitsFile(d.file)
    ensures |EncodeFields(DataRecords(d))| <= 4101
    ensures |EncodeFields(DataRecords(d))| == 4101 <==>
            d.PrimitiveData? && d.primitive.StringVal? && |d.primitive.text| == 4095
  {
    hide Varint, EncodeFields, PrimitiveRecords, FileRecords;
    match d
    case NoData => NoRecords();
    case PrimitiveData(p) =>
      var bytes := EncodeFields(PrimitiveRecords(p));
      PrimitiveBound(p);
      OneRecord(LengthField(3, bytes));
      VarintLength(|bytes|);
    case FileData(f) =>
      var bytes := EncodeFields(FileRecords(f));
      FileBound(f);
      OneRecord(LengthField(4, bytes));
      VarintLength(|bytes|);
  }

  /** The bound 4171 of a sample, met exactly by the longest id, a non-zero
      timestamp and the longest string. */
  lemma SampleBound(m: Message)
    requires Fits(m)
    ensures |Encode(m)| <= 4171
    ensures |Encode(m)| == 4171 <==>
            |m.metricId| == 63 && m.timestamp != 0
            && m.data.PrimitiveData? && m.data.primitive.StringVal?
            && |m.data.primitive.text| == 4095
  {
    hide Varint, EncodeFields, DataRecords;
    var id, ts, data := TextRecord(1, m.metricId), TimestampRecord(m.timestamp), DataRecords(m.data);
    TextSize(1, m.metricId);
    VarintLength(|m.metricId|);
    if m.timestamp == 0 {
      NoRecords();
    } else {
      OneRecord(Fixed32Field(2, m.timestamp));
    }
    DataBound(m.data);
    EncodeFieldsAppend(id, ts);
    EncodeFieldsAppend(id + ts, data);
  }

  /** The worst case exists, so a buffer one byte shorter would not do. */
  lemma SampleBoundTight()
    ensures exists m: Message :: Fits(m) && |Encode(m)| == 4171
  {
    var id: seq<Byte> := seq(METRIC_ID_MAX_SIZE - 1, _ => 97);
    var text: seq<Byte> := seq(STRING_VALUE_MAX_SIZE - 1, _ => 97);
    var m := Message(id, 1, PrimitiveData(StringVal(text)));
    SampleBound(m);
  }
}
