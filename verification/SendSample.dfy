/** The `send_sample_*` functions (bcp-fetch-client/src/send_sample.c): argument
    checks, a struct filled field by field, and an encoder that writes into a
    fixed buffer. */
module SendSample {
  import opened Common
  import opened Wire
  import opened SampleMessage
  import SampleSizes
  import WireLayout

  // ------------------------------------------------------- the output stream

  /** A stream over a caller's buffer, with the number of bytes written so far.
      Every writer below either appends exactly its bytes or, when they do not
      fit, reports failure. */
  class OStream {
    const buf: array<Byte>
    var bytesWritten: nat

    ghost predicate Valid()
      reads this
    {
      bytesWritten <= buf.Length
    }

    function Content(): seq<Byte>
      reads this, buf
      requires Valid()
    {
      buf[..bytesWritten]
    }

    constructor (buf: array<Byte>)
      ensures this.buf == buf && bytesWritten == 0 && Valid()
    {
      this.buf := buf;
      bytesWritten := 0;
    }

    method Write(bs: seq<Byte>) returns (ok: bool)
      requires Valid()
      modifies this`bytesWritten, buf
      ensures Valid()
      ensures ok == (old(bytesWritten) + |bs| <= buf.Length)
      ensures Content() == if ok then old(Content()) + bs else old(Content())
    {
      if bytesWritten + |bs| > buf.Length {
        return false;
      }
      ghost var before := buf[..bytesWritten];
      for i := 0 to |bs|
        invariant bytesWritten == old(bytesWritten)
        invariant buf[..bytesWritten + i] == before + bs[..i]
      {
        buf[bytesWritten + i] := bs[i];
        assert buf[..bytesWritten + i + 1] == buf[..bytesWritten + i] + [bs[i]];
        assert bs[..i + 1] == bs[..i] + [bs[i]];
      }
      assert bs[..|bs|] == bs;
      bytesWritten := bytesWritten + |bs|;
      ok := true;
    }

    method WriteVarint(n: nat) returns (ok: bool)
      requires Valid()
      modifies this`bytesWritten, buf
      ensures Valid()
      ensures ok == (old(bytesWritten) + |Varint(n)| <= buf.Length)
      ensures ok ==> Content() == old(Content()) + Varint(n)
    {
      var groups: seq<Byte> := [];
      var v := n;
      while v >= 128
        invariant groups + Varint(v) == Varint(n)
      {
        assert groups + Varint(v) == groups + [v % 128 + 128] + Varint(v / 128);
        groups := groups + [v % 128 + 128];
        v := v / 128;
      }
      ok := Write(groups + [v]);
    }

    method WriteFixed(n: nat, k: nat) returns (ok: bool)
      requires Valid()
      modifies this`bytesWritten, buf
      ensures Valid()
      ensures ok == (old(bytesWritten) + k <= buf.Length)
      ensures ok ==> Content() == old(Content()) + Fixed(n, k)
    {
      var bytes: seq<Byte> := [];
      var v := n;
      for i := 0 to k
        invariant |bytes| == i && v >= 0
        invariant bytes + Fixed(v, k - i) == Fixed(n, k)
      {
        assert bytes + Fixed(v, k - i) == bytes + [v % 256] + Fixed(v / 256, k - i - 1);
        bytes := bytes + [v % 256];
        v := v / 256;
      }
      assert bytes == Fixed(n, k);
      ok := Write(bytes);
    }

    method WritePayload(f: Field) returns (ok: bool)
      requires Valid()
      modifies this`bytesWritten, buf
      ensures Valid()
      ensures ok == (old(bytesWritten) + |EncodePayload(f)| <= buf.Length)
      ensures ok ==> Content() == old(Content()) + EncodePayload(f)
    {
      hide Varint, Fixed;
      match f
      case VarintField(_, v) => ok := WriteVarint(v);
      case Fixed64Field(_, v) => ok := WriteFixed(v, 8);
      case Fixed32Field(_, v) => ok := WriteFixed(v, 4);
      case LengthField(_, bs) =>
        ok := WriteVarint(|bs|);
        if ok {
          ok := Write(bs);
        }
    }

    method WriteField(f: Field) returns (ok: bool)
      requires Valid()
      modifies this`bytesWritten, buf
      ensures Valid()
      ensures ok == (old(bytesWritten) + |EncodeField(f)| <= buf.Length)
      ensures ok ==> Content() == old(Content()) + EncodeField(f)
    {
      hide Varint, EncodePayload, WireType;
      ok := WriteVarint(f.num * 8 + WireType(f));
      if ok {
        ok := WritePayload(f);
      }
    }

    static lemma OneMoreField(fs: seq<Field>, i: nat)
      requires i < |fs|
      ensures EncodeFields(fs[..i + 1]) == EncodeFields(fs[..i]) + EncodeField(fs[i])
      ensures |EncodeFields(fs[..i + 1])| <= |EncodeFields(fs)|
    {
      hide EncodeField;
      assert fs[..i + 1] == fs[..i] + [fs[i]];
      assert fs == fs[..i + 1] + fs[i + 1..];
      EncodeFieldsAppend(fs[..i], [fs[i]]);
      EncodeFieldsAppend(fs[..i + 1], fs[i + 1..]);
      assert EncodeFields([fs[i]]) == EncodeField(fs[i]) by { assert [fs[i]][1..] == []; }
    }

    method WriteFields(fs: seq<Field>) returns (ok: bool)
      requires Valid()
      modifies this`bytesWritten, buf
      ensures Valid()
      ensures ok == (old(bytesWritten) + |EncodeFields(fs)| <= buf.Length)
      ensures ok ==> Content() == old(Content()) + EncodeFields(fs)
    {
      hide EncodeField, EncodeFields;
      assert fs[..0] == [];
      SampleSizes.NoRecords();
      for i := 0 to |fs|
        invariant Valid()
        invariant Content() == old(Content()) + EncodeFields(fs[..i])
      {
        OneMoreField(fs, i);
        ok := WriteField(fs[i]);
        if !ok {
          return;
        }
      }
      assert fs[..|fs|] == fs;
      ok := true;
    }

    /** A nested message: its size first, then its records, if there is room. */
    method WriteSubmessage(num: nat, fs: seq<Field>) returns (ok: bool)
      requires Valid()
      modifies this`bytesWritten, buf
      ensures Valid()
      ensures var bs := EncodeField(LengthField(num, EncodeFields(fs)));
              ok == (old(bytesWritten) + |bs| <= buf.Length) &&
              (ok ==> Content() == old(Content()) + bs)
    {
      hide Varint, EncodeFields;
      var size := |EncodeFields(fs)|;
      ok := WriteVarint(num * 8 + 2);
      if !ok {
        return;
      }
      ok := WriteVarint(size);
      if !ok {
        return;
      }
      if bytesWritten + size > buf.Length {
        return false;
      }
      ok := WriteFields(fs);
    }

    method WriteData(d: Data) returns (ok: bool)
      requires Valid()
      modifies this`bytesWritten, buf
      ensures Valid()
      ensures ok == (old(bytesWritten) + |EncodeFields(DataRecords(d))| <= buf.Length)
      ensures ok ==> Content() == old(Content()) + EncodeFields(DataRecords(d))
    {
      hide EncodeField, PrimitiveRecords, FileRecords;
      match d
      case NoData => ok := true;
      case PrimitiveData(p) =>
        assert DataRecords(d)[1..] == [];
        ok := WriteSubmessage(3, PrimitiveRecords(p));
      case FileData(f) =>
        assert DataRecords(d)[1..] == [];
        ok := WriteSubmessage(4, FileRecords(f));
    }

    /** `pb_encode` for the sample descriptor, field by field. */
    method EncodeSample(m: Message) returns (ok: bool)
      requires Valid()
      modifies this`bytesWritten, buf
      ensures Valid()
      ensures ok == (old(bytesWritten) + |Encode(m)| <= buf.Length)
      ensures ok ==> Content() == old(Content()) + Encode(m)
    {
      hide EncodeFields, DataRecords;
      var id, ts := TextRecord(1, m.metricId), TimestampRecord(m.timestamp);
      EncodeFieldsAppend(id, ts);
      EncodeFieldsAppend(id + ts, DataRecords(m.data));
      ok := WriteFields(id);
      if !ok {
        return;
      }
      ok := WriteFields(ts);
      if !ok {
        return;
      }
      ok := WriteData(m.data);
    }
  }

  // --------------------------------------------------------------- the struct

  /** What `strlcpy` leaves of a string in an array of `size` characters. */
  function Trunc(s: CText, size: nat): (t: CText)
    requires size >= 1
    ensures t <= s && |t| == if |s| < size then |s| else size - 1
    ensures t == s <==> |s| < size
  {
    if |s| < size then s else s[..size - 1]
  }

  lemma {:induction false} CStringPrefix(a: seq<Byte>, k: nat)
    requires k < |a| && a[k] == 0 && 0 !in a[..k]
    ensures CString(a) == a[..k]
  {
    if k > 0 {
      assert a[0] in a[..k];
      assert a[1..][..k - 1] == a[..k][1..];
      CStringPrefix(a[1..], k - 1);
      assert a[..k] == [a[0]] + a[1..][..k - 1];
    }
  }

  /** `strlcpy(dst, src, sizeof dst)`. */
  method Strlcpy(dst: array<Byte>, src: CText)
    requires dst.Length >= 1
    modifies dst
    ensures CString(dst[..]) == Trunc(src, dst.Length)
  {
    var i := 0;
    while i < |src| && i < dst.Length - 1
      invariant i <= |src| && i <= dst.Length - 1
      invariant dst[..i] == src[..i]
    {
      dst[i] := src[i];
      assert dst[..i + 1] == dst[..i] + [src[i]];
      assert src[..i + 1] == src[..i] + [src[i]];
      i := i + 1;
    }
    dst[i] := 0;
    assert dst[..][..i] == dst[..i] == src[..i] == Trunc(src, dst.Length);
    CStringPrefix(dst[..], i);
  }

  const PRIMITIVE_TAG := 3
  const FILE_TAG := 4

  /** The `Sample` struct with its fixed character arrays.  Each oneof member
      has storage of its own; `whichData` and `whichValue` choose among them. */
  class SampleStruct {
    const metricId: array<Byte>
    var timestamp: U32
    var whichData: nat
    var whichValue: nat
    var intVal: I32
    var longVal: I64
    var floatVal: U32
    var doubleVal: U64
    var boolVal: bool
    const stringVal: array<Byte>
    const filepath: array<Byte>
    const extension: array<Byte>

    ghost predicate Sized() {
      metricId.Length == METRIC_ID_MAX_SIZE && stringVal.Length == STRING_VALUE_MAX_SIZE
      && filepath.Length == FILE_PATH_MAX_SIZE && extension.Length == EXTENSION_MAX_SIZE
      && metricId != stringVal && metricId != filepath && metricId != extension
      && filepath != extension
    }

    /** `Sample_init_zero`. */
    constructor ()
      ensures Sized()
      ensures fresh(metricId) && fresh(stringVal) && fresh(filepath) && fresh(extension)
      ensures timestamp == 0 && whichData == 0 && whichValue == 0
    {
      metricId := new Byte[METRIC_ID_MAX_SIZE](_ => 0);
      timestamp, whichData, whichValue := 0, 0, 0;
      intVal, longVal, floatVal, doubleVal, boolVal := 0, 0, 0, 0, false;
      stringVal := new Byte[STRING_VALUE_MAX_SIZE](_ => 0);
      filepath := new Byte[FILE_PATH_MAX_SIZE](_ => 0);
      extension := new Byte[EXTENSION_MAX_SIZE](_ => 0);
    }

    function ChosenPrimitive(): Primitive
      reads this, stringVal
    {
      if whichValue == 1 then IntVal(intVal)
      else if whichValue == 2 then LongVal(longVal)
      else if whichValue == 3 then FloatVal(floatVal)
      else if whichValue == 4 then DoubleVal(doubleVal)
      else if whichValue == 5 then BoolVal(boolVal)
      else if whichValue == 6 then StringVal(CString(stringVal[..]))
      else NoValue
    }

    /** The message the encoder sees in the struct. */
    function ToMessage(): Message
      reads this, metricId, stringVal, filepath, extension
    {
      Message(
        CString(metricId[..]), timestamp,
        if whichData == PRIMITIVE_TAG then PrimitiveData(ChosenPrimitive())
        else if whichData == FILE_TAG then FileData(File(CString(filepath[..]), CString(extension[..])))
        else NoData)
    }
  }

  // ----------------------------------------------------------------- sending

  datatype Status = StatusOk | EncodingError | SendError | BoundsCheckError

  /** A `const char*` argument. */
  datatype CPtr = NullPtr | Text(s: CText)

  predicate Missing(p: CPtr) {
    p.NullPtr? || p.s == []
  }

  /** `strnlen(p, size) == size`. */
  predicate TooLong(p: CPtr, size: nat)
    requires !Missing(p)
  {
    |p.s| >= size
  }

  /** A datagram went to the socket, it fits the fixed buffer, it is the encoding
      of this message byte for byte, and a receiver decodes it to the message. */
  ghost predicate Delivered(status: Status, sent: Option<seq<Byte>>, sendOk: bool, m: Message) {
    sent.Some? && |sent.value| <= SAMPLE_SIZE
    && sent.value == WireLayout.MessageBytes(m) && Decode(sent.value) == Some(m)
    && status == if sendOk then StatusOk else SendError
  }

  ghost predicate Refused(status: Status, sent: Option<seq<Byte>>, why: Status) {
    status == why && sent == None
  }

  /** `send_sample`: encode into a buffer of the maximum size and send what was
      written.  `sendOk` is the outcome of `send`; `sent` is what it was given.
      Encoding never fails for lack of space. */
  method Send(message: Message, sendOk: bool) returns (status: Status, sent: Option<seq<Byte>>)
    requires Fits(message)
    ensures Delivered(status, sent, sendOk, message)
  {
    hide Encode, Decode;
    var buffer := new Byte[SAMPLE_SIZE](_ => 0);
    var stream := new OStream(buffer);
    SampleSizes.SampleBound(message);
    MessageRoundTrip(message);
    var ok := stream.EncodeSample(message);
    if !ok {
      return EncodingError, None;
    }
    sent := Some(buffer[..stream.bytesWritten]);
    assert sent.value == Encode(message);
    WireLayout.EncodeExactly(message);
    if !sendOk {
      return SendError, sent;
    }
    status := StatusOk;
  }

  /** The checks and the assignments every primitive sender starts with. */
  method StartPrimitive(metricId: CPtr, timestamp: U32, checking: bool, which: nat)
    returns (refusal: Option<Status>, sample: SampleStruct)
    ensures Missing(metricId) ==> refusal == Some(EncodingError)
    ensures !Missing(metricId) && checking && TooLong(metricId, METRIC_ID_MAX_SIZE) ==>
              refusal == Some(BoundsCheckError)
    ensures !Missing(metricId) && !(checking && TooLong(metricId, METRIC_ID_MAX_SIZE)) ==> refusal == None
    ensures fresh(sample) && fresh(sample.metricId) && fresh(sample.stringVal) && sample.Sized()
    ensures refusal == None ==>
              CString(sample.metricId[..]) == Trunc(metricId.s, METRIC_ID_MAX_SIZE)
              && sample.timestamp == timestamp && sample.whichData == PRIMITIVE_TAG && sample.whichValue == which
  {
    sample := new SampleStruct();
    if Missing(metricId) {
      return Some(EncodingError), sample;
    }
    if checking && TooLong(metricId, METRIC_ID_MAX_SIZE) {
      return Some(BoundsCheckError), sample;
    }
    Strlcpy(sample.metricId, metricId.s);
    sample.timestamp := timestamp;
    sample.whichData := PRIMITIVE_TAG;
    sample.whichValue := which;
    refusal := None;
  }

  /** What each primitive sender promises for the value it was given. */
  ghost predicate SendsPrimitive(metricId: CPtr, timestamp: U32, checking: bool, sendOk: bool, p: Primitive,
                                 status: Status, sent: Option<seq<Byte>>) {
    if Missing(metricId) then Refused(status, sent, EncodingError)
    else if checking && TooLong(metricId, METRIC_ID_MAX_SIZE) then Refused(status, sent, BoundsCheckError)
    else Delivered(status, sent, sendOk,
                   Message(Trunc(metricId.s, METRIC_ID_MAX_SIZE), timestamp, PrimitiveData(p)))
  }

  /** Refused for a missing id, and with bounds checking for one of 64 bytes or
      more; otherwise sent, and then a receiver gets the whole id when it has at
      most 63 bytes, and without bounds checking its first 63 when it has more. */
  lemma PrimitiveSent(metricId: CPtr, timestamp: U32, checking: bool, sendOk: bool, p: Primitive,
                      status: Status, sent: Option<seq<Byte>>)
    requires SendsPrimitive(metricId, timestamp, checking, sendOk, p, status, sent)
    ensures status == EncodingError <==> metricId.NullPtr? || metricId.s == []
    ensures status == BoundsCheckError <==> checking && metricId.Text? && |metricId.s| >= 64
    ensures sent.Some? <==> status == StatusOk || status == SendError
    ensures sent.Some? ==>
              metricId.Text?
              && Decode(sent.value) == Some(Message(if |metricId.s| <= 63 then metricId.s else metricId.s[..63],
                                                    timestamp, PrimitiveData(p)))
  {
    hide Decode;
  }

  method SendSampleInt32(metricId: CPtr, timestamp: U32, value: I32, checking: bool, sendOk: bool)
    returns (status: Status, sent: Option<seq<Byte>>)
    ensures SendsPrimitive(metricId, timestamp, checking, sendOk, IntVal(value), status, sent)
  {
    hide Decode, CString;
    var refusal, sample := StartPrimitive(metricId, timestamp, checking, 1);
    if refusal.Some? {
      return refusal.value, None;
    }
    sample.intVal := value;
    status, sent := Send(sample.ToMessage(), sendOk);
  }

  method SendSampleInt64(metricId: CPtr, timestamp: U32, value: I64, checking: bool, sendOk: bool)
    returns (status: Status, sent: Option<seq<Byte>>)
    ensures SendsPrimitive(metricId, timestamp, checking, sendOk, LongVal(value), status, sent)
  {
    hide Decode, CString;
    var refusal, sample := StartPrimitive(metricId, timestamp, checking, 2);
    if refusal.Some? {
      return refusal.value, None;
    }
    sample.longVal := value;
    status, sent := Send(sample.ToMessage(), sendOk);
  }

  method SendSampleFloat(metricId: CPtr, timestamp: U32, value: U32, checking: bool, sendOk: bool)
    returns (status: Status, sent: Option<seq<Byte>>)
    ensures SendsPrimitive(metricId, timestamp, checking, sendOk, FloatVal(value), status, sent)
  {
    hide Decode, CString;
    var refusal, sample := StartPrimitive(metricId, timestamp, checking, 3);
    if refusal.Some? {
      return refusal.value, None;
    }
    sample.floatVal := value;
    status, sent := Send(sample.ToMessage(), sendOk);
  }

  method SendSampleDouble(metricId: CPtr, timestamp: U32, value: U64, checking: bool, sendOk: bool)
    returns (status: Status, sent: Option<seq<Byte>>)
    ensures SendsPrimitive(metricId, timestamp, checking, sendOk, DoubleVal(value), status, sent)
  {
    hide Decode, CString;
    var refusal, sample := StartPrimitive(metricId, timestamp, checking, 4);
    if refusal.Some? {
      return refusal.value, None;
    }
    sample.doubleVal := value;
    status, sent := Send(sample.ToMessage(), sendOk);
  }

  method SendSampleBool(metricId: CPtr, timestamp: U32, value: bool, checking: bool, sendOk: bool)
    returns (status: Status, sent: Option<seq<Byte>>)
    ensures SendsPrimitive(metricId, timestamp, checking, sendOk, BoolVal(value), status, sent)
  {
    hide Decode, CString;
    var refusal, sample := StartPrimitive(metricId, timestamp, checking, 5);
    if refusal.Some? {
      return refusal.value, None;
    }
    sample.boolVal := value;
    status, sent := Send(sample.ToMessage(), sendOk);
  }

  /** Both strings are checked for presence before either is checked for length. */
  method SendSampleString(metricId: CPtr, timestamp: U32, value: CPtr, checking: bool, sendOk: bool)
    returns (status: Status, sent: Option<seq<Byte>>)
    ensures Missing(metricId) || Missing(value) ==> Refused(status, sent, EncodingError)
    ensures !Missing(metricId) && !Missing(value) ==>
              if checking && (TooLong(metricId, METRIC_ID_MAX_SIZE) || TooLong(value, STRING_VALUE_MAX_SIZE))
              then Refused(status, sent, BoundsCheckError)
              else Delivered(status, sent, sendOk,
                             Message(Trunc(metricId.s, METRIC_ID_MAX_SIZE), timestamp,
                                     PrimitiveData(StringVal(Trunc(value.s, STRING_VALUE_MAX_SIZE)))))
  {
    hide Decode, CString;
    if Missing(metricId) || Missing(value) {
      return EncodingError, None;
    }
    if checking && (TooLong(metricId, METRIC_ID_MAX_SIZE) || TooLong(value, STRING_VALUE_MAX_SIZE)) {
      return BoundsCheckError, None;
    }
    var sample := new SampleStruct();
    Strlcpy(sample.metricId, metricId.s);
    sample.timestamp := timestamp;
    sample.whichData := PRIMITIVE_TAG;
    sample.whichValue := 6;
    Strlcpy(sample.stringVal, value.s);
    status, sent := Send(sample.ToMessage(), sendOk);
  }

  method SendSampleFile(metricId: CPtr, timestamp: U32, filepath: CPtr, extension: CPtr, checking: bool, sendOk: bool)
    returns (status: Status, sent: Option<seq<Byte>>)
    ensures Missing(metricId) || Missing(filepath) || Missing(extension) ==> Refused(status, sent, EncodingError)
    ensures !Missing(metricId) && !Missing(filepath) && !Missing(extension) ==>
              if checking && (TooLong(metricId, METRIC_ID_MAX_SIZE) || TooLong(filepath, FILE_PATH_MAX_SIZE)
                              || TooLong(extension, EXTENSION_MAX_SIZE))
              then Refused(status, sent, BoundsCheckError)
              else Delivered(status, sent, sendOk,
                             Message(Trunc(metricId.s, METRIC_ID_MAX_SIZE), timestamp,
                                     FileData(File(Trunc(filepath.s, FILE_PATH_MAX_SIZE),
                                                   Trunc(extension.s, EXTENSION_MAX_SIZE)))))
  {
    hide Decode, CString;
    if Missing(metricId) || Missing(filepath) || Missing(extension) {
      return EncodingError, None;
    }
    if checking && (TooLong(metricId, METRIC_ID_MAX_SIZE) || TooLong(filepath, FILE_PATH_MAX_SIZE)
                    || TooLong(extension, EXTENSION_MAX_SIZE)) {
      return BoundsCheckError, None;
    }
    var sample := new SampleStruct();
    Strlcpy(sample.metricId, metricId.s);
    sample.timestamp := timestamp;
    sample.whichData := FILE_TAG;
    Strlcpy(sample.filepath, filepath.s);
    Strlcpy(sample.extension, extension.s);
    status, sent := Send(sample.ToMessage(), sendOk);
  }
}
