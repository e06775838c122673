/** What the sample decoder does beyond undoing one encoding: encodings one after
    the other are merged, records it does not know are skipped, and what does
    not fit the structs is refused. */
module MessageMerge {
  import opened Common
  import opened Wire
  import opened SampleMessage

  // ------------------------------------------------------------------- merging

  function Later(a: CText, b: CText): CText {
    if b == [] then a else b
  }

  /** A primitive replaces what the oneof held, a file is merged into a file. */
  function MergedData(a: Data, b: Data): Data {
    match b
    case NoData => a
    case PrimitiveData(p) => if p == NoValue && a.PrimitiveData? then a else b
    case FileData(g) =>
      if a.FileData? then FileData(File(Later(a.file.filepath, g.filepath), Later(a.file.extension, g.extension)))
      else b
  }

  function Merged(a: Message, b: Message): Message {
    Message(Later(a.metricId, b.metricId), if b.timestamp == 0 then a.timestamp else b.timestamp, MergedData(a.data, b.data))
  }

  lemma FileMerged(a: File, f: File)
    requires FitsFile(f)
    ensures StoreFiles(a, FileRecords(f)) == Some(File(Later(a.filepath, f.filepath), Later(a.extension, f.extension)))
  {
    var path, ext := TextRecord(1, f.filepath), TextRecord(2, f.extension);
    var between := File(Later(a.filepath, f.filepath), a.extension);
    assert StoreFiles(between, ext) == Some(between.(extension := Later(a.extension, f.extension))) by {
      assert ext != [] ==> ext[1..] == [];
    }
    if path != [] {
      assert FileRecords(f)[0] == path[0] && FileRecords(f)[1..] == ext;
    } else {
      assert FileRecords(f) == ext;
    }
  }

  lemma DataMerged(a: Data, d: Data)
    requires d.PrimitiveData? ==> FitsPrimitive(d.primitive)
    requires d.FileData? ==> FitsFile(d.file)
    requires d != NoData
    ensures StoreData(a, DataRecords(d)[0].num, DataRecords(d)[0].bytes) == Some(MergedData(a, d))
  {
    hide ReadFields, EncodeFields, StorePrimitives, StoreFiles, PrimitiveRecords, FileRecords;
    DataValid(d);
    match d
    case PrimitiveData(p) =>
      var held := if a.PrimitiveData? then a.primitive else NoValue;
      FieldsRoundTrip(PrimitiveRecords(p));
      if p == NoValue {
        NothingStored(held);
      } else {
        PrimitiveStored(held, p);
      }
    case FileData(f) =>
      FieldsRoundTrip(FileRecords(f));
      FileMerged(if a.FileData? then a.file else File([], []), f);
  }

  lemma NothingStored(p: Primitive)
    ensures StorePrimitives(p, PrimitiveRecords(NoValue)) == Some(p)
  {
  }

  lemma MessageMerged(a: Message, m: Message)
    requires Fits(m)
    ensures StoreAll(a, Records(m)) == Some(Merged(a, m))
  {
    hide StoreData, DataRecords, MergedData;
    var id, ts, data := TextRecord(1, m.metricId), TimestampRecord(m.timestamp), DataRecords(m.data);
    var a1 := a.(metricId := Later(a.metricId, m.metricId));
    var a2 := a1.(timestamp := if m.timestamp == 0 then a.timestamp else m.timestamp);
    assert StoreAll(a, id) == Some(a1) by {
      assert m.metricId != [] ==> id[1..] == [];
    }
    assert StoreAll(a1, ts) == Some(a2) by {
      assert m.timestamp != 0 ==> ts[1..] == [];
    }
    StoreConcat(a, id, ts);
    StoreConcat(a, id + ts, data);
    DataApplied(a2, m.data);
  }

  lemma DataApplied(a: Message, d: Data)
    requires d.PrimitiveData? ==> FitsPrimitive(d.primitive)
    requires d.FileData? ==> FitsFile(d.file)
    ensures StoreAll(a, DataRecords(d)) == Some(a.(data := MergedData(a.data, d)))
  {
    hide StoreData;
    if d != NoData {
      hide MergedData;
      DataMerged(a.data, d);
      assert DataRecords(d)[1..] == [];
    }
  }

  /** The records of any number of messages, one after the other. */
  function AllRecords(ms: seq<Message>): seq<Field> {
    if ms == [] then [] else Records(ms[0]) + AllRecords(ms[1..])
  }

  function AllBytes(ms: seq<Message>): seq<Byte> {
    if ms == [] then [] else Encode(ms[0]) + AllBytes(ms[1..])
  }

  function AllMerged(a: Message, ms: seq<Message>): Message
    decreases |ms|
  {
    if ms == [] then a else AllMerged(Merged(a, ms[0]), ms[1..])
  }

  lemma RecordsValid(m: Message)
    requires Fits(m)
    ensures forall i :: 0 <= i < |Records(m)| ==> ValidField(Records(m)[i])
  {
    hide DataRecords;
    DataValid(m.data);
  }

  lemma {:induction false} AllStored(a: Message, ms: seq<Message>)
    requires forall i :: 0 <= i < |ms| ==> Fits(ms[i])
    ensures forall i :: 0 <= i < |AllRecords(ms)| ==> ValidField(AllRecords(ms)[i])
    ensures EncodeFields(AllRecords(ms)) == AllBytes(ms)
    ensures StoreAll(a, AllRecords(ms)) == Some(AllMerged(a, ms))
    decreases |ms|
  {
    hide Fits, Records, Merged, Store, EncodeField, ValidField;
    if ms == [] {
    } else {
      RecordsValid(ms[0]);
      MessageMerged(a, ms[0]);
      AllStored(Merged(a, ms[0]), ms[1..]);
      StoreConcat(a, Records(ms[0]), AllRecords(ms[1..]));
      EncodeFieldsAppend(Records(ms[0]), AllRecords(ms[1..]));
    }
  }

  /** Decoding the encodings of any number of messages, one after the other,
      merges them in order: of each singular field and of the oneof the last one
      written counts, and files are merged field by field. */
  lemma ConcatenationMerges(ms: seq<Message>)
    requires forall i :: 0 <= i < |ms| ==> Fits(ms[i])
    ensures Decode(AllBytes(ms)) == Some(AllMerged(Zero, ms))
  {
    hide Fits, StoreAll, ReadFields, EncodeFields, AllRecords, AllBytes, AllMerged, ValidField;
    AllStored(Zero, ms);
    FieldsRoundTrip(AllRecords(ms));
  }

  // ------------------------------------------------------------ unknown records

  /** A record of a number the message does not have makes no difference,
      wherever it stands. */
  lemma UnknownIgnored(fs: seq<Field>, u: Field, gs: seq<Field>)
    requires forall i :: 0 <= i < |fs + [u] + gs| ==> ValidField((fs + [u] + gs)[i])
    requires u.num > 4
    ensures Decode(EncodeFields(fs + [u] + gs)) == Decode(EncodeFields(fs + gs))
  {
    hide ReadFields, EncodeFields, ValidField, Store;
    assert forall i :: 0 <= i < |fs + gs| ==>
      (fs + gs)[i] == (fs + [u] + gs)[if i < |fs| then i else i + 1];
    FieldsRoundTrip(fs + [u] + gs);
    FieldsRoundTrip(fs + gs);
    StoreConcat(Zero, fs + [u], gs);
    StoreConcat(Zero, fs, [u]);
    StoreConcat(Zero, fs, gs);
    match StoreAll(Zero, fs)
    case None =>
    case Some(m) => OneUnknown(m, u);
  }

  lemma OneUnknown(m: Message, u: Field)
    requires u.num > 4
    ensures StoreAll(m, [u]) == Some(m)
  {
    assert [u][1..] == [];
  }

  // ------------------------------------------------------------------- refusing

  /** Texts of a length that any memory bounds. */
  predicate Short(m: Message) {
    |m.metricId| < TWO62
    && (m.data.PrimitiveData? && m.data.primitive.StringVal? ==> |m.data.primitive.text| < TWO62)
    && (m.data.FileData? ==> |m.data.file.filepath| < TWO62 && |m.data.file.extension| < TWO62)
  }

  const TWO62: int := 0x4000_0000_0000_0000

  lemma ShortValid(m: Message)
    requires Short(m)
    ensures forall i :: 0 <= i < |Records(m)| ==> ValidField(Records(m)[i])
    ensures m.data.PrimitiveData? ==>
      forall i :: 0 <= i < |PrimitiveRecords(m.data.primitive)| ==> ValidField(PrimitiveRecords(m.data.primitive)[i])
    ensures m.data.FileData? ==>
      forall i :: 0 <= i < |FileRecords(m.data.file)| ==> ValidField(FileRecords(m.data.file)[i])
  {
    hide EncodeField;
    match m.data
    case NoData =>
    case PrimitiveData(p) =>
      if p == NoValue {
        assert EncodeFields(PrimitiveRecords(p)) == [];
      } else {
        OneLength(PrimitiveRecords(p)[0]);
      }
    case FileData(f) =>
      TextLength(1, f.filepath);
      TextLength(2, f.extension);
      EncodeFieldsAppend(TextRecord(1, f.filepath), TextRecord(2, f.extension));
  }

  lemma OneLength(f: Field)
    requires ValidField(f)
    ensures |EncodeFields([f])| <= 20 + if f.LengthField? then |f.bytes| else 0
  {
    hide EncodeField;
    RecordLength(f);
    assert [f][1..] == [] && EncodeFields([]) == [];
  }

  lemma TextLength(num: nat, s: CText)
    requires 1 <= num < 16 && |s| < TWO62
    ensures |EncodeFields(TextRecord(num, s))| <= |s| + 20
  {
    if s != [] {
      OneLength(LengthField(num, s));
    }
  }

  lemma DataRefused(a: Data, m: Message)
    requires Short(m) && m.data != NoData
    requires !(m.data.PrimitiveData? ==> FitsPrimitive(m.data.primitive)) || !(m.data.FileData? ==> FitsFile(m.data.file))
    ensures StoreData(a, DataRecords(m.data)[0].num, DataRecords(m.data)[0].bytes) == None
  {
    hide ReadFields, EncodeFields;
    ShortValid(m);
    match m.data
    case PrimitiveData(p) => FieldsRoundTrip(PrimitiveRecords(p));
    case FileData(f) =>
      FieldsRoundTrip(FileRecords(f));
      FileRefused(if a.FileData? then a.file else File([], []), f);
  }

  lemma FileRefused(a: File, f: File)
    requires !FitsFile(f)
    ensures StoreFiles(a, FileRecords(f)) == None
  {
    var path, ext := TextRecord(1, f.filepath), TextRecord(2, f.extension);
    if path != [] {
      assert FileRecords(f)[0] == path[0] && FileRecords(f)[1..] == ext;
    } else {
      assert FileRecords(f) == ext;
    }
  }

  lemma MessageRefused(m: Message)
    requires Short(m) && !Fits(m)
    ensures StoreAll(Zero, Records(m)) == None
  {
    hide StoreData, DataRecords;
    var id, ts, data := TextRecord(1, m.metricId), TimestampRecord(m.timestamp), DataRecords(m.data);
    StoreConcat(Zero, id, ts);
    StoreConcat(Zero, id + ts, data);
    match StoreAll(Zero, id + ts)
    case None =>
    case Some(n) =>
      assert m.metricId != [] ==> id[1..] == [] && |m.metricId| < METRIC_ID_MAX_SIZE;
      DataStopped(n, m);
  }

  lemma DataStopped(n: Message, m: Message)
    requires Short(m)
    requires !(m.data.PrimitiveData? ==> FitsPrimitive(m.data.primitive)) || !(m.data.FileData? ==> FitsFile(m.data.file))
    ensures StoreAll(n, DataRecords(m.data)) == None
  {
    hide StoreData;
    DataRefused(n.data, m);
  }

  /** Of the encodings of all messages, the decoder takes exactly those of
      messages that fit the structs: an id of at most 63 bytes, a text of at most
      4095, a path of at most 127 and an extension of at most 15. */
  lemma DecodedExactly(m: Message)
    requires Short(m)
    ensures Decode(Encode(m)) ==
            if |m.metricId| <= 63
               && (m.data.PrimitiveData? && m.data.primitive.StringVal? ==> |m.data.primitive.text| <= 4095)
               && (m.data.FileData? ==> |m.data.file.filepath| <= 127 && |m.data.file.extension| <= 15)
            then Some(m) else None
  {
    hide ReadFields, EncodeFields, StoreAll, Records;
    if Fits(m) {
      MessageRoundTrip(m);
    } else {
      ShortValid(m);
      FieldsRoundTrip(Records(m));
      MessageRefused(m);
    }
  }
}
