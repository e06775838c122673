/** Telemetry payloads (shared/src/encode_telemetry.py and decode_telemetry.py):
    datagrams packed into a JSON list under a byte budget, and unpacked again. */
module Telemetry {
  import opened Common
  import opened Json
  import opened JsonRoundTrip
  import Base64
  import Utf8

  /** The typed dictionary a `SampleDatagram` wraps. */
  datatype Datagram = Datagram(
    metricId: string,
    sampleTime: int,
    seqNum: int,
    segmentSize: int,
    numSegments: int,
    segmentData: seq<Byte>)

  function SegmentMembers(d: Datagram, data: Value): seq<Member> {
    [Member("seq_num", Int(d.seqNum)), Member("segment_size", Int(d.segmentSize)),
     Member("num_segments", Int(d.numSegments)), Member("segment_data", data)]
  }

  function DataMembers(d: Datagram, data: Value): seq<Member> {
    [Member("metric_id", Str(d.metricId)), Member("sample_time", Int(d.sampleTime)),
     Member("sample_data_segment", Obj(SegmentMembers(d, data)))]
  }

  /** `self.data`: the segment is raw bytes. */
  function Dict(d: Datagram): Value {
    Obj(DataMembers(d, Bytes(d.segmentData)))
  }

  /** `json_dict()`: the same dictionary with the segment in base64. */
  function JsonDict(d: Datagram): Value {
    Obj(DataMembers(d, Str(Base64.Encode(d.segmentData))))
  }

  /** `size()`: the length of the datagram's own JSON text. */
  function DatagramSize(d: Datagram): nat {
    |Dump(JsonDict(d))|
  }

  function JsonDicts(ds: seq<Datagram>): (vs: seq<Value>)
    ensures |vs| == |ds|
    ensures forall i :: 0 <= i < |ds| ==> vs[i] == JsonDict(ds[i])
  {
    if ds == [] then [] else [JsonDict(ds[0])] + JsonDicts(ds[1..])
  }

  function Dicts(ds: seq<Datagram>): seq<Value> {
    if ds == [] then [] else [Dict(ds[0])] + Dicts(ds[1..])
  }

  /** `to_bytes()`. */
  function ToBytes(ds: seq<Datagram>): seq<Byte> {
    Utf8.Encode(Dump(Arr(JsonDicts(ds))))
  }

  // ----------------------------------------------------------------- decoding

  /** Python's exception classes; JSON, Unicode and base64 errors are all
      `ValueError`s. */
  datatype PyError = ValueError | TypeError | KeyError
  datatype Result<+T> = Ok(value: T) | Err(error: PyError)

  /** `d[key]` on a value that may not be a dictionary. */
  function Subscript(v: Value, key: string): Result<Value> {
    if !v.Obj? then Err(TypeError)
    else
      match Get(v.members, key)
      case None => Err(KeyError)
      case Some(x) => Ok(x)
  }

  /** One turn of the decoder's loop: the segment text is replaced, inside the
      parsed dictionary, by the bytes it stands for. */
  function DecodeItem(v: Value): Result<Value> {
    match Subscript(v, "sample_data_segment")
    case Err(e) => Err(e)
    case Ok(segment) =>
      match Subscript(segment, "segment_data")
      case Err(e) => Err(e)
      case Ok(text) =>
        if !text.Str? then Err(TypeError)
        else
          match Base64.Decode(text.s)
          case None => Err(ValueError)
          case Some(bytes) =>
            Ok(Obj(Put(v.members, "sample_data_segment",
                       Obj(Put(segment.members, "segment_data", Bytes(bytes))))))
  }

  /** What a `for` loop over a parsed value visits. */
  function Iterate(v: Value): Result<seq<Value>> {
    match v
    case Arr(items) => Ok(items)
    case Obj(ms) => Ok(seq(|ms|, i requires 0 <= i < |ms| => Str(ms[i].key)))
    case Str(s) => Ok(seq(|s|, i requires 0 <= i < |s| => Str([s[i]])))
    case _ => Err(TypeError)
  }

  function DecodeItems(items: seq<Value>): Result<seq<Value>> {
    if items == [] then Ok([])
    else
      match DecodeItem(items[0])
      case Err(e) => Err(e)
      case Ok(v) =>
        match DecodeItems(items[1..])
        case Err(e) => Err(e)
        case Ok(vs) => Ok([v] + vs)
  }

  /** `json.loads(payload)` on bytes. */
  function Loads(payload: seq<Byte>): Result<Value> {
    match Utf8.Decode(payload)
    case None => Err(ValueError)
    case Some(text) =>
      match Parse(text)
      case None => Err(ValueError)
      case Some(v) => Ok(v)
  }

  /** The result of `decode_telemetry`: the data of each decoded datagram, or
      the first exception raised. */
  function Decoded(payload: seq<Byte>): Result<seq<Value>> {
    match Loads(payload)
    case Err(e) => Err(e)
    case Ok(v) =>
      match Iterate(v)
      case Err(e) => Err(e)
      case Ok(items) => DecodeItems(items)
  }

  function Prefixed(vs: seq<Value>, r: Result<seq<Value>>): Result<seq<Value>> {
    match r
    case Err(e) => Err(e)
    case Ok(ws) => Ok(vs + ws)
  }

  /** `decode_telemetry` as the loop it is. */
  method DecodeTelemetry(payload: seq<Byte>) returns (r: Result<seq<Value>>)
    ensures r == Decoded(payload)
  {
    hide Loads, DecodeItem;
    var parsed := Loads(payload);
    if parsed.Err? {
      return Err(parsed.error);
    }
    var iterated := Iterate(parsed.value);
    if iterated.Err? {
      return Err(iterated.error);
    }
    var items := iterated.value;
    var datagrams: seq<Value> := [];
    assert items[0..] == items;
    assert DecodeItems(items).Ok? ==> [] + DecodeItems(items).value == DecodeItems(items).value;
    for i := 0 to |items|
      invariant Decoded(payload) == Prefixed(datagrams, DecodeItems(items[i..]))
    {
      var item := DecodeItem(items[i]);
      assert items[i..][1..] == items[i + 1..];
      if item.Err? {
        return Err(item.error);
      }
      ghost var rest := DecodeItems(items[i + 1..]);
      assert rest.Ok? ==> datagrams + ([item.value] + rest.value) == datagrams + [item.value] + rest.value;
      datagrams := datagrams + [item.value];
    }
    assert items[|items|..] == [] && datagrams + [] == datagrams;
    r := Ok(datagrams);
  }

  // -------------------------------------------------------------- round trip

  lemma JsonDictWritable(d: Datagram)
    ensures Writable(JsonDict(d))
  {
    FieldsDistinct(d, Str(Base64.Encode(d.segmentData)));
    var data := Str(Base64.Encode(d.segmentData));
    var ms := SegmentMembers(d, data);
    assert forall i :: 0 <= i < |ms| ==> Writable(ms[i].val);
    assert Writable(Obj(ms));
  }

  lemma DecodeItemInverse(d: Datagram)
    ensures DecodeItem(JsonDict(d)) == Ok(Dict(d))
  {
    hide Base64.Encode, Base64.Decode;
    var text := Str(Base64.Encode(d.segmentData));
    var raw := Bytes(d.segmentData);
    Base64.RoundTrip(d.segmentData);
    FindSegment(d, text);
    StoreSegment(d, text, raw);
  }

  /** Both levels of a datagram are dictionaries. */
  lemma FieldsDistinct(d: Datagram, data: Value)
    ensures DistinctKeys(SegmentMembers(d, data)) && DistinctKeys(DataMembers(d, data))
  {
    assert "segment_size"[8] != "segment_data"[8];
    assert "segment_size"[0] != "num_segments"[0];
    assert "segment_data"[0] != "num_segments"[0];
  }

  lemma FindSegment(d: Datagram, data: Value)
    ensures Get(SegmentMembers(d, data), "segment_data") == Some(data)
    ensures Get(DataMembers(d, data), "sample_data_segment") == Some(Obj(SegmentMembers(d, data)))
  {
    FieldsDistinct(d, data);
    MemberAt(SegmentMembers(d, data), 3, data);
    MemberAt(DataMembers(d, data), 2, data);
  }

  lemma StoreSegment(d: Datagram, was: Value, becomes: Value)
    ensures Put(SegmentMembers(d, was), "segment_data", becomes) == SegmentMembers(d, becomes)
    ensures Put(DataMembers(d, was), "sample_data_segment", Obj(SegmentMembers(d, becomes))) == DataMembers(d, becomes)
  {
    FieldsDistinct(d, was);
    MemberAt(SegmentMembers(d, was), 3, becomes);
    MemberAt(DataMembers(d, was), 2, Obj(SegmentMembers(d, becomes)));
  }

  lemma {:induction false} DecodeItemsInverse(ds: seq<Datagram>)
    ensures DecodeItems(JsonDicts(ds)) == Ok(Dicts(ds))
  {
    if ds == [] {
    } else {
      DecodeItemInverse(ds[0]);
      DecodeItemsInverse(ds[1..]);
      assert JsonDicts(ds)[1..] == JsonDicts(ds[1..]);
    }
  }

  /** The law of the codec: decoding a payload's bytes gives back exactly the
      datagrams that were added, in order. */
  lemma PayloadRoundTrip(ds: seq<Datagram>)
    ensures Decoded(ToBytes(ds)) == Ok(Dicts(ds))
  {
    hide Dump, Parse, DecodeItems, Utf8.Encode, Utf8.Decode;
    var v := Arr(JsonDicts(ds));
    forall i | 0 <= i < |ds| ensures Writable(JsonDicts(ds)[i]) {
      JsonDictWritable(ds[i]);
    }
    TextRoundTrip(v);
    Utf8.RoundTrip(Dump(v));
    DecodeItemsInverse(ds);
  }

  /** Reading a decoded dictionary through its declared fields. */
  function AsDatagram(v: Value): Option<Datagram> {
    match (Subscript(v, "metric_id"), Subscript(v, "sample_time"), Subscript(v, "sample_data_segment"))
    case (Ok(Str(id)), Ok(Int(time)), Ok(segment)) =>
      (match (Subscript(segment, "seq_num"), Subscript(segment, "segment_size"),
              Subscript(segment, "num_segments"), Subscript(segment, "segment_data"))
       case (Ok(Int(q)), Ok(Int(size)), Ok(Int(n)), Ok(Bytes(data))) =>
         Some(Datagram(id, time, q, size, n, data))
       case _ => None)
    case _ => None
  }

  lemma AsDatagramOfDict(d: Datagram)
    ensures AsDatagram(Dict(d)) == Some(d)
  {
    var data := Bytes(d.segmentData);
    var ms, ns := SegmentMembers(d, data), DataMembers(d, data);
    FieldsDistinct(d, data);
    forall i | 0 <= i < 4 ensures Get(ms, ms[i].key) == Some(ms[i].val) {
      MemberAt(ms, i, data);
    }
    forall i | 0 <= i < 3 ensures Get(ns, ns[i].key) == Some(ns[i].val) {
      MemberAt(ns, i, data);
    }
    hide Get;
    assert ms[0].key == "seq_num" && ms[1].key == "segment_size" && ms[2].key == "num_segments" && ms[3].key == "segment_data";
    assert ns[0].key == "metric_id" && ns[1].key == "sample_time" && ns[2].key == "sample_data_segment";
  }
}
