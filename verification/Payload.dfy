/** `TelemetryPayload` (shared/src/encode_telemetry.py): the byte budget kept
    by string lengths, and the size of a datagram. */
module Payload {
  import opened Common
  import opened Json
  import opened JsonRoundTrip
  import opened Telemetry
  import Base64
  import Utf8

  // ------------------------------------------------ the output is plain ASCII

  lemma AsciiConcat(s: string, t: string)
    requires Utf8.Ascii(s) && Utf8.Ascii(t)
    ensures Utf8.Ascii(s + t)
  {
  }

  lemma {:induction false} DumpNatAscii(n: nat)
    ensures Utf8.Ascii(DumpNat(n))
  {
    DumpNatDigits(n);
  }

  lemma EscapeUnitAscii(u: int)
    requires 0 <= u < 0x1_0000
    ensures Utf8.Ascii(EscapeUnit(u))
  {
  }

  lemma EscapeCharAscii(c: char)
    ensures Utf8.Ascii(EscapeChar(c))
  {
    hide EscapeUnit;
    var n := c as int;
    if n < 0x1_0000 {
      EscapeUnitAscii(n);
    } else {
      EscapeUnitAscii(0xD800 + (n - 0x1_0000) / 0x400);
      EscapeUnitAscii(0xDC00 + (n - 0x1_0000) % 0x400);
    }
  }

  lemma {:induction false} EscapeAscii(s: string)
    ensures Utf8.Ascii(Escape(s))
  {
    hide EscapeChar;
    if s == "" {
    } else {
      EscapeCharAscii(s[0]);
      EscapeAscii(s[1..]);
      AsciiConcat(EscapeChar(s[0]), Escape(s[1..]));
    }
  }

  lemma DumpStringAscii(s: string)
    ensures Utf8.Ascii(DumpString(s))
  {
    EscapeAscii(s);
  }

  /** `json.dumps` writes ASCII only, whatever the value. */
  lemma {:induction false} DumpAscii(v: Value)
    ensures Utf8.Ascii(Dump(v))
    decreases v, 1
  {
    hide DumpNat, DumpString;
    match v
    case Int(i) => DumpNatAscii(if i < 0 then -i else i);
    case Str(s) => DumpStringAscii(s);
    case Arr(items) => DumpItemsAscii(items);
    case Obj(ms) => DumpMembersAscii(ms);
    case _ =>
  }

  lemma {:induction false} DumpItemsAscii(items: seq<Value>)
    ensures Utf8.Ascii(DumpItems(items))
    decreases items, 0
  {
    hide Dump;
    if items == [] {
    } else {
      DumpAscii(items[0]);
      DumpItemsAscii(items[1..]);
      AsciiConcat(Dump(items[0]) + ", ", DumpItems(items[1..]));
    }
  }

  lemma {:induction false} DumpMembersAscii(ms: seq<Member>)
    ensures Utf8.Ascii(DumpMembers(ms))
    decreases ms, 0
  {
    hide Dump, DumpString;
    if ms == [] {
    } else {
      assert Utf8.Ascii(DumpMember(ms[0])) by {
        DumpStringAscii(ms[0].key);
        DumpAscii(ms[0].val);
        AsciiConcat(DumpString(ms[0].key) + ": ", Dump(ms[0].val));
      }
      DumpMembersAscii(ms[1..]);
      AsciiConcat(DumpMember(ms[0]) + ", ", DumpMembers(ms[1..]));
    }
  }

  // ------------------------------------------------------ length of a payload

  function SumSizes(ds: seq<Datagram>): nat {
    if ds == [] then 0 else DatagramSize(ds[0]) + SumSizes(ds[1..])
  }

  lemma {:induction false} SumSizesAppend(ds: seq<Datagram>, d: Datagram)
    ensures SumSizes(ds + [d]) == SumSizes(ds) + DatagramSize(d)
  {
    hide DatagramSize;
    if ds == [] {
      assert [d][1..] == [];
    } else {
      assert (ds + [d])[1..] == ds[1..] + [d];
      SumSizesAppend(ds[1..], d);
    }
  }

  lemma {:induction false} ItemsLength(ds: seq<Datagram>)
    ensures |DumpItems(JsonDicts(ds))| == SumSizes(ds) + if ds == [] then 0 else 2 * (|ds| - 1)
  {
    hide Dump, JsonDict;
    if ds == [] {
    } else {
      assert JsonDicts(ds)[1..] == JsonDicts(ds[1..]);
      ItemsLength(ds[1..]);
    }
  }

  /** Two brackets, the datagrams, and two characters per gap. */
  lemma PayloadLength(ds: seq<Datagram>)
    ensures |ToBytes(ds)| == 2 + SumSizes(ds) + if ds == [] then 0 else 2 * (|ds| - 1)
  {
    hide DumpItems, JsonDicts;
    var v := Arr(JsonDicts(ds));
    DumpAscii(v);
    Utf8.AsciiLength(Dump(v));
    ItemsLength(ds);
  }

  // --------------------------------------------------------------- the budget

  /** The test in `add`. */
  predicate Accepts(maxSize: int, ds: seq<Datagram>, d: Datagram) {
    |ToBytes(ds)| + DatagramSize(d) + 2 <= maxSize
  }

  /** The payload after a run of `add` calls on the offered datagrams. */
  function Filled(maxSize: int, offers: seq<Datagram>): seq<Datagram> {
    if offers == [] then []
    else
      var last := |offers| - 1;
      var ds := Filled(maxSize, offers[..last]);
      if Accepts(maxSize, ds, offers[last]) then ds + [offers[last]] else ds
  }

  /** When `add` succeeds, in terms of the bytes the payload would then have:
      exactly when they fit, except that the first datagram is charged for a
      separator it does not need. */
  lemma AcceptsExactly(maxSize: int, ds: seq<Datagram>, d: Datagram)
    ensures Accepts(maxSize, ds, d) <==>
            |ToBytes(ds + [d])| + (if ds == [] then 2 else 0) <= maxSize
  {
    hide ToBytes, DatagramSize;
    PayloadLength(ds);
    PayloadLength(ds + [d]);
    SumSizesAppend(ds, d);
  }

  /** Over every run of `add` calls the encoded payload stays within the larger
      of the budget and the two brackets of an empty list. */
  lemma {:induction false} RunBound(maxSize: int, offers: seq<Datagram>)
    ensures |ToBytes(Filled(maxSize, offers))| <= if maxSize < 2 then 2 else maxSize
  {
    hide ToBytes, Accepts;
    if offers == [] {
      PayloadLength([]);
    } else {
      var last := |offers| - 1;
      RunBound(maxSize, offers[..last]);
      AcceptsExactly(maxSize, Filled(maxSize, offers[..last]), offers[last]);
    }
  }

  /** A run keeps to its budget exactly when the budget holds an empty list. */
  lemma BudgetKept(maxSize: int, offers: seq<Datagram>)
    ensures |ToBytes(Filled(maxSize, offers))| <= maxSize <==> maxSize >= 2
  {
    RunBound(maxSize, offers);
    PayloadLength(Filled(maxSize, offers));
  }

  /** A rejected datagram stays rejected however the payload grows, so the
      greedy run never refuses something that a later call would have taken. */
  lemma RejectedForGood(maxSize: int, ds: seq<Datagram>, more: seq<Datagram>, d: Datagram)
    requires !Accepts(maxSize, ds, d)
    ensures !Accepts(maxSize, ds + more, d)
  {
    hide ToBytes, DatagramSize;
    PayloadLength(ds);
    PayloadLength(ds + more);
    SumSizesConcat(ds, more);
  }

  lemma {:induction false} SumSizesConcat(ds: seq<Datagram>, es: seq<Datagram>)
    ensures SumSizes(ds + es) == SumSizes(ds) + SumSizes(es)
  {
    hide DatagramSize;
    if ds == [] {
      assert ds + es == es;
    } else {
      assert (ds + es)[1..] == ds[1..] + es;
      SumSizesConcat(ds[1..], es);
    }
  }

  class TelemetryPayload {
    var samples: seq<Datagram>
    const maxSize: int

    constructor (maxSize: int)
      ensures this.samples == [] && this.maxSize == maxSize
    {
      this.samples := [];
      this.maxSize := maxSize;
    }

    /** `size()`: asking for the size changes nothing. */
    method Size() returns (n: nat)
      ensures n == 2 + SumSizes(samples) + if samples == [] then 0 else 2 * (|samples| - 1)
    {
      PayloadLength(samples);
      n := |ToBytes(samples)|;
    }

    /** `add(sample)`; `false` stands for the `BufferError`. */
    method Add(d: Datagram) returns (ok: bool)
      modifies this`samples
      ensures samples == if ok then old(samples) + [d] else old(samples)
      ensures ok == (|ToBytes(old(samples) + [d])| + (if old(samples) == [] then 2 else 0) <= maxSize)
      ensures forall offers :: old(samples) == Filled(maxSize, offers) ==>
                samples == Filled(maxSize, offers + [d])
    {
      hide ToBytes, DatagramSize;
      PayloadLength(samples);
      AcceptsExactly(maxSize, samples, d);
      var size := Size();
      ok := size + DatagramSize(d) + 2 <= maxSize;
      forall offers | samples == Filled(maxSize, offers)
        ensures Filled(maxSize, offers + [d]) == if ok then samples + [d] else samples
      {
        assert (offers + [d])[..|offers|] == offers;
      }
      if ok {
        samples := samples + [d];
      }
    }

    /** `to_bytes()`: within the budget after any run of `Add`, and decodable. */
    method ToBytesOf(ghost offers: seq<Datagram>) returns (payload: seq<Byte>)
      requires samples == Filled(maxSize, offers)
      ensures |payload| <= maxSize <==> maxSize >= 2
      ensures Decoded(payload) == Ok(Dicts(samples))
    {
      BudgetKept(maxSize, offers);
      PayloadRoundTrip(samples);
      payload := ToBytes(samples);
    }
  }

  // ------------------------------------------------------ size of a datagram

  /** Base64 text needs no escaping. */
  lemma {:induction false} EscapePlain(s: string)
    requires forall i :: 0 <= i < |s| ==> Base64.Plain(s[i])
    ensures Escape(s) == s
  {
    if s == "" {
    } else {
      EscapePlain(s[1..]);
      assert s == [s[0]] + s[1..];
    }
  }

  const LABELS := 128

  /** The size of a datagram field by field: 128 characters of labels and
      punctuation, the escaped id, four integers and the base64 text. */
  lemma DatagramSizeExact(d: Datagram)
    ensures DatagramSize(d) ==
            LABELS + |Escape(d.metricId)| + |DumpInt(d.sampleTime)| + |DumpInt(d.seqNum)|
            + |DumpInt(d.segmentSize)| + |DumpInt(d.numSegments)| + (|d.segmentData| + 2) / 3 * 4
  {
    hide Escape, DumpInt, Base64.Encode;
    var text := Base64.Encode(d.segmentData);
    Base64.EncodePlain(d.segmentData);
    Base64.EncodeLength(d.segmentData);
    EscapePlain(text);
    SegmentLength(d, text);
    DataLength(d, Str(text));
  }

  lemma LabelLength(key: string)
    requires forall i :: 0 <= i < |key| ==> Base64.Plain(key[i])
    ensures |DumpString(key)| == |key| + 2
  {
    EscapePlain(key);
  }

  lemma MemberLength(key: string, val: Value)
    requires forall i :: 0 <= i < |key| ==> Base64.Plain(key[i])
    ensures |DumpMember(Member(key, val))| == |key| + 4 + |Dump(val)|
  {
    LabelLength(key);
  }

  lemma MembersLength(m: Member, ms: seq<Member>)
    ensures |DumpMembers([m] + ms)| ==
            |DumpMember(m)| + if ms == [] then 0 else 2 + |DumpMembers(ms)|
  {
    assert ([m] + ms)[1..] == ms;
  }

  lemma SegmentLength(d: Datagram, text: string)
    ensures |Dump(Obj(SegmentMembers(d, Str(text))))| ==
            69 + |DumpInt(d.seqNum)| + |DumpInt(d.segmentSize)| + |DumpInt(d.numSegments)| + |Escape(text)|
  {
    hide Escape, DumpInt, DumpMember, DumpMembers;
    var ms := SegmentMembers(d, Str(text));
    MemberLength("seq_num", Int(d.seqNum));
    MemberLength("segment_size", Int(d.segmentSize));
    MemberLength("num_segments", Int(d.numSegments));
    MemberLength("segment_data", Str(text));
    MembersLength(ms[3], []);
    MembersLength(ms[2], [ms[3]]);
    MembersLength(ms[1], [ms[2], ms[3]]);
    MembersLength(ms[0], [ms[1], ms[2], ms[3]]);
    assert [ms[3]] + [] == [ms[3]];
    assert [ms[2]] + [ms[3]] == [ms[2], ms[3]];
    assert [ms[1]] + [ms[2], ms[3]] == [ms[1], ms[2], ms[3]];
    assert [ms[0]] + [ms[1], ms[2], ms[3]] == ms;
  }

  lemma DataLength(d: Datagram, data: Value)
    ensures |Dump(Obj(DataMembers(d, data)))| ==
            59 + |Escape(d.metricId)| + |DumpInt(d.sampleTime)| + |Dump(Obj(SegmentMembers(d, data)))|
  {
    hide Escape, DumpInt, DumpMember, DumpMembers, SegmentMembers;
    var ms := DataMembers(d, data);
    MemberLength("metric_id", Str(d.metricId));
    MemberLength("sample_time", Int(d.sampleTime));
    MemberLength("sample_data_segment", Obj(SegmentMembers(d, data)));
    MembersLength(ms[2], []);
    MembersLength(ms[1], [ms[2]]);
    MembersLength(ms[0], [ms[1], ms[2]]);
    assert [ms[2]] + [] == [ms[2]];
    assert [ms[1]] + [ms[2]] == [ms[1], ms[2]];
    assert [ms[0]] + [ms[1], ms[2]] == ms;
  }
}
