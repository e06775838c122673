/** The text of a payload, character by character: the members of a datagram
    under their names, integers in decimal, escapes in hexadecimal, and the
    bytes the text is sent as. */
module PayloadText {
  import opened Common
  import opened Json
  import opened JsonRoundTrip
  import opened Telemetry
  import opened Payload
  import Base64
  import Utf8
  import WireLayout

  // ------------------------------------------------------------------- numbers

  const DECIMAL := "0123456789"
  const HEXADECIMAL := "0123456789abcdef"

  lemma DecimalDigit(d: int)
    requires 0 <= d < 10
    ensures |DECIMAL| == 10 && Json.Digit(d) == DECIMAL[d]
  {
  }

  lemma HexadecimalDigit(d: Nibble)
    ensures |HEXADECIMAL| == 16 && HexDigit(d) == HEXADECIMAL[d]
  {
  }

  /** A number is written as its decimal digits, the least last, with no zero in
      front of others. */
  lemma {:induction false} DumpNatExactly(n: nat, i: nat)
    requires i < |DumpNat(n)|
    ensures |DECIMAL| == 10
    ensures DumpNat(n)[|DumpNat(n)| - 1 - i] == DECIMAL[WireLayout.Digit(n, 10, i)]
    ensures i == |DumpNat(n)| - 1 > 0 ==> WireLayout.Digit(n, 10, i) > 0
  {
    hide WireLayout.Digit, Json.Digit;
    WireLayout.DigitFirst(n, 10);
    DecimalDigit(n % 10);
    if n >= 10 && i > 0 {
      DumpNatExactly(n / 10, i - 1);
      WireLayout.DigitNext(n, 10, i - 1);
      WireLayout.DigitFirst(n / 10, 10);
    }
  }

  // ------------------------------------------------------------------- strings

  /** What a code unit's escape says, read from its digits. */
  lemma EscapeUnitExactly(u: int, a: Nibble, b: Nibble, c: Nibble, d: Nibble)
    requires u == a * 0x1000 + b * 0x100 + c * 0x10 + d
    ensures |HEXADECIMAL| == 16
    ensures EscapeUnit(u) == "\\u" + [HEXADECIMAL[a], HEXADECIMAL[b], HEXADECIMAL[c], HEXADECIMAL[d]]
  {
    hide HexDigit;
    HexadecimalDigit(a);
    HexadecimalDigit(b);
    HexadecimalDigit(c);
    HexadecimalDigit(d);
    assert u / 16 == a * 0x100 + b * 0x10 + c && u % 16 == d;
    assert u / 16 / 16 == a * 0x10 + b && u / 16 % 16 == c;
    assert u / 16 / 16 / 16 == a && u / 16 / 16 % 16 == b;
  }

  /** A character outside the basic plane is written as its surrogate pair, any
      other one that is neither printable ASCII nor has a letter as itself. */
  lemma EscapeCharExactly(c: char, high: int, low: int)
    requires 0 <= high < 0x400 && 0 <= low < 0x400
    ensures c as int == 0x1_0000 + high * 0x400 + low ==>
              EscapeChar(c) == EscapeUnit(0xD800 + high) + EscapeUnit(0xDC00 + low)
    ensures c in "\n\t\r\"\\" || c == 8 as char || c == 12 as char <==> |EscapeChar(c)| == 2
    ensures ' ' <= c <= '~' && c != '"' && c != '\\' <==> EscapeChar(c) == [c]
    ensures c as int < 0x1_0000 && |EscapeChar(c)| > 2 ==> EscapeChar(c) == EscapeUnit(c as int)
    ensures EscapeChar('\n') == "\\n" && EscapeChar('\t') == "\\t" && EscapeChar('\r') == "\\r"
            && EscapeChar(8 as char) == "\\b" && EscapeChar(12 as char) == "\\f"
            && EscapeChar('"') == "\\\"" && EscapeChar('\\') == "\\\\"
  {
    var n := c as int - 0x1_0000;
    if n == high * 0x400 + low {
      assert n / 0x400 == high && n % 0x400 == low;
    }
  }

  // ----------------------------------------------------------------- datagrams

  lemma MemberText(key: string, val: Value)
    requires forall i :: 0 <= i < |key| ==> Base64.Plain(key[i])
    ensures DumpMember(Member(key, val)) == "\"" + key + "\": " + Dump(val)
  {
    EscapePlain(key);
    assert "\"" + ": " == "\": ";
  }

  lemma ThreeMembers(a: Member, b: Member, c: Member)
    ensures DumpMembers([a, b, c]) == DumpMember(a) + ", " + DumpMember(b) + ", " + DumpMember(c)
  {
    hide DumpMember;
    assert [a, b, c][1..] == [b, c] && [b, c][1..] == [c];
    assert DumpMembers([c]) == DumpMember(c);
    assert DumpMembers([b, c]) == DumpMember(b) + ", " + DumpMember(c);
  }

  lemma FourMembers(a: Member, b: Member, c: Member, d: Member)
    ensures DumpMembers([a, b, c, d])
            == DumpMember(a) + ", " + DumpMember(b) + ", " + DumpMember(c) + ", " + DumpMember(d)
  {
    hide DumpMember;
    assert [a, b, c, d][1..] == [b, c, d];
    ThreeMembers(b, c, d);
  }

  function SegmentText(d: Datagram): string {
    "{" + "\"seq_num\": " + DumpInt(d.seqNum)
    + ", " + "\"segment_size\": " + DumpInt(d.segmentSize)
    + ", " + "\"num_segments\": " + DumpInt(d.numSegments)
    + ", " + "\"segment_data\": " + "\"" + Base64.Encode(d.segmentData) + "\"" + "}"
  }

  function DatagramText(d: Datagram): string {
    "{" + "\"metric_id\": " + "\"" + Escape(d.metricId) + "\""
    + ", " + "\"sample_time\": " + DumpInt(d.sampleTime)
    + ", " + "\"sample_data_segment\": " + SegmentText(d) + "}"
  }

  lemma SegmentTextExactly(d: Datagram)
    ensures Dump(Obj(SegmentMembers(d, Str(Base64.Encode(d.segmentData))))) == SegmentText(d)
  {
    hide DumpInt, DumpMember, DumpMembers, Base64.Encode, Escape;
    var text := Base64.Encode(d.segmentData);
    var ms := SegmentMembers(d, Str(text));
    Base64.EncodePlain(d.segmentData);
    EscapePlain(text);
    FourMembers(ms[0], ms[1], ms[2], ms[3]);
    assert ms == [ms[0], ms[1], ms[2], ms[3]];
    SegmentLabels(d, text);
  }

  lemma SegmentLabels(d: Datagram, text: string)
    ensures var ms := SegmentMembers(d, Str(text));
            DumpMember(ms[0]) == "\"seq_num\": " + DumpInt(d.seqNum)
            && DumpMember(ms[1]) == "\"segment_size\": " + DumpInt(d.segmentSize)
            && DumpMember(ms[2]) == "\"num_segments\": " + DumpInt(d.numSegments)
            && DumpMember(ms[3]) == "\"segment_data\": " + DumpString(text)
  {
    hide DumpInt, DumpMember, DumpString;
    SegmentQuotes();
    MemberText("seq_num", Int(d.seqNum));
    MemberText("segment_size", Int(d.segmentSize));
    MemberText("num_segments", Int(d.numSegments));
    MemberText("segment_data", Str(text));
  }

  lemma SegmentQuotes()
    ensures "\"" + "seq_num" + "\": " == "\"seq_num\": "
    ensures "\"" + "segment_size" + "\": " == "\"segment_size\": "
    ensures "\"" + "num_segments" + "\": " == "\"num_segments\": "
    ensures "\"" + "segment_data" + "\": " == "\"segment_data\": "
  {
  }

  lemma DataLabels(d: Datagram, data: Value)
    ensures var ms := DataMembers(d, data);
            DumpMember(ms[0]) == "\"metric_id\": " + DumpString(d.metricId)
            && DumpMember(ms[1]) == "\"sample_time\": " + DumpInt(d.sampleTime)
            && DumpMember(ms[2]) == "\"sample_data_segment\": " + Dump(Obj(SegmentMembers(d, data)))
  {
    hide DumpInt, DumpMember, DumpString, SegmentMembers;
    DataQuotes();
    MemberText("metric_id", Str(d.metricId));
    MemberText("sample_time", Int(d.sampleTime));
    MemberText("sample_data_segment", Obj(SegmentMembers(d, data)));
  }

  lemma DataQuotes()
    ensures "\"" + "metric_id" + "\": " == "\"metric_id\": "
    ensures "\"" + "sample_time" + "\": " == "\"sample_time\": "
    ensures "\"" + "sample_data_segment" + "\": " == "\"sample_data_segment\": "
  {
  }

  /** A datagram's text, with the names of its members in their order. */
  lemma DatagramTextExactly(d: Datagram)
    ensures Dump(JsonDict(d)) == DatagramText(d)
  {
    hide DumpInt, DumpMember, DumpMembers, Base64.Encode, Escape, SegmentText, SegmentMembers;
    var data := Str(Base64.Encode(d.segmentData));
    var ms := DataMembers(d, data);
    SegmentTextExactly(d);
    ThreeMembers(ms[0], ms[1], ms[2]);
    assert ms == [ms[0], ms[1], ms[2]];
    DataLabels(d, data);
  }

  // ------------------------------------------------------------------ payloads

  function Joined(ds: seq<Datagram>): string {
    if ds == [] then ""
    else if |ds| == 1 then DatagramText(ds[0])
    else DatagramText(ds[0]) + ", " + Joined(ds[1..])
  }

  lemma {:induction false} ItemsText(ds: seq<Datagram>)
    ensures DumpItems(JsonDicts(ds)) == Joined(ds)
  {
    hide Dump, JsonDict, DatagramText;
    if ds == [] {
    } else {
      DatagramTextExactly(ds[0]);
      assert JsonDicts(ds)[1..] == JsonDicts(ds[1..]);
      ItemsText(ds[1..]);
    }
  }

  lemma {:induction false} AsciiBytes(s: string)
    requires Utf8.Ascii(s)
    ensures |Utf8.Encode(s)| == |s| && forall i :: 0 <= i < |s| ==> Utf8.Encode(s)[i] == s[i] as int
  {
    if s != "" {
      AsciiBytes(s[1..]);
    }
  }

  /** A payload is the ASCII of its datagrams' texts in brackets, a comma and a
      space between any two. */
  lemma PayloadExactly(ds: seq<Datagram>)
    ensures var text := "[" + Joined(ds) + "]";
            |ToBytes(ds)| == |text| && forall i :: 0 <= i < |text| ==> ToBytes(ds)[i] == text[i] as int
  {
    hide DumpItems, JsonDicts, Joined, Utf8.Encode;
    DumpAscii(Arr(JsonDicts(ds)));
    ItemsText(ds);
    AsciiBytes("[" + Joined(ds) + "]");
  }

  // --------------------------------------------------------------------- UTF-8

  /** The number of bytes of a character, and its bits in them. */
  lemma CharBits(c: char)
    ensures var n, bs := c as int, Utf8.EncodeChar(c);
            if n < 0x80 then bs == [n]
            else if n < 0x800 then
              |bs| == 2 && 0xC0 <= bs[0] < 0xE0 && 0x80 <= bs[1] < 0xC0
              && n == (bs[0] as int - 0xC0) * 0x40 + (bs[1] as int - 0x80)
            else if n < 0x1_0000 then
              |bs| == 3 && 0xE0 <= bs[0] < 0xF0 && 0x80 <= bs[1] < 0xC0 && 0x80 <= bs[2] < 0xC0
              && n == (bs[0] as int - 0xE0) * 0x1000 + (bs[1] as int - 0x80) * 0x40 + (bs[2] as int - 0x80)
            else
              |bs| == 4 && 0xF0 <= bs[0] < 0xF8 && 0x80 <= bs[1] < 0xC0 && 0x80 <= bs[2] < 0xC0 && 0x80 <= bs[3] < 0xC0
              && n == (bs[0] as int - 0xF0) * 0x4_0000 + (bs[1] as int - 0x80) * 0x1000 + (bs[2] as int - 0x80) * 0x40 + (bs[3] as int - 0x80)
  {
  }

  /** A text's bytes are those of its characters, in order. */
  lemma {:induction false} EncodeJoin(s: string, t: string)
    ensures Utf8.Encode(s + t) == Utf8.Encode(s) + Utf8.Encode(t)
  {
    if s == "" {
      assert s + t == t;
    } else {
      assert (s + t)[1..] == s[1..] + t;
      EncodeJoin(s[1..], t);
    }
  }

  // ------------------------------------------------------------------ decoding

  /** The decoder's loop stops at the first item that fails, with its exception,
      whatever comes later, and otherwise decodes each item in place. */
  lemma {:induction false} FirstErrorWins(items: seq<Value>, i: nat)
    requires i <= |items| && forall j :: 0 <= j < i ==> DecodeItem(items[j]).Ok?
    ensures i < |items| && DecodeItem(items[i]).Err? ==> DecodeItems(items) == Err(DecodeItem(items[i]).error)
    ensures i == |items| ==>
              DecodeItems(items).Ok? && |DecodeItems(items).value| == |items|
              && forall j :: 0 <= j < |items| ==> DecodeItem(items[j]) == Ok(DecodeItems(items).value[j])
  {
    hide DecodeItem;
    if i > 0 {
      FirstErrorWins(items[1..], i - 1);
    }
  }

  /** Decoding an item, from the places of the two keys in its dictionaries: only
      the segment's text is replaced, by its bytes, and everything else of the
      parsed dictionary stays, known to the program or not. */
  lemma DecodeItemExactly(ms: seq<Member>, i: nat, ns: seq<Member>, j: nat)
    requires DistinctKeys(ms) && i < |ms| && ms[i] == Member("sample_data_segment", Obj(ns))
    requires DistinctKeys(ns) && j < |ns| && ns[j].key == "segment_data"
    ensures DecodeItem(Obj(ms)) ==
            if !ns[j].val.Str? then Err(TypeError)
            else
              match Base64.Decode(ns[j].val.s)
              case None => Err(ValueError)
              case Some(bytes) =>
                Ok(Obj(ms[i := Member("sample_data_segment", Obj(ns[j := Member("segment_data", Bytes(bytes))]))]))
  {
    hide Base64.Decode, Get, Put, DistinctKeys;
    MemberAt(ns, j, Null);
    MemberAt(ms, i, Null);
    if ns[j].val.Str? {
      match Base64.Decode(ns[j].val.s)
      case None =>
      case Some(bytes) =>
        MemberAt(ns, j, Bytes(bytes));
        MemberAt(ms, i, Obj(ns[j := Member("segment_data", Bytes(bytes))]));
    }
  }
}
