/** Cutting a sample into datagrams (shared/src/sample.py) and putting it back
    together from whatever payloads arrive. */
module Segmentation {
  import opened Common
  import opened Json
  import opened Telemetry
  import opened Payload

  datatype Sample = Sample(metricId: string, sampleTime: int, sampleData: seq<Byte>)

  /** Python's `s[a:b]`: negative bounds count from the end, and bounds outside
      the sequence are clamped. */
  function PySlice<T>(s: seq<T>, a: int, b: int): seq<T> {
    var lo := Clamp(|s|, a);
    var hi := Clamp(|s|, b);
    if lo < hi then s[lo..hi] else []
  }

  function Clamp(n: nat, i: int): (k: nat)
    ensures k <= n
  {
    var j := if i < 0 then i + n else i;
    if j < 0 then 0 else if j > n then n else j
  }

  /** `get_data_segment`. */
  function DataSegment(s: Sample, seqNum: int, segmentSize: int): seq<Byte> {
    var end := (seqNum + 1) * segmentSize;
    PySlice(s.sampleData, seqNum * segmentSize, if |s.sampleData| <= end then |s.sampleData| else end)
  }

  /** `get_datagram`. */
  function GetDatagram(s: Sample, seqNum: int, segmentSize: int, numSegments: int): Datagram {
    Datagram(s.metricId, s.sampleTime, seqNum, segmentSize, numSegments, DataSegment(s, seqNum, segmentSize))
  }

  /** ceil(len / segment_size) datagrams carry a sample. */
  function SegmentCount(s: Sample, segmentSize: int): int
    requires segmentSize >= 1
  {
    (|s.sampleData| + segmentSize - 1) / segmentSize
  }

  // ------------------------------------------------------------ min_datagram_size

  /** The datagram `min_datagram_size` measures. */
  function SmallestDatagram(s: Sample): Datagram {
    Datagram(s.metricId, s.sampleTime, 0, 1, 1, ['0' as int])
  }

  lemma IntLength(i: int)
    ensures |DumpInt(i)| >= 1
    ensures |DumpInt(i)| == 1 <==> 0 <= i <= 9
  {
  }

  function Digits(d: Datagram): nat {
    |DumpInt(d.seqNum)| + |DumpInt(d.segmentSize)| + |DumpInt(d.numSegments)|
  }

  /** `min_datagram_size` bounds every datagram of the sample from below, for
      all integers, as long as the segment has data; a datagram without data
      reaches it only through four extra digits. */
  lemma MinSizeExactly(s: Sample, d: Datagram)
    requires d.metricId == s.metricId && d.sampleTime == s.sampleTime
    ensures DatagramSize(SmallestDatagram(s)) <= DatagramSize(d) <==>
            d.segmentData != [] || Digits(d) >= 7
  {
    hide DatagramSize, DumpInt, Escape;
    DatagramSizeExact(d);
    DatagramSizeExact(SmallestDatagram(s));
    IntLength(0); IntLength(1);
    IntLength(d.seqNum); IntLength(d.segmentSize); IntLength(d.numSegments);
  }

  /** The datagrams that attain the minimum among those with data. */
  lemma MinSizeAttained(s: Sample, d: Datagram)
    requires d.metricId == s.metricId && d.sampleTime == s.sampleTime && d.segmentData != []
    ensures DatagramSize(d) == DatagramSize(SmallestDatagram(s)) <==>
            0 <= d.seqNum <= 9 && 0 <= d.segmentSize <= 9 && 0 <= d.numSegments <= 9 && |d.segmentData| <= 3
  {
    hide DatagramSize, DumpInt, Escape;
    DatagramSizeExact(d);
    DatagramSizeExact(SmallestDatagram(s));
    IntLength(0); IntLength(1);
    IntLength(d.seqNum); IntLength(d.segmentSize); IntLength(d.numSegments);
  }

  /** A sample without data: its only datagram is four characters smaller than
      its `min_datagram_size`. */
  lemma EmptySampleBelowMin(id: string, time: int)
    ensures var s := Sample(id, time, []);
            DatagramSize(GetDatagram(s, 0, 1, 1)) + 4 == DatagramSize(SmallestDatagram(s))
  {
    hide DatagramSize, DumpInt, Escape;
    var s := Sample(id, time, []);
    DatagramSizeExact(GetDatagram(s, 0, 1, 1));
    DatagramSizeExact(SmallestDatagram(s));
  }

  // ----------------------------------------------------------------- reassembly

  predicate Covers(offset: int, data: seq<Byte>, k: int) {
    offset <= k < offset + |data|
  }

  /** Writing a segment at its offset. */
  function Place(m: map<int, Byte>, d: Datagram): map<int, Byte> {
    var offset := d.seqNum * d.segmentSize;
    m + map k | offset <= k < offset + |d.segmentData| && Covers(offset, d.segmentData, k) :: d.segmentData[k - offset]
  }

  /** The bytes known after receiving the datagrams in this order. */
  function Rebuilt(ds: seq<Datagram>): map<int, Byte> {
    if ds == [] then map[]
    else Place(Rebuilt(ds[..|ds| - 1]), ds[|ds| - 1])
  }

  function Whole(s: Sample): map<int, Byte> {
    map k | 0 <= k < |s.sampleData| :: s.sampleData[k]
  }

  /** A datagram that carries, under its sequence number, the bytes of a sample
      whose index has that quotient by the segment size; how many segments it
      says there are is left open. */
  ghost predicate IsSegment(s: Sample, size: int, d: Datagram)
    requires size >= 1
  {
    d.metricId == s.metricId && d.sampleTime == s.sampleTime && d.segmentSize == size && d.seqNum >= 0
    && forall k :: (Covers(d.seqNum * size, d.segmentData, k) <==> 0 <= k < |s.sampleData| && k / size == d.seqNum)
                   && (Covers(d.seqNum * size, d.segmentData, k) ==> d.segmentData[k - d.seqNum * size] == s.sampleData[k])
  }

  /** Datagrams of one sample and one segment size, in any order, with repeats
      and losses. */
  ghost predicate CutFrom(s: Sample, size: int, ds: seq<Datagram>)
    requires size >= 1
  {
    forall i :: 0 <= i < |ds| ==> IsSegment(s, size, ds[i])
  }

  predicate Arrived(ds: seq<Datagram>, q: int) {
    exists i :: 0 <= i < |ds| && ds[i].seqNum == q
  }

  lemma Multiples(a: int, b: int, size: int)
    requires a <= b && size >= 1
    ensures a * size <= b * size
    ensures (a + 1) * size == a * size + size
  {
  }

  lemma QuotientIs(k: int, size: int, q: int)
    requires size >= 1
    ensures q * size <= k < (q + 1) * size <==> k / size == q
  {
    var p := k / size;
    assert k == p * size + k % size;
    assert (p + 1) * size == p * size + size;
    if q < p {
      Multiples(q + 1, p, size);
    } else if q > p {
      Multiples(p + 1, q, size);
    }
  }

  /** A segment holds exactly the bytes whose index has its quotient. */
  lemma SegmentBytes(s: Sample, q: int, size: int, k: int)
    requires size >= 1 && q >= 0
    ensures var d := DataSegment(s, q, size);
            (q * size <= k < q * size + |d| <==> 0 <= k < |s.sampleData| && k / size == q) &&
            (q * size <= k < q * size + |d| ==> d[k - q * size] == s.sampleData[k])
  {
    assert 0 <= q * size < (q + 1) * size;
    if k >= 0 {
      QuotientIs(k, size, q);
    }
  }

  /** `get_datagram` makes such a datagram for every sequence number, and writes
      the number of segments it is given. */
  lemma GetDatagramExactly(s: Sample, q: int, size: int, n: int)
    requires size >= 1 && q >= 0
    ensures var d := GetDatagram(s, q, size, n);
            IsSegment(s, size, d) && d.seqNum == q && d.numSegments == n
  {
    hide DataSegment;
    var d := GetDatagram(s, q, size, n);
    forall k
      ensures Covers(q * size, d.segmentData, k) <==> 0 <= k < |s.sampleData| && k / size == q
      ensures Covers(q * size, d.segmentData, k) ==> d.segmentData[k - q * size] == s.sampleData[k]
    {
      SegmentBytes(s, q, size, k);
    }
  }

  /** A slice with both bounds counted from the end. */
  lemma SliceFromEnd<T>(s: seq<T>, a: int, b: int, k: int)
    requires a < b < 0
    ensures var d, offset := PySlice(s, a, b), if |s| + a < 0 then 0 else |s| + a;
            (offset <= k < offset + |d| <==> 0 <= k && |s| + a <= k < |s| + b)
            && (offset <= k < offset + |d| ==> d[k - offset] == s[k])
  {
  }

  lemma NegativeBounds(q: int, size: int)
    requires size >= 1 && q < 0
    ensures q * size < 0 && (q + 1) * size == q * size + size
    ensures (-1 - q) * size == -((q + 1) * size) && (-q) * size == -(q * size)
    ensures q == -1 ==> (q + 1) * size == 0
    ensures q < -1 ==> (q + 1) * size < 0
  {
    Multiples(q, -1, size);
    if q < -1 {
      Multiples(q + 1, -1, size);
    }
  }

  /** A negative sequence number counts segments from the end of the data, as a
      negative bound of a slice does, but for -1, whose segment is empty because
      its upper bound is zero. */
  lemma NegativeSegment(s: Sample, q: int, size: int, k: int)
    requires size >= 1 && q < 0
    ensures var d, len := DataSegment(s, q, size), |s.sampleData|;
            var offset := if len + q * size < 0 then 0 else len + q * size;
            if q == -1 then d == []
            else
              (offset <= k < offset + |d| <==> 0 <= k < len && (len - 1 - k) / size == -1 - q)
              && (offset <= k < offset + |d| ==> d[k - offset] == s.sampleData[k])
  {
    hide PySlice;
    var len, p := |s.sampleData|, -1 - q;
    NegativeBounds(q, size);
    if q == -1 {
      assert DataSegment(s, q, size) == PySlice(s.sampleData, q * size, 0);
      EmptySlice(s.sampleData, q * size);
    } else {
      SliceFromEnd(s.sampleData, q * size, (q + 1) * size, k);
      QuotientIs(len - 1 - k, size, p);
    }
  }

  lemma EmptySlice<T>(s: seq<T>, a: int)
    ensures PySlice(s, a, 0) == []
  {
  }

  lemma ArrivedSnoc(ds: seq<Datagram>, q: int)
    requires ds != []
    ensures Arrived(ds, q) <==> Arrived(ds[..|ds| - 1], q) || ds[|ds| - 1].seqNum == q
  {
    var last := |ds| - 1;
    if Arrived(ds, q) {
      var i :| 0 <= i < |ds| && ds[i].seqNum == q;
      assert i < last ==> ds[..last][i] == ds[i];
    }
    if Arrived(ds[..last], q) {
      var i :| 0 <= i < last && ds[..last][i].seqNum == q;
      assert ds[i] == ds[..last][i];
    }
  }

  /** Placing one segment makes known the bytes with its quotient, and right. */
  lemma PlacedExactly(m: map<int, Byte>, s: Sample, size: int, d: Datagram, k: int)
    requires size >= 1 && IsSegment(s, size, d)
    ensures var own := 0 <= k < |s.sampleData| && k / size == d.seqNum;
            (k in Place(m, d) <==> k in m || own)
            && (k in Place(m, d) ==> Place(m, d)[k] == if own then s.sampleData[k] else m[k])
  {
    assert Covers(d.seqNum * size, d.segmentData, k) <==> 0 <= k < |s.sampleData| && k / size == d.seqNum;
  }

  /** Whatever arrives, every placed byte is right, and the bytes known are
      exactly those of the segments that arrived. */
  lemma {:induction false} RebuiltExactly(s: Sample, size: int, ds: seq<Datagram>, k: int)
    requires size >= 1 && CutFrom(s, size, ds)
    ensures k in Rebuilt(ds) <==> 0 <= k < |s.sampleData| && Arrived(ds, k / size)
    ensures k in Rebuilt(ds) ==> Rebuilt(ds)[k] == s.sampleData[k]
  {
    hide IsSegment, Place, Arrived;
    if ds == [] {
      NothingArrived(k / size);
    } else {
      var last := |ds| - 1;
      RebuiltExactly(s, size, ds[..last], k);
      PlacedExactly(Rebuilt(ds[..last]), s, size, ds[last], k);
      ArrivedSnoc(ds, k / size);
    }
  }

  lemma NothingArrived(q: int)
    ensures !Arrived([], q)
  {
  }

  /** The sample is rebuilt exactly when each of its segments arrived at least
      once, in whatever order and however often. */
  lemma Reassembly(s: Sample, size: int, ds: seq<Datagram>)
    requires size >= 1 && CutFrom(s, size, ds)
    ensures Rebuilt(ds) == Whole(s) <==>
            forall q :: 0 <= q < SegmentCount(s, size) ==> Arrived(ds, q)
  {
    hide Rebuilt, Arrived;
    var n := SegmentCount(s, size);
    if forall q :: 0 <= q < n ==> Arrived(ds, q) {
      forall k ensures (k in Rebuilt(ds) <==> k in Whole(s)) && (k in Whole(s) ==> Rebuilt(ds)[k] == Whole(s)[k]) {
        RebuiltExactly(s, size, ds, k);
        if 0 <= k < |s.sampleData| {
          QuotientBelowCount(s, size, k / size, k);
        }
      }
    } else {
      var q :| 0 <= q < n && !Arrived(ds, q);
      var k := q * size;
      QuotientBelowCount(s, size, q, k);
      RebuiltExactly(s, size, ds, k);
    }
  }

  /** The datagrams `get_datagram` makes for all segments of a sample. */
  function Segments(s: Sample, size: int, n: int): (ds: seq<Datagram>)
    requires size >= 1
    ensures |ds| == SegmentCount(s, size)
    ensures forall q :: 0 <= q < |ds| ==> ds[q] == GetDatagram(s, q, size, n)
  {
    QuotientBelowCount(s, size, 0, 0);
    seq(SegmentCount(s, size), q requires q >= 0 => GetDatagram(s, q, size, n))
  }

  /** For every sample and every segment size, sending each segment once rebuilds
      the sample, and the last one is needed. */
  lemma SegmentsRebuild(s: Sample, size: int, n: int)
    requires size >= 1
    ensures var ds := Segments(s, size, n);
            CutFrom(s, size, ds) && Rebuilt(ds) == Whole(s)
            && (ds != [] ==> Rebuilt(ds[..|ds| - 1]) != Whole(s))
  {
    hide Rebuilt, Whole, IsSegment, SegmentCount;
    var ds := Segments(s, size, n);
    forall q | 0 <= q < |ds|
      ensures IsSegment(s, size, ds[q]) && ds[q].seqNum == q && Arrived(ds, q)
    {
      GetDatagramExactly(s, q, size, n);
    }
    Reassembly(s, size, ds);
    if ds != [] {
      var some := ds[..|ds| - 1];
      Reassembly(s, size, some);
      assert !Arrived(some, |ds| - 1);
    }
  }

  lemma QuotientBelowCount(s: Sample, size: int, q: int, k: int)
    requires size >= 1
    ensures SegmentCount(s, size) >= 0
    ensures 0 <= k < |s.sampleData| ==> 0 <= k / size < SegmentCount(s, size)
    ensures 0 <= q < SegmentCount(s, size) ==> 0 <= q * size < |s.sampleData| && q * size / size == q
  {
    var len, n := |s.sampleData|, SegmentCount(s, size);
    QuotientIs(len + size - 1, size, n);
    Multiples(n, n, size);
    assert n * size <= len + size - 1 < n * size + size;
    if 0 <= k < len {
      QuotientIs(k, size, k / size);
      if k / size >= n {
        Multiples(n, k / size, size);
      }
    }
    if 0 <= q < n {
      Multiples(q, n - 1, size);
      Multiples(n - 1, n, size);
      Multiples(0, q, size);
      Multiples(q, q, size);
      QuotientIs(q * size, size, q);
    }
  }

  // ------------------------------------------------------- through the payloads

  function AsDatagrams(vs: seq<Value>): seq<Datagram> {
    if vs == [] then []
    else
      match AsDatagram(vs[0])
      case None => AsDatagrams(vs[1..])
      case Some(d) => [d] + AsDatagrams(vs[1..])
  }

  /** The datagrams a receiver gets out of one payload. */
  function Unpack(payload: seq<Byte>): seq<Datagram> {
    match Decoded(payload)
    case Err(_) => []
    case Ok(vs) => AsDatagrams(vs)
  }

  function UnpackAll(payloads: seq<seq<Byte>>): seq<Datagram> {
    if payloads == [] then [] else Unpack(payloads[0]) + UnpackAll(payloads[1..])
  }

  function PackAll(packs: seq<seq<Datagram>>): seq<seq<Byte>> {
    if packs == [] then [] else [ToBytes(packs[0])] + PackAll(packs[1..])
  }

  lemma {:induction false} AsDatagramsOfDicts(ds: seq<Datagram>)
    ensures AsDatagrams(Dicts(ds)) == ds
  {
    hide Dict, AsDatagram;
    if ds == [] {
    } else {
      AsDatagramOfDict(ds[0]);
      AsDatagramsOfDicts(ds[1..]);
      assert Dicts(ds)[1..] == Dicts(ds[1..]);
      assert ds == [ds[0]] + ds[1..];
    }
  }

  lemma {:induction false} UnpackInverse(packs: seq<seq<Datagram>>)
    ensures UnpackAll(PackAll(packs)) == Flatten(packs)
  {
    hide ToBytes, Decoded;
    if packs == [] {
    } else {
      PayloadRoundTrip(packs[0]);
      AsDatagramsOfDicts(packs[0]);
      UnpackInverse(packs[1..]);
      assert PackAll(packs)[1..] == PackAll(packs[1..]);
    }
  }

  /** A datagram on its own, for all integers: what the receiver decodes has the
      sample's id and time, the segment and the three numbers it was made with. */
  lemma GetDatagramFields(s: Sample, q: int, size: int, n: int)
    ensures Unpack(ToBytes([GetDatagram(s, q, size, n)]))
            == [Datagram(s.metricId, s.sampleTime, q, size, n, DataSegment(s, q, size))]
  {
    hide ToBytes, Decoded, DataSegment;
    var ds := [GetDatagram(s, q, size, n)];
    PayloadRoundTrip(ds);
    AsDatagramsOfDicts(ds);
  }

  /** End to end: cut, packed into any payloads, encoded, decoded and placed,
      the sample comes out whole exactly when every segment was in some payload. */
  lemma EndToEnd(s: Sample, size: int, packs: seq<seq<Datagram>>)
    requires size >= 1 && CutFrom(s, size, Flatten(packs))
    ensures Rebuilt(UnpackAll(PackAll(packs))) == Whole(s) <==>
            forall q :: 0 <= q < SegmentCount(s, size) ==> Arrived(Flatten(packs), q)
  {
    UnpackInverse(packs);
    Reassembly(s, size, Flatten(packs));
  }
}
