/** The onboard side's downlink loop
    (onboard-server-py/src/onboard_server/handle_commands.py): it polls the
    latest sample, skips repeats, re-tunes the socket's send buffer and sleeps
    so that the bytes it sends keep to a rate. */
module Downlink {
  import opened Common

  type Delay = d: real | d >= 0.0

  /** One turn of the loop as the outside world decides it: what the poll
      returned, the size of the encoded message, and how long the poll and the
      drain took and how much longer than asked the sleep was. */
  datatype Turn<S> = Turn(sample: Option<S>, bytes: nat, poll: Delay, drain: Delay, late: Delay)

  /** A message handed to the socket, and when. */
  datatype Sent<S> = Sent(sample: S, bytes: nat, at: real)

  /** The loop's variables, the messages sent and the buffer sizes set so far;
      `failed` after the division by a zero rate. */
  datatype Loop<S> = Loop(
    now: real, last: Option<S>, buf: int,
    sent: seq<Sent<S>>, resizes: seq<int>, failed: bool)

  function Start<S>(now: real, buf: int): Loop<S> {
    Loop(now, None, buf, [], [], false)
  }

  function Pause(bytes: nat, bps: int): real
    requires bps != 0
  {
    var time := bytes as real / bps as real;
    if time > 0.5 then time else 0.5
  }

  predicate Unfit(buf: int, bytes: nat) {
    bytes > 0 && (buf < bytes + 1 || buf > bytes * 2)
  }

  function Step<S(==)>(s: Loop<S>, t: Turn<S>, bps: int): Loop<S> {
    if s.failed then s
    else if t.sample.Some? && t.sample != s.last then
      var after := s.(last := t.sample, sent := s.sent + [Sent(t.sample.value, t.bytes, s.now + t.poll)]);
      var tuned := if Unfit(s.buf, t.bytes) then after.(buf := t.bytes * 2, resizes := s.resizes + [t.bytes * 2]) else after;
      if bps == 0 then tuned.(now := s.now + t.poll + t.drain, failed := true)
      else tuned.(now := s.now + t.poll + t.drain + Pause(t.bytes, bps) + t.late)
    else
      s.(now := s.now + t.poll + 1.0 + t.late)
  }

  function Run<S(==)>(s: Loop<S>, ts: seq<Turn<S>>, bps: int): Loop<S> {
    if ts == [] then s else Step(Run(s, ts[..|ts| - 1], bps), ts[|ts| - 1], bps)
  }

  /** `downlink_loop` for as many turns as there are in `turns`, or until it
      fails.  Without a socket it fails before the first turn. */
  method DownlinkLoop<S(==)>(bps: int, socket: Option<int>, start: real, turns: seq<Turn<S>>)
    returns (result: Option<Loop<S>>)
    ensures result == if socket.None? then None else Some(Run(Start(start, socket.value), turns, bps))
  {
    if socket.None? {
      return None;
    }
    var sockBufSize := socket.value;
    var lastSample: Option<S> := None;
    var now := start;
    var sent: seq<Sent<S>> := [];
    var resizes: seq<int> := [];
    var i := 0;
    RunNone(Start<S>(start, socket.value), bps);
    hide Run;
    while i < |turns|
      invariant 0 <= i <= |turns|
      invariant Loop(now, lastSample, sockBufSize, sent, resizes, false) == Run(Start(start, socket.value), turns[..i], bps)
    {
      var t := turns[i];
      RunNext(Start(start, socket.value), turns, i, bps);
      now := now + t.poll;
      if t.sample.Some? && t.sample != lastSample {
        lastSample := t.sample;
        sent := sent + [Sent(t.sample.value, t.bytes, now)];
        now := now + t.drain;
        if t.bytes > 0 && (sockBufSize < t.bytes + 1 || sockBufSize > t.bytes * 2) {
          sockBufSize := t.bytes * 2;
          resizes := resizes + [sockBufSize];
        }
        if bps == 0 {
          FailedForGood(Start(start, socket.value), turns, i + 1, bps);
          return Some(Loop(now, lastSample, sockBufSize, sent, resizes, true));
        }
        var time := t.bytes as real / bps as real;
        now := now + (if time > 0.5 then time else 0.5) + t.late;
      } else {
        now := now + 1.0 + t.late;
      }
      i := i + 1;
    }
    assert turns[..i] == turns;
    return Some(Loop(now, lastSample, sockBufSize, sent, resizes, false));
  }

  lemma RunNone<S>(s: Loop<S>, bps: int)
    ensures Run(s, [], bps) == s
  {
  }

  lemma RunNext<S>(s: Loop<S>, ts: seq<Turn<S>>, i: nat, bps: int)
    requires i < |ts|
    ensures ts[..0] == [] && Run(s, ts[..i + 1], bps) == Step(Run(s, ts[..i], bps), ts[i], bps)
  {
    hide Step;
    assert ts[..i + 1][..i] == ts[..i];
  }

  lemma {:induction false} FailedForGood<S>(s: Loop<S>, ts: seq<Turn<S>>, i: nat, bps: int)
    requires i <= |ts| && Run(s, ts[..i], bps).failed
    ensures Run(s, ts, bps) == Run(s, ts[..i], bps)
  {
    if i == |ts| {
      assert ts[..i] == ts;
    } else {
      assert ts[..|ts| - 1][..i] == ts[..i];
      FailedForGood(s, ts[..|ts| - 1], i, bps);
    }
  }

  // ------------------------------------------------------------ de-duplication

  /** What the polls returned, without the empty ones. */
  function Polled<S>(ts: seq<Turn<S>>): seq<S> {
    if ts == [] then []
    else if ts[0].sample.None? then Polled(ts[1..])
    else [ts[0].sample.value] + Polled(ts[1..])
  }

  /** A sequence with runs of equal elements shortened to one. */
  function Deduped<S(==)>(xs: seq<S>): seq<S> {
    if |xs| <= 1 then xs
    else if xs[0] == xs[1] then Deduped(xs[1..])
    else [xs[0]] + Deduped(xs[1..])
  }

  lemma {:induction false} PolledSnoc<S>(ts: seq<Turn<S>>, t: Turn<S>)
    ensures Polled(ts + [t]) == Polled(ts) + if t.sample.Some? then [t.sample.value] else []
  {
    if ts == [] {
      assert Polled([t][1..]) == [];
    } else {
      assert (ts + [t])[1..] == ts[1..] + [t];
      PolledSnoc(ts[1..], t);
    }
  }

  lemma {:induction false} DedupedSnoc<S>(xs: seq<S>, x: S)
    ensures Deduped(xs + [x]) == if xs != [] && xs[|xs| - 1] == x then Deduped(xs) else Deduped(xs) + [x]
  {
    if |xs| == 0 {
    } else if |xs| == 1 {
      assert (xs + [x])[1..] == [x];
    } else {
      assert (xs + [x])[1..] == xs[1..] + [x];
      DedupedSnoc(xs[1..], x);
    }
  }

  function Samples<S>(sent: seq<Sent<S>>): seq<S> {
    seq(|sent|, i requires 0 <= i < |sent| => sent[i].sample)
  }

  lemma {:induction false} Remembered<S>(now: real, buf: int, ts: seq<Turn<S>>, bps: int)
    requires bps != 0
    ensures var s := Run(Start(now, buf), ts, bps);
            var xs := Polled(ts);
            !s.failed && s.last == (if xs == [] then None else Some(xs[|xs| - 1])) && Samples(s.sent) == Deduped(xs)
  {
    if ts == [] {
    } else {
      var last := |ts| - 1;
      Remembered(now, buf, ts[..last], bps);
      assert ts == ts[..last] + [ts[last]];
      PolledSnoc(ts[..last], ts[last]);
      OneTurn(Run(Start<S>(now, buf), ts[..last], bps), ts[last], bps, Polled(ts[..last]));
    }
  }

  lemma OneTurn<S>(p: Loop<S>, t: Turn<S>, bps: int, xs: seq<S>)
    requires bps != 0 && !p.failed && Samples(p.sent) == Deduped(xs)
    requires p.last == (if xs == [] then None else Some(xs[|xs| - 1]))
    ensures var n := Step(p, t, bps);
            var ys := xs + if t.sample.Some? then [t.sample.value] else [];
            !n.failed && n.last == (if ys == [] then None else Some(ys[|ys| - 1])) && Samples(n.sent) == Deduped(ys)
  {
    hide Pause, Unfit;
    if t.sample.Some? {
      DedupedSnoc(xs, t.sample.value);
      hide Deduped;
      if t.sample != p.last {
        assert Samples(Step(p, t, bps).sent) == Samples(p.sent) + [t.sample.value];
      }
    } else {
      assert xs + [] == xs;
    }
  }

  /** The samples sent are the samples polled with consecutive repeats removed,
      in order: nothing is lost, repeated or reordered. */
  lemma Dedup<S>(now: real, buf: int, ts: seq<Turn<S>>, bps: int)
    requires bps != 0
    ensures Samples(Run(Start(now, buf), ts, bps).sent) == Deduped(Polled(ts))
  {
    Remembered(now, buf, ts, bps);
  }

  /** At rate zero, which a new subscription starts with, the loop sends the
      first sample it sees and fails: it is still running exactly as long as
      every poll was empty. */
  lemma {:induction false} ZeroRate<S>(now: real, buf: int, ts: seq<Turn<S>>)
    ensures var s := Run(Start(now, buf), ts, 0);
            var xs := Polled(ts);
            (s.failed <==> xs != []) && Samples(s.sent) == if xs == [] then [] else [xs[0]]
  {
    if ts == [] {
    } else {
      var last := |ts| - 1;
      ZeroRate(now, buf, ts[..last]);
      RunFresh(now, buf, ts[..last]);
      assert ts == ts[..last] + [ts[last]];
      PolledSnoc(ts[..last], ts[last]);
    }
  }

  lemma {:induction false} RunFresh<S>(now: real, buf: int, ts: seq<Turn<S>>)
    ensures var s := Run(Start(now, buf), ts, 0); !s.failed ==> s.last == None && s.sent == []
  {
    if ts != [] {
      RunFresh(now, buf, ts[..|ts| - 1]);
    }
  }

  /** The loop never spins: every turn that sends nothing takes at least a
      second, and every one that sends at least half a second. */
  lemma {:induction false} NoBusyWait<S>(now: real, buf: int, ts: seq<Turn<S>>, bps: int)
    requires bps != 0
    ensures var s := Run(Start(now, buf), ts, bps);
            |s.sent| <= |ts| && s.now - now >= (|ts| - |s.sent|) as real + 0.5 * |s.sent| as real
  {
    if ts != [] {
      NoBusyWait(now, buf, ts[..|ts| - 1], bps);
      Remembered(now, buf, ts[..|ts| - 1], bps);
    }
  }

  // -------------------------------------------------------------------- pacing

  function Bytes<S>(sent: seq<Sent<S>>): nat {
    if sent == [] then 0 else Bytes(sent[..|sent| - 1]) + sent[|sent| - 1].bytes
  }

  /** Each message leaves at least its pause after the one before. */
  ghost predicate Spaced<S>(sent: seq<Sent<S>>, bps: int)
    requires bps != 0
  {
    forall i :: 0 < i < |sent| ==> sent[i].at >= sent[i - 1].at + Pause(sent[i - 1].bytes, bps)
  }

  lemma {:induction false} RunSpaced<S>(now: real, buf: int, ts: seq<Turn<S>>, bps: int)
    requires bps != 0
    ensures var s := Run(Start(now, buf), ts, bps);
            Spaced(s.sent, bps)
            && (s.sent != [] ==> s.now >= s.sent[|s.sent| - 1].at + Pause(s.sent[|s.sent| - 1].bytes, bps))
  {
    hide Pause;
    if ts != [] {
      RunSpaced(now, buf, ts[..|ts| - 1], bps);
      Remembered(now, buf, ts[..|ts| - 1], bps);
    }
  }

  lemma PauseBounds(bytes: nat, bps: int)
    requires bps > 0
    ensures bps as real * Pause(bytes, bps) >= bytes as real && 2.0 * Pause(bytes, bps) >= 1.0
  {
    var time := bytes as real / bps as real;
    assert bps as real * time == bytes as real;
    if time <= 0.5 {
      assert bps as real * 0.5 >= bps as real * time;
    }
  }

  /** The bytes the rate allows between two moments. */
  function Allowance(bps: int, from: real, to: real): real {
    bps as real * (to - from)
  }

  lemma {:induction false} SpacedBytes<S>(sent: seq<Sent<S>>, bps: int, i: nat, j: nat)
    requires bps > 0 && Spaced(sent, bps) && i <= j < |sent|
    ensures Allowance(bps, sent[i].at, sent[j].at) >= Bytes(sent[i..j]) as real
    ensures 2.0 * (sent[j].at - sent[i].at) >= (j - i) as real
  {
    if i == j {
    } else {
      hide Pause, Allowance;
      SpacedBytes(sent, bps, i, j - 1);
      OneMoreSent(sent, i, j);
      Elapsed(sent[i].at, sent[j - 1].at, sent[j].at, Bytes(sent[i..j - 1]), sent[j - 1].bytes, bps);
    }
  }

  lemma OneMoreSent<S>(sent: seq<Sent<S>>, i: nat, j: nat)
    requires i < j <= |sent|
    ensures Bytes(sent[i..j]) == Bytes(sent[i..j - 1]) + sent[j - 1].bytes
  {
    assert sent[i..j][..j - 1 - i] == sent[i..j - 1];
  }

  lemma Elapsed(a: real, b: real, c: real, before: nat, bytes: nat, bps: int)
    requires bps > 0 && c >= b + Pause(bytes, bps) && Allowance(bps, a, b) >= before as real
    ensures Allowance(bps, a, c) >= (before + bytes) as real
    ensures c - b >= 0.5
  {
    PauseBounds(bytes, bps);
    hide Pause;
    var r, p := bps as real, Pause(bytes, bps);
    assert r * (c - a) == r * (b - a) + r * (c - b);
    Monotone(r, p, c - b);
  }

  lemma Monotone(r: real, p: real, q: real)
    requires r >= 0.0 && p <= q
    ensures r * p <= r * q
  {
  }

  /** Over every run and any two sends of it: the bytes sent from the one until
      just before the other are at most the rate times the time between, and so
      are the sends at two a second. */
  lemma Pacing<S>(now: real, buf: int, ts: seq<Turn<S>>, bps: int, i: nat, j: nat)
    requires bps > 0 && i <= j < |Run(Start(now, buf), ts, bps).sent|
    ensures var sent := Run(Start(now, buf), ts, bps).sent;
            Allowance(bps, sent[i].at, sent[j].at) >= Bytes(sent[i..j]) as real
            && 2.0 * (sent[j].at - sent[i].at) >= (j - i) as real
  {
    hide Run, Spaced, Bytes, Allowance;
    RunSpaced(now, buf, ts, bps);
    SpacedBytes(Run(Start(now, buf), ts, bps).sent, bps, i, j);
  }

  // ----------------------------------------------------------- the send buffer

  function Sizes<S>(sent: seq<Sent<S>>): seq<nat> {
    seq(|sent|, i requires 0 <= i < |sent| => sent[i].bytes)
  }

  /** The buffer sizes set for messages of the given sizes, one after another. */
  function Resizes(buf: int, sizes: seq<nat>): seq<int> {
    if sizes == [] then []
    else
      var before := Resizes(buf, sizes[..|sizes| - 1]);
      var bytes := sizes[|sizes| - 1];
      if Unfit(LastOr(before, buf), bytes) then before + [bytes * 2] else before
  }

  function LastOr(rs: seq<int>, buf: int): int {
    if rs == [] then buf else rs[|rs| - 1]
  }

  function Buffer(buf: int, sizes: seq<nat>): int {
    LastOr(Resizes(buf, sizes), buf)
  }

  lemma {:induction false} RunResizes<S>(now: real, buf: int, ts: seq<Turn<S>>, bps: int)
    ensures var s := Run(Start(now, buf), ts, bps);
            s.resizes == Resizes(buf, Sizes(s.sent)) && s.buf == Buffer(buf, Sizes(s.sent))
  {
    if ts != [] {
      var last := |ts| - 1;
      RunResizes(now, buf, ts[..last], bps);
      OneResize(Run(Start<S>(now, buf), ts[..last], bps), ts[last], bps, buf);
    }
  }

  lemma OneResize<S>(p: Loop<S>, t: Turn<S>, bps: int, buf: int)
    requires p.resizes == Resizes(buf, Sizes(p.sent)) && p.buf == Buffer(buf, Sizes(p.sent))
    ensures var n := Step(p, t, bps);
            n.resizes == Resizes(buf, Sizes(n.sent)) && n.buf == Buffer(buf, Sizes(n.sent))
  {
    hide Pause, Unfit;
    var n := Step(p, t, bps);
    if n.sent != p.sent {
      assert Sizes(n.sent)[..|p.sent|] == Sizes(p.sent);
    }
  }

  /** After every message of at least one byte the buffer takes it and one byte
      more, and never two messages of its size. */
  lemma BufferFits(buf: int, sizes: seq<nat>)
    requires sizes != [] && sizes[|sizes| - 1] >= 1
    ensures sizes[|sizes| - 1] + 1 <= Buffer(buf, sizes) <= 2 * sizes[|sizes| - 1]
  {
  }

  /** While sizes stay between half the buffer and one less than it, nothing is
      resized; one size outside, and something is. */
  lemma {:induction false} SteadyExactly(buf: int, sizes: seq<nat>, more: seq<nat>)
    requires forall i :: 0 <= i < |more| ==> more[i] >= 1
    ensures Resizes(buf, sizes + more) == Resizes(buf, sizes) <==>
            forall i :: 0 <= i < |more| ==> more[i] + 1 <= Buffer(buf, sizes) <= 2 * more[i]
  {
    if more == [] {
      assert sizes + more == sizes;
    } else {
      var last := |more| - 1;
      SteadyExactly(buf, sizes, more[..last]);
      MoreResizes(buf, sizes, more[..last]);
      assert (sizes + more)[..|sizes + more| - 1] == sizes + more[..last];
      assert more == more[..last] + [more[last]];
    }
  }

  lemma {:induction false} MoreResizes(buf: int, sizes: seq<nat>, more: seq<nat>)
    ensures |Resizes(buf, sizes)| <= |Resizes(buf, sizes + more)|
  {
    if more == [] {
      assert sizes + more == sizes;
    } else {
      MoreResizes(buf, sizes, more[..|more| - 1]);
      assert (sizes + more)[..|sizes + more| - 1] == sizes + more[..|more| - 1];
    }
  }

  predicate NonDecreasing(sizes: seq<nat>) {
    forall i :: 0 < i < |sizes| ==> sizes[i - 1] <= sizes[i]
  }

  function Pow2(n: nat): nat {
    if n == 0 then 1 else 2 * Pow2(n - 1)
  }

  lemma {:induction false} Doubling(buf: int, sizes: seq<nat>)
    requires NonDecreasing(sizes) && forall i :: 0 <= i < |sizes| ==> sizes[i] >= 1
    ensures var rs := Resizes(buf, sizes);
            (forall k :: 0 < k < |rs| ==> rs[k] >= 2 * rs[k - 1])
            && (rs != [] ==> 2 * sizes[0] <= rs[0] && rs[|rs| - 1] <= 2 * sizes[|sizes| - 1])
  {
    if sizes != [] {
      var last := |sizes| - 1;
      Doubling(buf, sizes[..last]);
      FirstLeast(sizes, last);
    }
  }

  lemma {:induction false} FirstLeast(sizes: seq<nat>, i: nat)
    requires NonDecreasing(sizes) && i < |sizes|
    ensures sizes[0] <= sizes[i]
  {
    if i > 0 {
      FirstLeast(sizes, i - 1);
    }
  }

  lemma {:induction false} DoublingPower(rs: seq<int>)
    requires rs != [] && forall k :: 0 < k < |rs| ==> rs[k] >= 2 * rs[k - 1]
    ensures rs[|rs| - 1] >= Pow2(|rs| - 1) * rs[0]
  {
    if |rs| > 1 {
      DoublingPower(rs[..|rs| - 1]);
      var p := Pow2(|rs| - 2);
      assert 2 * (p * rs[0]) == (2 * p) * rs[0];
    }
  }

  lemma Halve(p: nat, a: int, r: int, t: int, d: int)
    requires p * r <= t && 2 * a <= r && t <= 2 * d
    ensures p * a <= d
  {
    assert p * (2 * a) <= p * r;
    assert p * (2 * a) == 2 * (p * a);
  }

  /** Along sizes that never shrink the number of resizes is logarithmic: two to
      one less than it is at most the last size over the first. */
  lemma FewResizes(buf: int, sizes: seq<nat>)
    requires NonDecreasing(sizes) && forall i :: 0 <= i < |sizes| ==> sizes[i] >= 1
    requires Resizes(buf, sizes) != []
    ensures Pow2(|Resizes(buf, sizes)| - 1) * sizes[0] <= sizes[|sizes| - 1]
  {
    var rs := Resizes(buf, sizes);
    Doubling(buf, sizes);
    DoublingPower(rs);
    Halve(Pow2(|rs| - 1), sizes[0], rs[0], rs[|rs| - 1], sizes[|sizes| - 1]);
  }

  /** The buffer is as the socket had it or as it was set last, and it is only
      ever set to twice the size of a message that was sent. */
  lemma {:induction false} SetToDouble<S>(now: real, buf: int, ts: seq<Turn<S>>, bps: int)
    ensures var s := Run(Start(now, buf), ts, bps);
            s.buf == (if s.resizes == [] then buf else s.resizes[|s.resizes| - 1])
            && forall i :: 0 <= i < |s.resizes| ==> exists j :: 0 <= j < |s.sent| && s.resizes[i] == 2 * s.sent[j].bytes
  {
    if ts != [] {
      var p := Run(Start<S>(now, buf), ts[..|ts| - 1], bps);
      var n := Run(Start<S>(now, buf), ts, bps);
      SetToDouble(now, buf, ts[..|ts| - 1], bps);
      forall i | 0 <= i < |n.resizes| ensures exists j :: 0 <= j < |n.sent| && n.resizes[i] == 2 * n.sent[j].bytes {
        if i < |p.resizes| {
          var j :| 0 <= j < |p.sent| && p.resizes[i] == 2 * p.sent[j].bytes;
          assert n.sent[j] == p.sent[j];
        } else {
          assert n.resizes[i] == 2 * n.sent[|n.sent| - 1].bytes;
        }
      }
    }
  }

  /** The two buffer laws for the loop itself. */
  lemma RunBuffer<S>(now: real, buf: int, ts: seq<Turn<S>>, bps: int)
    ensures var s := Run(Start(now, buf), ts, bps);
            s.sent != [] && s.sent[|s.sent| - 1].bytes >= 1 ==>
              s.sent[|s.sent| - 1].bytes + 1 <= s.buf <= 2 * s.sent[|s.sent| - 1].bytes
    ensures var s := Run(Start(now, buf), ts, bps);
            NonDecreasing(Sizes(s.sent)) && (forall i :: 0 <= i < |s.sent| ==> s.sent[i].bytes >= 1) && s.resizes != [] ==>
              s.sent != [] && Pow2(|s.resizes| - 1) * s.sent[0].bytes <= s.sent[|s.sent| - 1].bytes
  {
    hide Run, Buffer, Resizes, Pow2, NonDecreasing;
    RunResizes(now, buf, ts, bps);
    var s := Run(Start(now, buf), ts, bps);
    var sizes := Sizes(s.sent);
    if s.sent == [] {
      NoResizes(buf);
    } else {
      if s.sent[|s.sent| - 1].bytes >= 1 {
        BufferFits(buf, sizes);
      }
      if NonDecreasing(sizes) && (forall i :: 0 <= i < |s.sent| ==> s.sent[i].bytes >= 1) && s.resizes != [] {
        FewResizes(buf, sizes);
      }
    }
  }

  lemma NoResizes(buf: int)
    ensures Resizes(buf, []) == []
  {
  }
}
