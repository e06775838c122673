/** What the downlink loop sends and exactly when
    (onboard-server-py/src/onboard_server/handle_commands.py), read off the
    turns alone. */
module DownlinkTimes {
  import opened Common
  import opened Downlink

  /** The last sample the polls have returned. */
  function LastPoll<S>(ts: seq<Turn<S>>): Option<S> {
    if ts == [] then None
    else if ts[|ts| - 1].sample.Some? then ts[|ts| - 1].sample
    else LastPoll(ts[..|ts| - 1])
  }

  /** The `i`th poll returned a sample, and not the one polled last before. */
  predicate Fresh<S(==)>(ts: seq<Turn<S>>, i: nat)
    requires i < |ts|
  {
    ts[i].sample.Some? && ts[i].sample != LastPoll(ts[..i])
  }

  function Longer(a: real, b: real): (r: real)
    ensures r >= a && r >= b && (r == a || r == b)
  {
    if a < b then b else a
  }

  /** The longer of half a second and the bytes over the rate. */
  function Wait(bytes: nat, bps: int): real
    requires bps != 0
  {
    Longer(0.5, bytes as real / bps as real)
  }

  /** How long the `i`th turn takes: the poll, and then either the drain, the
      wait after a send, or one second; and what the sleep takes longer than
      asked.  At rate zero there is no sleep after a send. */
  function TurnTime<S(==)>(ts: seq<Turn<S>>, i: nat, bps: int): real
    requires i < |ts|
  {
    var t := ts[i];
    if !Fresh(ts, i) then t.poll + 1.0 + t.late
    else if bps == 0 then t.poll + t.drain
    else t.poll + t.drain + Wait(t.bytes, bps) + t.late
  }

  function Elapsed<S(==)>(ts: seq<Turn<S>>, bps: int): real {
    if ts == [] then 0.0 else Elapsed(ts[..|ts| - 1], bps) + TurnTime(ts, |ts| - 1, bps)
  }

  /** One message for each fresh poll: its sample, the size of its encoding, and
      the moment its turn's poll is over. */
  function Sendings<S(==)>(now: real, ts: seq<Turn<S>>, bps: int): seq<Sent<S>> {
    if ts == [] then []
    else
      var i := |ts| - 1;
      Sendings(now, ts[..i], bps)
      + if Fresh(ts, i) then [Sent(ts[i].sample.value, ts[i].bytes, now + Elapsed(ts[..i], bps) + ts[i].poll)] else []
  }

  /** Over every run, at every rate but zero: exactly the fresh samples are sent,
      each with its size and at its moment, and the clock shows exactly the time
      the turns take. */
  lemma {:induction false} SentExactly<S>(now: real, buf: int, ts: seq<Turn<S>>, bps: int)
    requires bps != 0
    ensures var s := Run(Start(now, buf), ts, bps);
            s.sent == Sendings(now, ts, bps) && s.now == now + Elapsed(ts, bps) && s.last == LastPoll(ts) && !s.failed
  {
    if ts == [] {
    } else {
      var last := |ts| - 1;
      SentExactly(now, buf, ts[..last], bps);
      OneTurnExactly(Run(Start<S>(now, buf), ts[..last], bps), ts, bps);
    }
  }

  lemma PauseIs(bytes: nat, bps: int)
    requires bps != 0
    ensures Pause(bytes, bps) == Wait(bytes, bps)
  {
  }

  lemma OneTurnExactly<S>(p: Loop<S>, ts: seq<Turn<S>>, bps: int)
    requires bps != 0 && ts != [] && !p.failed && p.last == LastPoll(ts[..|ts| - 1])
    ensures var i := |ts| - 1;
            var n := Step(p, ts[i], bps);
            n.now == p.now + TurnTime(ts, i, bps) && n.last == LastPoll(ts) && !n.failed
            && n.sent == p.sent + if Fresh(ts, i) then [Sent(ts[i].sample.value, ts[i].bytes, p.now + ts[i].poll)] else []
  {
    hide *;
    var i := |ts| - 1;
    var t := ts[i];
    if Fresh(ts, i) {
      FreshTurn(p, ts, bps);
    } else {
      StaleTurn(p, ts, bps);
      assert p.sent + [] == p.sent;
    }
  }

  lemma FreshTurn<S>(p: Loop<S>, ts: seq<Turn<S>>, bps: int)
    requires bps != 0 && ts != [] && !p.failed && p.last == LastPoll(ts[..|ts| - 1]) && Fresh(ts, |ts| - 1)
    ensures var t := ts[|ts| - 1];
            var n := Step(p, t, bps);
            n.now == p.now + TurnTime(ts, |ts| - 1, bps) && n.last == LastPoll(ts) && !n.failed
            && n.sent == p.sent + [Sent(t.sample.value, t.bytes, p.now + t.poll)]
  {
    hide *;
    FreshLast(ts);
    StepSends(p, ts[|ts| - 1], bps);
    FreshTime(ts, bps);
  }

  lemma FreshLast<S>(ts: seq<Turn<S>>)
    requires ts != [] && Fresh(ts, |ts| - 1)
    ensures var t := ts[|ts| - 1]; t.sample.Some? && t.sample != LastPoll(ts[..|ts| - 1]) && LastPoll(ts) == t.sample
  {
  }

  lemma StepSends<S>(p: Loop<S>, t: Turn<S>, bps: int)
    requires bps != 0 && !p.failed && t.sample.Some? && t.sample != p.last
    ensures var n := Step(p, t, bps);
            n.now == p.now + t.poll + t.drain + Pause(t.bytes, bps) + t.late && n.last == t.sample && !n.failed
            && n.sent == p.sent + [Sent(t.sample.value, t.bytes, p.now + t.poll)]
  {
    hide Unfit, Pause;
  }

  lemma FreshTime<S>(ts: seq<Turn<S>>, bps: int)
    requires bps != 0 && ts != [] && Fresh(ts, |ts| - 1)
    ensures var t := ts[|ts| - 1];
            TurnTime(ts, |ts| - 1, bps) == t.poll + t.drain + Pause(t.bytes, bps) + t.late
  {
    hide Pause, Wait;
    PauseIs(ts[|ts| - 1].bytes, bps);
  }

  lemma StaleTurn<S>(p: Loop<S>, ts: seq<Turn<S>>, bps: int)
    requires bps != 0 && ts != [] && !p.failed && p.last == LastPoll(ts[..|ts| - 1]) && !Fresh(ts, |ts| - 1)
    ensures var n := Step(p, ts[|ts| - 1], bps);
            n.now == p.now + TurnTime(ts, |ts| - 1, bps) && n.last == LastPoll(ts) && !n.failed && n.sent == p.sent
  {
    hide Unfit, Pause, Wait;
  }

  /** At rate zero: the first fresh sample, at its moment, and nothing after it. */
  lemma {:induction false} ZeroRateExactly<S>(now: real, buf: int, ts: seq<Turn<S>>)
    ensures var s, all := Run(Start(now, buf), ts, 0), Sendings(now, ts, 0);
            (s.failed <==> all != []) && s.sent == (if all == [] then [] else [all[0]])
            && (!s.failed ==> s.now == now + Elapsed(ts, 0) && s.last == None && LastPoll(ts) == None)
  {
    hide Unfit;
    if ts != [] {
      ZeroRateExactly(now, buf, ts[..|ts| - 1]);
    }
  }

  /** Without delays from outside, from one send to the next it is exactly the
      longer of half a second and bytes over rate, and one second more for each
      turn in between. */
  lemma {:induction false} PromptGap<S>(ts: seq<Turn<S>>, bps: int, i: nat, j: nat)
    requires bps != 0 && i < j <= |ts| && Fresh(ts, i)
    requires forall k :: i <= k < j ==> ts[k].poll == 0.0 && ts[k].drain == 0.0 && ts[k].late == 0.0
    requires forall k :: i < k < j ==> !Fresh(ts, k)
    ensures Elapsed(ts[..j], bps) - Elapsed(ts[..i], bps)
            == Longer(0.5, ts[i].bytes as real / bps as real) + (j - i - 1) as real
  {
    var k := j - 1;
    assert ts[..j][..k] == ts[..k];
    assert TurnTime(ts[..j], k, bps) == TurnTime(ts, k, bps) by { assert ts[..j][..k] == ts[..k]; }
    if k > i {
      PromptGap(ts, bps, i, k);
    }
  }

  // -------------------------------------------------- samples with their sizes

  function PolledPairs<S>(ts: seq<Turn<S>>): seq<(S, nat)> {
    if ts == [] then []
    else if ts[0].sample.None? then PolledPairs(ts[1..])
    else [(ts[0].sample.value, ts[0].bytes)] + PolledPairs(ts[1..])
  }

  /** Of each run of polls with the same sample, the first. */
  function FirstOfRuns<S(==)>(xs: seq<(S, nat)>): seq<(S, nat)>
    decreases |xs|
  {
    if |xs| <= 1 then xs
    else if xs[0].0 == xs[1].0 then FirstOfRuns([xs[0]] + xs[2..])
    else [xs[0]] + FirstOfRuns(xs[1..])
  }

  function Pairs<S>(sent: seq<Sent<S>>): seq<(S, nat)> {
    seq(|sent|, i requires 0 <= i < |sent| => (sent[i].sample, sent[i].bytes))
  }

  lemma {:induction false} PairsSnoc<S>(ts: seq<Turn<S>>, t: Turn<S>)
    ensures PolledPairs(ts + [t]) == PolledPairs(ts) + if t.sample.Some? then [(t.sample.value, t.bytes)] else []
  {
    if ts == [] {
      assert [t][1..] == [] && [] + [t] == [t];
    } else {
      assert (ts + [t])[1..] == ts[1..] + [t];
      PairsSnoc(ts[1..], t);
    }
  }

  lemma {:induction false} RunsSnoc<S>(xs: seq<(S, nat)>, x: (S, nat))
    ensures FirstOfRuns(xs + [x]) ==
            if xs != [] && xs[|xs| - 1].0 == x.0 then FirstOfRuns(xs) else FirstOfRuns(xs) + [x]
    decreases |xs|
  {
    if |xs| <= 1 {
      if |xs| == 1 {
        assert [xs[0]] + (xs + [x])[2..] == xs && (xs + [x])[1..] == [x];
      }
    } else if xs[0].0 == xs[1].0 {
      assert [xs[0]] + (xs + [x])[2..] == [xs[0]] + xs[2..] + [x];
      RunsSnoc([xs[0]] + xs[2..], x);
    } else {
      assert (xs + [x])[1..] == xs[1..] + [x];
      RunsSnoc(xs[1..], x);
    }
  }

  lemma {:induction false} LastPair<S>(ts: seq<Turn<S>>)
    ensures var xs := PolledPairs(ts);
            LastPoll(ts) == if xs == [] then None else Some(xs[|xs| - 1].0)
  {
    if ts != [] {
      var last := |ts| - 1;
      LastPair(ts[..last]);
      PairsSnoc(ts[..last], ts[last]);
      assert ts == ts[..last] + [ts[last]];
    }
  }

  lemma {:induction false} SendingsPairs<S>(now: real, ts: seq<Turn<S>>, bps: int)
    ensures Pairs(Sendings(now, ts, bps)) == FirstOfRuns(PolledPairs(ts))
  {
    if ts != [] {
      var i := |ts| - 1;
      SendingsPairs(now, ts[..i], bps);
      LastPair(ts[..i]);
      PairsSnoc(ts[..i], ts[i]);
      assert ts == ts[..i] + [ts[i]];
      if ts[i].sample.Some? {
        RunsSnoc(PolledPairs(ts[..i]), (ts[i].sample.value, ts[i].bytes));
      }
      assert PolledPairs(ts[..i]) + [] == PolledPairs(ts[..i]);
      assert Sendings(now, ts[..i], bps) + [] == Sendings(now, ts[..i], bps);
      if Fresh(ts, i) {
        assert Pairs(Sendings(now, ts, bps)) == Pairs(Sendings(now, ts[..i], bps)) + [(ts[i].sample.value, ts[i].bytes)];
      }
    }
  }

  /** The samples sent, with their sizes, are those of the non-empty polls, of
      each run of equal samples the first; at rate zero the first of all. */
  lemma PairsExactly<S>(now: real, buf: int, ts: seq<Turn<S>>, bps: int)
    ensures var pairs := Pairs(Run(Start(now, buf), ts, bps).sent);
            var polled := FirstOfRuns(PolledPairs(ts));
            if bps != 0 then pairs == polled else pairs == (if polled == [] then [] else [polled[0]])
  {
    hide Run, FirstOfRuns, PolledPairs, Sendings;
    SendingsPairs(now, ts, bps);
    if bps != 0 {
      SentExactly(now, buf, ts, bps);
    } else {
      ZeroRateExactly(now, buf, ts);
      var all := Sendings(now, ts, 0);
      if all != [] {
        assert Pairs([all[0]]) == [Pairs(all)[0]];
      }
    }
  }
}
