/** The two halves together: the ground side's fair distribution
    (command/src/sync_metric_ids.py) and the onboard side's paced downlinks
    (onboard-server-py/src/onboard_server/handle_commands.py), one connection
    for each subscription (command/src/subscriber.py). */
module Bandwidth {
  import opened Common
  import opened Subscriptions
  import opened Redistribution
  import opened SubscribeHandler
  import D = Downlink

  // ------------------------------------------------- one connection, one window

  predicate Within<S>(m: D.Sent<S>, from: real, to: real) {
    from <= m.at <= to
  }

  /** Bytes of the messages sent in a window. */
  function WindowBytes<S>(sent: seq<D.Sent<S>>, from: real, to: real): nat {
    if sent == [] then 0
    else
      var m := sent[|sent| - 1];
      WindowBytes(sent[..|sent| - 1], from, to) + if Within(m, from, to) then m.bytes else 0
  }

  /** The last message sent in a window. */
  function WindowLast<S>(sent: seq<D.Sent<S>>, from: real, to: real): Option<D.Sent<S>> {
    if sent == [] then None
    else if Within(sent[|sent| - 1], from, to) then Some(sent[|sent| - 1])
    else WindowLast(sent[..|sent| - 1], from, to)
  }

  function LastBytes<S>(sent: seq<D.Sent<S>>, from: real, to: real): nat {
    var last := WindowLast(sent, from, to);
    if last.Some? then last.value.bytes else 0
  }

  lemma SpacedInit<S>(sent: seq<D.Sent<S>>, bps: int)
    requires bps > 0 && sent != [] && D.Spaced(sent, bps)
    ensures D.Spaced(sent[..|sent| - 1], bps)
    ensures |sent| > 1 ==>
              sent[|sent| - 1].at >= sent[|sent| - 2].at + D.Pause(sent[|sent| - 2].bytes, bps)
              && sent[|sent| - 1].at >= sent[|sent| - 2].at
  {
  }

  /** Once the messages end before a window, none of them is in it. */
  lemma {:induction false} BeforeWindow<S>(sent: seq<D.Sent<S>>, bps: int, from: real, to: real)
    requires bps > 0 && D.Spaced(sent, bps) && (sent == [] || sent[|sent| - 1].at < from)
    ensures WindowBytes(sent, from, to) == 0
  {
    hide D.Pause, D.Spaced;
    if sent != [] {
      SpacedInit(sent, bps);
      BeforeWindow(sent[..|sent| - 1], bps, from, to);
    }
  }

  /** The bytes in a window up to its last message, exclusive, fit the rate. */
  lemma {:induction false} WindowPaced<S>(sent: seq<D.Sent<S>>, bps: int, from: real, to: real)
    requires bps > 0 && D.Spaced(sent, bps)
    ensures var last := WindowLast(sent, from, to);
            if last.None? then WindowBytes(sent, from, to) == 0
            else from <= last.value.at <= to
                 && WindowBytes(sent, from, to) >= last.value.bytes
                 && D.Allowance(bps, from, last.value.at) >= (WindowBytes(sent, from, to) - last.value.bytes) as real
  {
    hide D.Pause, D.Spaced, D.Allowance;
    if sent != [] {
      var init, m := sent[..|sent| - 1], sent[|sent| - 1];
      SpacedInit(sent, bps);
      WindowPaced(init, bps, from, to);
      if Within(m, from, to) {
        if init == [] || init[|init| - 1].at < from {
          BeforeWindow(init, bps, from, to);
          AllowanceGrows(bps, from, from, m.at);
        } else {
          var p := init[|init| - 1];
          assert WindowLast(init, from, to) == Some(p);
          D.Elapsed(from, p.at, m.at, WindowBytes(init, from, to) - p.bytes, p.bytes, bps);
        }
      }
    }
  }

  lemma AllowanceGrows(bps: int, from: real, a: real, b: real)
    requires bps >= 0 && a <= b
    ensures D.Allowance(bps, from, a) <= D.Allowance(bps, from, b)
    ensures D.Allowance(bps, from, from) == 0.0
  {
    var r := bps as real;
    assert r * (b - from) == r * (a - from) + r * (b - a);
    assert r * (b - a) >= 0.0;
  }

  /** Over every run of one downlink and every window: the bytes sent are at
      most the rate times the window and the last message. */
  lemma WindowBound<S>(now: real, buf: int, ts: seq<D.Turn<S>>, bps: int, from: real, to: real)
    requires bps > 0 && from <= to
    ensures var sent := D.Run(D.Start(now, buf), ts, bps).sent;
            WindowBytes(sent, from, to) as real <= D.Allowance(bps, from, to) + LastBytes(sent, from, to) as real
  {
    hide D.Run, D.Allowance, D.Spaced, WindowBytes, WindowLast;
    D.RunSpaced(now, buf, ts, bps);
    var sent := D.Run(D.Start(now, buf), ts, bps).sent;
    WindowPaced(sent, bps, from, to);
    var last := WindowLast(sent, from, to);
    AllowanceGrows(bps, from, from, to);
    if last.Some? {
      AllowanceGrows(bps, from, last.value.at, to);
    }
  }

  // ------------------------------------------------------------ all connections

  /** One subscription's connection as the onboard side sees it: when its loop
      began, the send buffer it found, and the turns it took.  The loop of a
      subscription that was cancelled goes on until a write fails, so turns may
      lie after the cancellation. */
  datatype Link<S> = Link(start: real, buf: int, turns: seq<D.Turn<S>>)

  function Downlinked<S(==)>(link: Link<S>, bps: int): seq<D.Sent<S>> {
    D.Run(D.Start(link.start, link.buf), link.turns, bps).sent
  }

  /** The bytes all connections ever opened sent in a window; each subscription
      was opened with the rate its task carries (subscriber.py line 15), and its
      loop downlinks at that rate. */
  function AllBytes<S(==)>(tasks: seq<Task>, links: seq<Link<S>>, from: real, to: real): nat
    requires |links| == |tasks|
  {
    if tasks == [] then 0
    else
      var last := |tasks| - 1;
      AllBytes(tasks[..last], links[..last], from, to) + WindowBytes(Downlinked(links[last], tasks[last].bps), from, to)
  }

  /** The last messages in the window of the subscriptions still active. */
  function LastMessages<S(==)>(tasks: seq<Task>, links: seq<Link<S>>, from: real, to: real): nat
    requires |links| == |tasks|
  {
    if tasks == [] then 0
    else
      var last := |tasks| - 1;
      LastMessages(tasks[..last], links[..last], from, to)
      + if IsOpen()(tasks[last]) then LastBytes(Downlinked(links[last], tasks[last].bps), from, to) else 0
  }

  /** The bytes in the window of loops whose subscription has ended. */
  function Leftover<S(==)>(tasks: seq<Task>, links: seq<Link<S>>, from: real, to: real): nat
    requires |links| == |tasks|
  {
    if tasks == [] then 0
    else
      var last := |tasks| - 1;
      Leftover(tasks[..last], links[..last], from, to)
      + if IsOpen()(tasks[last]) then 0 else WindowBytes(Downlinked(links[last], tasks[last].bps), from, to)
  }

  function Times(n: nat, each: real): real {
    n as real * each
  }

  lemma TimesMore(n: nat, each: real)
    ensures Times(n + 1, each) == Times(n, each) + each && Times(0, each) == 0.0
  {
    assert (n + 1) as real == n as real + 1.0;
  }

  lemma LinkBound<S>(link: Link<S>, bps: int, from: real, to: real)
    requires bps > 0 && from <= to
    ensures var sent := Downlinked(link, bps);
            WindowBytes(sent, from, to) as real <= D.Allowance(bps, from, to) + LastBytes(sent, from, to) as real
  {
    hide D.Run, D.Allowance, WindowBytes, LastBytes;
    WindowBound(link.start, link.buf, link.turns, bps, from, to);
  }

  lemma {:induction false} OpenBound<S>(tasks: seq<Task>, links: seq<Link<S>>, share: int, from: real, to: real)
    requires |links| == |tasks| && share > 0 && from <= to
    requires forall t :: 0 <= t < |tasks| && IsOpen()(tasks[t]) ==> tasks[t].bps == share
    ensures AllBytes(tasks, links, from, to) as real
            <= Times(Count(tasks, IsOpen()), D.Allowance(share, from, to))
               + LastMessages(tasks, links, from, to) as real + Leftover(tasks, links, from, to) as real
  {
    hide Times, D.Allowance, WindowBytes, LastBytes, Downlinked;
    if tasks == [] {
      TimesMore(0, D.Allowance(share, from, to));
    } else {
      var last := |tasks| - 1;
      OpenBound(tasks[..last], links[..last], share, from, to);
      if IsOpen()(tasks[last]) {
        LinkBound(links[last], share, from, to);
        TimesMore(Count(tasks[..last], IsOpen()), D.Allowance(share, from, to));
      }
    }
  }

  /** In a fair distribution the active subscriptions are the current ones. */
  lemma ActiveAreCurrent(s: State, keys: set<Id>, share: int, t: nat)
    requires TasksKnown(s) && Fair(s, keys, share) && t < |s.tasks|
    ensures !s.tasks[t].status.Ended? <==> s.tasks[t].id in s.subs && s.subs[s.tasks[t].id] == t
  {
    hide Count;
    var id := s.tasks[t].id;
    assert id in s.subs && id in keys;
    if !s.tasks[t].status.Ended? && s.subs[id] != t {
      CountOthers(s.tasks, t, IsActive(id));
    }
  }

  lemma {:induction false} OneKeyLess(tasks: seq<Task>, keys: set<Id>, id: Id)
    requires id in keys
    ensures Count(tasks, IsOpenIn(keys)) == Count(tasks, IsOpenIn(keys - {id})) + Count(tasks, IsActive(id))
  {
    if tasks != [] {
      OneKeyLess(tasks[..|tasks| - 1], keys, id);
    }
  }

  /** One active subscription a metric makes as many as there are metrics. */
  lemma {:induction false} OneEach(tasks: seq<Task>, keys: set<Id>)
    requires forall id :: id in keys ==> Count(tasks, IsActive(id)) == 1
    ensures Count(tasks, IsOpenIn(keys)) == |keys|
  {
    hide Count;
    if keys == {} {
      CountNone(tasks, IsOpenIn(keys));
    } else {
      var id :| id in keys;
      OneKeyLess(tasks, keys, id);
      OneEach(tasks, keys - {id});
    }
  }

  lemma OpenCount(s: State, keys: set<Id>, share: int)
    requires TasksKnown(s) && Fair(s, keys, share)
    ensures Count(s.tasks, IsOpen()) == |keys|
    ensures forall t :: 0 <= t < |s.tasks| && IsOpen()(s.tasks[t]) ==> s.tasks[t].bps == share
  {
    hide Count;
    OneEach(s.tasks, keys);
    CountsAlike(s.tasks, IsOpen(), IsOpenIn(keys));
    forall t | 0 <= t < |s.tasks| && IsOpen()(s.tasks[t]) ensures s.tasks[t].bps == share {
      ActiveAreCurrent(s, keys, share, t);
    }
  }

  lemma {:induction false} CountsAlike(tasks: seq<Task>, p: Task -> bool, q: Task -> bool)
    requires forall i :: 0 <= i < |tasks| ==> p(tasks[i]) == q(tasks[i])
    ensures Count(tasks, p) == Count(tasks, q)
  {
    if tasks != [] {
      CountsAlike(tasks[..|tasks| - 1], p, q);
    }
  }

  /** While a fair distribution with positive shares stands, all connections ever
      opened together downlink, in any window, at most the limit times its
      length, one last message for each active subscription, and what loops of
      ended subscriptions still send; whatever is polled and however long
      anything takes. */
  lemma TotalBandwidth<S>(s: State, keys: set<Id>, maxBps: int, links: seq<Link<S>>, from: real, to: real)
    requires |keys| >= 1 && TasksKnown(s) && Fair(s, keys, Share(maxBps, |keys|))
    requires maxBps >= |keys| && from <= to && |links| == |s.tasks|
    ensures AllBytes(s.tasks, links, from, to) as real
            <= D.Allowance(maxBps, from, to)
               + LastMessages(s.tasks, links, from, to) as real + Leftover(s.tasks, links, from, to) as real
  {
    var share := Share(maxBps, |keys|);
    OpenCount(s, keys, share);
    hide Fair, TasksKnown, Count, AllBytes, LastMessages, Leftover, D.Allowance, Times, Share;
    PositiveShare(maxBps, |keys|);
    OpenBound(s.tasks, links, share, from, to);
    SharesFit(maxBps, |keys|, from, to);
  }

  /** Nothing is left over once the loops of ended subscriptions have made their
      last send. */
  lemma {:induction false} NothingLeft<S>(tasks: seq<Task>, links: seq<Link<S>>, from: real, to: real)
    requires |links| == |tasks|
    requires forall t :: 0 <= t < |tasks| && tasks[t].status.Ended? ==> Silent(Downlinked(links[t], tasks[t].bps), from)
    ensures Leftover(tasks, links, from, to) == 0
  {
    hide Downlinked;
    if tasks != [] {
      var last := |tasks| - 1;
      forall t | 0 <= t < last && tasks[t].status.Ended?
        ensures Silent(Downlinked(links[..last][t], tasks[..last][t].bps), from)
      {
        assert Silent(Downlinked(links[t], tasks[t].bps), from);
      }
      NothingLeft(tasks[..last], links[..last], from, to);
      if tasks[last].status.Ended? {
        SilentWindow(Downlinked(links[last], tasks[last].bps), from, to);
      }
    }
  }

  /** No message at or after the given moment. */
  ghost predicate Silent<S>(sent: seq<D.Sent<S>>, from: real) {
    forall i :: 0 <= i < |sent| ==> sent[i].at < from
  }

  lemma {:induction false} SilentWindow<S>(sent: seq<D.Sent<S>>, from: real, to: real)
    requires Silent(sent, from)
    ensures WindowBytes(sent, from, to) == 0
  {
    if sent != [] {
      SilentWindow(sent[..|sent| - 1], from, to);
    }
  }

  lemma PositiveShare(maxBps: int, n: nat)
    requires n >= 1
    ensures Share(maxBps, n) >= 1 <==> maxBps >= n
    ensures n * Share(maxBps, n) <= maxBps
  {
    assert maxBps == n * (maxBps / n) + maxBps % n;
    if maxBps / n >= 1 {
      assert n * (maxBps / n) >= n;
    }
  }

  lemma NoShare(maxBps: int, n: nat)
    requires 0 <= maxBps < n
    ensures Share(maxBps, n) == 0
  {
  }

  lemma SharesFit(maxBps: int, n: nat, from: real, to: real)
    requires n >= 1 && from <= to
    ensures Times(n, D.Allowance(Share(maxBps, n), from, to)) <= D.Allowance(maxBps, from, to)
  {
    PositiveShare(maxBps, n);
    var share, time := Share(maxBps, n), to - from;
    assert n as real * (share as real * time) == (n * share) as real * time by {
      assert n as real * share as real == (n * share) as real;
    }
    D.Monotone(time, (n * share) as real, maxBps as real);
  }

  /** From any state at rest, under every interleaving of a redistribution that
      has finished, for every behaviour of all the connections, and once the
      loops it replaced are silent: the limit bounds everything sent. */
  lemma RedistributedBandwidth<S>(s: State, ids: seq<Id>, es: seq<Event>, links: seq<Link<S>>, from: real, to: real)
    requires AtRest(s) && Enumerates(ids, s.metrics.Keys) && AllInternal(es)
    requires s.metrics != map[] && s.maxBps >= |s.metrics| && from <= to
    requires var n := Run(SpawnAll(s, ids, Share(s.maxBps, |s.metrics|)), es);
             Settled(n) && |links| == |n.tasks|
             && forall t :: 0 <= t < |n.tasks| && n.tasks[t].status.Ended? ==>
                  Silent(Downlinked(links[t], n.tasks[t].bps), from)
    ensures var n := Run(SpawnAll(s, ids, Share(s.maxBps, |s.metrics|)), es);
            AllBytes(n.tasks, links, from, to) as real
            <= D.Allowance(s.maxBps, from, to) + LastMessages(n.tasks, links, from, to) as real
  {
    var n := Run(SpawnAll(s, ids, Share(s.maxBps, |s.metrics|)), es);
    RestAgain(s, ids, es, n);
    DistributedKnown(n, s.metrics.Keys, s.maxBps);
    hide *;
    assert |s.metrics| == |s.metrics.Keys|;
    NothingLeft(n.tasks, links, from, to);
    TotalBandwidth(n, s.metrics.Keys, s.maxBps, links, from, to);
  }

  lemma DistributedKnown(s: State, keys: set<Id>, maxBps: int)
    requires Distributed(s, keys, maxBps)
    ensures |keys| >= 1 && TasksKnown(s) && Fair(s, keys, Share(maxBps, |keys|))
  {
    hide Fair;
  }

  /** With fewer units than metrics the shares are zero, and then no connection
      of an active subscription ever downlinks more than one sample. */
  lemma Starved<S>(s: State, keys: set<Id>, maxBps: int, link: Link<S>, t: nat)
    requires |keys| >= 1 && TasksKnown(s) && Fair(s, keys, Share(maxBps, |keys|)) && 0 <= maxBps < |keys|
    requires t < |s.tasks| && !s.tasks[t].status.Ended?
    ensures |Downlinked(link, s.tasks[t].bps)| <= 1
  {
    OpenCount(s, keys, Share(maxBps, |keys|));
    NoShare(maxBps, |keys|);
    hide Fair, Share, TasksKnown, D.Run;
    assert IsOpen()(s.tasks[t]);
    D.ZeroRate(link.start, link.buf, link.turns);
  }
}
