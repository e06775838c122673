/** The rates on record while a redistribution is under way
    (command/src/sync_metric_ids.py).  The event loop runs the first segments of
    the task group's updates in the order they were created, which is the order
    of the dictionary, so at every await point some first few metrics have the
    new share and the others still their old rate. */
module Budget {
  import opened Subscriptions
  import opened Redistribution
  import opened SubscribeHandler

  function RateSum(rates: map<Id, int>, ids: seq<Id>): int
    requires forall j :: 0 <= j < |ids| ==> ids[j] in rates
  {
    if ids == [] then 0 else RateSum(rates, ids[..|ids| - 1]) + rates[ids[|ids| - 1]]
  }

  /** The sum with the new share for the first `m` metrics only. */
  function Mixed(prior: map<Id, int>, ids: seq<Id>, share: int, m: nat): int
    requires forall j :: 0 <= j < |ids| ==> ids[j] in prior
  {
    if ids == [] then 0
    else
      var last := |ids| - 1;
      Mixed(prior, ids[..last], share, m) + if last < m then share else prior[ids[last]]
  }

  lemma {:induction false} SameRates(rates: map<Id, int>, others: map<Id, int>, ids: seq<Id>)
    requires forall j :: 0 <= j < |ids| ==> ids[j] in rates && ids[j] in others && rates[ids[j]] == others[ids[j]]
    ensures RateSum(rates, ids) == RateSum(others, ids)
  {
    if ids != [] {
      SameRates(rates, others, ids[..|ids| - 1]);
    }
  }

  lemma {:induction false} TotalIsRateSum(rates: map<Id, int>, ids: seq<Id>)
    requires Enumerates(ids, rates.Keys)
    ensures forall j :: 0 <= j < |ids| ==> ids[j] in rates
    ensures Total(rates) == RateSum(rates, ids)
    decreases |ids|
  {
    InKeys(ids, rates.Keys);
    if ids == [] {
      assert rates.Keys == {};
    } else {
      var last := |ids| - 1;
      var rest := rates - {ids[last]};
      assert Enumerates(ids[..last], rest.Keys) by { WithoutLast(ids, rates.Keys); assert rest.Keys == rates.Keys - {ids[last]}; }
      TotalWithout(rates, ids[last]);
      TotalIsRateSum(rest, ids[..last]);
      SameRates(rates, rest, ids[..last]);
    }
  }

  lemma WithoutLast(ids: seq<Id>, keys: set<Id>)
    requires Enumerates(ids, keys) && ids != []
    ensures Enumerates(ids[..|ids| - 1], keys - {ids[|ids| - 1]})
  {
    var last := |ids| - 1;
    forall id ensures id in keys - {ids[last]} <==> id in ids[..last] {
      if id in ids && id != ids[last] {
        var j :| 0 <= j < |ids| && ids[j] == id;
        assert ids[..last][j] == id;
      }
    }
  }

  lemma {:induction false} EnumeratesSize(ids: seq<Id>, keys: set<Id>)
    requires Enumerates(ids, keys)
    ensures |ids| == |keys|
  {
    if ids == [] {
      assert keys == {};
    } else {
      WithoutLast(ids, keys);
      assert ids[|ids| - 1] in keys;
      EnumeratesSize(ids[..|ids| - 1], keys - {ids[|ids| - 1]});
    }
  }

  lemma {:induction false} MixedSum(rates: map<Id, int>, prior: map<Id, int>, ids: seq<Id>, share: int, m: nat)
    requires forall j :: 0 <= j < |ids| ==> ids[j] in prior && ids[j] in rates
    requires forall j :: 0 <= j < |ids| ==> rates[ids[j]] == if j < m then share else prior[ids[j]]
    ensures RateSum(rates, ids) == Mixed(prior, ids, share, m)
  {
    if ids != [] {
      MixedSum(rates, prior, ids[..|ids| - 1], share, m);
    }
  }

  // ------------------------------------------------- a redistribution under way

  /** The state in which the task group has created its updates. */
  function Created(s: State, ids: seq<Id>): State
    requires s.metrics != map[]
  {
    SpawnAll(s, ids, Share(s.maxBps, |s.metrics|))
  }

  /** First in, first out: a call starts only when those created before it have. */
  ghost predicate InOrder(start: State, es: seq<Event>) {
    es == [] || (InOrder(start, es[..|es| - 1]) && StartsInTurn(Run(start, es[..|es| - 1]), es[|es| - 1]))
  }

  predicate StartsInTurn(s: State, e: Event) {
    e.Begin? && Enabled(s, e) ==> forall j :: 0 <= j < e.call ==> !s.calls[j].phase.Pending?
  }

  /** The first `m` updates have started, and the rates are mixed accordingly. */
  ghost predicate Midway(s: State, base: nat, ids: seq<Id>, share: int, prior: map<Id, int>, m: nat) {
    UnderWay(s, base, ids, share) && MidRates(s, base, ids, share, prior, m)
  }

  ghost predicate MidRates(s: State, base: nat, ids: seq<Id>, share: int, prior: map<Id, int>, m: nat) {
    m <= |ids| && |s.calls| == base + |ids|
    && (forall j :: 0 <= j < |ids| ==>
          ids[j] in prior && ids[j] in s.metrics
          && (s.calls[base + j].phase.Pending? <==> j >= m)
          && s.metrics[ids[j]] == if j < m then share else prior[ids[j]])
  }

  lemma MidStarts(s: State, ids: seq<Id>, share: int)
    requires AtRest(s) && Enumerates(ids, s.metrics.Keys)
    ensures Midway(SpawnAll(s, ids, share), |s.calls|, ids, share, s.metrics, 0)
  {
    SpawnStarts(s, ids, share);
    SpawnShape(s, ids, share);
    InKeys(ids, s.metrics.Keys);
    hide UnderWay, SpawnAll, Enumerates, AtRest;
  }

  /** The only update that may start now is the next one. */
  lemma NextBegins(s: State, base: nat, ids: seq<Id>, share: int, prior: map<Id, int>, m: nat, e: Event)
    requires Midway(s, base, ids, share, prior, m) && e.Begin? && Enabled(s, e) && StartsInTurn(s, e)
    ensures e.call == base + m && m < |ids|
    ensures Midway(Step(s, e), base, ids, share, prior, m + 1)
  {
    var k := e.call;
    UpdateBegun(s, base, ids, share, k);
    hide Inv, Step, Enumerates, DistinctIds, MidRates, CallsUnderWay;
    WhichBegins(s, base, ids, share, prior, m, k);
    BeginUnderWay(s, base, ids, share, k);
    BegunRates(s, Step(s, e), base, ids, share, prior, m);
  }

  lemma BegunRates(s: State, n: State, base: nat, ids: seq<Id>, share: int, prior: map<Id, int>, m: nat)
    requires MidRates(s, base, ids, share, prior, m) && m < |ids| && DistinctIds(ids)
    requires n.metrics == s.metrics[ids[m] := share] && |n.calls| == |s.calls|
    requires !n.calls[base + m].phase.Pending?
    requires forall j :: 0 <= j < |s.calls| && j != base + m ==> n.calls[j] == s.calls[j]
    ensures MidRates(n, base, ids, share, prior, m + 1)
  {
    forall j | 0 <= j < |ids|
      ensures ids[j] in n.metrics && (n.calls[base + j].phase.Pending? <==> j >= m + 1)
      ensures n.metrics[ids[j]] == if j < m + 1 then share else prior[ids[j]]
    {
      assert ids[j] in prior;
      assert j != m ==> ids[j] != ids[m];
    }
  }

  lemma WhichBegins(s: State, base: nat, ids: seq<Id>, share: int, prior: map<Id, int>, m: nat, k: nat)
    requires MidRates(s, base, ids, share, prior, m) && base <= k < |s.calls| && s.calls[k].phase.Pending?
    requires forall j :: 0 <= j < k ==> !s.calls[j].phase.Pending?
    ensures k == base + m
  {
    var j := k - base;
    assert ids[j] in prior && s.calls[base + j].phase.Pending?;
    assert ids[m] in prior && s.calls[base + m].phase.Pending?;
  }

  lemma OthersKeepMid(s: State, base: nat, ids: seq<Id>, share: int, prior: map<Id, int>, m: nat, e: Event)
    requires Midway(s, base, ids, share, prior, m) && Internal(e) && !(e.Begin? && Enabled(s, e))
    ensures Midway(Step(s, e), base, ids, share, prior, m)
  {
    StepUnderWay(s, base, ids, share, e);
    if Enabled(s, e) {
      OtherStepShape(s, e);
      hide UnderWay, Inv, Step, MidRates, SameUpdates;
      SameMidRates(s, Step(s, e), base, ids, share, prior, m);
    } else {
      Disabled(s, e);
    }
  }

  lemma SameMidRates(s: State, n: State, base: nat, ids: seq<Id>, share: int, prior: map<Id, int>, m: nat)
    requires MidRates(s, base, ids, share, prior, m) && SameUpdates(s, n)
    ensures MidRates(n, base, ids, share, prior, m)
  {
    forall j | 0 <= j < |ids|
      ensures ids[j] in n.metrics && (n.calls[base + j].phase.Pending? <==> j >= m)
      ensures n.metrics[ids[j]] == if j < m then share else prior[ids[j]]
    {
      assert ids[j] in prior;
    }
  }

  /** At every await point the rates are mixed. */
  lemma {:induction false} RunMidway(s: State, base: nat, ids: seq<Id>, share: int, prior: map<Id, int>, es: seq<Event>)
    returns (m: nat)
    requires Midway(s, base, ids, share, prior, 0) && AllInternal(es) && InOrder(s, es)
    ensures Midway(Run(s, es), base, ids, share, prior, m)
  {
    hide Step, Midway, StartsInTurn;
    if es == [] {
      m := 0;
    } else {
      var last := |es| - 1;
      m := RunMidway(s, base, ids, share, prior, es[..last]);
      var p := Run(s, es[..last]);
      assert StartsInTurn(p, es[last]);
      if es[last].Begin? && Enabled(p, es[last]) {
        NextBegins(p, base, ids, share, prior, m, es[last]);
        m := m + 1;
      } else {
        OthersKeepMid(p, base, ids, share, prior, m, es[last]);
      }
    }
  }

  lemma MidTotal(s: State, base: nat, ids: seq<Id>, share: int, prior: map<Id, int>, m: nat)
    requires Midway(s, base, ids, share, prior, m)
    ensures m <= |ids| && (forall j :: 0 <= j < |ids| ==> ids[j] in prior)
    ensures Total(s.metrics) == Mixed(prior, ids, share, m)
  {
    MidRateSum(s, base, ids, share, prior, m);
    hide Inv, CallsUnderWay, MidRates, Enumerates, Total, RateSum, Mixed;
    TotalIsRateSum(s.metrics, ids);
  }

  lemma MidRateSum(s: State, base: nat, ids: seq<Id>, share: int, prior: map<Id, int>, m: nat)
    requires MidRates(s, base, ids, share, prior, m)
    ensures m <= |ids| && (forall j :: 0 <= j < |ids| ==> ids[j] in prior && ids[j] in s.metrics)
    ensures RateSum(s.metrics, ids) == Mixed(prior, ids, share, m)
  {
    MixedSum(s.metrics, prior, ids, share, m);
  }

  // ------------------------------------------------------ when it goes over

  /** The schedule brings the rates on record above the limit. */
  ghost predicate Exceeds(s: State, ids: seq<Id>, es: seq<Event>)
    requires s.metrics != map[]
  {
    AllInternal(es) && InOrder(Created(s, ids), es) && Total(Run(Created(s, ids), es).metrics) > s.maxBps
  }

  function Begins(base: nat, m: nat): seq<Event> {
    seq(m, j requires 0 <= j < m => Begin(base + j))
  }

  /** Each mixture is met: start the first `m` updates and look. */
  lemma {:induction false} Reached(s: State, base: nat, ids: seq<Id>, share: int, prior: map<Id, int>, m: nat)
    requires Midway(s, base, ids, share, prior, 0) && m <= |ids|
    ensures Midway(Run(s, Begins(base, m)), base, ids, share, prior, m)
    ensures InOrder(s, Begins(base, m)) && AllInternal(Begins(base, m))
  {
    hide Step, Midway, StartsInTurn, Begins, InOrder, AllInternal;
    BeginsNone(s, base);
    if m > 0 {
      var es, e := Begins(base, m - 1), Begin(base + (m - 1));
      Reached(s, base, ids, share, prior, m - 1);
      BeginsSnoc(base, m);
      RunLast(s, es, e);
      NextInTurn(Run(s, es), base, ids, share, prior, m - 1);
      NextBegins(Run(s, es), base, ids, share, prior, m - 1, e);
      InOrderSnoc(s, es, e);
      BeginsSnoc(base, m);
    }
  }

  lemma BeginsNone(s: State, base: nat)
    ensures Begins(base, 0) == [] && InOrder(s, []) && AllInternal([])
  {
  }

  lemma BeginsSnoc(base: nat, m: nat)
    requires m > 0 && AllInternal(Begins(base, m - 1))
    ensures Begins(base, m) == Begins(base, m - 1) + [Begin(base + (m - 1))] && AllInternal(Begins(base, m))
  {
  }

  lemma InOrderSnoc(s: State, es: seq<Event>, e: Event)
    requires InOrder(s, es) && StartsInTurn(Run(s, es), e)
    ensures InOrder(s, es + [e])
  {
    hide Run, StartsInTurn;
    assert (es + [e])[..|es|] == es;
  }

  lemma NextInTurn(s: State, base: nat, ids: seq<Id>, share: int, prior: map<Id, int>, m: nat)
    requires Midway(s, base, ids, share, prior, m) && m < |ids|
    ensures Enabled(s, Begin(base + m)) && StartsInTurn(s, Begin(base + m))
  {
    hide Inv, Enumerates;
    assert ids[m] in prior;
    forall j | 0 <= j < base + m ensures !s.calls[j].phase.Pending? {
      if j >= base {
        var i := j - base;
        assert ids[i] in prior && !s.calls[base + i].phase.Pending?;
      }
    }
  }

  /** From any rates at rest, and for any order of the dictionary: a
      redistribution brings the rates on record above the limit at some await
      point if and only if for some number of metrics the new share for these
      and the old rates of the rest exceed it. */
  lemma OverBudgetExactly(s: State, ids: seq<Id>)
    requires AtRest(s) && s.metrics != map[] && Enumerates(ids, s.metrics.Keys)
    ensures forall j :: 0 <= j < |ids| ==> ids[j] in s.metrics
    ensures (exists es :: Exceeds(s, ids, es)) <==>
            exists m :: 0 <= m <= |ids| && Mixed(s.metrics, ids, Share(s.maxBps, |s.metrics|), m) > s.maxBps
  {
    InKeys(ids, s.metrics.Keys);
    var share := Share(s.maxBps, |s.metrics|);
    MidStarts(s, ids, share);
    var start := Created(s, ids);
    hide Midway, Mixed, Total, AtRest, Enumerates, SpawnAll, Share, Begins;
    if es :| Exceeds(s, ids, es) {
      var m := RunMidway(start, |s.calls|, ids, share, s.metrics, es);
      MidTotal(Run(start, es), |s.calls|, ids, share, s.metrics, m);
    }
    if m: int :| 0 <= m <= |ids| && Mixed(s.metrics, ids, share, m) > s.maxBps {
      Reached(start, |s.calls|, ids, share, s.metrics, m);
      MidTotal(Run(start, Begins(|s.calls|, m)), |s.calls|, ids, share, s.metrics, m);
      assert Exceeds(s, ids, Begins(|s.calls|, m));
    }
  }

  // ------------------------------------------------------- the two occasions

  lemma {:induction false} EqualRates(rates: map<Id, int>, ids: seq<Id>, c: int)
    requires forall j :: 0 <= j < |ids| ==> ids[j] in rates && rates[ids[j]] == c
    ensures RateSum(rates, ids) == |ids| * c
  {
    if ids != [] {
      EqualRates(rates, ids[..|ids| - 1], c);
      OneMore(|ids| - 1, c);
    }
  }

  lemma SharesFitLimit(limit: int, n: nat)
    requires n >= 1
    ensures n * Share(limit, n) <= limit
  {
    assert limit == n * (limit / n) + limit % n;
  }

  lemma ShareNatural(limit: int, n: nat)
    requires n >= 1 && limit >= 0
    ensures Share(limit, n) >= 0
  {
  }

  /** A mixture of equal rates and equal shares lies between the two sums. */
  lemma Between(n: nat, m: nat, share: int, c: int, limit: int)
    requires m <= n && n * share <= limit && n * c <= limit
    ensures m * share + (n - m) * c <= limit
  {
    if share <= c {
      assert m * share <= m * c;
      assert m * c + (n - m) * c == n * c;
    } else {
      assert (n - m) * c <= (n - m) * share;
      assert m * share + (n - m) * share == n * share;
    }
  }

  lemma {:induction false} MixedAll(rates: map<Id, int>, ids: seq<Id>, share: int, m: nat)
    requires |ids| <= m && forall j :: 0 <= j < |ids| ==> ids[j] in rates
    ensures Mixed(rates, ids, share, m) == |ids| * share
  {
    if ids != [] {
      MixedAll(rates, ids[..|ids| - 1], share, m);
      OneMore(|ids| - 1, share);
    }
  }

  lemma {:induction false} MixedEqual(rates: map<Id, int>, ids: seq<Id>, c: int, share: int, m: nat)
    requires m <= |ids| && forall j :: 0 <= j < |ids| ==> ids[j] in rates && rates[ids[j]] == c
    ensures Mixed(rates, ids, share, m) == m * share + (|ids| - m) * c
  {
    if m == |ids| {
      MixedAll(rates, ids, share, m);
    } else {
      MixedEqual(rates, ids[..|ids| - 1], c, share, m);
      OneMore(|ids| - 1 - m, c);
    }
  }

  /** A new limit, from equal rates at rest: while it is being distributed the
      rates on record exceed it at some await point if and only if their sum
      did when it was set. */
  lemma NewLimitExactly(s: State, ids: seq<Id>, c: int, bps: int)
    requires AtRest(s) && s.metrics != map[] && Enumerates(ids, s.metrics.Keys)
    requires forall id :: id in s.metrics ==> s.metrics[id] == c
    ensures (exists es :: Exceeds(s.(maxBps := bps), ids, es)) <==> Total(s.metrics) > bps
  {
    InvConsistent(s);
    LimitChanged(s, bps);
    OverBudgetExactly(s.(maxBps := bps), ids);
    TotalIsRateSum(s.metrics, ids);
    EqualRates(s.metrics, ids, c);
    EnumeratesSize(ids, s.metrics.Keys);
    assert |s.metrics| == |s.metrics.Keys|;
    hide AtRest, Enumerates, Exceeds, Total, Share, Mixed, RateSum;
    NewLimitMixtures(s.metrics, ids, c, bps);
  }

  lemma NewLimitMixtures(rates: map<Id, int>, ids: seq<Id>, c: int, bps: int)
    requires ids != [] && forall j :: 0 <= j < |ids| ==> ids[j] in rates && rates[ids[j]] == c
    ensures (exists m :: 0 <= m <= |ids| && Mixed(rates, ids, Share(bps, |ids|), m) > bps) <==> |ids| * c > bps
  {
    hide Mixed, RateSum, Share;
    var n, share := |ids|, Share(bps, |ids|);
    SharesFitLimit(bps, n);
    MixedEqual(rates, ids, c, share, 0);
    if n * c <= bps {
      forall m | 0 <= m <= n ensures Mixed(rates, ids, share, m) <= bps {
        MixedEqual(rates, ids, c, share, m);
        Between(n, m, share, c, bps);
      }
    } else {
      assert Mixed(rates, ids, share, 0) > bps;
    }
  }

  /** The handler's state once a new metric's subscription has been created. */
  ghost function Discovered(s: State, id: Id): (t: State)
    ensures t.metrics == s.metrics[id := 0] && t.maxBps == s.maxBps
    ensures t.metrics != map[]
  {
    var t := AddMetric(s, id);
    assert id in t.metrics;
    t
  }

  /** A metric discovered after a fair distribution, or the first one: it comes
      last in the dictionary, and then the rates on record keep within the limit
      at every await point of the redistribution that follows. */
  lemma DiscoveryWithin(s: State, id: Id, ids: seq<Id>, es: seq<Event>)
    requires AtRest(s) && id !in s.metrics && s.maxBps >= 0
    requires forall i :: i in s.metrics ==> s.metrics[i] == Share(s.maxBps, |s.metrics|)
    requires Enumerates(ids, s.metrics.Keys)
    requires AllInternal(es) && InOrder(Created(Discovered(s, id), ids + [id]), es)
    ensures Total(Run(Created(Discovered(s, id), ids + [id]), es).metrics) <= s.maxBps
  {
    hide Inv, Total, SpawnAll, Share, Mixed, Midway, Run, InOrder, AllInternal;
    var t, all := Discovered(s, id), ids + [id];
    InvConsistent(s);
    AddedToRest(s, id);
    EnumeratesMore(ids, s.metrics.Keys, id);
    EnumeratesSize(ids, s.metrics.Keys);
    InKeys(ids, s.metrics.Keys);
    assert |s.metrics| == |s.metrics.Keys| && |t.metrics| == |s.metrics| + 1;
    hide AtRest, Enumerates, AddMetric, Discovered, Consistent;
    var share := Share(s.maxBps, |ids| + 1);
    MidStarts(t, all, share);
    var m := RunMidway(Created(t, all), |t.calls|, all, share, t.metrics, es);
    MidTotal(Run(Created(t, all), es), |t.calls|, all, share, t.metrics, m);
    DiscoveryMixture(t.metrics, ids, id, s.maxBps, m);
  }

  lemma EnumeratesMore(ids: seq<Id>, keys: set<Id>, id: Id)
    requires Enumerates(ids, keys) && id !in keys
    ensures Enumerates(ids + [id], keys + {id})
  {
    assert id !in ids;
  }

  lemma DiscoveryMixture(rates: map<Id, int>, ids: seq<Id>, id: Id, limit: int, m: nat)
    requires m <= |ids| + 1 && limit >= 0 && id in rates && rates[id] == 0
    requires forall j :: 0 <= j < |ids| ==> ids[j] in rates && rates[ids[j]] == Share(limit, |ids|)
    ensures Mixed(rates, ids + [id], Share(limit, |ids| + 1), m) <= limit
  {
    var n, all := |ids|, ids + [id];
    var share := Share(limit, n + 1);
    SharesFitLimit(limit, n + 1);
    ShareNatural(limit, n + 1);
    hide Share;
    assert all[..n] == ids;
    OneMore(n, share);
    if m > n {
      MixedAll(rates, ids, share, m);
    } else if n > 0 {
      SharesFitLimit(limit, n);
      MixedEqual(rates, ids, Share(limit, n), share, m);
      Between(n, m, share, Share(limit, n), limit);
    }
  }

  /** The failing case is a lowered limit: one metric with all of 10, and the
      limit set to 5. */
  lemma LoweredLimit(id: Id)
    ensures var es := [Add(id), Spawn(id, 10), Begin(0), End(0), Resume(0)];
            var s := Run(Initial(10), es);
            AtRest(s) && Fair(s, {id}, Share(10, 1)) && Exceeds(s.(maxBps := 5), [id], [])
  {
    var es := [Add(id), Spawn(id, 10), Begin(0), End(0), Resume(0)];
    var s := Run(Initial(10), es);
    InitialInv(10);
    RunInv(Initial(10), es);
    OneAtTen(id);
    hide Inv, Run;
    assert AtRest(s);
    QuietCurrent(s, id) by { NoneWaiting(s, id); }
    assert Fair(s, {id}, Share(10, 1)) by { hide Count; CountOthers(s.tasks, 1, IsLive(id)); }
    TotalConstant(s.metrics, 10);
    SpawnShape(s.(maxBps := 5), [id], Share(5, 1));
    RunNone(Created(s.(maxBps := 5), [id]));
  }

  lemma NoneWaiting(s: State, id: Id)
    requires Settled(s)
    ensures InFlight(s, id) == 0
  {
    CountNone(s.calls, IsWaiting(id));
  }

  lemma OneAtTen(id: Id)
    ensures Run(Initial(10), [Add(id), Spawn(id, 10), Begin(0), End(0), Resume(0)]) ==
            State(map[id := 10], map[id := 1], 10, [Task(id, 0, Ended), Task(id, 10, Live)],
                  [Call(id, 10, Finished)], multiset{})
  {
    FiveSteps(Initial(10), Add(id), Spawn(id, 10), Begin(0), End(0), Resume(0));
    var s1 := State(map[id := 0], map[id := 0], 10, [Task(id, 0, Live)], [], multiset{});
    var s2 := s1.(calls := [Call(id, 10, Pending)]);
    var s3 := State(map[id := 10], map[id := 0], 10, [Task(id, 0, Cancelling)], [Call(id, 10, Waiting(0))], multiset{});
    var s4 := s3.(tasks := [Task(id, 0, Ended)]);
    assert Step(Initial(10), Add(id)) == s1;
    assert Step(s1, Spawn(id, 10)) == s2;
    assert Step(s2, Begin(0)) == s3;
    assert Step(s3, End(0)) == s4;
  }
}
