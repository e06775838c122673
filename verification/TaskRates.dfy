/** The rates the subscriptions themselves carry while a redistribution is under
    way (command/src/sync_metric_ids.py), as opposed to those on record: of the
    subscriptions that run, and of all that have not ended, which a cancelled
    one may still not have. */
module TaskRates {
  import opened Subscriptions
  import opened Redistribution
  import opened SubscribeHandler
  import opened Budget

  function RateOver(tasks: seq<Task>, p: Task -> bool): int {
    if tasks == [] then 0
    else RateOver(tasks[..|tasks| - 1], p) + if p(tasks[|tasks| - 1]) then tasks[|tasks| - 1].bps else 0
  }

  function IsRunning(): Task -> bool {
    (t: Task) => t.status.Live?
  }

  function Among(p: Task -> bool, keys: set<Id>): Task -> bool {
    (t: Task) => p(t) && t.id in keys
  }

  lemma {:induction false} RatesAlike(tasks: seq<Task>, p: Task -> bool, q: Task -> bool)
    requires forall t :: 0 <= t < |tasks| ==> p(tasks[t]) == q(tasks[t])
    ensures RateOver(tasks, p) == RateOver(tasks, q)
    ensures Count(tasks, p) == Count(tasks, q)
  {
    if tasks != [] {
      RatesAlike(tasks[..|tasks| - 1], p, q);
    }
  }

  lemma {:induction false} RateSplits(tasks: seq<Task>, p: Task -> bool, keys: set<Id>, id: Id)
    requires id !in keys
    ensures RateOver(tasks, Among(p, keys + {id})) == RateOver(tasks, Among(p, keys)) + RateOver(tasks, Among(p, {id}))
  {
    if tasks != [] {
      RateSplits(tasks[..|tasks| - 1], p, keys, id);
    }
  }

  lemma {:induction false} RateNone(tasks: seq<Task>, p: Task -> bool)
    requires Count(tasks, p) == 0
    ensures RateOver(tasks, p) == 0
  {
    if tasks != [] {
      RateNone(tasks[..|tasks| - 1], p);
    }
  }

  /** At most one task, of at most this rate. */
  lemma {:induction false} RateAtMost(tasks: seq<Task>, p: Task -> bool, bound: int)
    requires Count(tasks, p) <= 1 && bound >= 0
    requires forall t :: 0 <= t < |tasks| && p(tasks[t]) ==> tasks[t].bps <= bound
    ensures RateOver(tasks, p) <= bound
  {
    if tasks != [] {
      var last := |tasks| - 1;
      if p(tasks[last]) {
        RateNone(tasks[..last], p);
      } else {
        RateAtMost(tasks[..last], p, bound);
      }
    }
  }

  lemma {:induction false} RateNatural(tasks: seq<Task>, p: Task -> bool)
    requires forall t :: 0 <= t < |tasks| && p(tasks[t]) ==> tasks[t].bps >= 0
    ensures RateOver(tasks, p) >= 0
  {
    if tasks != [] {
      RateNatural(tasks[..|tasks| - 1], p);
    }
  }

  lemma {:induction false} RateAtLeast(tasks: seq<Task>, p: Task -> bool, t: nat)
    requires t < |tasks| && p(tasks[t])
    requires forall u :: 0 <= u < |tasks| && p(tasks[u]) ==> tasks[u].bps >= 0
    ensures RateOver(tasks, p) >= tasks[t].bps
  {
    var last := |tasks| - 1;
    if t == last {
      RateNatural(tasks[..last], p);
    } else {
      RateAtLeast(tasks[..last], p, t);
    }
  }

  lemma SetOfLast(ids: seq<Id>)
    requires ids != [] && DistinctIds(ids)
    ensures IdSet(ids) == IdSet(ids[..|ids| - 1]) + {ids[|ids| - 1]} && ids[|ids| - 1] !in IdSet(ids[..|ids| - 1])
  {
    assert ids == ids[..|ids| - 1] + [ids[|ids| - 1]];
  }

  /** At most one task a metric, each within the metric's bound. */
  lemma {:induction false} RateUpper(tasks: seq<Task>, p: Task -> bool, ids: seq<Id>, bounds: map<Id, int>)
    requires DistinctIds(ids) && forall j :: 0 <= j < |ids| ==> ids[j] in bounds && bounds[ids[j]] >= 0
    requires forall j :: 0 <= j < |ids| ==> Count(tasks, Among(p, {ids[j]})) <= 1
    requires forall t :: 0 <= t < |tasks| && p(tasks[t]) && tasks[t].id in bounds ==> tasks[t].bps <= bounds[tasks[t].id]
    ensures RateOver(tasks, Among(p, IdSet(ids))) <= RateSum(bounds, ids)
  {
    hide Count;
    if ids == [] {
      RatesAlike(tasks, Among(p, IdSet(ids)), (t: Task) => false);
      NoRate(tasks);
    } else {
      var last := |ids| - 1;
      SetOfLast(ids);
      RateUpper(tasks, p, ids[..last], bounds);
      RateSplits(tasks, p, IdSet(ids[..last]), ids[last]);
      RateAtMost(tasks, Among(p, {ids[last]}), bounds[ids[last]]);
    }
  }

  lemma {:induction false} NoRate(tasks: seq<Task>)
    ensures RateOver(tasks, (t: Task) => false) == 0
  {
    if tasks != [] {
      NoRate(tasks[..|tasks| - 1]);
    }
  }

  /** A task for each metric, of the metric's rate. */
  lemma {:induction false} RateLower(tasks: seq<Task>, p: Task -> bool, ids: seq<Id>, subs: map<Id, nat>, rates: map<Id, int>)
    requires DistinctIds(ids) && forall j :: 0 <= j < |ids| ==> ids[j] in subs && ids[j] in rates
    requires forall j :: 0 <= j < |ids| ==>
               subs[ids[j]] < |tasks| && tasks[subs[ids[j]]].id == ids[j]
               && p(tasks[subs[ids[j]]]) && tasks[subs[ids[j]]].bps == rates[ids[j]]
    requires forall t :: 0 <= t < |tasks| && p(tasks[t]) ==> tasks[t].bps >= 0
    ensures RateOver(tasks, Among(p, IdSet(ids))) >= RateSum(rates, ids)
  {
    if ids == [] {
      RateNatural(tasks, Among(p, IdSet(ids)));
    } else {
      var last := |ids| - 1;
      SetOfLast(ids);
      RateLower(tasks, p, ids[..last], subs, rates);
      RateSplits(tasks, p, IdSet(ids[..last]), ids[last]);
      RateAtLeast(tasks, Among(p, {ids[last]}), subs[ids[last]]);
    }
  }

  /** The rates of the subscriptions that run. */
  function RunningRate(s: State): int {
    RateOver(s.tasks, IsRunning())
  }

  /** The rates of all subscriptions that have not ended. */
  function OpenRate(s: State): int {
    RateOver(s.tasks, IsOpen())
  }

  lemma EnumeratesSet(ids: seq<Id>, keys: set<Id>)
    requires Enumerates(ids, keys)
    ensures IdSet(ids) == keys && DistinctIds(ids)
  {
  }

  // -------------------------------------------------- the subscriptions that run

  /** Without overlaps the subscriptions that run carry at most what is on record. */
  lemma RunningWithin(s: State, ids: seq<Id>)
    requires Inv(s) && s.overlaps == multiset{} && Enumerates(ids, s.metrics.Keys)
    requires forall id :: id in s.metrics ==> s.metrics[id] >= 0
    ensures RunningRate(s) <= Total(s.metrics)
  {
    hide Inv, Count, Enumerates, Total, RateOver, RateSum, DistinctIds, IdSet;
    OneRunning(s);
    EnumeratesSet(ids, s.metrics.Keys);
    TotalIsRateSum(s.metrics, ids);
    RatesAlike(s.tasks, IsRunning(), Among(IsRunning(), s.metrics.Keys));
    RateUpper(s.tasks, IsRunning(), ids, s.metrics);
  }

  lemma OneRunning(s: State)
    requires Inv(s) && s.overlaps == multiset{}
    ensures forall id :: id in s.metrics ==> Count(s.tasks, Among(IsRunning(), {id})) <= 1
    ensures forall t :: 0 <= t < |s.tasks| && IsRunning()(s.tasks[t]) ==>
              s.tasks[t].id in s.metrics && s.tasks[t].bps == s.metrics[s.tasks[t].id]
  {
    InvConsistent(s);
    SameKeys(s);
    hide Count, Balanced, Awaited;
    forall id | id in s.metrics ensures Count(s.tasks, Among(IsRunning(), {id})) <= 1 {
      InvBalanced(s, id);
      RatesAlike(s.tasks, Among(IsRunning(), {id}), IsLive(id));
    }
    forall t | 0 <= t < |s.tasks| && IsRunning()(s.tasks[t])
      ensures s.tasks[t].id in s.metrics && s.tasks[t].bps == s.metrics[s.tasks[t].id]
    {
      assert CalmAt(s, s.tasks[t].id);
    }
  }

  /** After a discovery the subscriptions that run never carry more than the limit. */
  lemma DiscoveryRunning(s: State, id: Id, ids: seq<Id>, es: seq<Event>)
    requires AtRest(s) && id !in s.metrics && s.maxBps >= 0
    requires forall i :: i in s.metrics ==> s.metrics[i] == Share(s.maxBps, |s.metrics|)
    requires Enumerates(ids, s.metrics.Keys)
    requires AllInternal(es) && InOrder(Created(Discovered(s, id), ids + [id]), es)
    ensures RunningRate(Run(Created(Discovered(s, id), ids + [id]), es)) <= s.maxBps
  {
    var t, all := Discovered(s, id), ids + [id];
    var n := Run(Created(t, all), es);
    DiscoveryWithin(s, id, ids, es);
    InvConsistent(s);
    AddedToRest(s, id);
    EnumeratesMore(ids, s.metrics.Keys, id);
    assert forall i :: i in s.metrics ==> s.metrics[i] >= 0 by {
      if s.metrics != map[] { ShareNatural(s.maxBps, |s.metrics|); }
    }
    NaturalRates(s, id);
    hide Inv, AtRest, Total, Consistent, AddMetric, SpawnAll, Share, Enumerates, Run, InOrder, AllInternal, RunningRate;
    KeepsNatural(t, all, es);
    RunningWithin(n, all);
  }

  lemma NaturalRates(s: State, id: Id)
    requires forall i :: i in s.metrics ==> s.metrics[i] >= 0
    ensures forall i :: i in Discovered(s, id).metrics ==> Discovered(s, id).metrics[i] >= 0
  {
    hide AddMetric;
  }

  /** Rates that are no less than zero stay so. */
  lemma KeepsNatural(s: State, ids: seq<Id>, es: seq<Event>)
    requires AtRest(s) && s.metrics != map[] && Enumerates(ids, s.metrics.Keys) && s.maxBps >= 0
    requires forall id :: id in s.metrics ==> s.metrics[id] >= 0
    requires AllInternal(es) && InOrder(Created(s, ids), es)
    ensures var n := Run(Created(s, ids), es);
            Inv(n) && n.overlaps == multiset{} && Enumerates(ids, n.metrics.Keys)
            && forall id :: id in n.metrics ==> n.metrics[id] >= 0
  {
    var share := Share(s.maxBps, |s.metrics|);
    MidStarts(s, ids, share);
    hide AtRest, Inv, Run, SpawnAll, InOrder, AllInternal, Enumerates, CallsUnderWay;
    var m := RunMidway(Created(s, ids), |s.calls|, ids, share, s.metrics, es);
    assert share >= 0 by { ShareNatural(s.maxBps, |s.metrics|); }
    hide Midway;
    MidNatural(Run(Created(s, ids), es), |s.calls|, ids, share, s.metrics, m);
  }

  lemma MidNatural(s: State, base: nat, ids: seq<Id>, share: int, prior: map<Id, int>, m: nat)
    requires Midway(s, base, ids, share, prior, m) && share >= 0 && forall id :: id in prior ==> prior[id] >= 0
    ensures Inv(s) && s.overlaps == multiset{} && Enumerates(ids, s.metrics.Keys)
    ensures forall id :: id in s.metrics ==> s.metrics[id] >= 0
  {
    hide Inv, Enumerates, CallsUnderWay;
    forall id | id in s.metrics ensures s.metrics[id] >= 0 {
      Position(ids, s.metrics.Keys, id);
      var j :| 0 <= j < |ids| && ids[j] == id;
      assert ids[j] in prior;
    }
  }

  lemma Position(ids: seq<Id>, keys: set<Id>, id: Id)
    requires Enumerates(ids, keys) && id in keys
    ensures exists j :: 0 <= j < |ids| && ids[j] == id
  {
  }

  // --------------------------------------------- the subscriptions not yet ended

  /** Every subscription not ended has its metric's prior rate or the share. */
  ghost predicate Rated(s: State, prior: map<Id, int>, share: int) {
    forall t :: 0 <= t < |s.tasks| && !s.tasks[t].status.Ended? ==>
      s.tasks[t].id in prior && (s.tasks[t].bps == prior[s.tasks[t].id] || s.tasks[t].bps == share)
  }

  lemma StartsRated(s: State, ids: seq<Id>, share: int)
    requires AtRest(s)
    ensures Rated(SpawnAll(s, ids, share), s.metrics, share)
  {
    InvConsistent(s);
    SameKeys(s);
    forall t | 0 <= t < |s.tasks| && !s.tasks[t].status.Ended?
      ensures s.tasks[t].id in s.metrics && s.tasks[t].bps == s.metrics[s.tasks[t].id]
    {
      RestingTask(s, t);
    }
    hide Inv, Consistent, Settled;
  }

  lemma RestingTask(s: State, t: nat)
    requires AtRest(s) && t < |s.tasks| && !s.tasks[t].status.Ended?
    ensures s.tasks[t].id in s.metrics && s.tasks[t].bps == s.metrics[s.tasks[t].id]
  {
    var id := s.tasks[t].id;
    assert CalmAt(s, id);
    CountNone(s.calls, IsWaiting(id));
    QuietCurrent(s, id);
  }

  lemma StepRated(s: State, base: nat, ids: seq<Id>, share: int, prior: map<Id, int>, e: Event)
    requires UnderWay(s, base, ids, share) && Rated(s, prior, share) && Internal(e)
    requires forall j :: 0 <= j < |ids| ==> ids[j] in prior
    ensures Rated(Step(s, e), prior, share)
  {
    if Enabled(s, e) {
      TasksShape(s, e);
      if e.Resume? {
        ResumedOf(s, base, ids, share, e.call);
      }
      hide *;
      RatedNext(s, Step(s, e), prior, share);
    }
  }

  /** A task keeps its metric and rate, and none comes back; the only new one
      belongs to a call that resumes. */
  ghost predicate TasksFollow(s: State, n: State) {
    |s.tasks| <= |n.tasks| <= |s.tasks| + 1
    && forall t :: 0 <= t < |s.tasks| ==>
         n.tasks[t].id == s.tasks[t].id && n.tasks[t].bps == s.tasks[t].bps
         && (s.tasks[t].status.Ended? ==> n.tasks[t].status.Ended?)
  }

  lemma TasksShape(s: State, e: Event)
    requires Enabled(s, e) && Internal(e)
    ensures TasksFollow(s, Step(s, e))
    ensures if e.Resume? then Step(s, e).tasks == s.tasks + [Task(s.calls[e.call].id, s.calls[e.call].bps, Live)]
            else |Step(s, e).tasks| == |s.tasks|
  {
  }

  lemma ResumedOf(s: State, base: nat, ids: seq<Id>, share: int, k: nat)
    requires UnderWay(s, base, ids, share) && Enabled(s, Resume(k))
    ensures base <= k < base + |ids| && s.calls[k].id == ids[k - base] && s.calls[k].bps == share
  {
    hide Inv, Enumerates;
    assert k >= base;
    CallOf(s, base, ids, share, k);
  }

  lemma RatedNext(s: State, n: State, prior: map<Id, int>, share: int)
    requires Rated(s, prior, share) && TasksFollow(s, n)
    requires |n.tasks| > |s.tasks| ==> n.tasks[|s.tasks|].id in prior && n.tasks[|s.tasks|].bps == share
    ensures Rated(n, prior, share)
  {
  }

  lemma {:induction false} RunRated(s: State, base: nat, ids: seq<Id>, share: int, prior: map<Id, int>, es: seq<Event>)
    requires UnderWay(s, base, ids, share) && Rated(s, prior, share) && AllInternal(es)
    requires forall j :: 0 <= j < |ids| ==> ids[j] in prior
    ensures UnderWay(Run(s, es), base, ids, share) && Rated(Run(s, es), prior, share)
  {
    hide Step, UnderWay, Rated;
    if es != [] {
      var p := Run(s, es[..|es| - 1]);
      RunRated(s, base, ids, share, prior, es[..|es| - 1]);
      StepUnderWay(p, base, ids, share, es[|es| - 1]);
      StepRated(p, base, ids, share, prior, es[|es| - 1]);
    }
  }

  /** The larger of a metric's prior rate and the share. */
  function Peaks(prior: map<Id, int>, share: int): map<Id, int> {
    map id | id in prior :: if prior[id] > share then prior[id] else share
  }

  lemma OpenAtMost(s: State, base: nat, ids: seq<Id>, share: int, prior: map<Id, int>)
    requires UnderWay(s, base, ids, share) && Rated(s, prior, share) && Enumerates(ids, prior.Keys) && share >= 0
    ensures forall j :: 0 <= j < |ids| ==> ids[j] in Peaks(prior, share)
    ensures OpenRate(s) <= RateSum(Peaks(prior, share), ids)
  {
    OneOpen(s, base, ids, share);
    InKeys(ids, prior.Keys);
    EnumeratesSet(ids, prior.Keys);
    RatedPeaks(s, prior, share);
    hide UnderWay, Enumerates, Count, DistinctIds, IdSet, Rated, Peaks, RateOver, RateSum;
    RatesAlike(s.tasks, IsOpen(), Among(IsOpen(), prior.Keys));
    RateUpper(s.tasks, IsOpen(), ids, Peaks(prior, share));
  }

  lemma RatedPeaks(s: State, prior: map<Id, int>, share: int)
    requires Rated(s, prior, share) && share >= 0
    ensures Peaks(prior, share).Keys == prior.Keys
    ensures forall id :: id in prior ==> Peaks(prior, share)[id] >= 0
    ensures forall t :: 0 <= t < |s.tasks| && IsOpen()(s.tasks[t]) ==>
              s.tasks[t].id in prior && s.tasks[t].bps <= Peaks(prior, share)[s.tasks[t].id]
  {
  }

  lemma OneOpen(s: State, base: nat, ids: seq<Id>, share: int)
    requires UnderWay(s, base, ids, share)
    ensures forall j :: 0 <= j < |ids| ==> Count(s.tasks, Among(IsOpen(), {ids[j]})) <= 1
  {
    hide Inv, CallsUnderWay, Count;
    InKeys(ids, s.metrics.Keys);
    forall j | 0 <= j < |ids| ensures Count(s.tasks, Among(IsOpen(), {ids[j]})) <= 1 {
      ActiveAtMostOne(s, ids[j]);
      RatesAlike(s.tasks, Among(IsOpen(), {ids[j]}), IsActive(ids[j]));
    }
  }

  // The schedule that reaches the peak: every update starts, and those whose
  // share is more than the prior rate resume while the others still wait.

  /** The first `j` metrics are at their peak, the others' subscriptions are
      cancelled at their prior rate and awaited. */
  ghost predicate Peaked(s: State, base: nat, ids: seq<Id>, share: int, prior: map<Id, int>, j: nat) {
    |s.calls| == base + |ids| && j <= |ids| && forall i :: 0 <= i < |ids| ==> PeakedAt(s, base, ids, share, prior, j, i)
  }

  ghost predicate PeakedAt(s: State, base: nat, ids: seq<Id>, share: int, prior: map<Id, int>, j: nat, i: nat)
    requires |s.calls| == base + |ids| && i < |ids|
  {
    var id := ids[i];
    id in prior && id in s.subs && s.subs[id] < |s.tasks|
    && s.tasks[s.subs[id]].id == id && !s.tasks[s.subs[id]].status.Ended?
    && (if i < j then s.tasks[s.subs[id]].bps == Peaks(prior, share)[id]
        else s.tasks[s.subs[id]] == Task(id, prior[id], Cancelling)
             && s.calls[base + i] == Call(id, share, Waiting(s.subs[id])))
  }

  /** The first `m` updates have started: nothing else has happened to a metric. */
  ghost predicate Held(s: State, base: nat, ids: seq<Id>, share: int, prior: map<Id, int>, m: nat) {
    |s.calls| == base + |ids| && m <= |ids| && forall i :: 0 <= i < |ids| ==> HeldAt(s, base, ids, share, prior, m, i)
  }

  ghost predicate HeldAt(s: State, base: nat, ids: seq<Id>, share: int, prior: map<Id, int>, m: nat, i: nat)
    requires |s.calls| == base + |ids| && i < |ids|
  {
    var id := ids[i];
    id in prior && id in s.subs && id in s.metrics && s.subs[id] < |s.tasks|
    && s.tasks[s.subs[id]] == Task(id, prior[id], if i < m then Cancelling else Live)
    && s.calls[base + i] == Call(id, share, if i < m then Waiting(s.subs[id]) else Pending)
  }

  lemma StartsHeld(s: State, ids: seq<Id>, share: int)
    requires AtRest(s) && Enumerates(ids, s.metrics.Keys)
    ensures Held(SpawnAll(s, ids, share), |s.calls|, ids, share, s.metrics, 0)
  {
    InKeys(ids, s.metrics.Keys);
    InvConsistent(s);
    SameKeys(s);
    SpawnShape(s, ids, share);
    assert SpawnAll(s, ids, share).subs == s.subs && SpawnAll(s, ids, share).tasks == s.tasks;
    forall i | 0 <= i < |ids| ensures s.subs[ids[i]] < |s.tasks| && s.tasks[s.subs[ids[i]]] == Task(ids[i], s.metrics[ids[i]], Live) {
      CountNone(s.calls, IsWaiting(ids[i]));
      QuietCurrent(s, ids[i]);
    }
    hide Inv, SpawnAll, Enumerates, Consistent, Settled;
  }

  lemma BeginsHeld(s: State, base: nat, ids: seq<Id>, share: int, prior: map<Id, int>, m: nat)
    requires Held(s, base, ids, share, prior, m) && m < |ids| && DistinctIds(ids)
    ensures Held(Step(s, Begin(base + m)), base, ids, share, prior, m + 1)
  {
    assert HeldAt(s, base, ids, share, prior, m, m);
    var n := Step(s, Begin(base + m));
    var t := s.subs[ids[m]];
    assert n.tasks == s.tasks[t := s.tasks[t].(status := Cancelling)] && n.subs == s.subs;
    assert n.calls == s.calls[base + m := s.calls[base + m].(phase := Waiting(t))];
    var next := m + 1;
    forall i | 0 <= i < |ids| ensures HeldAt(n, base, ids, share, prior, next, i) {
      assert HeldAt(s, base, ids, share, prior, m, i);
      assert i != m ==> ids[i] != ids[m];
    }
  }

  lemma {:induction false} AllBegun(s: State, base: nat, ids: seq<Id>, share: int, prior: map<Id, int>, m: nat)
    requires Held(s, base, ids, share, prior, 0) && m <= |ids| && DistinctIds(ids)
    ensures Held(Run(s, Begins(base, m)), base, ids, share, prior, m)
  {
    hide Step, Held;
    if m == 0 {
      BeginsNone(s, base);
    } else {
      AllBegun(s, base, ids, share, prior, m - 1);
      BeginsHeld(Run(s, Begins(base, m - 1)), base, ids, share, prior, m - 1);
      RunLast(s, Begins(base, m - 1), Begin(base + (m - 1)));
      assert Begins(base, m) == Begins(base, m - 1) + [Begin(base + (m - 1))];
    }
  }

  lemma HeldPeaked(s: State, base: nat, ids: seq<Id>, share: int, prior: map<Id, int>)
    requires Held(s, base, ids, share, prior, |ids|)
    ensures Peaked(s, base, ids, share, prior, 0)
  {
    forall i | 0 <= i < |ids| ensures PeakedAt(s, base, ids, share, prior, 0, i) {
      assert HeldAt(s, base, ids, share, prior, |ids|, i);
    }
  }

  /** What happens for the `j`th metric: nothing, or its update resumes. */
  function Rise(s: State, base: nat, ids: seq<Id>, share: int, prior: map<Id, int>, j: nat): seq<Event>
    requires j < |ids| && ids[j] in prior && ids[j] in s.subs
  {
    if prior[ids[j]] >= share then [] else [End(s.subs[ids[j]]), Resume(base + j)]
  }

  lemma PeakNext(s: State, base: nat, ids: seq<Id>, share: int, prior: map<Id, int>, j: nat)
    requires Peaked(s, base, ids, share, prior, j) && j < |ids| && DistinctIds(ids)
    ensures ids[j] in prior && ids[j] in s.subs
    ensures Peaked(Run(s, Rise(s, base, ids, share, prior, j)), base, ids, share, prior, j + 1)
  {
    assert PeakedAt(s, base, ids, share, prior, j, j);
    var t := s.subs[ids[j]];
    var n := Run(s, Rise(s, base, ids, share, prior, j));
    var next := j + 1;
    if prior[ids[j]] >= share {
      forall i | 0 <= i < |ids| ensures PeakedAt(n, base, ids, share, prior, next, i) {
        assert PeakedAt(s, base, ids, share, prior, j, i);
      }
    } else {
      var r := Step(s, End(t));
      RunLast(s, [], End(t));
      RunLast(s, [End(t)], Resume(base + j));
      assert [] + [End(t)] == [End(t)] && [End(t)] + [Resume(base + j)] == [End(t), Resume(base + j)];
      assert n == Step(r, Resume(base + j));
      RiseShape(s, base, ids, share, j, t);
      forall i | 0 <= i < |ids| ensures PeakedAt(n, base, ids, share, prior, next, i) {
        assert PeakedAt(s, base, ids, share, prior, j, i);
        assert i != j ==> ids[i] != ids[j];
      }
    }
  }

  lemma RiseShape(s: State, base: nat, ids: seq<Id>, share: int, j: nat, t: nat)
    requires j < |ids| && |s.calls| == base + |ids| && t < |s.tasks| && s.tasks[t].status.Cancelling?
    requires s.calls[base + j] == Call(ids[j], share, Waiting(t))
    ensures var n := Step(Step(s, End(t)), Resume(base + j));
            n.subs == s.subs[ids[j] := |s.tasks|] && |n.tasks| == |s.tasks| + 1
            && n.tasks[|s.tasks|] == Task(ids[j], share, Live)
            && (forall u :: 0 <= u < |s.tasks| && u != t ==> n.tasks[u] == s.tasks[u])
            && |n.calls| == |s.calls|
            && (forall k :: 0 <= k < |s.calls| && k != base + j ==> n.calls[k] == s.calls[k])
  {
  }

  lemma {:induction false} PeakReached(s: State, base: nat, ids: seq<Id>, share: int, prior: map<Id, int>, j: nat)
    returns (es: seq<Event>)
    requires Peaked(s, base, ids, share, prior, 0) && j <= |ids| && DistinctIds(ids)
    ensures Peaked(Run(s, es), base, ids, share, prior, j) && AllInternal(es) && forall i :: 0 <= i < |es| ==> !es[i].Begin?
  {
    hide Step, Peaked, Run;
    if j == 0 {
      es := [];
      RunNone(s);
    } else {
      var before := PeakReached(s, base, ids, share, prior, j - 1);
      var p := Run(s, before);
      PeakNext(p, base, ids, share, prior, j - 1);
      es := before + Rise(p, base, ids, share, prior, j - 1);
      RunConcat(s, before, Rise(p, base, ids, share, prior, j - 1));
    }
  }

  /** Events that start nothing leave a schedule in order. */
  lemma {:induction false} InOrderMore(s: State, es: seq<Event>, more: seq<Event>)
    requires InOrder(s, es) && forall i :: 0 <= i < |more| ==> !more[i].Begin?
    ensures InOrder(s, es + more)
  {
    hide Run, InOrder, Enabled;
    if more == [] {
      assert es + more == es;
    } else {
      var last := |more| - 1;
      InOrderMore(s, es, more[..last]);
      InOrderSnoc(s, es + more[..last], more[last]);
      assert es + more == es + more[..last] + [more[last]];
    }
  }

  lemma PeakedRate(s: State, base: nat, ids: seq<Id>, share: int, prior: map<Id, int>)
    requires Peaked(s, base, ids, share, prior, |ids|) && DistinctIds(ids)
    requires Rated(s, prior, share) && share >= 0 && forall id :: id in prior ==> prior[id] >= 0
    requires prior.Keys == IdSet(ids)
    ensures forall j :: 0 <= j < |ids| ==> ids[j] in Peaks(prior, share)
    ensures OpenRate(s) >= RateSum(Peaks(prior, share), ids)
  {
    forall i | 0 <= i < |ids|
      ensures ids[i] in prior && ids[i] in s.subs && s.subs[ids[i]] < |s.tasks|
      ensures var t := s.tasks[s.subs[ids[i]]];
              t.id == ids[i] && !t.status.Ended? && t.bps == Peaks(prior, share)[ids[i]]
    {
      assert PeakedAt(s, base, ids, share, prior, |ids|, i);
    }
    RatesAlike(s.tasks, IsOpen(), Among(IsOpen(), prior.Keys));
    RateLower(s.tasks, IsOpen(), ids, s.subs, Peaks(prior, share));
  }

  /** The schedule brings the rates of subscriptions not ended above the limit. */
  ghost predicate OpenExceeds(s: State, ids: seq<Id>, es: seq<Event>)
    requires s.metrics != map[]
  {
    AllInternal(es) && InOrder(Created(s, ids), es) && OpenRate(Run(Created(s, ids), es)) > s.maxBps
  }

  /** From any rates at rest: during a redistribution the subscriptions that have
      not ended can together carry more than the limit if and only if the larger
      of old rate and new share, summed over the metrics, is more. */
  lemma OpenExactly(s: State, ids: seq<Id>)
    requires AtRest(s) && s.metrics != map[] && Enumerates(ids, s.metrics.Keys)
    requires s.maxBps >= 0 && forall id :: id in s.metrics ==> s.metrics[id] >= 0
    ensures forall j :: 0 <= j < |ids| ==> ids[j] in Peaks(s.metrics, Share(s.maxBps, |s.metrics|))
    ensures (exists es :: OpenExceeds(s, ids, es)) <==>
            RateSum(Peaks(s.metrics, Share(s.maxBps, |s.metrics|)), ids) > s.maxBps
  {
    var share := Share(s.maxBps, |s.metrics|);
    InKeys(ids, s.metrics.Keys);
    ShareNatural(s.maxBps, |s.metrics|);
    hide AtRest, Enumerates, AllInternal, InOrder, OpenRate, Run, SpawnAll, RateSum, Share, Peaks;
    if es :| OpenExceeds(s, ids, es) {
      OpenBounded(s, ids, share, es);
    }
    if RateSum(Peaks(s.metrics, share), ids) > s.maxBps {
      var es := OpenReached(s, ids, share);
      assert OpenExceeds(s, ids, es);
    }
  }

  lemma OpenBounded(s: State, ids: seq<Id>, share: int, es: seq<Event>)
    requires AtRest(s) && Enumerates(ids, s.metrics.Keys) && share >= 0 && AllInternal(es)
    ensures forall j :: 0 <= j < |ids| ==> ids[j] in Peaks(s.metrics, share)
    ensures OpenRate(Run(SpawnAll(s, ids, share), es)) <= RateSum(Peaks(s.metrics, share), ids)
  {
    hide Inv, Enumerates, SpawnAll, Run, AllInternal, AtRest, UnderWay, Rated, Peaks;
    MidStarts(s, ids, share);
    MidUnder(SpawnAll(s, ids, share), |s.calls|, ids, share, s.metrics, 0);
    StartsRated(s, ids, share);
    InKeys(ids, s.metrics.Keys);
    RunRated(SpawnAll(s, ids, share), |s.calls|, ids, share, s.metrics, es);
    OpenAtMost(Run(SpawnAll(s, ids, share), es), |s.calls|, ids, share, s.metrics);
  }

  lemma MidUnder(s: State, base: nat, ids: seq<Id>, share: int, prior: map<Id, int>, m: nat)
    requires Midway(s, base, ids, share, prior, m)
    ensures UnderWay(s, base, ids, share)
  {
    hide UnderWay;
  }

  lemma OpenReached(s: State, ids: seq<Id>, share: int) returns (es: seq<Event>)
    requires AtRest(s) && Enumerates(ids, s.metrics.Keys) && share >= 0
    requires forall id :: id in s.metrics ==> s.metrics[id] >= 0
    ensures forall j :: 0 <= j < |ids| ==> ids[j] in Peaks(s.metrics, share)
    ensures AllInternal(es) && InOrder(SpawnAll(s, ids, share), es)
    ensures OpenRate(Run(SpawnAll(s, ids, share), es)) >= RateSum(Peaks(s.metrics, share), ids)
  {
    hide Inv, Enumerates, SpawnAll, Run, AtRest, UnderWay, Rated, Peaks, Held, Peaked, Midway, InOrder, Begins, DistinctIds,
      IdSet;
    var start, base, first := SpawnAll(s, ids, share), |s.calls|, Begins(|s.calls|, |ids|);
    EnumeratesSet(ids, s.metrics.Keys);
    InKeys(ids, s.metrics.Keys);
    MidStarts(s, ids, share);
    MidUnder(start, base, ids, share, s.metrics, 0);
    StartsRated(s, ids, share);
    StartsHeld(s, ids, share);
    Reached(start, base, ids, share, s.metrics, |ids|);
    AllBegun(start, base, ids, share, s.metrics, |ids|);
    HeldPeaked(Run(start, first), base, ids, share, s.metrics);
    var more := PeakReached(Run(start, first), base, ids, share, s.metrics, |ids|);
    es := first + more;
    RunConcat(start, first, more);
    InOrderMore(start, first, more);
    RunRated(start, base, ids, share, s.metrics, es);
    PeakedRate(Run(start, es), base, ids, share, s.metrics);
  }

  /** After a discovery: the new metric's subscription can run at its share while
      the others, cancelled, still carry their old, larger one. */
  lemma DiscoveryOpenExactly(s: State, id: Id, ids: seq<Id>)
    requires AtRest(s) && id !in s.metrics && s.maxBps >= 0 && Enumerates(ids, s.metrics.Keys) && ids != []
    requires forall i :: i in s.metrics ==> s.metrics[i] == Share(s.maxBps, |ids|)
    ensures (exists es :: OpenExceeds(Discovered(s, id), ids + [id], es)) <==>
            |ids| * Share(s.maxBps, |ids|) + Share(s.maxBps, |ids| + 1) > s.maxBps
  {
    hide *;
    DiscoverySetup(s, id, ids);
    OpenExactly(Discovered(s, id), ids + [id]);
    DiscoveryPeaks(s.metrics, ids, id, s.maxBps);
  }

  lemma DiscoverySetup(s: State, id: Id, ids: seq<Id>)
    requires AtRest(s) && id !in s.metrics && s.maxBps >= 0 && Enumerates(ids, s.metrics.Keys) && ids != []
    requires forall i :: i in s.metrics ==> s.metrics[i] == Share(s.maxBps, |ids|)
    ensures forall j :: 0 <= j < |ids| ==> ids[j] in s.metrics
    ensures var t := Discovered(s, id);
            AtRest(t) && |t.metrics| == |ids| + 1 && Enumerates(ids + [id], t.metrics.Keys)
            && forall i :: i in t.metrics ==> t.metrics[i] >= 0
  {
    hide *;
    DiscoveredAtRest(s, id);
    DiscoveredKeys(s, id);
    EnumeratesMore(ids, s.metrics.Keys, id);
    EnumeratesSize(ids, s.metrics.Keys);
    InKeys(ids, s.metrics.Keys);
    ShareNatural(s.maxBps, |ids|);
    NaturalRates(s, id);
  }

  lemma DiscoveredKeys(s: State, id: Id)
    ensures Discovered(s, id).metrics.Keys == s.metrics.Keys + {id} && |s.metrics| == |s.metrics.Keys|
  {
    hide AddMetric;
  }

  lemma DiscoveredAtRest(s: State, id: Id)
    requires AtRest(s) && id !in s.metrics
    ensures AtRest(Discovered(s, id)) && |Discovered(s, id).metrics| == |s.metrics| + 1
  {
    InvConsistent(s);
    hide Inv, Consistent, AtRest, AddMetric;
    AddedToRest(s, id);
  }

  lemma DiscoveryPeaks(rates: map<Id, int>, ids: seq<Id>, id: Id, limit: int)
    requires limit >= 0 && ids != [] && id !in rates
    requires forall j :: 0 <= j < |ids| ==> ids[j] in rates && rates[ids[j]] == Share(limit, |ids|)
    ensures var peaks := Peaks(rates[id := 0], Share(limit, |ids| + 1));
            (forall j :: 0 <= j < |ids| + 1 ==> (ids + [id])[j] in peaks)
            && RateSum(peaks, ids + [id]) == |ids| * Share(limit, |ids|) + Share(limit, |ids| + 1)
  {
    ShareNatural(limit, |ids| + 1);
    SharesFall(limit, |ids|);
    hide Share;
    var peaks := Peaks(rates[id := 0], Share(limit, |ids| + 1));
    assert (ids + [id])[..|ids|] == ids;
    EqualRates(peaks, ids, Share(limit, |ids|));
  }

  /** Multiples of a positive number compare like their factors. */
  lemma FactorAtMost(n: nat, a: int, q: int)
    requires n >= 1
    ensures n * a < n * (q + 1) ==> a <= q
  {
    if a >= q + 1 {
      assert n * a >= n * (q + 1);
    }
  }

  lemma SharesFall(limit: int, n: nat)
    requires n >= 1 && limit >= 0
    ensures Share(limit, n + 1) <= Share(limit, n)
  {
    SharesFitLimit(limit, n + 1);
    ShareNatural(limit, n + 1);
    OneMore(n, Share(limit, n + 1));
    LimitBelow(limit, n);
    hide Share;
    FactorAtMost(n, Share(limit, n + 1), Share(limit, n));
  }

  lemma LimitBelow(limit: int, n: nat)
    requires n >= 1
    ensures limit < n * (Share(limit, n) + 1)
  {
    assert limit == n * (limit / n) + limit % n;
    assert n * (limit / n + 1) == n * (limit / n) + n;
  }
}
