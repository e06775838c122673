/** What the step machine of the subscriptions guarantees: one live
    subscription a metric, exactly how overlapping updates break that, and fair
    redistribution under every interleaving. */
module Redistribution {
  import opened Subscriptions

  // ------------------------------------------------------- laws of every run

  /** Over every schedule: a metric's running subscriptions and updates in
      flight number one, plus one for each update that was started while the
      current subscription was already being cancelled. */
  lemma Conservation(maxBps: int, es: seq<Event>, id: Id)
    requires id in Run(Initial(maxBps), es).metrics
    ensures var s := Run(Initial(maxBps), es);
            Healthy(s, id) + InFlight(s, id) == 1 + s.overlaps[id]
  {
    hide Run, Count;
    InitialInv(maxBps);
    RunInv(Initial(maxBps), es);
  }

  lemma ActiveAtMostOne(s: State, id: Id)
    requires Inv(s) && id in s.metrics && s.overlaps[id] == 0
    ensures Active(s, id) <= 1
    ensures Active(s, id) == 1 <==> !s.tasks[s.subs[id]].status.Ended?
  {
    hide Count, Balanced, Awaited;
    assert CalmAt(s, id);
    if s.tasks[s.subs[id]].status.Ended? {
      assert forall t :: 0 <= t < |s.tasks| ==> !IsActive(id)(s.tasks[t]);
      CountNone(s.tasks, IsActive(id));
    } else {
      assert forall t :: 0 <= t < |s.tasks| && t != s.subs[id] ==> !IsActive(id)(s.tasks[t]);
      CountOthers(s.tasks, s.subs[id], IsActive(id));
    }
  }

  /** A metric whose updates never overlapped never has two subscriptions that
      have not ended, at any await point of any schedule. */
  lemma NeverTwo(maxBps: int, es: seq<Event>, id: Id)
    requires id in Run(Initial(maxBps), es).metrics && Run(Initial(maxBps), es).overlaps[id] == 0
    ensures Active(Run(Initial(maxBps), es), id) <= 1
  {
    hide Run, Active;
    InitialInv(maxBps);
    RunInv(Initial(maxBps), es);
    ActiveAtMostOne(Run(Initial(maxBps), es), id);
  }

  lemma QuietCurrent(s: State, id: Id)
    requires Inv(s) && id in s.metrics && InFlight(s, id) == 0
    ensures s.tasks[s.subs[id]].status.Live?
    ensures Healthy(s, id) == 1 + s.overlaps[id]
    ensures s.overlaps[id] == 0 ==> Active(s, id) == 1 && s.tasks[s.subs[id]] == Task(id, s.metrics[id], Live)
  {
    hide Count;
    CountNone(s.calls, IsWaiting(id));
    assert AwaitedAt(s, id);
    assert forall k :: 0 <= k < |s.calls| && WaitsOn(s.calls[k], id, s.subs[id]) ==> IsWaiting(id)(s.calls[k]);
    if s.overlaps[id] == 0 {
      assert CalmAt(s, id);
      ActiveAtMostOne(s, id);
    }
  }

  /** Once no update is in flight, a metric has exactly one running subscription
      if and only if none of its updates overlapped; otherwise the surplus is
      the number of overlapping starts. */
  lemma OneSubscriptionExactly(maxBps: int, es: seq<Event>, id: Id)
    requires var s := Run(Initial(maxBps), es);
             id in s.metrics && InFlight(s, id) == 0
    ensures var s := Run(Initial(maxBps), es);
            Healthy(s, id) == 1 + s.overlaps[id]
            && (Healthy(s, id) == 1 <==> s.overlaps[id] == 0)
  {
    hide Run, Healthy, InFlight;
    InitialInv(maxBps);
    RunInv(Initial(maxBps), es);
    QuietCurrent(Run(Initial(maxBps), es), id);
  }

  /** What a caller can check beforehand: on a metric without overlaps so far, a
      start overlaps exactly when another update of the metric is in flight. */
  lemma OverlapExactly(s: State, k: nat)
    requires Inv(s) && Enabled(s, Begin(k)) && s.calls[k].id in s.metrics && s.overlaps[s.calls[k].id] == 0
    ensures Step(s, Begin(k)).overlaps[s.calls[k].id] == (if InFlight(s, s.calls[k].id) == 0 then 0 else 1)
  {
    hide Count;
    var id := s.calls[k].id;
    if InFlight(s, id) == 0 {
      QuietCurrent(s, id);
    } else {
      assert Healthy(s, id) + InFlight(s, id) == 1;
      CountNone(s.tasks, IsLive(id));
      assert !IsLive(id)(s.tasks[s.subs[id]]);
    }
  }

  /** The event starts an update of the metric. */
  predicate Starts(s: State, e: Event, id: Id) {
    e.Begin? && Enabled(s, e) && s.calls[e.call].id == id
  }

  /** If it does, no other update of the metric is in flight. */
  ghost predicate StartsAlone(s: State, e: Event, id: Id) {
    Starts(s, e, id) ==> InFlight(s, id) == 0
  }

  /** Each update of the metric that starts in `es`, in the state its events
      before have led to, starts alone. */
  ghost predicate AllAlone(s: State, es: seq<Event>, id: Id) {
    es == []
    || (AllAlone(s, es[..|es| - 1], id) && StartsAlone(Run(s, es[..|es| - 1]), es[|es| - 1], id))
  }

  lemma OverlapStep(s: State, e: Event, id: Id)
    requires Inv(s) && s.overlaps[id] == 0
    ensures Step(s, e).overlaps[id] == 0 <==> StartsAlone(s, e, id)
  {
    hide Inv, InFlight;
    if e.Begin? && Enabled(s, e) && s.calls[e.call].id == id {
      InvConsistent(s);
      if id in s.metrics {
        OverlapExactly(s, e.call);
      } else {
        SameKeys(s);
        UnknownCounts(s, id);
      }
    }
  }

  /** Over every run from the start: a metric has no overlapping start if and
      only if each of its updates began while no other was in flight. */
  lemma {:induction false} OverlapsExactly(maxBps: int, es: seq<Event>, id: Id)
    ensures Run(Initial(maxBps), es).overlaps[id] == 0 <==> AllAlone(Initial(maxBps), es, id)
  {
    hide Step, StartsAlone, Inv;
    if es == [] {
    } else {
      var last := |es| - 1;
      InitialInv(maxBps);
      RunInv(Initial(maxBps), es[..last]);
      OverlapsExactly(maxBps, es[..last], id);
      OverlapNext(Run(Initial(maxBps), es[..last]), es[last], id);
    }
  }

  lemma OverlapNext(s: State, e: Event, id: Id)
    requires Inv(s)
    ensures Step(s, e).overlaps[id] == 0 <==> s.overlaps[id] == 0 && StartsAlone(s, e, id)
  {
    hide Step, StartsAlone, Inv;
    OverlapsGrow(s, e, id);
    if s.overlaps[id] == 0 {
      OverlapStep(s, e, id);
    }
  }

  /** The two segments seen from the call that runs them. */
  lemma BegunCall(s: State, k: nat)
    requires Consistent(s) && Enabled(s, Begin(k)) && s.calls[k].id in s.metrics
    ensures var c, n := s.calls[k], Step(s, Begin(k));
            var t := s.subs[c.id];
            n.calls == s.calls[k := c.(phase := Waiting(t))]
            && n.metrics == s.metrics[c.id := c.bps] && n.subs == s.subs
            && |n.tasks| == |s.tasks| && n.tasks[t].status == (if s.tasks[t].status.Live? then Cancelling else s.tasks[t].status)
            && n.overlaps == (if s.tasks[t].status.Live? then s.overlaps else s.overlaps + multiset{c.id})
            && InFlight(n, c.id) == InFlight(s, c.id) + 1
  {
    hide Count;
    var c := s.calls[k];
    CountUpdate(s.calls, k, c.(phase := Waiting(s.subs[c.id])), IsWaiting(c.id));
  }

  lemma ResumedCall(s: State, k: nat)
    requires Enabled(s, Resume(k))
    ensures var c, n := s.calls[k], Step(s, Resume(k));
            n.calls == s.calls[k := c.(phase := Finished)]
            && n.tasks == s.tasks + [Task(c.id, c.bps, Live)] && n.overlaps == s.overlaps
            && n.metrics == s.metrics && InFlight(n, c.id) == InFlight(s, c.id) - 1
  {
    hide Count;
    CountUpdate(s.calls, k, s.calls[k].(phase := Finished), IsWaiting(s.calls[k].id));
  }

  /** Why overlaps must be excluded: from any state where a metric is at rest,
      any two updates of it can be scheduled so that both resume, and then two
      subscriptions run, one of them beyond the handler's reach. */
  lemma OverlapOrphans(s: State, k: nat, j: nat)
    requires Inv(s) && k != j && Enabled(s, Begin(k)) && Enabled(s, Begin(j))
    requires s.calls[k].id == s.calls[j].id && s.calls[k].id in s.metrics
    requires InFlight(s, s.calls[k].id) == 0 && s.overlaps[s.calls[k].id] == 0
    ensures var id := s.calls[k].id;
            var n := Run(s, [Begin(k), Begin(j), End(s.subs[id]), Resume(k), Resume(j)]);
            Healthy(n, id) == 2 && InFlight(n, id) == 0
  {
    hide Step, Inv, InFlight, Healthy, Consistent, Run;
    var id := s.calls[k].id;
    InvConsistent(s);
    SameKeys(s);
    OverlapSchedule(s, k, j);
    var es := [Begin(k), Begin(j), End(s.subs[id]), Resume(k), Resume(j)];
    var n := Run(s, es);
    RunInv(s, es);
    KnownGrow(s, es);
    InvConsistent(n);
    assert Healthy(n, id) + InFlight(n, id) == 1 + n.overlaps[id] by { InvBalanced(n, id); }
  }

  lemma OverlapSchedule(s: State, k: nat, j: nat)
    requires Inv(s) && k != j && Enabled(s, Begin(k)) && Enabled(s, Begin(j))
    requires s.calls[k].id == s.calls[j].id && s.calls[k].id in s.metrics
    requires InFlight(s, s.calls[k].id) == 0 && s.overlaps[s.calls[k].id] == 0
    ensures var id := s.calls[k].id;
            var n := Run(s, [Begin(k), Begin(j), End(s.subs[id]), Resume(k), Resume(j)]);
            n.overlaps[id] == 1 && InFlight(n, id) == 0
  {
    InvConsistent(s);
    var t := s.subs[s.calls[k].id];
    OverlapStarts(s, k, j);
    hide Step, InFlight, Inv, Consistent;
    OverlapEnds(Step(Step(s, Begin(k)), Begin(j)), k, j, t);
    FiveSteps(s, Begin(k), Begin(j), End(t), Resume(k), Resume(j));
  }

  lemma OverlapStarts(s: State, k: nat, j: nat)
    requires Inv(s) && k != j && Enabled(s, Begin(k)) && Enabled(s, Begin(j))
    requires s.calls[k].id == s.calls[j].id && s.calls[k].id in s.metrics
    requires InFlight(s, s.calls[k].id) == 0 && s.overlaps[s.calls[k].id] == 0
    ensures Consistent(s)
    ensures var id := s.calls[k].id;
            var t := s.subs[id];
            var n := Step(Step(s, Begin(k)), Begin(j));
            k < |n.calls| && WaitsOn(n.calls[k], id, t) && j < |n.calls| && WaitsOn(n.calls[j], id, t)
            && t < |n.tasks| && n.tasks[t].status.Cancelling? && n.overlaps[id] == 1 && InFlight(n, id) == 2
  {
    hide InFlight, Healthy, BeginUpdate;
    var id := s.calls[k].id;
    QuietCurrent(s, id);
    InvConsistent(s);
    StepInv(s, Begin(k));
    InvConsistent(Step(s, Begin(k)));
    hide Inv, Step;
    BegunCall(s, k);
    BegunCall(Step(s, Begin(k)), j);
  }

  lemma OverlapEnds(s: State, k: nat, j: nat, t: nat)
    requires k != j && k < |s.calls| && j < |s.calls| && t < |s.tasks| && s.tasks[t].status.Cancelling?
    requires WaitsOn(s.calls[k], s.calls[k].id, t) && WaitsOn(s.calls[j], s.calls[k].id, t)
    ensures var n := Step(Step(Step(s, End(t)), Resume(k)), Resume(j));
            n.overlaps == s.overlaps && InFlight(n, s.calls[k].id) == InFlight(s, s.calls[k].id) - 2
  {
    hide InFlight;
    var s3 := Step(s, End(t));
    SameCalls(s, s3, s.calls[k].id);
    ResumedCall(s3, k);
    ResumedCall(Step(s3, Resume(k)), j);
  }

  lemma SameCalls(s: State, n: State, id: Id)
    requires s.calls == n.calls
    ensures InFlight(s, id) == InFlight(n, id)
  {
  }

  lemma FiveSteps(s: State, a: Event, b: Event, c: Event, d: Event, e: Event)
    ensures Run(s, [a, b, c, d, e]) == Step(Step(Step(Step(Step(s, a), b), c), d), e)
  {
    hide Step;
    RunLast(s, [], a);
    RunLast(s, [a], b);
    RunLast(s, [a, b], c);
    assert [] + [a] == [a] && [a] + [b] == [a, b] && [a, b] + [c] == [a, b, c];
    assert [a, b, c] + [d] == [a, b, c, d] && [a, b, c, d] + [e] == [a, b, c, d, e];
    RunLast(s, [a, b, c], d);
    RunLast(s, [a, b, c, d], e);
  }

  lemma RunLast(s: State, es: seq<Event>, e: Event)
    ensures Run(s, es + [e]) == Step(Run(s, es), e)
  {
    hide Step;
    assert (es + [e])[..|es|] == es;
  }

  lemma InvBalanced(s: State, id: Id)
    requires Inv(s) && id in s.metrics
    ensures Healthy(s, id) + InFlight(s, id) == 1 + s.overlaps[id]
  {
    hide Healthy, InFlight;
  }

  lemma InvConsistent(s: State)
    requires Inv(s)
    ensures Consistent(s)
  {
  }

  /** Known metrics are never forgotten, and each has a subscription. */
  lemma {:induction false} KnownGrow(s: State, es: seq<Event>)
    requires Inv(s)
    ensures s.metrics.Keys <= Run(s, es).metrics.Keys == Run(s, es).subs.Keys
  {
    hide Step, Consistent, Balanced, Awaited, Calm;
    RunInv(s, es);
    assert Run(s, es).metrics.Keys == Run(s, es).subs.Keys && s.metrics.Keys == s.subs.Keys by {
      InvConsistent(s); InvConsistent(Run(s, es));
      SameKeys(s); SameKeys(Run(s, es));
    }
    if es != [] {
      var p := Run(s, es[..|es| - 1]);
      KnownGrow(s, es[..|es| - 1]);
      RunInv(s, es[..|es| - 1]);
      StepKeys(p, es[|es| - 1]);
    }
  }

  lemma SameKeys(s: State)
    requires Consistent(s)
    ensures s.metrics.Keys == s.subs.Keys
  {
  }

  // --------------------------------------------------------- fair distribution

  predicate Settled(s: State) {
    forall k :: 0 <= k < |s.calls| ==> s.calls[k].phase.Finished?
  }

  predicate DistinctIds(ids: seq<Id>) {
    forall i, j :: 0 <= i < j < |ids| ==> ids[i] != ids[j]
  }

  /** The metric ids in the order the dictionary yields them. */
  ghost predicate Enumerates(ids: seq<Id>, keys: set<Id>) {
    DistinctIds(ids) && (forall id :: id in keys <==> id in ids)
  }

  /** `max_bps // len(metric_ids)`: Python's floor division. */
  function Share(maxBps: int, n: nat): int
    requires n >= 1
  {
    maxBps / n
  }

  /** The task group's `create_task(update_bps(id, share))` for every metric. */
  function SpawnAll(s: State, ids: seq<Id>, share: int): State {
    s.(calls := s.calls + seq(|ids|, j requires 0 <= j < |ids| => Call(ids[j], share, Pending)))
  }

  /** Steps of the task group and of the tasks it cancels, nothing else. */
  predicate Internal(e: Event) {
    e.Begin? || e.End? || e.Resume?
  }

  /** A redistribution of `share` to `ids` is under way since call `base`. */
  ghost predicate UnderWay(s: State, base: nat, ids: seq<Id>, share: int) {
    Inv(s) && s.overlaps == multiset{} && Enumerates(ids, s.metrics.Keys)
    && CallsUnderWay(s, base, ids, share)
  }

  ghost predicate CallsUnderWay(s: State, base: nat, ids: seq<Id>, share: int) {
    |s.calls| == base + |ids|
    && (forall k :: 0 <= k < base ==> s.calls[k].phase.Finished?)
    && (forall j :: 0 <= j < |ids| ==>
          s.calls[base + j].id == ids[j] && s.calls[base + j].bps == share && ids[j] in s.metrics
          && (!s.calls[base + j].phase.Pending? ==> s.metrics[ids[j]] == share))
  }

  lemma SpawnStarts(s: State, ids: seq<Id>, share: int)
    requires Inv(s) && Settled(s) && s.overlaps == multiset{} && Enumerates(ids, s.metrics.Keys)
    ensures UnderWay(SpawnAll(s, ids, share), |s.calls|, ids, share)
  {
    SpawnInv(s, ids, share);
    SpawnShape(s, ids, share);
    hide Inv, SpawnAll, Settled, CallsUnderWay;
    assert forall j :: 0 <= j < |ids| ==> ids[j] in s.metrics by { InKeys(ids, s.metrics.Keys); }
    AllPending(s, SpawnAll(s, ids, share), ids, share);
  }

  lemma InKeys(ids: seq<Id>, keys: set<Id>)
    requires Enumerates(ids, keys)
    ensures forall j :: 0 <= j < |ids| ==> ids[j] in keys
  {
  }

  lemma SpawnShape(s: State, ids: seq<Id>, share: int)
    ensures var n := SpawnAll(s, ids, share);
            n.metrics == s.metrics && n.overlaps == s.overlaps && n.maxBps == s.maxBps
            && |n.calls| == |s.calls| + |ids| && (forall k :: 0 <= k < |s.calls| ==> n.calls[k] == s.calls[k])
            && (forall j :: 0 <= j < |ids| ==> n.calls[|s.calls| + j] == Call(ids[j], share, Pending))
  {
  }

  lemma AllPending(s: State, n: State, ids: seq<Id>, share: int)
    requires Settled(s) && n.metrics == s.metrics && |n.calls| == |s.calls| + |ids|
    requires forall j :: 0 <= j < |ids| ==> ids[j] in s.metrics
    requires forall k :: 0 <= k < |s.calls| ==> n.calls[k] == s.calls[k]
    requires forall j :: 0 <= j < |ids| ==> n.calls[|s.calls| + j] == Call(ids[j], share, Pending)
    ensures CallsUnderWay(n, |s.calls|, ids, share)
  {
  }

  /** Creating calls disturbs nothing. */
  lemma {:induction false} SpawnInv(s: State, ids: seq<Id>, share: int)
    requires Inv(s)
    ensures Inv(SpawnAll(s, ids, share))
  {
    hide Inv;
    var n := SpawnAll(s, ids, share);
    if ids == [] {
      assert n.calls == s.calls;
    } else {
      var last := |ids| - 1;
      var m := SpawnAll(s, ids[..last], share);
      SpawnInv(s, ids[..last], share);
      StepInv(m, Spawn(ids[last], share));
      assert Step(m, Spawn(ids[last], share)) == n by {
        assert m.calls + [Call(ids[last], share, Pending)] == n.calls;
      }
    }
  }

  /** In a redistribution an update that has not started meets no other. */
  lemma NoRival(s: State, base: nat, ids: seq<Id>, share: int, k: nat)
    requires UnderWay(s, base, ids, share) && Enabled(s, Begin(k))
    ensures base <= k && InFlight(s, s.calls[k].id) == 0 && s.calls[k].id in s.metrics
  {
    hide Count, Inv;
    var id := s.calls[k].id;
    assert ids[k - base] == id;
    forall j | 0 <= j < |s.calls| ensures !IsWaiting(id)(s.calls[j]) {
      if j >= base && j != k {
        assert s.calls[base + (j - base)].id == ids[j - base];
        assert ids[j - base] != ids[k - base];
      }
    }
    CountNone(s.calls, IsWaiting(id));
  }

  lemma CallOf(s: State, base: nat, ids: seq<Id>, share: int, k: nat)
    requires CallsUnderWay(s, base, ids, share) && base <= k < |s.calls|
    ensures s.calls[k].bps == share && s.calls[k].id == ids[k - base]
  {
    var j := k - base;
    assert ids[j] in s.metrics && s.calls[base + j].bps == share;
  }

  /** What the next start of a redistribution does. */
  lemma UpdateBegun(s: State, base: nat, ids: seq<Id>, share: int, k: nat)
    requires UnderWay(s, base, ids, share) && Enabled(s, Begin(k))
    ensures DistinctIds(ids) && base <= k < base + |ids|
    ensures s.calls[k].id == ids[k - base] && s.calls[k].bps == share
    ensures var n := Step(s, Begin(k));
            n.metrics == s.metrics[ids[k - base] := share] && n.metrics.Keys == s.metrics.Keys
            && n.overlaps == s.overlaps && |n.calls| == |s.calls|
            && n.calls[k].id == s.calls[k].id && n.calls[k].bps == share && !n.calls[k].phase.Pending?
            && forall j :: 0 <= j < |s.calls| && j != k ==> n.calls[j] == s.calls[j]
  {
    NoRival(s, base, ids, share, k);
    CallOf(s, base, ids, share, k);
    InvConsistent(s);
    QuietCurrent(s, s.calls[k].id);
    BegunCall(s, k);
    hide Inv, Consistent, Step, InFlight, Healthy, Active, DistinctIds;
  }

  lemma BeginUnderWay(s: State, base: nat, ids: seq<Id>, share: int, k: nat)
    requires UnderWay(s, base, ids, share) && Enabled(s, Begin(k))
    ensures UnderWay(Step(s, Begin(k)), base, ids, share)
  {
    UpdateBegun(s, base, ids, share, k);
    StepInv(s, Begin(k));
    hide Inv, Step, CallsUnderWay, Enumerates, DistinctIds;
    CallsBegun(s, Step(s, Begin(k)), base, ids, share, k);
  }

  lemma CallsBegun(s: State, n: State, base: nat, ids: seq<Id>, share: int, k: nat)
    requires CallsUnderWay(s, base, ids, share) && base <= k < |s.calls| && s.calls[k].bps == share
    requires |n.calls| == |s.calls| && (forall j :: 0 <= j < |s.calls| && j != k ==> n.calls[j] == s.calls[j])
    requires n.calls[k].id == s.calls[k].id && n.calls[k].bps == share && n.metrics == s.metrics[s.calls[k].id := share]
    ensures CallsUnderWay(n, base, ids, share)
  {
    forall j | 0 <= j < |ids|
      ensures n.calls[base + j].id == ids[j] && n.calls[base + j].bps == share && ids[j] in n.metrics
      ensures !n.calls[base + j].phase.Pending? ==> n.metrics[ids[j]] == share
    {
      assert s.calls[base + j].id == ids[j];
    }
  }

  lemma StepUnderWay(s: State, base: nat, ids: seq<Id>, share: int, e: Event)
    requires UnderWay(s, base, ids, share) && Internal(e)
    ensures UnderWay(Step(s, e), base, ids, share)
  {
    if !Enabled(s, e) {
    } else if e.Begin? {
      hide Step, UnderWay;
      BeginUnderWay(s, base, ids, share, e.call);
    } else {
      StepInv(s, e);
      OtherStepShape(s, e);
      hide Inv, Step;
      CallsCarryOn(s, Step(s, e), base, ids, share);
    }
  }

  ghost predicate SameUpdates(s: State, n: State) {
    n.metrics == s.metrics && |n.calls| == |s.calls|
    && forall j :: 0 <= j < |s.calls| ==>
         n.calls[j].id == s.calls[j].id && n.calls[j].bps == s.calls[j].bps
         && (s.calls[j].phase.Finished? ==> n.calls[j].phase.Finished?)
         && (n.calls[j].phase.Pending? <==> s.calls[j].phase.Pending?)
  }

  lemma OtherStepShape(s: State, e: Event)
    requires Enabled(s, e) && Internal(e) && !e.Begin?
    ensures SameUpdates(s, Step(s, e)) && Step(s, e).overlaps == s.overlaps
  {
  }

  lemma CallsCarryOn(s: State, n: State, base: nat, ids: seq<Id>, share: int)
    requires CallsUnderWay(s, base, ids, share) && SameUpdates(s, n)
    ensures CallsUnderWay(n, base, ids, share)
  {
    forall j | 0 <= j < |ids|
      ensures n.calls[base + j].id == ids[j] && n.calls[base + j].bps == share && ids[j] in n.metrics
      ensures !n.calls[base + j].phase.Pending? ==> n.metrics[ids[j]] == share
    {
      assert s.calls[base + j].id == ids[j];
    }
  }

  lemma {:induction false} RunUnderWay(s: State, base: nat, ids: seq<Id>, share: int, es: seq<Event>)
    requires UnderWay(s, base, ids, share) && (forall i :: 0 <= i < |es| ==> Internal(es[i]))
    ensures UnderWay(Run(s, es), base, ids, share)
  {
    hide Step, UnderWay;
    if es == [] {
    } else {
      RunUnderWay(s, base, ids, share, es[..|es| - 1]);
      StepUnderWay(Run(s, es[..|es| - 1]), base, ids, share, es[|es| - 1]);
    }
  }

  /** Every metric has the share on record and exactly one subscription that has
      not ended, which runs with that share. */
  ghost predicate Fair(s: State, keys: set<Id>, share: int) {
    s.metrics.Keys == keys == s.subs.Keys
    && forall id :: id in keys ==>
         s.metrics[id] == share && s.subs[id] < |s.tasks|
         && s.tasks[s.subs[id]] == Task(id, share, Live) && Active(s, id) == 1 && Healthy(s, id) == 1
  }

  lemma SettledFair(s: State, base: nat, ids: seq<Id>, share: int)
    requires UnderWay(s, base, ids, share) && Settled(s)
    ensures Fair(s, s.metrics.Keys, share)
  {
    hide Count;
    forall id | id in s.metrics
      ensures s.metrics[id] == share && s.tasks[s.subs[id]] == Task(id, share, Live)
      ensures Active(s, id) == 1 && Healthy(s, id) == 1
    {
      var j :| 0 <= j < |ids| && ids[j] == id;
      assert s.calls[base + j].phase.Finished?;
      CountNone(s.calls, IsWaiting(id));
      assert forall k :: 0 <= k < |s.calls| ==> !IsWaiting(id)(s.calls[k]);
      QuietCurrent(s, id);
    }
  }

  /** One redistribution, from a state at rest: at every await point of every
      interleaving no metric has two active subscriptions, and however the
      interleaving goes, once the task group has finished the distribution is
      fair. */
  lemma RedistributionFair(s: State, ids: seq<Id>, es: seq<Event>)
    requires Inv(s) && Settled(s) && s.overlaps == multiset{} && s.metrics != map[]
    requires Enumerates(ids, s.metrics.Keys) && forall i :: 0 <= i < |es| ==> Internal(es[i])
    ensures var share := Share(s.maxBps, |s.metrics|);
            var n := Run(SpawnAll(s, ids, share), es);
            n.metrics.Keys == s.metrics.Keys
            && (forall id :: id in n.metrics ==> Active(n, id) <= 1)
            && (Settled(n) ==> Fair(n, s.metrics.Keys, share))
  {
    hide Step, Run, Active, Healthy, Inv, Fair;
    var share := Share(s.maxBps, |s.metrics|);
    SpawnStarts(s, ids, share);
    RunUnderWay(SpawnAll(s, ids, share), |s.calls|, ids, share, es);
    var n := Run(SpawnAll(s, ids, share), es);
    forall id | id in n.metrics ensures Active(n, id) <= 1 {
      ActiveAtMostOne(n, id);
    }
    if Settled(n) {
      SettledFair(n, |s.calls|, ids, share);
    }
  }

  /** What an observer sees of a handler at rest: rate on record, rate of the
      current subscription and number of active ones, for each metric. */
  ghost function Observed(s: State): map<Id, (int, int, nat)>
    requires SubsPoint(s)
  {
    map id | id in s.metrics :: (s.metrics[id], s.tasks[s.subs[id]].bps, Active(s, id))
  }

  lemma FairObserved(s: State, keys: set<Id>, share: int)
    requires SubsPoint(s) && Fair(s, keys, share)
    ensures Observed(s) == map id | id in keys :: (share, share, 1)
  {
    hide Active, Healthy;
  }

  /** Any two interleavings that finish end in the same observable state. */
  lemma Confluent(s: State, ids: seq<Id>, es: seq<Event>, fs: seq<Event>)
    requires Inv(s) && Settled(s) && s.overlaps == multiset{} && s.metrics != map[]
    requires Enumerates(ids, s.metrics.Keys)
    requires forall i :: 0 <= i < |es| ==> Internal(es[i])
    requires forall i :: 0 <= i < |fs| ==> Internal(fs[i])
    ensures var start := SpawnAll(s, ids, Share(s.maxBps, |s.metrics|));
            var m, n := Run(start, es), Run(start, fs);
            Settled(m) && Settled(n) ==> SubsPoint(m) && SubsPoint(n) && Observed(m) == Observed(n)
  {
    hide Step, Run, Inv, SubsPoint, Fair, Observed, SpawnAll;
    var share := Share(s.maxBps, |s.metrics|);
    var start := SpawnAll(s, ids, share);
    var m, n := Run(start, es), Run(start, fs);
    RedistributionFair(s, ids, es);
    RedistributionFair(s, ids, fs);
    if Settled(m) && Settled(n) {
      SpawnInv(s, ids, share);
      RunInv(start, es);
      RunInv(start, fs);
      InvConsistent(m);
      InvConsistent(n);
      FairObserved(m, s.metrics.Keys, share);
      FairObserved(n, s.metrics.Keys, share);
    }
  }

  // ------------------------------------------------------------- termination

  function IsPending(): Call -> bool { (c: Call) => c.phase.Pending? }

  function IsSuspended(): Call -> bool { (c: Call) => c.phase.Waiting? }

  function IsCancelling(): Task -> bool { (t: Task) => t.status.Cancelling? }

  /** Work left for the calls and the tasks they cancelled. */
  function Work(s: State): nat {
    3 * Count(s.calls, IsPending()) + Count(s.calls, IsSuspended()) + Count(s.tasks, IsCancelling())
  }

  /** Every internal step that happens uses some of it up. */
  lemma WorkDecreases(s: State, e: Event)
    requires Consistent(s) && Internal(e) && Enabled(s, e)
    ensures Work(Step(s, e)) < Work(s)
  {
    hide Count;
    match e
    case Begin(k) =>
      var c, n := s.calls[k], Step(s, e);
      CountUpdate(s.calls, k, n.calls[k], IsPending());
      CountUpdate(s.calls, k, n.calls[k], IsSuspended());
      assert n.calls == s.calls[k := n.calls[k]];
      if c.id in s.metrics && s.tasks[s.subs[c.id]].status.Live? {
        var t := s.subs[c.id];
        CountUpdate(s.tasks, t, n.tasks[t], IsCancelling());
        assert n.tasks == s.tasks[t := n.tasks[t]];
      } else {
        assert n.tasks == s.tasks;
      }
    case End(t) => CountUpdate(s.tasks, t, s.tasks[t].(status := Ended), IsCancelling());
    case Resume(k) =>
      CountUpdate(s.calls, k, s.calls[k].(phase := Finished), IsPending());
      CountUpdate(s.calls, k, s.calls[k].(phase := Finished), IsSuspended());
      CountAppend(s.tasks, Task(s.calls[k].id, s.calls[k].bps, Live), IsCancelling());
  }

  /** While some call has not returned, some internal step is possible: no
      interleaving gets stuck before the task group is done. */
  lemma NeverStuck(s: State)
    requires Inv(s) && !Settled(s)
    ensures exists e: Event :: Internal(e) && Enabled(s, e)
  {
    hide Balanced, Awaited, Calm;
    var k: nat :| k < |s.calls| && !s.calls[k].phase.Finished?;
    if s.calls[k].phase.Pending? {
      assert Internal(Begin(k)) && Enabled(s, Begin(k));
    } else {
      var t := s.calls[k].phase.oldTask;
      if s.tasks[t].status.Ended? {
        assert Internal(Resume(k)) && Enabled(s, Resume(k));
      } else {
        assert Internal(End(t)) && Enabled(s, End(t));
      }
    }
  }

  /** Hence every state can be driven to rest by internal steps. */
  lemma {:induction false} Settles(s: State) returns (es: seq<Event>)
    requires Inv(s)
    ensures forall i :: 0 <= i < |es| ==> Internal(es[i])
    ensures Settled(Run(s, es))
    decreases Work(s)
  {
    hide Step, Inv, Work;
    if Settled(s) {
      es := [];
    } else {
      NeverStuck(s);
      var e: Event :| Internal(e) && Enabled(s, e);
      InvConsistent(s);
      WorkDecreases(s, e);
      StepInv(s, e);
      var rest := Settles(Step(s, e));
      es := [e] + rest;
      RunCons(s, e, rest);
    }
  }

  lemma {:induction false} RunCons(s: State, e: Event, es: seq<Event>)
    ensures Run(s, [e] + es) == Run(Step(s, e), es)
  {
    hide Step;
    var all := [e] + es;
    if es == [] {
      assert all[..0] == [] && all[0] == e;
      assert Run(s, all) == Step(Run(s, all[..0]), e);
    } else {
      assert all[..|all| - 1] == [e] + es[..|es| - 1];
      RunCons(s, e, es[..|es| - 1]);
    }
  }

  // ------------------------------------------------------------ the bandwidth

  ghost function Total(rates: map<Id, int>): int {
    if rates == map[] then 0
    else var id :| id in rates; rates[id] + Total(rates - {id})
  }

  lemma {:induction false} TotalConstant(rates: map<Id, int>, share: int)
    requires forall id :: id in rates ==> rates[id] == share
    ensures Total(rates) == |rates| * share
    decreases |rates|
  {
    if rates == map[] {
    } else {
      var id :| id in rates && Total(rates) == share + Total(rates - {id});
      MapWithout(rates, id);
      TotalConstant(rates - {id}, share);
      OneMore(|rates - {id}|, share);
    }
  }

  lemma MapWithout(rates: map<Id, int>, id: Id)
    requires id in rates
    ensures |rates| == |rates - {id}| + 1
  {
    assert (rates - {id}).Keys == rates.Keys - {id};
    assert |rates.Keys| == |rates| && |(rates - {id}).Keys| == |rates - {id}|;
  }

  lemma OneMore(n: int, share: int)
    ensures (n + 1) * share == n * share + share
  {
  }

  /** A fair distribution uses the limit up to less than one unit a metric. */
  lemma FairTotal(s: State, maxBps: int)
    requires s.metrics != map[] && Fair(s, s.metrics.Keys, Share(maxBps, |s.metrics|))
    ensures Total(s.metrics) <= maxBps < Total(s.metrics) + |s.metrics|
  {
    hide Total, Active, Healthy;
    var n, share := |s.metrics|, Share(maxBps, |s.metrics|);
    TotalConstant(s.metrics, share);
    assert maxBps == n * (maxBps / n) + maxBps % n;
  }

  /** The order of summation does not matter. */
  lemma {:induction false} TotalWithout(rates: map<Id, int>, id: Id)
    requires id in rates
    ensures Total(rates) == rates[id] + Total(rates - {id})
    decreases |rates|
  {
    var first :| first in rates && Total(rates) == rates[first] + Total(rates - {first});
    if first != id {
      MapWithout(rates, first);
      MapWithout(rates, id);
      TotalWithout(rates - {first}, id);
      TotalWithout(rates - {id}, first);
      assert rates - {first} - {id} == rates - {id} - {first};
    }
  }

  /** The limit is kept, and used up to less than one unit a metric. */
  ghost predicate WithinLimit(s: State) {
    Total(s.metrics) <= s.maxBps < Total(s.metrics) + |s.metrics|
  }

  predicate Manual(e: Event) {
    e.Spawn? || e.SetMax?
  }

  lemma StepWithin(s: State, e: Event)
    requires Settled(s) && WithinLimit(s) && !Manual(e)
    ensures Settled(Step(s, e)) && WithinLimit(Step(s, e))
  {
    if e.Add? && Enabled(s, e) {
      var n := Step(s, e);
      TotalWithout(n.metrics, e.id);
      assert n.metrics - {e.id} == s.metrics;
      MapWithout(n.metrics, e.id);
    }
  }

  /** From a fair distribution at rest until the next update or change of the
      limit, whatever else happens and however many metrics are discovered, the
      rates on record keep within the limit. */
  lemma {:induction false} BudgetUntilUpdate(s: State, es: seq<Event>)
    requires Settled(s) && s.metrics != map[] && Fair(s, s.metrics.Keys, Share(s.maxBps, |s.metrics|))
    requires forall i :: 0 <= i < |es| ==> !Manual(es[i])
    ensures Settled(Run(s, es)) && WithinLimit(Run(s, es))
  {
    hide Step, Fair, Total, Settled;
    if es == [] {
      FairTotal(s, s.maxBps);
    } else {
      BudgetUntilUpdate(s, es[..|es| - 1]);
      StepWithin(Run(s, es[..|es| - 1]), es[|es| - 1]);
    }
  }
}
