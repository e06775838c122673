/** `MetricSubscribeHandler` (command/src/sync_metric_ids.py) with its fields
    updated in place.  Its coroutines are cut at their awaits; every method is
    tied to the step machine, so the laws of its runs apply. */
module SubscribeHandler {
  import opened Subscriptions
  import opened Redistribution
  import opened Shutdown

  class MetricSubscribeHandler {
    const fair: bool
    var maxBps: int
    var metrics: map<Id, int>
    var metricSubscriptions: map<Id, nat>

    // The event loop's side: every task and every call of update_bps so far.
    var tasks: seq<Task>
    var calls: seq<Call>
    ghost var overlaps: multiset<Id>

    ghost function Snapshot(): State
      reads this
    {
      State(metrics, metricSubscriptions, maxBps, tasks, calls, overlaps)
    }

    constructor (fair: bool, maxBps: int)
      ensures this.fair == fair && Snapshot() == Initial(maxBps) && Inv(Snapshot())
    {
      this.fair, this.maxBps := fair, maxBps;
      metrics, metricSubscriptions, tasks, calls, overlaps := map[], map[], [], [], multiset{};
      new;
      InitialInv(maxBps);
    }

    /** `add_metric` up to its first await.  On a metric already known it would
        overwrite the subscription. */
    method StartSubscription(id: Id)
      modifies this
      ensures Snapshot() == AddMetric(old(Snapshot()), id)
    {
      metrics := metrics[id := 0];
      metricSubscriptions := metricSubscriptions[id := |tasks|];
      tasks := tasks + [Task(id, 0, Live)];
    }

    /** `update_bps` up to `await old_task`. */
    method UpdateBpsBegin(k: nat)
      requires Consistent(Snapshot()) && Enabled(Snapshot(), Begin(k))
      modifies this
      ensures Snapshot() == BeginUpdate(old(Snapshot()), k)
    {
      var c := calls[k];
      if c.id in metrics {
        metrics := metrics[c.id := c.bps];
        var oldTask := metricSubscriptions[c.id];
        if tasks[oldTask].status.Live? {
          tasks := tasks[oldTask := tasks[oldTask].(status := Cancelling)];
        } else {
          overlaps := overlaps + multiset{c.id};
        }
        calls := calls[k := c.(phase := Waiting(oldTask))];
      } else {
        calls := calls[k := c.(phase := Finished)];
      }
    }

    /** `update_bps` from the end of the old task on. */
    method UpdateBpsResume(k: nat)
      requires Enabled(Snapshot(), Resume(k))
      modifies this
      ensures Snapshot() == ResumeUpdate(old(Snapshot()), k)
    {
      var c := calls[k];
      metricSubscriptions := metricSubscriptions[c.id := |tasks|];
      tasks := tasks + [Task(c.id, c.bps, Live)];
      calls := calls[k := c.(phase := Finished)];
    }

    /** One turn of the event loop; an event that is not possible is passed over. */
    method Turn(e: Event)
      requires Consistent(Snapshot())
      modifies this
      ensures Snapshot() == Step(old(Snapshot()), e) && Consistent(Snapshot())
    {
      StepConsistent(Snapshot(), e);
      hide AddMetric, BeginUpdate, ResumeUpdate, Consistent;
      match e
      case Add(id) =>
        if id !in metrics {
          StartSubscription(id);
        }
      case Spawn(id, bps) => calls := calls + [Call(id, bps, Pending)];
      case Begin(k) =>
        if k < |calls| && calls[k].phase.Pending? {
          UpdateBpsBegin(k);
        }
      case End(t) =>
        if t < |tasks| && tasks[t].status.Cancelling? {
          tasks := tasks[t := tasks[t].(status := Ended)];
        }
      case Resume(k) =>
        if k < |calls| && calls[k].phase.Waiting? {
          var t := calls[k].phase.oldTask;
          if t < |tasks| && tasks[t].status.Ended? {
            UpdateBpsResume(k);
          }
        }
      case SetMax(bps) => maxBps := bps;
    }

    /** Whatever the event loop runs while a coroutine is suspended. */
    method Suspend(schedule: seq<Event>)
      requires Consistent(Snapshot())
      modifies this
      ensures Snapshot() == Run(old(Snapshot()), schedule) && Consistent(Snapshot())
    {
      hide Step, Consistent;
      for i := 0 to |schedule|
        invariant Snapshot() == Run(old(Snapshot()), schedule[..i]) && Consistent(Snapshot())
      {
        Turn(schedule[i]);
        assert schedule[..i + 1][..i] == schedule[..i];
      }
      assert schedule[..|schedule|] == schedule;
    }

    /** The task group's loop over the known metrics. */
    method CreateUpdates(bpsPerMetric: int) returns (order: seq<Id>)
      modifies this
      ensures Enumerates(order, old(metrics.Keys))
      ensures Snapshot() == SpawnAll(old(Snapshot()), order, bpsPerMetric)
      ensures |calls| == |old(calls)| + |order|
    {
      order := [];
      var remaining := metrics.Keys;
      assert calls + [] == calls;
      while remaining != {}
        invariant metrics == old(metrics) && remaining <= metrics.Keys
        invariant DistinctIds(order) && forall id :: id in metrics.Keys - remaining <==> id in order
        invariant Snapshot() == SpawnAll(old(Snapshot()), order, bpsPerMetric)
        decreases |remaining|
      {
        var id :| id in remaining;
        assert id !in order;
        calls := calls + [Call(id, bpsPerMetric, Pending)];
        SpawnOne(old(Snapshot()), order, id, bpsPerMetric);
        order := order + [id];
        remaining := remaining - {id};
      }
    }

    /** One call of update_bps, driven to its end. */
    method FinishCall(k: nat) returns (rest: seq<Event>)
      requires Consistent(Snapshot()) && k < |calls|
      modifies this
      ensures Consistent(Snapshot()) && AllInternal(rest) && Snapshot() == Run(old(Snapshot()), rest)
      ensures |calls| == |old(calls)| && calls[k].phase.Finished?
      ensures forall j :: 0 <= j < |calls| && j != k ==> calls[j] == old(calls)[j]
    {
      hide Consistent, Step, Run;
      ghost var s := Snapshot();
      rest := [];
      RunNone(s);
      if calls[k].phase.Pending? {
        BeginMoves(Snapshot(), k);
        Turn(Begin(k));
        rest := rest + [Begin(k)];
        RunLast(s, [], Begin(k));
      }
      if calls[k].phase.Waiting? {
        var t := calls[k].phase.oldTask;
        WaitedOver(Snapshot(), k);
        if tasks[t].status.Cancelling? {
          EndMoves(Snapshot(), t);
          Turn(End(t));
          RunLast(s, rest, End(t));
          rest := rest + [End(t)];
        }
        ResumeMoves(Snapshot(), k);
        Turn(Resume(k));
        RunLast(s, rest, Resume(k));
        rest := rest + [Resume(k)];
      }
    }

    /** Leaving the task group: its calls from `first` up to `last` are awaited. */
    method FinishCalls(first: nat, last: nat) returns (rest: seq<Event>)
      requires Consistent(Snapshot()) && first <= last <= |calls|
      modifies this
      ensures Consistent(Snapshot()) && AllInternal(rest) && Snapshot() == Run(old(Snapshot()), rest)
      ensures |calls| == |old(calls)|
      ensures forall j :: 0 <= j < |calls| ==>
                if first <= j < last then calls[j].phase.Finished? else calls[j] == old(calls)[j]
    {
      hide Consistent, Step, Run;
      rest := [];
      RunNone(Snapshot());
      for k := first to last
        invariant Consistent(Snapshot()) && AllInternal(rest) && Snapshot() == Run(old(Snapshot()), rest)
        invariant |calls| == |old(calls)|
        invariant forall j :: 0 <= j < |calls| ==>
                    if first <= j < k then calls[j].phase.Finished? else calls[j] == old(calls)[j]
      {
        var more := FinishCall(k);
        RunConcat(old(Snapshot()), rest, more);
        rest := rest + more;
      }
    }

    /** `redistribute_bps_fairly`.  Without metrics the division fails and
        nothing changes.  Otherwise the share goes to every metric, `schedule`
        is what happens while the task group is busy, and `rest` what its calls
        still have to do then.  From rest, however the updates interleave, the
        outcome is a fair distribution, at rest again. */
    method RedistributeBpsFairly(schedule: seq<Event>) returns (ok: bool, order: seq<Id>, rest: seq<Event>)
      requires Consistent(Snapshot())
      modifies this
      ensures Consistent(Snapshot())
      ensures Inv(old(Snapshot())) ==> Inv(Snapshot())
      ensures ok <==> old(metrics) != map[]
      ensures !ok ==> Snapshot() == old(Snapshot())
      ensures ok ==> Enumerates(order, old(metrics.Keys)) && AllInternal(rest)
                     && Snapshot() == Run(SpawnAll(old(Snapshot()), order, Share(old(maxBps), |old(metrics)|)), schedule + rest)
      ensures ok ==> forall k :: |old(calls)| <= k < |old(calls)| + |order| ==>
                k < |calls| && calls[k].phase.Finished?
      ensures ok && AtRest(old(Snapshot())) && AllInternal(schedule) ==>
                Distributed(Snapshot(), old(metrics.Keys), old(maxBps))
    {
      hide Consistent, Inv, Step, Run, SpawnAll, Enumerates, Fair, AtRest, CallsUnderWay, Distributed;
      order, rest := [], [];
      if |metrics| == 0 {
        return false, order, rest;
      }
      ok := true;
      ghost var s := Snapshot();
      var bpsPerMetric, first := Share(maxBps, |metrics|), |calls|;
      order := CreateUpdates(bpsPerMetric);
      SpawnAllConsistent(s, order, bpsPerMetric);
      var last := |calls|;
      CallsGrow(Snapshot(), schedule);
      Suspend(schedule);
      rest := FinishCalls(first, last);
      RunConcat(SpawnAll(s, order, bpsPerMetric), schedule, rest);
      if Inv(s) {
        SpawnInv(s, order, bpsPerMetric);
        RunInv(SpawnAll(s, order, bpsPerMetric), schedule + rest);
      }
      if AtRest(s) && AllInternal(schedule) {
        assert AllInternal(schedule + rest);
        RestAgain(s, order, schedule + rest, Snapshot());
      }
    }

    /** `set_max_bps`: the same limit again is ignored; a new one is recorded
        and then distributed, and recorded even when there is nothing to
        distribute it to. */
    method SetMaxBps(bps: int, schedule: seq<Event>) returns (ok: bool, order: seq<Id>, rest: seq<Event>)
      requires Consistent(Snapshot())
      modifies this
      ensures Consistent(Snapshot())
      ensures Inv(old(Snapshot())) ==> Inv(Snapshot())
      ensures bps == old(maxBps) ==> ok && Snapshot() == old(Snapshot())
      ensures bps != old(maxBps) && old(metrics) == map[] ==>
                !ok && Snapshot() == old(Snapshot()).(maxBps := bps)
      ensures bps != old(maxBps) && old(metrics) != map[] ==>
                ok && Enumerates(order, old(metrics.Keys)) && AllInternal(rest)
                && Snapshot() == Run(SpawnAll(old(Snapshot()).(maxBps := bps), order, Share(bps, |old(metrics)|)), schedule + rest)
      ensures bps != old(maxBps) && old(metrics) != map[] && AtRest(old(Snapshot())) && AllInternal(schedule) ==>
                Distributed(Snapshot(), old(metrics.Keys), bps)
    {
      ok, order, rest := true, [], [];
      if bps != maxBps {
        ghost var s := Snapshot();
        LimitChanged(s, bps);
        maxBps := bps;
        assert Snapshot() == s.(maxBps := bps);
        hide Consistent, Inv, Run, SpawnAll, Enumerates, Distributed, AtRest, AllInternal;
        ok, order, rest := RedistributeBpsFairly(schedule);
      }
    }

    /** `add_metric` as a whole: in fair mode a redistribution follows, and
        never fails.  On a metric not yet known the invariant is kept; on a
        known one the subscription is overwritten (see `AddedAgain`). */
    method AddMetricFully(id: Id, schedule: seq<Event>) returns (order: seq<Id>, rest: seq<Event>)
      requires Consistent(Snapshot()) && NoAdds(schedule)
      modifies this
      ensures Consistent(Snapshot()) && metrics.Keys == old(metrics.Keys) + {id}
      ensures Inv(old(Snapshot())) && id !in old(metrics) ==> Inv(Snapshot())
      ensures !fair ==> Snapshot() == AddMetric(old(Snapshot()), id)
      ensures fair ==>
                Enumerates(order, metrics.Keys) && AllInternal(rest)
                && Snapshot() == Run(Shared(AddMetric(old(Snapshot()), id), order), schedule + rest)
      ensures id !in old(metrics) && AtRest(old(Snapshot())) && AllInternal(schedule) ==>
                AtRest(Snapshot()) && maxBps == old(maxBps)
                && (fair ==> Distributed(Snapshot(), metrics.Keys, old(maxBps)))
    {
      ghost var s := Snapshot();
      AddedShape(s, id);
      order, rest := [], [];
      StartSubscription(id);
      if fair {
        hide Inv, Consistent, Run, Fair, AddMetric, SpawnAll, Enumerates, AtRest;
        ghost var t := Snapshot();
        assert t == AddMetric(s, id);
        var ok;
        ok, order, rest := RedistributeBpsFairly(schedule);
        ghost var share := Share(t.maxBps, |t.metrics|);
        SpawnAllConsistent(t, order, share);
        InternalNoAdds(schedule, rest);
        KeysKept(SpawnAll(t, order, share), schedule + rest);
      }
    }

    /** `update_metric_id_list`: afterwards the known metrics are the old ones
        and the listed ones.  Each listed id that was unknown is subscribed
        once, at a moment when it is still unknown: no subscription is
        overwritten, however the suspended redistributions interleave with the
        rest, given that nothing else adds metrics.  Beyond the additions and,
        in fair mode, one redistribution after each, nothing happens; and with
        nothing to add nothing at all.  `orders` and `rests` are those of the
        redistributions. */
    method UpdateMetricIdList(latest: seq<Id>, schedules: seq<seq<Event>>)
      returns (added: seq<Id>, orders: seq<seq<Id>>, rests: seq<seq<Event>>)
      requires Consistent(Snapshot())
      requires forall i: nat :: NoAdds(Nth(schedules, i))
      modifies this
      ensures Consistent(Snapshot())
      ensures metrics.Keys == old(metrics.Keys) + set id | id in latest
      ensures Inv(old(Snapshot())) ==> Inv(Snapshot())
      ensures DistinctIds(added)
      ensures forall id :: id in added <==> id in latest && id !in old(metrics)
      ensures |orders| == |added| && |rests| == |added|
      ensures Snapshot() == AddedUp(old(Snapshot()), fair, added, orders, schedules, rests)
      ensures fair ==> Distributions(old(metrics.Keys), added, orders, rests)
      ensures added == [] ==> Snapshot() == old(Snapshot())
      ensures (forall i: nat :: NoLimits(Nth(schedules, i))) ==> maxBps == old(maxBps)
      ensures !fair ==> AddedPlainly(old(Snapshot()), added, Snapshot())
      ensures AtRest(old(Snapshot())) && (forall i: nat :: AllInternal(Nth(schedules, i))) ==>
                AtRest(Snapshot()) && (fair && added != [] ==> Distributed(Snapshot(), metrics.Keys, old(maxBps)))
      ensures !fair ==> Untouched(old(metrics), metrics) && Untouched(old(metricSubscriptions), metricSubscriptions)
    {
      hide *;
      ghost var calm := AtRest(Snapshot()) && forall i: nat :: AllInternal(Nth(schedules, i));
      ghost var s0 := Snapshot();
      var wanted := set id | id in latest;
      var unknown := wanted - metrics.Keys;
      added, orders, rests := [], [], [];
      NothingAdded(s0, fair, wanted, schedules);
      SnapshotFields();
      while unknown != {}
        invariant Consistent(Snapshot())
        invariant Progressed(s0, fair, wanted, schedules, added, orders, rests, Snapshot(), unknown)
        invariant Inv(s0) ==> Inv(Snapshot())
        invariant calm ==> AtRest(Snapshot()) && maxBps == s0.maxBps
        invariant calm && fair && added != [] ==> Distributed(Snapshot(), metrics.Keys, s0.maxBps)
        decreases |unknown|
      {
        var id :| id in unknown;
        ghost var s := Snapshot();
        StillUnknown(s0, fair, wanted, schedules, added, orders, rests, s, unknown, id);
        SnapshotFields();
        var order, rest := AddMetricFully(id, Nth(schedules, |added|));
        SnapshotFields();
        OneMoreAdded(s0, fair, wanted, schedules, added, orders, rests, s, unknown, id, order, rest, Snapshot());
        added, orders, rests := added + [id], orders + [order], rests + [rest];
        unknown := unknown - {id};
      }
      SnapshotFields();
      AllAdded(s0, fair, wanted, schedules, added, orders, rests, Snapshot());
    }

    lemma SnapshotFields()
      ensures Snapshot().metrics == metrics && Snapshot().subs == metricSubscriptions && Snapshot().maxBps == maxBps
    {
    }

    /** `task.cancel()`. */
    method CancelTask(t: nat)
      requires t < |tasks|
      modifies this
      ensures Snapshot() == Cancel(old(Snapshot()), t) && !tasks[t].status.Live?
    {
      if tasks[t].status.Live? {
        tasks := tasks[t := tasks[t].(status := Cancelling)];
      }
    }

    /** Cancelling the subscription on record for a metric and awaiting it. */
    method StopSubscription(id: Id, schedule: seq<Event>)
      requires Consistent(Snapshot()) && id in metricSubscriptions
      modifies this
      ensures Consistent(Snapshot()) && Snapshot() == ExitOne(old(Snapshot()), id, schedule)
    {
      ghost var before := Snapshot();
      ExitOneConsistent(before, id, schedule);
      var t := metricSubscriptions[id];
      CancelConsistent(before, t);
      CancelTask(t);
      StaysCancelled(Snapshot(), schedule, t);
      hide Consistent, Run, Cancel;
      Suspend(schedule);
      tasks := tasks[t := tasks[t].(status := Ended)];
    }

    /** `__aexit__` after the sync task has stopped.  The subscriptions are
        visited in the order of the dictionary, each the one on record at its
        turn; `schedules` is what other coroutines do while each is awaited. */
    method Exit(schedules: seq<seq<Event>>) returns (order: seq<Id>)
      requires Consistent(Snapshot()) && forall i: nat :: NoAdds(Nth(schedules, i))
      modifies this
      ensures Consistent(old(Snapshot())) && Enumerates(order, old(metricSubscriptions.Keys))
      ensures forall j :: 0 <= j < |order| ==> order[j] in old(metricSubscriptions)
      ensures Snapshot() == ExitAll(old(Snapshot()), order, schedules)
      ensures (forall i: nat :: Nth(schedules, i) == []) ==> Snapshot() == ShutDown(old(Snapshot()))
    {
      hide Consistent, NoAdds, Nth, ExitOne, ShutDown;
      ghost var s := Snapshot();
      order := [];
      var remaining := metricSubscriptions.Keys;
      while remaining != {}
        invariant remaining <= s.subs.Keys
        invariant DistinctIds(order) && forall id :: id in order <==> id in s.subs.Keys - remaining
        invariant forall j :: 0 <= j < |order| ==> order[j] in s.subs
        invariant Snapshot() == ExitAll(s, order, schedules)
        decreases |remaining|
      {
        var id :| id in remaining;
        StopSubscription(id, Nth(schedules, |order|));
        assert (order + [id])[..|order|] == order;
        assert id !in order;
        order := order + [id];
        remaining := remaining - {id};
      }
      if forall i: nat :: Nth(schedules, i) == [] {
        ExitIsShutDown(s, order, schedules);
      }
    }
  }

  /** At rest: no call outstanding and no overlap so far. */
  ghost predicate AtRest(s: State) {
    Inv(s) && Settled(s) && s.overlaps == multiset{}
  }

  ghost predicate AllInternal(es: seq<Event>) {
    forall i :: 0 <= i < |es| ==> Internal(es[i])
  }

  ghost predicate NoAdds(es: seq<Event>) {
    forall i :: 0 <= i < |es| ==> !es[i].Add?
  }

  /** Every entry of `m` is in `n` as it was. */
  ghost predicate Untouched<T>(m: map<Id, T>, n: map<Id, T>) {
    forall id :: id in m ==> id in n && n[id] == m[id]
  }

  // ------------------------------------------------ a list of metrics added

  /** The metrics of `added` added to `s` one after another, in fair mode each
      followed by the redistribution it causes. */
  ghost function AddedUp(s: State, fair: bool, added: seq<Id>, orders: seq<seq<Id>>, schedules: seq<seq<Event>>,
                         rests: seq<seq<Event>>): State
    requires |orders| == |added| && |rests| == |added|
    decreases |added|
  {
    if added == [] then s
    else
      var last := |added| - 1;
      var n := AddMetric(AddedUp(s, fair, added[..last], orders[..last], schedules, rests[..last]), added[last]);
      if fair then Run(Shared(n, orders[last]), Nth(schedules, last) + rests[last]) else n
  }

  /** Each redistribution goes over the metrics known by then, and finishes with
      steps of its own. */
  ghost predicate Distributions(before: set<Id>, added: seq<Id>, orders: seq<seq<Id>>, rests: seq<seq<Event>>) {
    |orders| == |added| && |rests| == |added|
    && forall i :: 0 <= i < |added| ==>
         Enumerates(orders[i], before + IdSet(added[..i + 1])) && AllInternal(rests[i])
  }

  /** In manual mode: each added metric has rate zero and a new subscription of
      that rate; everything else is as it was. */
  ghost predicate AddedPlainly(s: State, added: seq<Id>, n: State) {
    n.maxBps == s.maxBps && n.calls == s.calls && n.overlaps == s.overlaps
    && n.tasks == s.tasks + seq(|added|, i requires 0 <= i < |added| => Task(added[i], 0, Live))
    && n.metrics.Keys == s.metrics.Keys + IdSet(added) && Untouched(s.metrics, n.metrics)
    && n.subs.Keys == s.subs.Keys + IdSet(added) && Untouched(s.subs, n.subs)
    && forall i :: 0 <= i < |added| ==> n.metrics[added[i]] == 0 && n.subs[added[i]] == |s.tasks| + i
  }

  ghost predicate NoLimits(es: seq<Event>) {
    forall i :: 0 <= i < |es| ==> !es[i].SetMax?
  }

  /** What the loop has done so far, and what is left to add. */
  ghost predicate Progressed(s0: State, fair: bool, wanted: set<Id>, schedules: seq<seq<Event>>, added: seq<Id>,
                             orders: seq<seq<Id>>, rests: seq<seq<Event>>, s: State, unknown: set<Id>) {
    AddedSoFar(s0.metrics.Keys, wanted, s.metrics.Keys, unknown, added)
    && |orders| == |added| && |rests| == |added|
    && s == AddedUp(s0, fair, added, orders, schedules, rests)
    && if fair then Distributions(s0.metrics.Keys, added, orders, rests) else AddedPlainly(s0, added, s)
  }

  lemma NothingAdded(s0: State, fair: bool, wanted: set<Id>, schedules: seq<seq<Event>>)
    ensures Progressed(s0, fair, wanted, schedules, [], [], [], s0, wanted - s0.metrics.Keys)
  {
  }

  lemma StillUnknown(s0: State, fair: bool, wanted: set<Id>, schedules: seq<seq<Event>>, added: seq<Id>,
                     orders: seq<seq<Id>>, rests: seq<seq<Event>>, s: State, unknown: set<Id>, id: Id)
    requires Progressed(s0, fair, wanted, schedules, added, orders, rests, s, unknown) && id in unknown
    ensures id !in s.metrics && id !in added
  {
    hide AddedUp, Distributions, AddedPlainly;
  }

  lemma OneMoreAdded(s0: State, fair: bool, wanted: set<Id>, schedules: seq<seq<Event>>, added: seq<Id>,
                     orders: seq<seq<Id>>, rests: seq<seq<Event>>, s: State, unknown: set<Id>,
                     id: Id, order: seq<Id>, rest: seq<Event>, n: State)
    requires Progressed(s0, fair, wanted, schedules, added, orders, rests, s, unknown) && id in unknown && Consistent(s)
    requires n.metrics.Keys == s.metrics.Keys + {id}
    requires if fair then Enumerates(order, n.metrics.Keys) && AllInternal(rest)
                          && n == Run(Shared(AddMetric(s, id), order), Nth(schedules, |added|) + rest)
             else n == AddMetric(s, id)
    ensures Progressed(s0, fair, wanted, schedules, added + [id], orders + [order], rests + [rest], n, unknown - {id})
  {
    hide Enumerates, AllInternal, Run, Shared, AddMetric, Nth, Consistent, AddedUp, Distributions, AddedPlainly, AddedSoFar;
    StillUnknown(s0, fair, wanted, schedules, added, orders, rests, s, unknown, id);
    OneAdded(s0.metrics.Keys, wanted, s.metrics.Keys, unknown, added, id);
    AddedUpMore(s0, fair, added, orders, schedules, rests, id, order, rest);
    KnownSoFar(s0.metrics.Keys, wanted, n.metrics.Keys, unknown - {id}, added + [id]);
    if fair {
      DistributionsMore(s0.metrics.Keys, added, orders, rests, id, order, rest);
    } else {
      AddedPlainlyMore(s0, added, s, id);
    }
  }

  lemma AllAdded(s0: State, fair: bool, wanted: set<Id>, schedules: seq<seq<Event>>, added: seq<Id>,
                 orders: seq<seq<Id>>, rests: seq<seq<Event>>, n: State)
    requires Progressed(s0, fair, wanted, schedules, added, orders, rests, n, {})
    ensures n.metrics.Keys == s0.metrics.Keys + wanted && DistinctIds(added)
    ensures forall id :: id in added <==> id in wanted && id !in s0.metrics
    ensures |orders| == |added| && |rests| == |added| && n == AddedUp(s0, fair, added, orders, schedules, rests)
    ensures added == [] ==> n == s0
    ensures fair ==> Distributions(s0.metrics.Keys, added, orders, rests)
    ensures !fair ==> AddedPlainly(s0, added, n) && Untouched(s0.metrics, n.metrics) && Untouched(s0.subs, n.subs)
    ensures (forall i: nat :: NoLimits(Nth(schedules, i))) ==> n.maxBps == s0.maxBps
  {
    AllWanted(s0.metrics.Keys, wanted, n.metrics.Keys, added);
    hide AddedSoFar, Nth, NoLimits, Enumerates, AllInternal, Run, Shared, AddMetric;
    if fair && forall i: nat :: NoLimits(Nth(schedules, i)) {
      AddedUpLimit(s0, added, orders, schedules, rests);
    }
  }

  lemma AddedUpMore(s: State, fair: bool, added: seq<Id>, orders: seq<seq<Id>>, schedules: seq<seq<Event>>,
                    rests: seq<seq<Event>>, id: Id, order: seq<Id>, rest: seq<Event>)
    requires |orders| == |added| && |rests| == |added|
    ensures var n := AddMetric(AddedUp(s, fair, added, orders, schedules, rests), id);
            AddedUp(s, fair, added + [id], orders + [order], schedules, rests + [rest])
            == if fair then Run(Shared(n, order), Nth(schedules, |added|) + rest) else n
  {
    hide AddMetric, Run, Shared, Nth;
    assert (added + [id])[..|added|] == added && (orders + [order])[..|added|] == orders && (rests + [rest])[..|added|] == rests;
  }

  lemma DistributionsMore(before: set<Id>, added: seq<Id>, orders: seq<seq<Id>>, rests: seq<seq<Event>>,
                          id: Id, order: seq<Id>, rest: seq<Event>)
    requires Distributions(before, added, orders, rests)
    requires Enumerates(order, before + IdSet(added + [id])) && AllInternal(rest)
    ensures Distributions(before, added + [id], orders + [order], rests + [rest])
  {
    hide Enumerates, AllInternal;
    var more := added + [id];
    forall i | 0 <= i < |more|
      ensures Enumerates((orders + [order])[i], before + IdSet(more[..i + 1])) && AllInternal((rests + [rest])[i])
    {
      if i < |added| {
        assert more[..i + 1] == added[..i + 1];
      } else {
        assert more[..i + 1] == more;
      }
    }
  }

  lemma AddedPlainlyMore(s: State, added: seq<Id>, p: State, id: Id)
    requires AddedPlainly(s, added, p) && Consistent(p) && id !in p.metrics
    ensures AddedPlainly(s, added + [id], AddMetric(p, id))
  {
    SameKeys(p);
    hide Consistent, Untouched, IdSet;
    var n, more := AddMetric(p, id), added + [id];
    assert n.tasks == s.tasks + seq(|more|, i requires 0 <= i < |more| => Task(more[i], 0, Live));
    MapMore(s.metrics, added, p.metrics, id, 0);
    MapMore(s.subs, added, p.subs, id, |p.tasks|);
    forall i | 0 <= i < |more| ensures n.metrics[more[i]] == 0 && n.subs[more[i]] == |s.tasks| + i {
      assert i < |added| ==> more[i] == added[i];
    }
  }

  lemma MapMore<T>(m: map<Id, T>, added: seq<Id>, n: map<Id, T>, id: Id, v: T)
    requires n.Keys == m.Keys + IdSet(added) && Untouched(m, n) && id !in n
    ensures n[id := v].Keys == m.Keys + IdSet(added + [id]) && Untouched(m, n[id := v])
    ensures forall i :: 0 <= i < |added| ==> added[i] in n && n[id := v][added[i]] == n[added[i]]
  {
    assert IdSet(added + [id]) == IdSet(added) + {id};
    assert forall i :: 0 <= i < |added| ==> added[i] in IdSet(added);
  }

  lemma {:induction false} RunLimit(s: State, es: seq<Event>)
    requires NoLimits(es)
    ensures Run(s, es).maxBps == s.maxBps
  {
    if es != [] {
      RunLimit(s, es[..|es| - 1]);
    }
  }

  lemma {:induction false} AddedUpLimit(s: State, added: seq<Id>, orders: seq<seq<Id>>, schedules: seq<seq<Event>>, rests: seq<seq<Event>>)
    requires |orders| == |added| && |rests| == |added|
    requires forall i: nat :: NoLimits(Nth(schedules, i))
    requires forall i :: 0 <= i < |rests| ==> AllInternal(rests[i])
    ensures AddedUp(s, true, added, orders, schedules, rests).maxBps == s.maxBps
    decreases |added|
  {
    hide Run, Nth, SpawnAll;
    if added != [] {
      var last := |added| - 1;
      AddedUpLimit(s, added[..last], orders[..last], schedules, rests[..last]);
      var n := AddMetric(AddedUp(s, true, added[..last], orders[..last], schedules, rests[..last]), added[last]);
      SharedLimit(n, orders[last]);
      assert NoLimits(Nth(schedules, last));
      RunLimit(Shared(n, orders[last]), Nth(schedules, last) + rests[last]);
    }
  }

  lemma SharedLimit(s: State, ids: seq<Id>)
    ensures Shared(s, ids).maxBps == s.maxBps
  {
  }

  lemma KnownSoFar(before: set<Id>, wanted: set<Id>, known: set<Id>, unknown: set<Id>, added: seq<Id>)
    requires AddedSoFar(before, wanted, known, unknown, added)
    ensures known == before + IdSet(added)
  {
  }

  /** `added` lists, once each, the wanted ids that were unknown and no longer
      are; `unknown` holds the others. */
  ghost predicate AddedSoFar(before: set<Id>, wanted: set<Id>, known: set<Id>, unknown: set<Id>, added: seq<Id>) {
    before <= known && known !! unknown && unknown <= wanted && known + unknown == before + wanted
    && DistinctIds(added) && forall id :: id in added <==> id in known && id !in before
  }

  lemma OneAdded(before: set<Id>, wanted: set<Id>, known: set<Id>, unknown: set<Id>, added: seq<Id>, id: Id)
    requires AddedSoFar(before, wanted, known, unknown, added) && id in unknown
    ensures id !in known && AddedSoFar(before, wanted, known + {id}, unknown - {id}, added + [id])
  {
    assert id !in added;
  }

  lemma AllWanted(before: set<Id>, wanted: set<Id>, known: set<Id>, added: seq<Id>)
    requires AddedSoFar(before, wanted, known, {}, added)
    ensures known == before + wanted && DistinctIds(added)
    ensures forall id :: id in added <==> id in wanted && id !in before
  {
  }

  /** The redistribution of the limit created for all metrics of `s`. */
  ghost function Shared(s: State, ids: seq<Id>): State {
    SpawnAll(s, ids, if s.metrics == map[] then 0 else Share(s.maxBps, |s.metrics|))
  }

  lemma LimitChanged(s: State, bps: int)
    requires Consistent(s)
    ensures Consistent(s.(maxBps := bps))
    ensures Inv(s) ==> Inv(s.(maxBps := bps))
    ensures AtRest(s) ==> AtRest(s.(maxBps := bps))
  {
    hide Inv;
    assert s.(maxBps := bps) == Step(s, SetMax(bps));
    StepConsistent(s, SetMax(bps));
    hide Step;
    if Inv(s) {
      StepInv(s, SetMax(bps));
    }
  }

  lemma AddedShape(s: State, id: Id)
    requires Consistent(s)
    ensures var t := AddMetric(s, id);
            Consistent(t) && t.metrics.Keys == s.metrics.Keys + {id} && t.metrics != map[] && t.maxBps == s.maxBps
    ensures id !in s.metrics && Inv(s) ==> Inv(AddMetric(s, id))
    ensures id !in s.metrics && AtRest(s) ==> AtRest(AddMetric(s, id))
  {
    AddConsistent(s, id);
    hide Consistent;
    assert id in AddMetric(s, id).metrics;
    if id !in s.metrics {
      AddedToRest(s, id);
      if Inv(s) {
        StepInv(s, Add(id));
        hide Inv, AddMetric;
        assert AddMetric(s, id) == Step(s, Add(id));
      }
    }
  }

  lemma AddedToRest(s: State, id: Id)
    requires Consistent(s) && id !in s.metrics
    ensures var t := AddMetric(s, id);
            Consistent(t) && t.metrics.Keys == s.metrics.Keys + {id} && |t.metrics| == |s.metrics| + 1
            && t.maxBps == s.maxBps && id !in s.subs && (AtRest(s) ==> AtRest(t))
  {
    SameKeys(s);
    AddConsistent(s, id);
    hide Consistent;
    var t := AddMetric(s, id);
    OneKeyMore(s.metrics, id, 0);
    if AtRest(s) {
      StepInv(s, Add(id));
      hide Inv, AddMetric;
      assert t == Step(s, Add(id));
      assert AtRest(t) by { AddSettled(s, id); }
    }
  }

  lemma AddSettled(s: State, id: Id)
    ensures AddMetric(s, id).calls == s.calls && AddMetric(s, id).overlaps == s.overlaps
  {
  }

  lemma OneKeyMore(m: map<Id, int>, id: Id, v: int)
    requires id !in m
    ensures m[id := v].Keys == m.Keys + {id} && |m[id := v]| == |m| + 1
  {
    assert |m[id := v]| == |m[id := v].Keys| && |m| == |m.Keys|;
  }

  /** Fair, with the limit `maxBps` shared among `keys`, and at rest. */
  ghost predicate Distributed(s: State, keys: set<Id>, maxBps: int) {
    AtRest(s) && s.maxBps == maxBps && |keys| >= 1 && Fair(s, keys, Share(maxBps, |keys|))
  }

  /** A redistribution that has ended, from rest, is at rest again. */
  lemma RestAgain(s: State, ids: seq<Id>, es: seq<Event>, n: State)
    requires AtRest(s) && s.metrics != map[] && Enumerates(ids, s.metrics.Keys) && AllInternal(es)
    requires n == Run(SpawnAll(s, ids, Share(s.maxBps, |s.metrics|)), es)
    requires forall k :: |s.calls| <= k < |s.calls| + |ids| && k < |n.calls| ==> n.calls[k].phase.Finished?
    ensures Distributed(n, s.metrics.Keys, s.maxBps)
  {
    hide Inv, Run, Fair, Enumerates, SpawnAll;
    var share := Share(s.maxBps, |s.metrics|);
    SpawnStarts(s, ids, share);
    RunUnderWay(SpawnAll(s, ids, share), |s.calls|, ids, share, es);
    LimitKept(SpawnAll(s, ids, share), es);
    SpawnShape(s, ids, share);
    GroupSettled(n, |s.calls|, ids, share);
    assert AtRest(n);
    RedistributionFair(s, ids, es);
    assert |s.metrics| == |s.metrics.Keys|;
  }

  lemma GroupSettled(n: State, base: nat, ids: seq<Id>, share: int)
    requires UnderWay(n, base, ids, share)
    requires forall k :: base <= k < base + |ids| && k < |n.calls| ==> n.calls[k].phase.Finished?
    ensures Settled(n)
  {
    hide Inv, Enumerates;
  }

  lemma {:induction false} LimitKept(s: State, es: seq<Event>)
    requires AllInternal(es)
    ensures Run(s, es).maxBps == s.maxBps
  {
    if es != [] {
      LimitKept(s, es[..|es| - 1]);
    }
  }

  /** Calls are never forgotten. */
  lemma {:induction false} CallsGrow(s: State, es: seq<Event>)
    ensures |s.calls| <= |Run(s, es).calls|
  {
    if es != [] {
      CallsGrow(s, es[..|es| - 1]);
    }
  }

  lemma InternalNoAdds(schedule: seq<Event>, rest: seq<Event>)
    requires NoAdds(schedule) && AllInternal(rest)
    ensures NoAdds(schedule + rest)
  {
  }

  lemma RunNone(s: State)
    ensures Run(s, []) == s
  {
  }

  lemma {:induction false} RunConcat(s: State, es: seq<Event>, fs: seq<Event>)
    ensures Run(s, es + fs) == Run(Run(s, es), fs)
  {
    hide Step;
    if fs == [] {
      assert es + fs == es;
    } else {
      var last := |fs| - 1;
      RunConcat(s, es, fs[..last]);
      assert (es + fs)[..|es + fs| - 1] == es + fs[..last];
    }
  }

  lemma BeginMoves(s: State, k: nat)
    requires Enabled(s, Begin(k))
    ensures var n := Step(s, Begin(k)); |n.calls| == |s.calls| && n.calls == s.calls[k := n.calls[k]] && !n.calls[k].phase.Pending?
  {
  }

  lemma WaitedOver(s: State, k: nat)
    requires Consistent(s) && k < |s.calls| && s.calls[k].phase.Waiting?
    ensures s.calls[k].phase.oldTask < |s.tasks| && !s.tasks[s.calls[k].phase.oldTask].status.Live?
  {
  }

  lemma EndMoves(s: State, t: nat)
    requires Enabled(s, End(t))
    ensures var n := Step(s, End(t)); n.calls == s.calls && |n.tasks| == |s.tasks| && n.tasks[t].status.Ended?
  {
  }

  lemma ResumeMoves(s: State, k: nat)
    requires Enabled(s, Resume(k))
    ensures var n := Step(s, Resume(k)); |n.calls| == |s.calls| && n.calls == s.calls[k := n.calls[k]] && n.calls[k].phase.Finished?
  {
  }

  lemma SpawnOne(s: State, ids: seq<Id>, id: Id, share: int)
    ensures SpawnAll(s, ids + [id], share) ==
            SpawnAll(s, ids, share).(calls := SpawnAll(s, ids, share).calls + [Call(id, share, Pending)])
  {
    assert SpawnAll(s, ids + [id], share).calls == SpawnAll(s, ids, share).calls + [Call(id, share, Pending)];
  }

  lemma SpawnAllConsistent(s: State, ids: seq<Id>, share: int)
    requires Consistent(s)
    ensures Consistent(SpawnAll(s, ids, share)) && SpawnAll(s, ids, share).metrics == s.metrics
  {
    var n := SpawnAll(s, ids, share);
    assert forall k :: 0 <= k < |n.calls| && n.calls[k].phase.Waiting? ==> k < |s.calls| && n.calls[k] == s.calls[k];
  }

  /** Without `Add` the set of known metrics stays as it is. */
  lemma {:induction false} KeysKept(s: State, es: seq<Event>)
    requires Consistent(s) && NoAdds(es)
    ensures Consistent(Run(s, es)) && Run(s, es).metrics.Keys == s.metrics.Keys
  {
    hide Step, Consistent;
    SameKeys(s);
    if es != [] {
      var p := Run(s, es[..|es| - 1]);
      KeysKept(s, es[..|es| - 1]);
      StepConsistent(p, es[|es| - 1]);
      StepKeys(p, es[|es| - 1]);
      SameKeys(p);
      SameKeys(Step(p, es[|es| - 1]));
    }
  }
}
