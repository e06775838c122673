/** Leaving the handler (command/src/sync_metric_ids.py, `__aexit__`): which
    subscriptions it stops and which go on running. */
module Shutdown {
  import opened Subscriptions
  import opened Redistribution

  /** `__aexit__` with nothing else going on: the subscription on record for
      each metric is cancelled and awaited. */
  function ShutDown(s: State): State {
    s.(tasks := seq(|s.tasks|, t requires 0 <= t < |s.tasks| =>
         if s.tasks[t].id in s.subs && s.subs[s.tasks[t].id] == t then s.tasks[t].(status := Ended)
         else s.tasks[t]))
  }

  lemma {:induction false} LiveWithout(tasks: seq<Task>, becomes: seq<Task>, t: nat, id: Id)
    requires t < |tasks| && IsLive(id)(tasks[t]) && |becomes| == |tasks|
    requires forall u :: 0 <= u < |tasks| && tasks[u].id == id ==>
               becomes[u] == if u == t then tasks[u].(status := Ended) else tasks[u]
    requires forall u :: 0 <= u < |tasks| && tasks[u].id != id ==> becomes[u].id != id
    ensures Count(becomes, IsLive(id)) == Count(tasks, IsLive(id)) - 1
  {
    var marked := tasks[t := tasks[t].(status := Ended)];
    CountUpdate(tasks, t, marked[t], IsLive(id));
    SameCount(marked, becomes, IsLive(id));
  }

  lemma {:induction false} SameCount<T>(xs: seq<T>, ys: seq<T>, p: T -> bool)
    requires |xs| == |ys| && forall i :: 0 <= i < |xs| ==> p(xs[i]) == p(ys[i])
    ensures Count(xs, p) == Count(ys, p)
  {
    if xs != [] {
      SameCount(xs[..|xs| - 1], ys[..|ys| - 1], p);
    }
  }

  lemma ShutDownOne(s: State, id: Id)
    requires SubsPoint(s) && id in s.subs && s.tasks[s.subs[id]].status.Live?
    ensures Healthy(ShutDown(s), id) == Healthy(s, id) - 1
  {
    hide Count;
    LiveWithout(s.tasks, ShutDown(s).tasks, s.subs[id], id);
  }

  /** Shutting down with nothing else going on: nothing of a metric remains,
      running or about to be created by an update in flight, if and only if no
      start overlapped and no update is in flight.  With none in flight, as many
      go on running as there were overlapping starts. */
  lemma ShutDownLeaks(s: State, id: Id)
    requires Inv(s) && id in s.metrics
    ensures Healthy(ShutDown(s), id) + InFlight(ShutDown(s), id) == 0 <==>
            s.overlaps[id] == 0 && InFlight(s, id) == 0
    ensures InFlight(s, id) == 0 ==> Healthy(ShutDown(s), id) == s.overlaps[id]
  {
    if InFlight(s, id) == 0 {
      QuietCurrent(s, id);
      InvConsistent(s);
      hide Inv, Healthy, InFlight;
      ShutDownOne(s, id);
    }
  }

  /** Adding a metric keeps to one subscription if and only if the metric was not
      known.  On a known one, the subscription that is overwritten goes on
      running beside the new one, also after shutting down. */
  lemma AddedAgain(s: State, id: Id)
    requires Inv(s)
    ensures var n := AddMetric(s, id);
            Healthy(n, id) + InFlight(n, id) == 1 + n.overlaps[id] <==> id !in s.metrics
    ensures var n := AddMetric(s, id);
            id in s.metrics ==>
              n.metrics == s.metrics[id := 0] && n.subs[id] != s.subs[id]
              && n.tasks[s.subs[id]] == s.tasks[s.subs[id]]
              && Healthy(n, id) + InFlight(n, id) == 2 + n.overlaps[id]
              && Healthy(ShutDown(n), id) + InFlight(n, id) == 1 + n.overlaps[id]
  {
    InvConsistent(s);
    SameKeys(s);
    AddConsistent(s, id);
    CountAppend(s.tasks, Task(id, 0, Live), IsLive(id));
    if id in s.metrics {
      InvBalanced(s, id);
    } else {
      UnknownCounts(s, id);
    }
    hide Count, Inv, TasksKnown, WaitsKnown;
    ShutDownOne(AddMetric(s, id), id);
  }

  // ------------------------------------------- while other coroutines still run

  /** The schedule of the `i`th suspension; nothing happens in those not listed. */
  function Nth(schedules: seq<seq<Event>>, i: nat): seq<Event> {
    if i < |schedules| then schedules[i] else []
  }

  /** `task.cancel()`. */
  function Cancel(s: State, t: nat): State
    requires t < |s.tasks|
  {
    if s.tasks[t].status.Live? then s.(tasks := s.tasks[t := s.tasks[t].(status := Cancelling)]) else s
  }

  /** Cancelling a metric's current subscription, and waiting for it while `es`
      happens. */
  ghost function ExitOne(s: State, id: Id, es: seq<Event>): State
    requires Consistent(s) && id in s.subs
  {
    CancelConsistent(s, s.subs[id]);
    RunConsistent(Cancel(s, s.subs[id]), es);
    EndTask(Run(Cancel(s, s.subs[id]), es), s.subs[id])
  }

  /** The loop over the metrics, in the order of the dictionary. */
  ghost function ExitAll(s: State, ids: seq<Id>, schedules: seq<seq<Event>>): (n: State)
    requires Consistent(s) && forall j :: 0 <= j < |ids| ==> ids[j] in s.subs
    ensures Consistent(n) && s.subs.Keys <= n.subs.Keys
    decreases |ids|
  {
    if ids == [] then s
    else
      var p := ExitAll(s, ids[..|ids| - 1], schedules);
      ExitOneConsistent(p, ids[|ids| - 1], Nth(schedules, |ids| - 1));
      ExitOne(p, ids[|ids| - 1], Nth(schedules, |ids| - 1))
  }

  lemma CancelConsistent(s: State, t: nat)
    requires Consistent(s) && t < |s.tasks|
    ensures Consistent(Cancel(s, t)) && Cancel(s, t).subs == s.subs
  {
  }

  lemma {:induction false} RunConsistent(s: State, es: seq<Event>)
    requires Consistent(s)
    ensures Consistent(Run(s, es)) && s.subs.Keys <= Run(s, es).subs.Keys && |s.tasks| <= |Run(s, es).tasks|
  {
    hide Step, Consistent;
    if es != [] {
      var p := Run(s, es[..|es| - 1]);
      RunConsistent(s, es[..|es| - 1]);
      StepConsistent(p, es[|es| - 1]);
      StepKeys(p, es[|es| - 1]);
      TasksGrow(p, es[|es| - 1]);
    }
  }

  lemma TasksGrow(s: State, e: Event)
    ensures |s.tasks| <= |Step(s, e).tasks|
    ensures forall t :: 0 <= t < |s.tasks| && !s.tasks[t].status.Live? ==>
              Step(s, e).tasks[t].id == s.tasks[t].id && !Step(s, e).tasks[t].status.Live?
  {
  }

  /** A cancelled task never runs again. */
  lemma {:induction false} StaysCancelled(s: State, es: seq<Event>, t: nat)
    requires t < |s.tasks| && !s.tasks[t].status.Live?
    ensures var n := Run(s, es); t < |n.tasks| && n.tasks[t].id == s.tasks[t].id && !n.tasks[t].status.Live?
  {
    hide Step;
    if es != [] {
      StaysCancelled(s, es[..|es| - 1], t);
      TasksGrow(Run(s, es[..|es| - 1]), es[|es| - 1]);
    }
  }

  lemma ExitOneConsistent(s: State, id: Id, es: seq<Event>)
    requires Consistent(s) && id in s.subs
    ensures Consistent(ExitOne(s, id, es)) && s.subs.Keys <= ExitOne(s, id, es).subs.Keys
  {
    var t := s.subs[id];
    CancelConsistent(s, t);
    RunConsistent(Cancel(s, t), es);
    StaysCancelled(Cancel(s, t), es, t);
    hide Run, Cancel;
    EndedConsistent(Run(Cancel(s, t), es), t);
  }

  lemma EndedConsistent(s: State, t: nat)
    requires Consistent(s) && t < |s.tasks|
    ensures Consistent(EndTask(s, t))
  {
  }

  /** What conservation keeps constant for each metric. */
  function Balance(s: State, id: Id): int {
    Healthy(s, id) + InFlight(s, id) - s.overlaps[id]
  }

  lemma {:induction false} RunBalance(s: State, es: seq<Event>, id: Id)
    requires Consistent(s) && id in s.subs
    ensures Consistent(Run(s, es)) && id in Run(s, es).subs && Balance(Run(s, es), id) == Balance(s, id)
  {
    hide Step, Consistent, Healthy, InFlight;
    RunConsistent(s, es);
    if es != [] {
      var p, e := Run(s, es[..|es| - 1]), es[|es| - 1];
      RunBalance(s, es[..|es| - 1], id);
      KnownNotAdded(p, id);
      if Enabled(p, e) {
        CountsMove(p, e, id);
      } else {
        Disabled(p, e);
      }
    }
  }

  lemma CancelBalance(s: State, t: nat, id: Id)
    requires t < |s.tasks|
    ensures Balance(Cancel(s, t), id) == Balance(s, id) - One(IsLive(id)(s.tasks[t]))
  {
    hide Count;
    if s.tasks[t].status.Live? {
      CountUpdate(s.tasks, t, s.tasks[t].(status := Cancelling), IsLive(id));
    }
  }

  lemma EndedBalance(s: State, t: nat, id: Id)
    requires t < |s.tasks| && !s.tasks[t].status.Live?
    ensures Balance(EndTask(s, t), id) == Balance(s, id)
  {
    hide Count;
    CountUpdate(s.tasks, t, s.tasks[t].(status := Ended), IsLive(id));
  }

  ghost predicate CurrentRuns(s: State, id: Id)
    requires SubsPoint(s) && id in s.subs
  {
    s.tasks[s.subs[id]].status.Live?
  }

  lemma ExitOneBalance(s: State, id: Id, es: seq<Event>, other: Id)
    requires Consistent(s) && id in s.subs && other in s.subs
    ensures Balance(ExitOne(s, id, es), other) == Balance(s, other) - One(other == id && CurrentRuns(s, id))
  {
    var t := s.subs[id];
    CancelConsistent(s, t);
    CancelBalance(s, t, other);
    assert !Cancel(s, t).tasks[t].status.Live?;
    hide Balance, Run, Cancel;
    RunBalance(Cancel(s, t), es, other);
    StaysCancelled(Cancel(s, t), es, t);
    EndedBalance(Run(Cancel(s, t), es), t, other);
  }

  /** Whether the current subscription of the `j`th metric runs at its turn. */
  ghost predicate RunsAtTurn(s: State, ids: seq<Id>, schedules: seq<seq<Event>>, j: nat)
    requires Consistent(s) && j < |ids| && forall i :: 0 <= i < |ids| ==> ids[i] in s.subs
  {
    CurrentRuns(ExitAll(s, ids[..j], schedules), ids[j])
  }

  /** Metrics whose turn has not come keep their balance. */
  lemma {:induction false} ExitElsewhere(s: State, ids: seq<Id>, schedules: seq<seq<Event>>, other: Id)
    requires Consistent(s) && other in s.subs && other !in ids
    requires forall j :: 0 <= j < |ids| ==> ids[j] in s.subs
    ensures Balance(ExitAll(s, ids, schedules), other) == Balance(s, other)
    decreases |ids|
  {
    if ids != [] {
      hide Balance, ExitOne, CurrentRuns, Consistent;
      var last := |ids| - 1;
      ExitElsewhere(s, ids[..last], schedules, other);
      PointsOf(ExitAll(s, ids[..last], schedules));
      ExitOneBalance(ExitAll(s, ids[..last], schedules), ids[last], Nth(schedules, last), other);
    }
  }

  lemma {:induction false} ExitBalance(s: State, ids: seq<Id>, schedules: seq<seq<Event>>, j: nat)
    requires Consistent(s) && DistinctIds(ids) && j < |ids|
    requires forall i :: 0 <= i < |ids| ==> ids[i] in s.subs
    ensures Balance(ExitAll(s, ids, schedules), ids[j]) == Balance(s, ids[j]) - One(RunsAtTurn(s, ids, schedules, j))
    decreases |ids|
  {
    hide Balance, ExitOne, CurrentRuns, Consistent;
    var last := |ids| - 1;
    var p := ExitAll(s, ids[..last], schedules);
    PointsOf(p);
    ExitOneBalance(p, ids[last], Nth(schedules, last), ids[j]);
    if j == last {
      ExitElsewhere(s, ids[..last], schedules, ids[last]);
    } else {
      ExitBalance(s, ids[..last], schedules, j);
      assert ids[..last][..j] == ids[..j];
    }
  }

  lemma PointsOf(s: State)
    requires Consistent(s)
    ensures SubsPoint(s)
  {
  }

  /** How many remain, whatever other coroutines do while the handler waits for
      each of its subscriptions: of a metric there remain, running or about to be created by
      an update in flight, as many subscriptions as there were overlapping
      starts, and one more if its current subscription was already cancelled by
      an update when its turn came. */
  lemma ExitLeaks(s: State, ids: seq<Id>, schedules: seq<seq<Event>>, j: nat)
    requires Inv(s) && Enumerates(ids, s.subs.Keys) && j < |ids|
    ensures Consistent(s) && (forall i :: 0 <= i < |ids| ==> ids[i] in s.subs)
    ensures var n := ExitAll(s, ids, schedules);
            Healthy(n, ids[j]) + InFlight(n, ids[j]) ==
            n.overlaps[ids[j]] + One(!RunsAtTurn(s, ids, schedules, j))
  {
    InKeys(ids, s.subs.Keys);
    InvConsistent(s);
    SameKeys(s);
    InvBalanced(s, ids[j]);
    assert DistinctIds(ids);
    hide Inv, Consistent, Healthy, InFlight, ExitAll, RunsAtTurn, Enumerates;
    ExitBalance(s, ids, schedules, j);
  }

  // --------------------------------------------------------- nothing in between

  lemma {:induction false} ExitAlone(s: State, ids: seq<Id>, schedules: seq<seq<Event>>)
    requires Consistent(s) && DistinctIds(ids) && forall j :: 0 <= j < |ids| ==> ids[j] in s.subs
    requires forall i: nat :: Nth(schedules, i) == []
    ensures ExitAll(s, ids, schedules) == s.(tasks := EndedOf(s, ids))
    decreases |ids|
  {
    if ids == [] {
      assert EndedOf(s, ids) == s.tasks;
    } else {
      var last := |ids| - 1;
      ExitAlone(s, ids[..last], schedules);
      hide Consistent;
      PointsOf(s);
      var p := s.(tasks := EndedOf(s, ids[..last]));
      var t := s.subs[ids[last]];
      assert Run(Cancel(p, t), []) == Cancel(p, t);
      assert EndTask(Cancel(p, t), t).tasks == EndedOf(s, ids) by { OneMoreEnded(s, ids); }
    }
  }

  function EndedOf(s: State, ids: seq<Id>): seq<Task> {
    seq(|s.tasks|, t requires 0 <= t < |s.tasks| =>
      if s.tasks[t].id in ids && s.tasks[t].id in s.subs && s.subs[s.tasks[t].id] == t
      then s.tasks[t].(status := Ended) else s.tasks[t])
  }

  lemma OneMoreEnded(s: State, ids: seq<Id>)
    requires SubsPoint(s) && ids != [] && ids[|ids| - 1] in s.subs
    ensures var last := |ids| - 1;
            var t := s.subs[ids[last]];
            var p := s.(tasks := EndedOf(s, ids[..last]));
            EndTask(Cancel(p, t), t).tasks == EndedOf(s, ids)
  {
    var last := |ids| - 1;
    assert forall id :: id in ids <==> id in ids[..last] || id == ids[last];
  }

  /** With nothing going on meanwhile, the loop is `ShutDown`. */
  lemma ExitIsShutDown(s: State, ids: seq<Id>, schedules: seq<seq<Event>>)
    requires Consistent(s) && Enumerates(ids, s.subs.Keys)
    requires forall i: nat :: Nth(schedules, i) == []
    ensures forall j :: 0 <= j < |ids| ==> ids[j] in s.subs
    ensures ExitAll(s, ids, schedules) == ShutDown(s)
  {
    InKeys(ids, s.subs.Keys);
    assert DistinctIds(ids);
    ExitAlone(s, ids, schedules);
    hide ExitAll;
    assert EndedOf(s, ids) == ShutDown(s).tasks;
  }
}
