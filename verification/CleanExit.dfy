/** When leaving the handler (command/src/sync_metric_ids.py, `__aexit__`)
    leaves nothing behind, while other coroutines still run: the condition is on
    the handler's state and on what the schedules of its suspensions start. */
module CleanExit {
  import opened Subscriptions
  import opened Redistribution
  import opened Shutdown

  /** Nothing of the metric runs or is about to be created. */
  ghost predicate NothingRemains(s: State, id: Id) {
    Healthy(s, id) + InFlight(s, id) == 0
  }

  /** No update of the metric starts in `es`. */
  ghost predicate NoneStarts(s: State, es: seq<Event>, id: Id) {
    es == [] || (NoneStarts(s, es[..|es| - 1], id) && !Starts(Run(s, es[..|es| - 1]), es[|es| - 1], id))
  }

  // ------------------------------------------------ before the metric's turn

  /** What the invariant says of one metric; it outlives the shutting down of
      the others. */
  ghost predicate Sound(s: State, id: Id) {
    Consistent(s) && id in s.subs && Balance(s, id) == 1 && AwaitedAt(s, id)
  }

  lemma InvSound(s: State, id: Id)
    requires Inv(s) && id in s.subs
    ensures Sound(s, id)
  {
    hide Healthy, InFlight;
  }

  /** Without overlaps the current subscription runs exactly when no update is in
      flight. */
  lemma RunsExactly(s: State, id: Id)
    requires Sound(s, id) && s.overlaps[id] == 0
    ensures s.subs[id] < |s.tasks| && (s.tasks[s.subs[id]].status.Live? <==> InFlight(s, id) == 0)
  {
    hide Count;
    if s.tasks[s.subs[id]].status.Live? {
      CountOthers(s.tasks, s.subs[id], IsLive(id));
    } else {
      var k :| 0 <= k < |s.calls| && WaitsOn(s.calls[k], id, s.subs[id]);
      CountOthers(s.calls, k, IsWaiting(id));
    }
  }

  lemma StepAwaitedAt(s: State, e: Event, id: Id)
    requires Consistent(s) && id in s.subs && AwaitedAt(s, id)
    ensures Consistent(Step(s, e)) && id in Step(s, e).subs && AwaitedAt(Step(s, e), id)
  {
    StepConsistent(s, e);
    hide BeginUpdate, ResumeUpdate, EndTask, AddMetric, Consistent, AwaitedAt;
    if Enabled(s, e) {
      StepKeys(s, e);
      match e
      case Add(i) => AddAwaited(s, i, id);
      case Spawn(i, bps) => SpawnAwaited(s, i, bps, id);
      case Begin(k) => BeginAwaited(s, k, id);
      case End(t) => EndAwaited(s, t, id);
      case Resume(k) => ResumeAwaited(s, k, id);
      case SetMax(bps) => LimitAwaited(s, bps, id);
    } else {
      Disabled(s, e);
    }
  }

  lemma LimitAwaited(s: State, bps: int, id: Id)
    requires Consistent(s) && id in s.subs && AwaitedAt(s, id)
    ensures Consistent(s.(maxBps := bps)) && AwaitedAt(s.(maxBps := bps), id)
  {
  }

  /** One event keeps the balance of a known metric. */
  lemma StepBalance(s: State, e: Event, id: Id)
    requires Consistent(s) && id in s.subs
    ensures Consistent(Step(s, e)) && id in Step(s, e).subs && Balance(Step(s, e), id) == Balance(s, id)
  {
    hide Balance, Consistent, Step;
    assert [e][..0] == [] && Run(s, [e]) == Step(s, e);
    RunBalance(s, [e], id);
  }

  /** A start overlaps exactly when the current subscription no longer runs. */
  lemma OverlapsBy(s: State, e: Event, id: Id)
    requires Consistent(s) && id in s.subs
    ensures s.subs[id] < |s.tasks|
    ensures Step(s, e).overlaps[id] ==
            s.overlaps[id] + if Starts(s, e, id) && !s.tasks[s.subs[id]].status.Live? then 1 else 0
  {
    hide WaitsKnown, TasksKnown;
  }

  lemma SoundStep(s: State, e: Event, id: Id)
    requires Sound(s, id)
    ensures Sound(Step(s, e), id)
    ensures Step(s, e).overlaps[id] == 0 <==> s.overlaps[id] == 0 && StartsAlone(s, e, id)
  {
    StepAwaitedAt(s, e, id);
    StepBalance(s, e, id);
    OverlapsBy(s, e, id);
    if s.overlaps[id] == 0 {
      RunsExactly(s, id);
    }
    hide Step, Consistent, Balance, AwaitedAt, InFlight, Starts;
  }

  lemma {:induction false} SoundRun(s: State, es: seq<Event>, id: Id)
    requires Sound(s, id)
    ensures Sound(Run(s, es), id)
    ensures Run(s, es).overlaps[id] == 0 <==> s.overlaps[id] == 0 && AllAlone(s, es, id)
  {
    hide Step, Sound, StartsAlone;
    if es == [] {
    } else {
      var last := |es| - 1;
      SoundRun(s, es[..last], id);
      SoundStep(Run(s, es[..last]), es[last], id);
    }
  }

  /** Shutting down another metric's subscription. */
  lemma SoundElsewhere(s: State, other: Id, es: seq<Event>, id: Id)
    requires Sound(s, id) && other in s.subs && other != id
    ensures Consistent(s) && s.subs[other] < |s.tasks|
    ensures Sound(ExitOne(s, other, es), id)
    ensures ExitOne(s, other, es).overlaps[id] == 0 <==>
            s.overlaps[id] == 0 && AllAlone(Cancel(s, s.subs[other]), es, id)
  {
    var t := s.subs[other];
    CancelElsewhere(s, t, id);
    var d := Cancel(s, t);
    assert !d.tasks[t].status.Live? && d.tasks[t].id == other;
    ExitOneBalance(s, other, es, id);
    ExitOneConsistent(s, other, es);
    StaysCancelled(d, es, t);
    hide Sound, Cancel, Run;
    SoundRun(d, es, id);
    EndElsewhere(Run(d, es), t, id);
  }

  lemma CancelElsewhere(s: State, t: nat, id: Id)
    requires Sound(s, id) && t < |s.tasks| && s.tasks[t].id != id
    ensures Sound(Cancel(s, t), id) && Cancel(s, t).overlaps == s.overlaps
  {
    CancelConsistent(s, t);
    CancelBalance(s, t, id);
    hide Balance, TasksKnown, WaitsKnown;
    if !s.tasks[s.subs[id]].status.Live? {
      var k :| 0 <= k < |s.calls| && WaitsOn(s.calls[k], id, s.subs[id]);
      assert WaitsOn(Cancel(s, t).calls[k], id, Cancel(s, t).subs[id]);
    }
  }

  lemma EndElsewhere(s: State, t: nat, id: Id)
    requires Sound(s, id) && t < |s.tasks| && s.tasks[t].id != id && !s.tasks[t].status.Live?
    ensures Sound(EndTask(s, t), id) && EndTask(s, t).overlaps == s.overlaps
  {
    EndedConsistent(s, t);
    EndedBalance(s, t, id);
    hide Balance, TasksKnown, WaitsKnown;
    if !s.tasks[s.subs[id]].status.Live? {
      var k :| 0 <= k < |s.calls| && WaitsOn(s.calls[k], id, s.subs[id]);
      assert WaitsOn(EndTask(s, t).calls[k], id, EndTask(s, t).subs[id]);
    }
  }

  // ---------------------------------------------- from the metric's turn on

  /** The metric's one subscription has been stopped. */
  ghost predicate Stopped(s: State, id: Id) {
    Consistent(s) && id in s.subs && Balance(s, id) == 0
  }

  lemma StoppedStep(s: State, e: Event, id: Id)
    requires Stopped(s, id)
    ensures Stopped(Step(s, e), id)
    ensures Step(s, e).overlaps[id] == 0 <==> s.overlaps[id] == 0 && !Starts(s, e, id)
  {
    StepBalance(s, e, id);
    OverlapsBy(s, e, id);
    if s.overlaps[id] == 0 {
      NotRunning(s, id);
    }
    hide Step, Consistent, Balance, Starts;
  }

  lemma NotRunning(s: State, id: Id)
    requires Stopped(s, id) && s.overlaps[id] == 0
    ensures s.subs[id] < |s.tasks| && !s.tasks[s.subs[id]].status.Live?
  {
    hide Count;
    CountNone(s.tasks, IsLive(id));
    assert !IsLive(id)(s.tasks[s.subs[id]]);
  }

  lemma {:induction false} StoppedRun(s: State, es: seq<Event>, id: Id)
    requires Stopped(s, id)
    ensures Stopped(Run(s, es), id)
    ensures Run(s, es).overlaps[id] == 0 <==> s.overlaps[id] == 0 && NoneStarts(s, es, id)
  {
    hide Step, Stopped, Starts;
    if es == [] {
    } else {
      var last := |es| - 1;
      StoppedRun(s, es[..last], id);
      StoppedStep(Run(s, es[..last]), es[last], id);
    }
  }

  /** One turn, the metric's own while its subscription runs or a later one. */
  lemma StoppedTurn(s: State, other: Id, es: seq<Event>, id: Id)
    requires Consistent(s) && id in s.subs && other in s.subs && s.subs[other] < |s.tasks|
    requires if other == id then Sound(s, id) && s.tasks[s.subs[id]].status.Live? else Stopped(s, id)
    ensures Stopped(ExitOne(s, other, es), id)
    ensures ExitOne(s, other, es).overlaps[id] == 0 <==>
            s.overlaps[id] == 0 && NoneStarts(Cancel(s, s.subs[other]), es, id)
  {
    var t := s.subs[other];
    var d := Cancel(s, t);
    CancelConsistent(s, t);
    CancelBalance(s, t, id);
    assert s.tasks[t].id == other && !d.tasks[t].status.Live? && d.overlaps == s.overlaps;
    assert Stopped(d, id);
    ExitOneConsistent(s, other, es);
    ExitOneBalance(s, other, es, id);
    hide Cancel, Run, Balance, Consistent;
    StoppedRun(d, es, id);
  }

  // --------------------------------------------------------------- the whole exit

  /** The loop can go over these metrics. */
  ghost predicate Visits(s: State, ids: seq<Id>) {
    Consistent(s) && DistinctIds(ids) && forall i :: 0 <= i < |ids| ==> ids[i] in s.subs
  }

  /** The state when the turn of the `i`th metric comes. */
  ghost function AtTurn(s: State, ids: seq<Id>, schedules: seq<seq<Event>>, i: nat): (p: State)
    requires Visits(s, ids) && i <= |ids|
    ensures Consistent(p) && s.subs.Keys <= p.subs.Keys && SubsPoint(p)
  {
    var p := ExitAll(s, ids[..i], schedules);
    PointsOf(p);
    p
  }

  /** The state in which the loop begins to wait for it. */
  ghost function During(s: State, ids: seq<Id>, schedules: seq<seq<Event>>, i: nat): State
    requires Visits(s, ids) && i < |ids|
  {
    var p := AtTurn(s, ids, schedules, i);
    Cancel(p, p.subs[ids[i]])
  }

  lemma NextTurn(s: State, ids: seq<Id>, schedules: seq<seq<Event>>, i: nat)
    requires Visits(s, ids) && i < |ids|
    ensures AtTurn(s, ids, schedules, i + 1) == ExitOne(AtTurn(s, ids, schedules, i), ids[i], Nth(schedules, i))
  {
    hide ExitOne;
    assert ids[..i + 1][..i] == ids[..i];
  }

  lemma FirstTurn(s: State, ids: seq<Id>, schedules: seq<seq<Event>>)
    requires Visits(s, ids)
    ensures AtTurn(s, ids, schedules, 0) == s
  {
    assert ids[..0] == [];
  }

  lemma OneBefore(s: State, ids: seq<Id>, schedules: seq<seq<Event>>, id: Id, i: nat)
    requires Visits(s, ids) && i < |ids| && ids[i] != id && Sound(AtTurn(s, ids, schedules, i), id)
    ensures Sound(AtTurn(s, ids, schedules, i + 1), id)
    ensures AtTurn(s, ids, schedules, i + 1).overlaps[id] == 0 <==>
            AtTurn(s, ids, schedules, i).overlaps[id] == 0 && AllAlone(During(s, ids, schedules, i), Nth(schedules, i), id)
  {
    NextTurn(s, ids, schedules, i);
    var p := AtTurn(s, ids, schedules, i);
    assert ids[i] in p.subs;
    hide Sound, AllAlone, ExitOne, Cancel, ExitAll, AtTurn, Nth, Consistent, SubsPoint;
    SoundElsewhere(p, ids[i], Nth(schedules, i), id);
  }

  lemma {:induction false} TurnsBefore(s: State, ids: seq<Id>, schedules: seq<seq<Event>>, id: Id, k: nat)
    requires Visits(s, ids) && k <= |ids| && Sound(s, id)
    requires forall i :: 0 <= i < k ==> ids[i] != id
    ensures Sound(AtTurn(s, ids, schedules, k), id)
    ensures AtTurn(s, ids, schedules, k).overlaps[id] == 0 <==>
            s.overlaps[id] == 0 && forall i :: 0 <= i < k ==> AllAlone(During(s, ids, schedules, i), Nth(schedules, i), id)
    decreases k
  {
    hide *;
    if k == 0 {
      FirstTurn(s, ids, schedules);
    } else {
      TurnsBefore(s, ids, schedules, id, k - 1);
      OneBefore(s, ids, schedules, id, k - 1);
    }
  }

  lemma OneAfter(s: State, ids: seq<Id>, schedules: seq<seq<Event>>, id: Id, i: nat)
    requires Visits(s, ids) && i < |ids|
    requires var p := AtTurn(s, ids, schedules, i);
             if ids[i] == id then Sound(p, id) && CurrentRuns(p, id) else Stopped(p, id)
    ensures Stopped(AtTurn(s, ids, schedules, i + 1), id)
    ensures AtTurn(s, ids, schedules, i + 1).overlaps[id] == 0 <==>
            AtTurn(s, ids, schedules, i).overlaps[id] == 0 && NoneStarts(During(s, ids, schedules, i), Nth(schedules, i), id)
  {
    NextTurn(s, ids, schedules, i);
    var p := AtTurn(s, ids, schedules, i);
    assert ids[i] in p.subs && p.subs[ids[i]] < |p.tasks| && (Stopped(p, id) ==> id in p.subs);
    hide Sound, Stopped, NoneStarts, ExitOne, Cancel, ExitAll, AtTurn, Nth, Consistent;
    StoppedTurn(p, ids[i], Nth(schedules, i), id);
  }

  lemma Apart(s: State, ids: seq<Id>, i: nat, j: nat)
    requires Visits(s, ids) && i < j < |ids|
    ensures ids[i] != ids[j]
  {
  }

  lemma InTurn(s: State, ids: seq<Id>, schedules: seq<seq<Event>>, j: nat)
    requires Visits(s, ids) && j < |ids|
    ensures ids[j] in AtTurn(s, ids, schedules, j).subs
  {
    hide ExitAll;
  }

  lemma {:induction false} TurnsAfter(s: State, ids: seq<Id>, schedules: seq<seq<Event>>, j: nat, k: nat)
    requires Visits(s, ids) && j < k <= |ids| && Sound(AtTurn(s, ids, schedules, j), ids[j])
    requires CurrentRuns(AtTurn(s, ids, schedules, j), ids[j])
    ensures Stopped(AtTurn(s, ids, schedules, k), ids[j])
    ensures AtTurn(s, ids, schedules, k).overlaps[ids[j]] == 0 <==>
            AtTurn(s, ids, schedules, j).overlaps[ids[j]] == 0
            && forall i :: j <= i < k ==> NoneStarts(During(s, ids, schedules, i), Nth(schedules, i), ids[j])
    decreases k
  {
    hide *;
    InTurn(s, ids, schedules, j);
    if j < k - 1 {
      Apart(s, ids, j, k - 1);
      TurnsAfter(s, ids, schedules, j, k - 1);
    }
    OneAfter(s, ids, schedules, ids[j], k - 1);
  }

  /** The condition: no overlap so far; each update of the metric that starts
      before its turn starts alone; none is in flight at its turn; and none
      starts from then on, during the exit or in `after`, which follows it. */
  ghost predicate Clean(s: State, ids: seq<Id>, schedules: seq<seq<Event>>, j: nat, after: seq<Event>)
    requires Visits(s, ids) && j < |ids|
  {
    s.overlaps[ids[j]] == 0
    && (forall i :: 0 <= i < j ==> AllAlone(During(s, ids, schedules, i), Nth(schedules, i), ids[j]))
    && InFlight(AtTurn(s, ids, schedules, j), ids[j]) == 0
    && (forall i :: j <= i < |ids| ==> NoneStarts(During(s, ids, schedules, i), Nth(schedules, i), ids[j]))
    && NoneStarts(ExitAll(s, ids, schedules), after, ids[j])
  }

  lemma Visitable(s: State, ids: seq<Id>)
    requires Inv(s) && Enumerates(ids, s.subs.Keys)
    ensures Visits(s, ids)
  {
    InKeys(ids, s.subs.Keys);
    InvConsistent(s);
  }

  /** Leaving the handler under any schedules, and whatever follows: nothing of a
      metric remains if and only if the condition above holds. */
  lemma ExitExactly(s: State, ids: seq<Id>, schedules: seq<seq<Event>>, j: nat, after: seq<Event>)
    requires Inv(s) && Enumerates(ids, s.subs.Keys) && j < |ids|
    ensures Visits(s, ids)
    ensures NothingRemains(Run(ExitAll(s, ids, schedules), after), ids[j]) <==> Clean(s, ids, schedules, j, after)
  {
    Visitable(s, ids);
    InvSound(s, ids[j]);
    hide Inv, Enumerates, NothingRemains, Clean, Visits, Sound, Run, ExitAll, AtTurn, CurrentRuns;
    SoundAtTurn(s, ids, schedules, j);
    if CurrentRuns(AtTurn(s, ids, schedules, j), ids[j]) {
      ExitRunning(s, ids, schedules, j, after);
    } else {
      ExitNotRunning(s, ids, schedules, j, after);
    }
  }

  /** No update in flight at its turn, when none overlapped before. */
  lemma SoundAtTurn(s: State, ids: seq<Id>, schedules: seq<seq<Event>>, j: nat)
    requires Visits(s, ids) && j < |ids| && Sound(s, ids[j])
    ensures var p := AtTurn(s, ids, schedules, j);
            Sound(p, ids[j]) && ids[j] in p.subs
            && (p.overlaps[ids[j]] == 0 <==>
                s.overlaps[ids[j]] == 0
                && forall i :: 0 <= i < j ==> AllAlone(During(s, ids, schedules, i), Nth(schedules, i), ids[j]))
            && (p.overlaps[ids[j]] == 0 ==> (CurrentRuns(p, ids[j]) <==> InFlight(p, ids[j]) == 0))
  {
    assert forall i :: 0 <= i < j ==> ids[i] != ids[j] by { assert DistinctIds(ids); }
    var p := AtTurn(s, ids, schedules, j);
    assert ids[j] in p.subs;
    hide Visits, Sound, AllAlone, During, Nth, AtTurn, InFlight;
    TurnsBefore(s, ids, schedules, ids[j], j);
    if p.overlaps[ids[j]] == 0 {
      RunsExactly(p, ids[j]);
    }
  }

  lemma ExitRunning(s: State, ids: seq<Id>, schedules: seq<seq<Event>>, j: nat, after: seq<Event>)
    requires Visits(s, ids) && j < |ids| && Sound(s, ids[j])
    requires Sound(AtTurn(s, ids, schedules, j), ids[j]) && CurrentRuns(AtTurn(s, ids, schedules, j), ids[j])
    ensures NothingRemains(Run(ExitAll(s, ids, schedules), after), ids[j]) <==> Clean(s, ids, schedules, j, after)
  {
    hide Visits, Sound, Stopped, Run, ExitAll, AtTurn, During, AllAlone, NoneStarts, Nth, InFlight, Healthy, CurrentRuns,
      Consistent, SubsPoint, NothingRemains, Balance;
    VisitsMeans(s, ids);
    SoundAtTurn(s, ids, schedules, j);
    StoppedExit(s, ids, schedules, j, after);
    StoppedRemains(Run(ExitAll(s, ids, schedules), after), ids[j]);
  }

  lemma StoppedExit(s: State, ids: seq<Id>, schedules: seq<seq<Event>>, j: nat, after: seq<Event>)
    requires Visits(s, ids) && j < |ids|
    requires Sound(AtTurn(s, ids, schedules, j), ids[j]) && CurrentRuns(AtTurn(s, ids, schedules, j), ids[j])
    ensures var n := ExitAll(s, ids, schedules);
            Stopped(Run(n, after), ids[j])
            && (Run(n, after).overlaps[ids[j]] == 0 <==>
                AtTurn(s, ids, schedules, j).overlaps[ids[j]] == 0
                && (forall i :: j <= i < |ids| ==> NoneStarts(During(s, ids, schedules, i), Nth(schedules, i), ids[j]))
                && NoneStarts(n, after, ids[j]))
  {
    hide *;
    VisitsMeans(s, ids);
    InTurn(s, ids, schedules, j);
    LastTurn(s, ids, schedules);
    TurnsAfter(s, ids, schedules, j, |ids|);
    StoppedRun(ExitAll(s, ids, schedules), after, ids[j]);
  }

  lemma VisitsMeans(s: State, ids: seq<Id>)
    requires Visits(s, ids)
    ensures Consistent(s) && forall i :: 0 <= i < |ids| ==> ids[i] in s.subs
  {
    hide Consistent;
  }

  lemma LastTurn(s: State, ids: seq<Id>, schedules: seq<seq<Event>>)
    requires Visits(s, ids)
    ensures AtTurn(s, ids, schedules, |ids|) == ExitAll(s, ids, schedules)
  {
    assert ids[..|ids|] == ids;
  }

  lemma StoppedRemains(s: State, id: Id)
    requires Stopped(s, id)
    ensures NothingRemains(s, id) <==> s.overlaps[id] == 0
  {
    hide Healthy, InFlight;
  }

  lemma ExitNotRunning(s: State, ids: seq<Id>, schedules: seq<seq<Event>>, j: nat, after: seq<Event>)
    requires Visits(s, ids) && j < |ids| && Sound(s, ids[j])
    requires Sound(AtTurn(s, ids, schedules, j), ids[j]) && !CurrentRuns(AtTurn(s, ids, schedules, j), ids[j])
    ensures !NothingRemains(Run(ExitAll(s, ids, schedules), after), ids[j])
    ensures !Clean(s, ids, schedules, j, after)
  {
    var n := ExitAll(s, ids, schedules);
    SoundAtTurn(s, ids, schedules, j);
    ExitBalance(s, ids, schedules, j);
    assert !RunsAtTurn(s, ids, schedules, j);
    assert ids[j] in s.subs && Balance(s, ids[j]) == 1 && ids[j] in n.subs;
    hide Visits, Sound, Run, ExitAll, AtTurn, During, AllAlone, NoneStarts, Nth, InFlight, Healthy, CurrentRuns, Consistent;
    RunBalance(n, after, ids[j]);
  }

  // ------------------------------------------------------ seen beforehand

  /** The metric has no call that has not returned. */
  predicate NoCalls(s: State, id: Id) {
    forall k :: 0 <= k < |s.calls| && s.calls[k].id == id ==> s.calls[k].phase.Finished?
  }

  /** No update of the metric is created in any of the suspensions. */
  ghost predicate NoSpawns(es: seq<Event>, id: Id) {
    forall i :: 0 <= i < |es| ==> !(es[i].Spawn? && es[i].id == id)
  }

  lemma NoCallsStep(s: State, e: Event, id: Id)
    requires NoCalls(s, id) && !(e.Spawn? && e.id == id)
    ensures NoCalls(Step(s, e), id) && !Starts(s, e, id) && InFlight(s, id) == 0
  {
    CountNone(s.calls, IsWaiting(id));
  }

  lemma {:induction false} NoCallsRun(s: State, es: seq<Event>, id: Id)
    requires NoCalls(s, id) && NoSpawns(es, id)
    ensures NoCalls(Run(s, es), id) && AllAlone(s, es, id) && NoneStarts(s, es, id)
  {
    hide Step, NoCalls, Starts, InFlight;
    if es != [] {
      var last := |es| - 1;
      NoCallsRun(s, es[..last], id);
      NoCallsStep(Run(s, es[..last]), es[last], id);
    }
  }

  lemma {:induction false} NoCallsTurns(s: State, ids: seq<Id>, schedules: seq<seq<Event>>, id: Id, k: nat)
    requires Visits(s, ids) && k <= |ids| && NoCalls(s, id) && forall i: nat :: NoSpawns(Nth(schedules, i), id)
    ensures NoCalls(AtTurn(s, ids, schedules, k), id)
    ensures forall i :: 0 <= i < k ==>
              AllAlone(During(s, ids, schedules, i), Nth(schedules, i), id)
              && NoneStarts(During(s, ids, schedules, i), Nth(schedules, i), id)
    decreases k
  {
    hide Visits, AtTurn, During, ExitOne, Run, AllAlone, NoneStarts, NoSpawns, Nth, NoCalls;
    if k == 0 {
      FirstTurn(s, ids, schedules);
    } else {
      NoCallsTurns(s, ids, schedules, id, k - 1);
      NoCallsTurn(s, ids, schedules, id, k - 1);
    }
  }

  lemma NoCallsTurn(s: State, ids: seq<Id>, schedules: seq<seq<Event>>, id: Id, i: nat)
    requires Visits(s, ids) && i < |ids| && NoCalls(AtTurn(s, ids, schedules, i), id) && NoSpawns(Nth(schedules, i), id)
    ensures NoCalls(AtTurn(s, ids, schedules, i + 1), id)
    ensures AllAlone(During(s, ids, schedules, i), Nth(schedules, i), id)
    ensures NoneStarts(During(s, ids, schedules, i), Nth(schedules, i), id)
  {
    NextTurn(s, ids, schedules, i);
    var d := During(s, ids, schedules, i);
    assert d.calls == AtTurn(s, ids, schedules, i).calls;
    hide Visits, AtTurn, Run, AllAlone, NoneStarts, NoSpawns, Nth, Cancel;
    NoCallsRun(d, Nth(schedules, i), id);
  }

  /** What can be seen before leaving: for a metric without unfinished calls, and
      with none created until the exit and what follows are over, nothing remains
      if and only if no start of it has overlapped. */
  lemma ExitQuietly(s: State, ids: seq<Id>, schedules: seq<seq<Event>>, j: nat, after: seq<Event>)
    requires Inv(s) && Enumerates(ids, s.subs.Keys) && j < |ids| && NoCalls(s, ids[j])
    requires NoSpawns(after, ids[j]) && forall i: nat :: NoSpawns(Nth(schedules, i), ids[j])
    ensures Consistent(s) && forall i :: 0 <= i < |ids| ==> ids[i] in s.subs
    ensures NothingRemains(Run(ExitAll(s, ids, schedules), after), ids[j]) <==> s.overlaps[ids[j]] == 0
  {
    Visitable(s, ids);
    VisitsMeans(s, ids);
    hide *;
    ExitExactly(s, ids, schedules, j, after);
    QuietClean(s, ids, schedules, j, after);
  }

  lemma QuietClean(s: State, ids: seq<Id>, schedules: seq<seq<Event>>, j: nat, after: seq<Event>)
    requires Visits(s, ids) && j < |ids| && NoCalls(s, ids[j])
    requires NoSpawns(after, ids[j]) && forall i: nat :: NoSpawns(Nth(schedules, i), ids[j])
    ensures Clean(s, ids, schedules, j, after) <==> s.overlaps[ids[j]] == 0
  {
    hide Visits, Run, ExitAll, AtTurn, During, AllAlone, NoneStarts, NoSpawns, Nth, NoCalls, InFlight, Consistent;
    VisitsMeans(s, ids);
    NoCallsTurns(s, ids, schedules, ids[j], j);
    NoFlight(AtTurn(s, ids, schedules, j), ids[j]);
    NoCallsTurns(s, ids, schedules, ids[j], |ids|);
    LastTurn(s, ids, schedules);
    NoCallsRun(ExitAll(s, ids, schedules), after, ids[j]);
  }

  lemma NoFlight(s: State, id: Id)
    requires NoCalls(s, id)
    ensures InFlight(s, id) == 0
  {
    CountNone(s.calls, IsWaiting(id));
  }

  // ------------------------------------------------------------- what is left

  /** A subscription nobody stops: the handler has been left, and an update then
      creates a new one. */
  ghost predicate CreatedAfterwards(n: State, k: nat, id: Id) {
    k < |n.calls| && Enabled(n, Resume(k)) && n.calls[k].id == id && Healthy(Step(n, Resume(k)), id) == 1
  }

  lemma ResumesLater(n: State, k: nat, id: Id)
    requires Consistent(n) && id in n.subs && Enabled(n, Resume(k)) && n.calls[k].id == id
    requires Healthy(n, id) + InFlight(n, id) == 1
    ensures CreatedAfterwards(n, k, id)
  {
    hide Count;
    ResumedCall(n, k);
    CountOthers(n.calls, k, IsWaiting(id));
    CountAppend(n.tasks, Task(id, n.calls[k].bps, Live), IsLive(id));
  }

  /** An update in flight when the handler is left: its subscription is stopped,
      and the update creates another. */
  lemma LeftInFlight(s: State, id: Id, k: nat)
    requires Inv(s) && Enumerates([id], s.subs.Keys) && s.overlaps[id] == 0
    requires k < |s.calls| && WaitsOn(s.calls[k], id, if id in s.subs then s.subs[id] else 0)
    ensures Visits(s, [id]) && CreatedAfterwards(ExitAll(s, [id], []), k, id)
  {
    Visitable(s, [id]);
    assert id in s.subs by { assert [id][0] in s.subs; }
    InvSound(s, id);
    NextTurn(s, [id], [], 0);
    FirstTurn(s, [id], []);
    LastTurn(s, [id], []);
    ExitOneBalance(s, id, [], id);
    ExitOneConsistent(s, id, []);
    InFlightShape(s, id, k);
    hide Inv, Visits, Healthy, InFlight, ExitAll, ExitOne, Consistent;
    ResumesLater(ExitOne(s, id, []), k, id);
  }

  lemma InFlightShape(s: State, id: Id, k: nat)
    requires Consistent(s) && id in s.subs && k < |s.calls| && WaitsOn(s.calls[k], id, s.subs[id])
    ensures !CurrentRuns(s, id)
    ensures var n := ExitOne(s, id, []);
            Enabled(n, Resume(k)) && n.calls == s.calls && n.overlaps == s.overlaps && n.subs == s.subs
  {
  }

  /** An update that starts while the handler waits for the subscription it has
      just cancelled; before, nothing was in flight. */
  lemma StartedMeanwhile(s: State, id: Id, k: nat)
    requires Inv(s) && Enumerates([id], s.subs.Keys) && s.overlaps[id] == 0 && InFlight(s, id) == 0
    requires Enabled(s, Begin(k)) && s.calls[k].id == id
    ensures Visits(s, [id]) && CreatedAfterwards(ExitAll(s, [id], [[Begin(k)]]), k, id)
  {
    Visitable(s, [id]);
    assert id in s.subs by { assert [id][0] in s.subs; }
    var es := [Begin(k)];
    InvSound(s, id);
    RunsExactly(s, id);
    NextTurn(s, [id], [es], 0);
    FirstTurn(s, [id], [es]);
    LastTurn(s, [id], [es]);
    ExitOneBalance(s, id, es, id);
    ExitOneConsistent(s, id, es);
    StartShape(s, id, k);
    hide Inv, Visits, Healthy, InFlight, ExitAll, ExitOne, Consistent;
    ResumesLater(ExitOne(s, id, es), k, id);
  }

  lemma StartShape(s: State, id: Id, k: nat)
    requires Consistent(s) && id in s.subs && CurrentRuns(s, id) && Enabled(s, Begin(k)) && s.calls[k].id == id
    ensures var n := ExitOne(s, id, [Begin(k)]);
            Enabled(n, Resume(k)) && n.calls[k].id == id && n.overlaps[id] == s.overlaps[id] + 1 && n.subs == s.subs
  {
    var d := Cancel(s, s.subs[id]);
    CancelConsistent(s, s.subs[id]);
    SameKeys(s);
    assert [Begin(k)][..0] == [] && Run(d, [Begin(k)]) == Step(d, Begin(k));
    BegunCall(d, k);
  }
}
