/** The ground side's subscriptions (command/src/sync_metric_ids.py) as a step
    machine.  A coroutine runs from one await to the next without interruption,
    so `update_bps` is two atomic segments, split at `await old_task`; between
    segments anything else may run. */
module Subscriptions {
  type Id = string

  function IdSet(ids: seq<Id>): set<Id> {
    set id | id in ids
  }

  /** A subscription task: running, asked to stop, or over. */
  datatype Status = Live | Cancelling | Ended
  datatype Task = Task(id: Id, bps: int, status: Status)

  /** A call of `update_bps`: created but not started, waiting for the task it
      cancelled, or returned. */
  datatype Phase = Pending | Waiting(oldTask: nat) | Finished
  datatype Call = Call(id: Id, bps: int, phase: Phase)

  /** The handler's fields, every task and call ever created, and a record of
      the calls that started on a subscription already being cancelled. */
  datatype State = State(
    metrics: map<Id, int>,
    subs: map<Id, nat>,
    maxBps: int,
    tasks: seq<Task>,
    calls: seq<Call>,
    overlaps: multiset<Id>)

  function Initial(maxBps: int): State {
    State(map[], map[], maxBps, [], [], multiset{})
  }

  /** What can happen next: a metric is added, a call is created, starts or
      resumes, a cancelled task comes to its end, or the limit is changed. */
  datatype Event =
    | Add(id: Id)
    | Spawn(id: Id, bps: int)
    | Begin(call: nat)
    | End(task: nat)
    | Resume(call: nat)
    | SetMax(bps: int)

  predicate Enabled(s: State, e: Event) {
    match e
    case Add(id) => id !in s.metrics
    case Spawn(_, _) => true
    case Begin(k) => k < |s.calls| && s.calls[k].phase.Pending?
    case End(t) => t < |s.tasks| && s.tasks[t].status.Cancelling?
    case Resume(k) =>
      k < |s.calls| && s.calls[k].phase.Waiting?
      && s.calls[k].phase.oldTask < |s.tasks| && s.tasks[s.calls[k].phase.oldTask].status.Ended?
    case SetMax(_) => true
  }

  /** The first segment: record the rate, cancel the current task, wait for it;
      an unknown metric is ignored. */
  function BeginUpdate(s: State, k: nat): State
    requires Enabled(s, Begin(k))
  {
    var c := s.calls[k];
    if c.id !in s.metrics || c.id !in s.subs || s.subs[c.id] >= |s.tasks| then
      s.(calls := s.calls[k := c.(phase := Finished)])
    else
      var t := s.subs[c.id];
      var waiting := s.(metrics := s.metrics[c.id := c.bps], calls := s.calls[k := c.(phase := Waiting(t))]);
      if s.tasks[t].status.Live? then
        waiting.(tasks := s.tasks[t := s.tasks[t].(status := Cancelling)])
      else
        waiting.(overlaps := s.overlaps + multiset{c.id})
  }

  /** The second segment: a new task takes the place of the old one. */
  function ResumeUpdate(s: State, k: nat): State
    requires Enabled(s, Resume(k))
  {
    var c := s.calls[k];
    s.(tasks := s.tasks + [Task(c.id, c.bps, Live)],
       subs := s.subs[c.id := |s.tasks|],
       calls := s.calls[k := c.(phase := Finished)])
  }

  /** `add_metric` up to its first await. */
  function AddMetric(s: State, id: Id): State {
    s.(metrics := s.metrics[id := 0], subs := s.subs[id := |s.tasks|], tasks := s.tasks + [Task(id, 0, Live)])
  }

  function EndTask(s: State, t: nat): State
    requires t < |s.tasks|
  {
    s.(tasks := s.tasks[t := s.tasks[t].(status := Ended)])
  }

  function Step(s: State, e: Event): State {
    if !Enabled(s, e) then s
    else
      match e
      case Add(id) => AddMetric(s, id)
      case Spawn(id, bps) => s.(calls := s.calls + [Call(id, bps, Pending)])
      case Begin(k) => BeginUpdate(s, k)
      case End(t) => EndTask(s, t)
      case Resume(k) => ResumeUpdate(s, k)
      case SetMax(bps) => s.(maxBps := bps)
  }

  /** Any schedule of events; those not possible at their turn are passed over. */
  function Run(s: State, es: seq<Event>): State {
    if es == [] then s else Step(Run(s, es[..|es| - 1]), es[|es| - 1])
  }

  // ------------------------------------------------------------------ counting

  function Count<T>(xs: seq<T>, p: T -> bool): nat {
    if xs == [] then 0
    else Count(xs[..|xs| - 1], p) + if p(xs[|xs| - 1]) then 1 else 0
  }

  function One(b: bool): int {
    if b then 1 else 0
  }

  lemma CountAppend<T>(xs: seq<T>, x: T, p: T -> bool)
    ensures Count(xs + [x], p) == Count(xs, p) + One(p(x))
  {
    assert (xs + [x])[..|xs|] == xs;
  }

  lemma {:induction false} CountUpdate<T>(xs: seq<T>, i: nat, x: T, p: T -> bool)
    requires i < |xs|
    ensures Count(xs[i := x], p) == Count(xs, p) - One(p(xs[i])) + One(p(x))
  {
    var last := |xs| - 1;
    if i == last {
      assert xs[i := x][..last] == xs[..last];
    } else {
      assert xs[i := x][..last] == xs[..last][i := x];
      CountUpdate(xs[..last], i, x, p);
    }
  }

  lemma {:induction false} CountNone<T>(xs: seq<T>, p: T -> bool)
    ensures Count(xs, p) == 0 <==> forall i :: 0 <= i < |xs| ==> !p(xs[i])
  {
    if xs == [] {
    } else {
      CountNone(xs[..|xs| - 1], p);
    }
  }

  /** Counting without one element. */
  lemma CountOthers<T>(xs: seq<T>, i: nat, p: T -> bool)
    requires i < |xs| && p(xs[i])
    ensures Count(xs, p) >= 1
    ensures Count(xs, p) == 1 <==> forall j :: 0 <= j < |xs| && j != i ==> !p(xs[j])
  {
    var last := |xs| - 1;
    if i == last {
      CountNone(xs[..last], p);
    } else {
      CountOthers(xs[..last], i, p);
      assert forall j :: 0 <= j < last ==> xs[..last][j] == xs[j];
      if Count(xs, p) == 1 {
        assert !p(xs[last]);
      }
    }
  }

  function IsLive(id: Id): Task -> bool {
    (t: Task) => t.id == id && t.status.Live?
  }

  function IsActive(id: Id): Task -> bool {
    (t: Task) => t.id == id && !t.status.Ended?
  }

  function IsOpen(): Task -> bool {
    (t: Task) => !t.status.Ended?
  }

  function IsOpenIn(keys: set<Id>): Task -> bool {
    (t: Task) => t.id in keys && !t.status.Ended?
  }

  function IsWaiting(id: Id): Call -> bool {
    (c: Call) => c.id == id && c.phase.Waiting?
  }

  /** Subscriptions of a metric that run and were not asked to stop. */
  function Healthy(s: State, id: Id): nat {
    Count(s.tasks, IsLive(id))
  }

  /** Subscriptions of a metric that have not ended. */
  function Active(s: State, id: Id): nat {
    Count(s.tasks, IsActive(id))
  }

  /** Updates of a metric between their two segments. */
  function InFlight(s: State, id: Id): nat {
    Count(s.calls, IsWaiting(id))
  }

  // ---------------------------------------------------------------- invariants

  /** Each metric has a current subscription of its own. */
  ghost predicate SubsPoint(s: State) {
    s.metrics.Keys == s.subs.Keys
    && (forall id :: id in s.subs ==> s.subs[id] < |s.tasks| && s.tasks[s.subs[id]].id == id)
  }

  /** Tasks and overlaps belong to known metrics. */
  ghost predicate TasksKnown(s: State) {
    (forall t :: 0 <= t < |s.tasks| ==> s.tasks[t].id in s.subs)
    && (forall id :: id in s.overlaps ==> id in s.subs)
  }

  /** An update waits for a task of its own metric that was cancelled. */
  ghost predicate WaitsKnown(s: State) {
    forall k :: 0 <= k < |s.calls| && s.calls[k].phase.Waiting? ==>
      s.calls[k].id in s.subs && s.calls[k].phase.oldTask < |s.tasks|
      && s.tasks[s.calls[k].phase.oldTask].id == s.calls[k].id
      && !s.tasks[s.calls[k].phase.oldTask].status.Live?
  }

  ghost predicate Consistent(s: State) {
    SubsPoint(s) && TasksKnown(s) && WaitsKnown(s)
  }

  /** Conservation: each metric has one subscription, either running or about
      to be replaced, and one more for each overlapping start. */
  ghost predicate Balanced(s: State) {
    forall id :: id in s.subs ==> Healthy(s, id) + InFlight(s, id) == 1 + s.overlaps[id]
  }

  predicate WaitsOn(c: Call, id: Id, t: nat) {
    c.id == id && c.phase == Waiting(t)
  }

  /** The current subscription runs unless some update is waiting for it. */
  ghost predicate AwaitedAt(s: State, id: Id)
    requires Consistent(s) && id in s.subs
  {
    s.tasks[s.subs[id]].status.Live?
    || exists k :: 0 <= k < |s.calls| && WaitsOn(s.calls[k], id, s.subs[id])
  }

  ghost predicate Awaited(s: State)
    requires Consistent(s)
  {
    forall id :: id in s.subs ==> AwaitedAt(s, id)
  }

  /** Without overlapping starts on a metric, only its current subscription can
      be active, updates wait for nothing else, and the rate on record is the
      current one or the one about to be installed. */
  ghost predicate Calm(s: State)
    requires Consistent(s)
  {
    forall id :: id in s.subs && s.overlaps[id] == 0 ==> CalmAt(s, id)
  }

  ghost predicate CalmAt(s: State, id: Id)
    requires Consistent(s) && id in s.subs
  {
    (forall t :: 0 <= t < |s.tasks| && s.tasks[t].id == id && t != s.subs[id] ==> s.tasks[t].status.Ended?)
    && (forall k :: 0 <= k < |s.calls| && s.calls[k].id == id && s.calls[k].phase.Waiting? ==>
          s.calls[k].phase.oldTask == s.subs[id] && s.calls[k].bps == s.metrics[id])
    && (s.tasks[s.subs[id]].status.Live? ==> s.tasks[s.subs[id]].bps == s.metrics[id])
  }

  ghost predicate Inv(s: State) {
    Consistent(s) && Balanced(s) && Awaited(s) && Calm(s)
  }

  lemma InitialInv(maxBps: int)
    ensures Inv(Initial(maxBps))
  {
  }

  // One lemma for each kind of event and each part of the invariant.

  lemma AddConsistent(s: State, id: Id)
    requires Consistent(s)
    ensures Consistent(AddMetric(s, id))
  {
    var n := AddMetric(s, id);
    assert forall t :: 0 <= t < |s.tasks| ==> n.tasks[t] == s.tasks[t];
    assert SubsPoint(n) && TasksKnown(n) by { hide WaitsKnown; }
    assert WaitsKnown(n) by { hide SubsPoint, TasksKnown; }
  }

  lemma BeginConsistent(s: State, k: nat)
    requires Consistent(s) && Enabled(s, Begin(k))
    ensures Consistent(BeginUpdate(s, k))
  {
    hide BeginUpdate, SubsPoint, TasksKnown, WaitsKnown;
    BeginShape(s, k);
    BeginPoints(s, k, BeginUpdate(s, k));
    BeginWaits(s, k, BeginUpdate(s, k));
  }

  /** What the first segment may change. */
  ghost predicate BegunFrom(s: State, k: nat, n: State) {
    k < |s.calls| && |n.tasks| == |s.tasks| && |n.calls| == |s.calls|
    && n.subs == s.subs && n.metrics.Keys == s.metrics.Keys
    && (forall t :: 0 <= t < |s.tasks| ==>
          n.tasks[t].id == s.tasks[t].id && (!s.tasks[t].status.Live? ==> !n.tasks[t].status.Live?))
    && (forall j :: 0 <= j < |s.calls| && j != k ==> n.calls[j] == s.calls[j])
    && (n.calls[k].phase.Waiting? ==>
          n.calls[k].id in s.subs && n.calls[k].phase == Waiting(s.subs[n.calls[k].id])
          && s.subs[n.calls[k].id] < |n.tasks| && !n.tasks[s.subs[n.calls[k].id]].status.Live?)
    && (forall id :: id in n.overlaps ==> id in s.overlaps || id in s.subs)
  }

  lemma BeginShape(s: State, k: nat)
    requires SubsPoint(s) && Enabled(s, Begin(k))
    ensures BegunFrom(s, k, BeginUpdate(s, k))
  {
  }

  lemma BeginPoints(s: State, k: nat, n: State)
    requires SubsPoint(s) && TasksKnown(s) && BegunFrom(s, k, n)
    ensures SubsPoint(n) && TasksKnown(n)
  {
  }

  lemma BeginWaits(s: State, k: nat, n: State)
    requires SubsPoint(s) && WaitsKnown(s) && BegunFrom(s, k, n)
    ensures WaitsKnown(n)
  {
  }

  lemma EndConsistent(s: State, t: nat)
    requires Consistent(s) && Enabled(s, End(t))
    ensures Consistent(EndTask(s, t))
  {
  }

  lemma ResumeConsistent(s: State, k: nat)
    requires Consistent(s) && Enabled(s, Resume(k))
    ensures Consistent(ResumeUpdate(s, k))
  {
    var n := ResumeUpdate(s, k);
    assert forall t :: 0 <= t < |s.tasks| ==> n.tasks[t] == s.tasks[t];
    assert SubsPoint(n) && TasksKnown(n) by { hide WaitsKnown; }
    assert WaitsKnown(n) by {
      hide SubsPoint, TasksKnown;
      assert forall j :: 0 <= j < |s.calls| && j != k ==> n.calls[j] == s.calls[j];
    }
  }

  lemma StepConsistent(s: State, e: Event)
    requires Consistent(s)
    ensures Consistent(Step(s, e))
  {
    hide BeginUpdate, ResumeUpdate, AddMetric, EndTask;
    if Enabled(s, e) {
      match e
      case Add(id) => AddConsistent(s, id);
      case Spawn(id, bps) => SpawnConsistent(s, id, bps);
      case Begin(k) => BeginConsistent(s, k);
      case End(t) => EndConsistent(s, t);
      case Resume(k) => ResumeConsistent(s, k);
      case SetMax(_) =>
    }
  }

  lemma SpawnConsistent(s: State, id: Id, bps: int)
    requires Consistent(s)
    ensures Consistent(s.(calls := s.calls + [Call(id, bps, Pending)]))
  {
  }

  /** How one event changes the two counts of a metric. */
  lemma CountsMove(s: State, e: Event, id: Id)
    requires Consistent(s) && Enabled(s, e)
    ensures var n := Step(s, e);
            Healthy(n, id) + InFlight(n, id) - n.overlaps[id] ==
            Healthy(s, id) + InFlight(s, id) - s.overlaps[id] + One(e == Add(id))
  {
    hide Count;
    match e
    case Add(i) => CountAppend(s.tasks, Task(i, 0, Live), IsLive(id));
    case Spawn(i, bps) => CountAppend(s.calls, Call(i, bps, Pending), IsWaiting(id));
    case End(t) => CountUpdate(s.tasks, t, s.tasks[t].(status := Ended), IsLive(id));
    case SetMax(_) =>
    case Begin(k) => BeginCounts(s, k, id);
    case Resume(k) =>
      CountAppend(s.tasks, Task(s.calls[k].id, s.calls[k].bps, Live), IsLive(id));
      CountUpdate(s.calls, k, s.calls[k].(phase := Finished), IsWaiting(id));
  }

  lemma BeginCounts(s: State, k: nat, id: Id)
    requires Consistent(s) && Enabled(s, Begin(k))
    ensures var n := BeginUpdate(s, k);
            Healthy(n, id) + InFlight(n, id) - n.overlaps[id] ==
            Healthy(s, id) + InFlight(s, id) - s.overlaps[id]
  {
    hide Count;
    var c := s.calls[k];
    if c.id !in s.metrics {
      CountUpdate(s.calls, k, c.(phase := Finished), IsWaiting(id));
    } else {
      var t := s.subs[c.id];
      CountUpdate(s.calls, k, c.(phase := Waiting(t)), IsWaiting(id));
      if s.tasks[t].status.Live? {
        CountUpdate(s.tasks, t, s.tasks[t].(status := Cancelling), IsLive(id));
      }
    }
  }

  /** A metric nobody knows has no subscriptions and no updates. */
  lemma UnknownCounts(s: State, id: Id)
    requires Consistent(s) && id !in s.subs
    ensures Healthy(s, id) == 0 && InFlight(s, id) == 0 && s.overlaps[id] == 0
  {
    CountNone(s.tasks, IsLive(id));
    CountNone(s.calls, IsWaiting(id));
  }

  lemma StepKeys(s: State, e: Event)
    requires Consistent(s)
    ensures Step(s, e).subs.Keys == s.subs.Keys + if Enabled(s, e) && e.Add? then {e.id} else {}
  {
  }

  lemma StepBalanced(s: State, e: Event)
    requires Consistent(s) && Balanced(s)
    ensures Balanced(Step(s, e))
  {
    hide Step, Healthy, InFlight, Consistent;
    if Enabled(s, e) {
      var n := Step(s, e);
      StepKeys(s, e);
      forall id | id in n.subs ensures Healthy(n, id) + InFlight(n, id) == 1 + n.overlaps[id] {
        CountsMove(s, e, id);
        if id !in s.subs {
          UnknownCounts(s, id);
        } else {
          assert e != Add(id) by { KnownNotAdded(s, id); }
        }
      }
    } else {
      Disabled(s, e);
    }
  }

  lemma Disabled(s: State, e: Event)
    requires !Enabled(s, e)
    ensures Step(s, e) == s
  {
  }

  lemma KnownNotAdded(s: State, id: Id)
    requires Consistent(s) && id in s.subs
    ensures !Enabled(s, Add(id))
  {
  }

  // ---------------------------------------------------------- awaited and calm

  lemma BeginAwaited(s: State, k: nat, id: Id)
    requires Consistent(s) && Enabled(s, Begin(k)) && id in s.subs && AwaitedAt(s, id)
    ensures Consistent(BeginUpdate(s, k)) && id in BeginUpdate(s, k).subs && AwaitedAt(BeginUpdate(s, k), id)
  {
    BeginConsistent(s, k);
    hide SubsPoint, TasksKnown, WaitsKnown;
    var c, n := s.calls[k], BeginUpdate(s, k);
    if c.id == id {
      assert WaitsOn(n.calls[k], id, n.subs[id]) by { OwnWait(s, k); }
    } else if !s.tasks[s.subs[id]].status.Live? {
      var j :| 0 <= j < |s.calls| && WaitsOn(s.calls[j], id, s.subs[id]);
      assert WaitsOn(n.calls[j], id, n.subs[id]);
    } else {
      assert n.tasks[n.subs[id]].status.Live? by { OtherTask(s, k, id); }
    }
  }

  lemma OwnWait(s: State, k: nat)
    requires Consistent(s) && Enabled(s, Begin(k)) && s.calls[k].id in s.subs
    ensures var n := BeginUpdate(s, k);
            n.subs == s.subs && |n.calls| == |s.calls| && WaitsOn(n.calls[k], s.calls[k].id, s.subs[s.calls[k].id])
  {
  }

  /** Starting an update touches the current subscription of its own metric only. */
  lemma OtherTask(s: State, k: nat, id: Id)
    requires Consistent(s) && Enabled(s, Begin(k)) && id in s.subs && s.calls[k].id != id
    ensures var n := BeginUpdate(s, k);
            n.subs == s.subs && |n.tasks| == |s.tasks| && n.tasks[s.subs[id]] == s.tasks[s.subs[id]]
            && n.metrics.Keys == s.metrics.Keys && n.metrics[id] == s.metrics[id]
            && (forall t :: 0 <= t < |s.tasks| && s.tasks[t].id == id ==> n.tasks[t] == s.tasks[t])
            && (forall t :: 0 <= t < |s.tasks| ==> n.tasks[t].id == s.tasks[t].id)
            && |n.calls| == |s.calls| && n.calls[k].id == s.calls[k].id
            && (forall j :: 0 <= j < |s.calls| && j != k ==> n.calls[j] == s.calls[j])
  {
  }

  lemma ResumeAwaited(s: State, k: nat, id: Id)
    requires Consistent(s) && Enabled(s, Resume(k)) && id in s.subs && AwaitedAt(s, id)
    ensures Consistent(ResumeUpdate(s, k)) && id in ResumeUpdate(s, k).subs && AwaitedAt(ResumeUpdate(s, k), id)
  {
    ResumeConsistent(s, k);
    var n := ResumeUpdate(s, k);
    if s.calls[k].id != id && !s.tasks[s.subs[id]].status.Live? {
      var j :| 0 <= j < |s.calls| && WaitsOn(s.calls[j], id, s.subs[id]);
      assert WaitsOn(n.calls[j], id, n.subs[id]);
    }
  }

  lemma EndAwaited(s: State, t: nat, id: Id)
    requires Consistent(s) && Enabled(s, End(t)) && id in s.subs && AwaitedAt(s, id)
    ensures Consistent(EndTask(s, t)) && id in EndTask(s, t).subs && AwaitedAt(EndTask(s, t), id)
  {
    EndConsistent(s, t);
    var n := EndTask(s, t);
    if !s.tasks[s.subs[id]].status.Live? {
      var j :| 0 <= j < |s.calls| && WaitsOn(s.calls[j], id, s.subs[id]);
      assert WaitsOn(n.calls[j], id, n.subs[id]);
    }
  }

  lemma SpawnAwaited(s: State, i: Id, bps: int, id: Id)
    requires Consistent(s) && id in s.subs && AwaitedAt(s, id)
    ensures var n := s.(calls := s.calls + [Call(i, bps, Pending)]);
            Consistent(n) && id in n.subs && AwaitedAt(n, id)
  {
    SpawnConsistent(s, i, bps);
    var n := s.(calls := s.calls + [Call(i, bps, Pending)]);
    if !s.tasks[s.subs[id]].status.Live? {
      var j :| 0 <= j < |s.calls| && WaitsOn(s.calls[j], id, s.subs[id]);
      assert WaitsOn(n.calls[j], id, n.subs[id]);
    }
  }

  lemma AddAwaited(s: State, i: Id, id: Id)
    requires Consistent(s) && i !in s.metrics && (id in s.subs ==> AwaitedAt(s, id)) && id in AddMetric(s, i).subs
    ensures Consistent(AddMetric(s, i)) && AwaitedAt(AddMetric(s, i), id)
  {
    AddConsistent(s, i);
    var n := AddMetric(s, i);
    if id != i && !s.tasks[s.subs[id]].status.Live? {
      var j :| 0 <= j < |s.calls| && WaitsOn(s.calls[j], id, s.subs[id]);
      assert WaitsOn(n.calls[j], id, n.subs[id]);
    }
  }

  lemma StepAwaited(s: State, e: Event)
    requires Consistent(s) && Awaited(s)
    ensures Consistent(Step(s, e)) && Awaited(Step(s, e))
  {
    StepConsistent(s, e);
    hide BeginUpdate, ResumeUpdate, EndTask, Consistent;
    if !Enabled(s, e) {
      return;
    }
    var n := Step(s, e);
    StepKeys(s, e);
    forall id | id in n.subs ensures AwaitedAt(n, id) {
      match e
      case Add(i) => AddAwaited(s, i, id);
      case Spawn(i, bps) => SpawnAwaited(s, i, bps, id);
      case Begin(k) => BeginAwaited(s, k, id);
      case End(t) => EndAwaited(s, t, id);
      case Resume(k) => ResumeAwaited(s, k, id);
      case SetMax(_) =>
    }
  }

  lemma BeginCalmOther(s: State, k: nat, id: Id)
    requires Consistent(s) && Enabled(s, Begin(k)) && id in s.subs && s.calls[k].id != id && CalmAt(s, id)
    ensures Consistent(BeginUpdate(s, k)) && id in BeginUpdate(s, k).subs && CalmAt(BeginUpdate(s, k), id)
  {
    BeginConsistent(s, k);
    OtherTask(s, k, id);
    hide BeginUpdate, TasksKnown, WaitsKnown;
  }

  lemma BeginCalmOwn(s: State, k: nat)
    requires Inv(s) && Enabled(s, Begin(k)) && s.calls[k].id in s.subs
    requires BeginUpdate(s, k).overlaps[s.calls[k].id] == 0
    ensures var id := s.calls[k].id;
            Consistent(BeginUpdate(s, k)) && id in BeginUpdate(s, k).subs && CalmAt(BeginUpdate(s, k), id)
  {
    BeginConsistent(s, k);
    var c, n := s.calls[k], BeginUpdate(s, k);
    var t := s.subs[c.id];
    assert s.tasks[t].status.Live? && s.overlaps[c.id] == 0;
    assert CalmAt(s, c.id);
    NobodyWaits(s, c.id);
    hide Balanced, Awaited, Calm, TasksKnown, WaitsKnown;
    assert n.subs == s.subs && n.metrics[c.id] == c.bps;
    assert n.calls == s.calls[k := c.(phase := Waiting(t))];
    assert n.tasks == s.tasks[t := s.tasks[t].(status := Cancelling)];
  }

  /** While a metric's subscription runs, undisturbed, no update of it waits. */
  lemma NobodyWaits(s: State, id: Id)
    requires Consistent(s) && Balanced(s) && id in s.subs && s.overlaps[id] == 0
    requires s.tasks[s.subs[id]].status.Live?
    ensures forall k :: 0 <= k < |s.calls| && s.calls[k].id == id ==> !s.calls[k].phase.Waiting?
  {
    hide Count;
    CountOthers(s.tasks, s.subs[id], IsLive(id));
    CountNone(s.calls, IsWaiting(id));
    assert forall k :: 0 <= k < |s.calls| ==> !IsWaiting(id)(s.calls[k]);
  }

  /** While an update waits, undisturbed, it is the only one and nothing runs. */
  lemma OneWaits(s: State, k: nat)
    requires Inv(s) && k < |s.calls| && s.calls[k].phase.Waiting? && s.overlaps[s.calls[k].id] == 0
    ensures var id := s.calls[k].id;
            s.calls[k].phase.oldTask == s.subs[id]
            && (forall j :: 0 <= j < |s.calls| && j != k && s.calls[j].id == id ==> !s.calls[j].phase.Waiting?)
            && (forall t :: 0 <= t < |s.tasks| && s.tasks[t].id == id && t != s.subs[id] ==> s.tasks[t].status.Ended?)
  {
    hide Count, Awaited;
    var id := s.calls[k].id;
    assert CalmAt(s, id);
    CountOthers(s.calls, k, IsWaiting(id));
    assert forall t :: 0 <= t < |s.tasks| ==> !IsLive(id)(s.tasks[t]);
    CountNone(s.tasks, IsLive(id));
    assert forall j :: 0 <= j < |s.calls| && j != k ==> !IsWaiting(id)(s.calls[j]);
  }

  lemma ResumeCalmOwn(s: State, k: nat)
    requires Inv(s) && Enabled(s, Resume(k)) && s.overlaps[s.calls[k].id] == 0
    ensures var id := s.calls[k].id;
            Consistent(ResumeUpdate(s, k)) && id in ResumeUpdate(s, k).subs && CalmAt(ResumeUpdate(s, k), id)
  {
    ResumeConsistent(s, k);
    OneWaits(s, k);
    assert CalmAt(s, s.calls[k].id);
    hide Balanced, Awaited, Calm;
    var id, n := s.calls[k].id, ResumeUpdate(s, k);
    assert forall t :: 0 <= t < |s.tasks| ==> n.tasks[t] == s.tasks[t];
    assert forall j :: 0 <= j < |s.calls| && j != k ==> n.calls[j] == s.calls[j];
  }

  lemma ResumeCalmOther(s: State, k: nat, id: Id)
    requires Consistent(s) && Enabled(s, Resume(k)) && id in s.subs && s.calls[k].id != id && CalmAt(s, id)
    ensures Consistent(ResumeUpdate(s, k)) && id in ResumeUpdate(s, k).subs && CalmAt(ResumeUpdate(s, k), id)
  {
    ResumeConsistent(s, k);
    var n := ResumeUpdate(s, k);
    assert n.subs[id] == s.subs[id];
    assert forall t :: 0 <= t < |s.tasks| ==> n.tasks[t] == s.tasks[t];
    assert forall j :: 0 <= j < |s.calls| && j != k ==> n.calls[j] == s.calls[j];
  }

  lemma EndCalm(s: State, t: nat, id: Id)
    requires Consistent(s) && Enabled(s, End(t)) && id in s.subs && CalmAt(s, id)
    ensures Consistent(EndTask(s, t)) && id in EndTask(s, t).subs && CalmAt(EndTask(s, t), id)
  {
    EndConsistent(s, t);
  }

  lemma SpawnCalm(s: State, i: Id, bps: int, id: Id)
    requires Consistent(s) && id in s.subs && CalmAt(s, id)
    ensures var n := s.(calls := s.calls + [Call(i, bps, Pending)]);
            Consistent(n) && id in n.subs && CalmAt(n, id)
  {
    SpawnConsistent(s, i, bps);
  }

  lemma AddCalm(s: State, i: Id, id: Id)
    requires Consistent(s) && i !in s.metrics && (id in s.subs ==> CalmAt(s, id)) && id in AddMetric(s, i).subs
    ensures Consistent(AddMetric(s, i)) && CalmAt(AddMetric(s, i), id)
  {
    AddConsistent(s, i);
    var n := AddMetric(s, i);
    assert forall t :: 0 <= t < |s.tasks| ==> n.tasks[t] == s.tasks[t];
  }

  lemma OverlapsGrow(s: State, e: Event, id: Id)
    ensures s.overlaps[id] <= Step(s, e).overlaps[id]
  {
  }

  lemma StepCalm(s: State, e: Event)
    requires Inv(s)
    ensures Consistent(Step(s, e)) && Calm(Step(s, e))
  {
    StepConsistent(s, e);
    if !Enabled(s, e) {
      return;
    }
    hide BeginUpdate, ResumeUpdate, EndTask, AddMetric, SubsPoint, TasksKnown, WaitsKnown, CalmAt, Balanced, Awaited;
    var n := Step(s, e);
    StepKeys(s, e);
    forall id | id in n.subs && n.overlaps[id] == 0 ensures CalmAt(n, id) {
      OverlapsGrow(s, e, id);
      match e
      case Add(i) => AddCalm(s, i, id);
      case Spawn(i, bps) => SpawnCalm(s, i, bps, id);
      case End(t) => EndCalm(s, t, id);
      case SetMax(bps) => SetMaxCalm(s, bps, id);
      case Begin(k) =>
        if s.calls[k].id == id { BeginCalmOwn(s, k); } else { BeginCalmOther(s, k, id); }
      case Resume(k) =>
        if s.calls[k].id == id { ResumeCalmOwn(s, k); } else { ResumeCalmOther(s, k, id); }
    }
  }

  lemma SetMaxCalm(s: State, bps: int, id: Id)
    requires Consistent(s) && id in s.subs && CalmAt(s, id)
    ensures Consistent(s.(maxBps := bps)) && CalmAt(s.(maxBps := bps), id)
  {
  }

  lemma StepInv(s: State, e: Event)
    requires Inv(s)
    ensures Inv(Step(s, e))
  {
    hide Step, Consistent, Balanced, Awaited, Calm;
    StepConsistent(s, e);
    StepBalanced(s, e);
    StepAwaited(s, e);
    StepCalm(s, e);
  }

  /** Every schedule of every mix of events keeps the invariant. */
  lemma {:induction false} RunInv(s: State, es: seq<Event>)
    requires Inv(s)
    ensures Inv(Run(s, es))
  {
    hide Step, Inv;
    if es == [] {
    } else {
      RunInv(s, es[..|es| - 1]);
      StepInv(Run(s, es[..|es| - 1]), es[|es| - 1]);
    }
  }
}
