/** The handler's records after any schedule, read off the schedule alone: which
    metrics are known, at which rate each is subscribed, and the limit. */
module RunRates {
  import opened Subscriptions
  import opened Redistribution

  /** The arguments of the calls of `update_bps` that a schedule creates. */
  function Created(es: seq<Event>): seq<(Id, int)> {
    if es == [] then []
    else
      var e := es[|es| - 1];
      Created(es[..|es| - 1]) + if e.Spawn? then [(e.id, e.bps)] else []
  }

  /** The call has started: its turn to begin came after its creation. */
  predicate Started(es: seq<Event>, k: nat) {
    es != [] && (Started(es[..|es| - 1], k) || (es[|es| - 1] == Begin(k) && k < |Created(es[..|es| - 1])|))
  }

  /** The last event starts this call. */
  predicate StartsNow(es: seq<Event>, k: nat)
    requires es != []
  {
    es[|es| - 1] == Begin(k) && k < |Created(es[..|es| - 1])| && !Started(es[..|es| - 1], k)
  }

  /** The rate of the last call of the metric to start since it was added; none
      yet means zero. */
  function LastRate(es: seq<Event>, id: Id): int {
    if es == [] then 0
    else
      var prior, e := es[..|es| - 1], es[|es| - 1];
      if e.Begin? && StartsNow(es, e.call) && Created(prior)[e.call].0 == id && Add(id) in prior
      then Created(prior)[e.call].1
      else LastRate(prior, id)
  }

  /** The limit set last. */
  function LastLimit(maxBps: int, es: seq<Event>): int {
    if es == [] then maxBps
    else if es[|es| - 1].SetMax? then es[|es| - 1].bps
    else LastLimit(maxBps, es[..|es| - 1])
  }

  /** The calls of a state are those of a schedule, each pending exactly as long
      as it has not started. */
  predicate CallsRead(s: State, es: seq<Event>) {
    |s.calls| == |Created(es)|
    && forall k :: 0 <= k < |s.calls| ==>
         (s.calls[k].id, s.calls[k].bps) == Created(es)[k] && (s.calls[k].phase.Pending? <==> !Started(es, k))
  }

  ghost predicate RatesRead(s: State, es: seq<Event>) {
    forall id :: (id in s.metrics <==> Add(id) in es)
                 && (if id in s.metrics then s.metrics[id] == LastRate(es, id) else LastRate(es, id) == 0)
  }

  lemma {:induction false} NotCreated(es: seq<Event>, k: nat)
    requires k >= |Created(es)|
    ensures !Started(es, k)
  {
    if es != [] {
      NotCreated(es[..|es| - 1], k);
    }
  }

  /** Calls are only created and started; what they were created with stays. */
  lemma CallsMove(s: State, e: Event)
    ensures var n := Step(s, e);
            |s.calls| <= |n.calls|
            && n.calls[|s.calls|..] == (if e.Spawn? then [Call(e.id, e.bps, Pending)] else [])
            && forall k :: 0 <= k < |s.calls| ==>
                 n.calls[k].id == s.calls[k].id && n.calls[k].bps == s.calls[k].bps
                 && (n.calls[k].phase.Pending? <==> s.calls[k].phase.Pending? && e != Begin(k))
  {
  }

  lemma CallsStep(s: State, es: seq<Event>)
    requires es != [] && CallsRead(s, es[..|es| - 1])
    ensures CallsRead(Step(s, es[|es| - 1]), es)
  {
    hide Step;
    var prior, e := es[..|es| - 1], es[|es| - 1];
    CallsMove(s, e);
    var n := Step(s, e);
    if e.Spawn? {
      NotCreated(prior, |s.calls|);
      assert n.calls[|s.calls|] == n.calls[|s.calls|..][0];
    }
  }

  /** Only additions and starts of known metrics change the rates on record. */
  lemma MetricsStep(s: State, e: Event)
    requires Consistent(s)
    ensures Step(s, e).metrics ==
            if e.Add? && e.id !in s.metrics then s.metrics[e.id := 0]
            else if e.Begin? && Enabled(s, e) && s.calls[e.call].id in s.metrics
            then s.metrics[s.calls[e.call].id := s.calls[e.call].bps]
            else s.metrics
  {
    hide TasksKnown, WaitsKnown;
  }

  lemma RatesStep(s: State, es: seq<Event>)
    requires es != [] && Consistent(s) && CallsRead(s, es[..|es| - 1]) && RatesRead(s, es[..|es| - 1])
    ensures RatesRead(Step(s, es[|es| - 1]), es)
  {
    hide Step, Consistent, Created, Started;
    var prior, e := es[..|es| - 1], es[|es| - 1];
    assert es == prior + [e];
    MetricsStep(s, e);
  }

  lemma {:induction false} RunRead(maxBps: int, es: seq<Event>)
    ensures CallsRead(Run(Initial(maxBps), es), es)
    ensures RatesRead(Run(Initial(maxBps), es), es)
    ensures Run(Initial(maxBps), es).maxBps == LastLimit(maxBps, es)
  {
    hide Step, Inv, RatesRead, CallsRead, LastRate, Created, Started;
    if es == [] {
      NothingRead(maxBps);
    } else {
      var prior := es[..|es| - 1];
      var s := Run(Initial(maxBps), prior);
      RunRead(maxBps, prior);
      InitialInv(maxBps);
      RunInv(Initial(maxBps), prior);
      InvConsistent(s);
      CallsStep(s, es);
      RatesStep(s, es);
      LimitStep(s, es[|es| - 1]);
    }
  }

  lemma NothingRead(maxBps: int)
    ensures CallsRead(Initial(maxBps), []) && RatesRead(Initial(maxBps), [])
  {
  }

  lemma LimitStep(s: State, e: Event)
    ensures Step(s, e).maxBps == if e.SetMax? then e.bps else s.maxBps
  {
  }

  /** Over every schedule: the metrics known are those added, the limit is the
      one set last, and each metric is on record at the rate of its last update
      to start. */
  lemma RecordsExactly(maxBps: int, es: seq<Event>, id: Id)
    ensures var s := Run(Initial(maxBps), es);
            s.maxBps == LastLimit(maxBps, es)
            && (id in s.metrics <==> Add(id) in es)
            && (id in s.metrics ==> s.metrics[id] == LastRate(es, id))
  {
    hide Run, LastRate, LastLimit;
    RunRead(maxBps, es);
  }

  /** And once no update of a metric is in flight, unless some of them overlapped,
      its one subscription runs at that rate, whatever other metrics do. */
  lemma SubscribedExactly(maxBps: int, es: seq<Event>, id: Id)
    requires Add(id) in es && InFlight(Run(Initial(maxBps), es), id) == 0
    requires AllAlone(Initial(maxBps), es, id)
    ensures var s := Run(Initial(maxBps), es);
            id in s.subs && s.subs[id] < |s.tasks|
            && s.tasks[s.subs[id]] == Task(id, LastRate(es, id), Live)
            && Active(s, id) == 1
  {
    hide Run, LastRate, InFlight, Active, AllAlone;
    RecordsExactly(maxBps, es, id);
    InitialInv(maxBps);
    RunInv(Initial(maxBps), es);
    OverlapsExactly(maxBps, es, id);
    QuietCurrent(Run(Initial(maxBps), es), id);
  }
}
