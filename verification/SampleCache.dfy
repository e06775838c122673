/** `SampleSubscriber` (bcp-redis-client/python/src/bcp_redis_client/sample.py):
    a listener thread stores the latest sample and any number of threads read
    it.  Each event below is what one thread does while it holds the lock, or
    a move it makes without the lock, so a schedule is an interleaving. */
module SampleCache {
  import opened Common

  datatype Sample<S> = Sample(metricId: string, data: S)

  /** What the channel yields: a confirmation, a payload that is not a sample,
      or a sample. */
  datatype Message<S> = Control | Corrupt | Data(sample: Sample<S>)

  type Thread = nat

  /** A thread inside `wait_for_sample`: it found no sample, it waits on the
      condition, or it was woken. */
  datatype Phase = Checked | Waiting | Woken

  /** A value returned, and how many samples had been stored by then. */
  datatype Return<S> = Return(thread: Thread, value: Option<Sample<S>>, seen: nat)

  /** The subscriber's fields and its threads, and a record of the samples
      stored and of the values returned. */
  datatype State<S> = State(
    metricId: string,
    latest: Option<Sample<S>>,
    stopping: bool, listening: bool,
    phases: map<Thread, Phase>,
    stored: seq<Sample<S>>, answers: seq<Return<S>>)

  datatype Event<S> =
    | Deliver(message: Message<S>)
    | Stop
    | Get(thread: Thread)
    | Check(thread: Thread)
    | Enter(thread: Thread)
    | Expire(thread: Thread)
    | Leave(thread: Thread)

  function Initial<S>(metricId: string): State<S> {
    State(metricId, None, false, true, map[], [], [])
  }

  function Wake(phases: map<Thread, Phase>): map<Thread, Phase> {
    map t | t in phases :: if phases[t].Waiting? then Woken else phases[t]
  }

  /** The body of the listener's loop: a stop request, a payload that is not a
      sample and a sample of another metric all end the thread. */
  function Hear<S>(s: State<S>, m: Message<S>): State<S> {
    if !s.listening then s
    else if s.stopping then s.(listening := false)
    else
      match m
      case Control => s
      case Corrupt => s.(listening := false)
      case Data(x) =>
        if x.metricId != s.metricId then s.(listening := false)
        else s.(latest := Some(x), stored := s.stored + [x], phases := Wake(s.phases))
  }

  function Answer<S>(s: State<S>, t: Thread): State<S> {
    s.(answers := s.answers + [Return(t, s.latest, |s.stored|)], phases := s.phases - {t})
  }

  function Step<S>(s: State<S>, e: Event<S>): State<S> {
    match e
    case Deliver(m) => Hear(s, m)
    case Stop => s.(stopping := true)
    case Get(t) => if t in s.phases then s else Answer(s, t)
    case Check(t) =>
      if t in s.phases then s
      else if s.latest.Some? then Answer(s, t)
      else s.(phases := s.phases[t := Checked])
    case Enter(t) =>
      if t in s.phases && s.phases[t].Checked? then s.(phases := s.phases[t := Waiting]) else s
    case Expire(t) =>
      if t in s.phases && s.phases[t].Waiting? then s.(phases := s.phases[t := Woken]) else s
    case Leave(t) =>
      if t in s.phases && s.phases[t].Woken? then Answer(s, t) else s
  }

  function Run<S>(s: State<S>, es: seq<Event<S>>): State<S> {
    if es == [] then s else Step(Run(s, es[..|es| - 1]), es[|es| - 1])
  }

  // ---------------------------------------------------- what the listener hears

  /** The samples a schedule lets the listener store, read off the schedule. */
  function Heard<S>(es: seq<Event<S>>, metricId: string): seq<Sample<S>> {
    if es == [] then []
    else
      match es[0]
      case Stop => []
      case Deliver(Corrupt) => []
      case Deliver(Data(x)) => if x.metricId != metricId then [] else [x] + Heard(es[1..], metricId)
      case _ => Heard(es[1..], metricId)
  }

  /** Whether it would store one more. */
  predicate Open<S>(es: seq<Event<S>>, metricId: string) {
    forall i :: 0 <= i < |es| ==>
      es[i] != Stop && es[i] != Deliver(Corrupt)
      && (es[i].Deliver? && es[i].message.Data? ==> es[i].message.sample.metricId == metricId)
  }

  lemma {:induction false} HeardSnoc<S>(es: seq<Event<S>>, e: Event<S>, metricId: string)
    ensures Heard(es + [e], metricId) ==
            Heard(es, metricId) + if Open(es, metricId) then Heard([e], metricId) else []
  {
    if es == [] {
      assert [] + [e] == [e];
      assert Open(es, metricId);
    } else {
      var rest := es[1..];
      assert (es + [e])[1..] == rest + [e];
      HeardSnoc(rest, e, metricId);
      assert Open(es, metricId) <==> Open([es[0]], metricId) && Open(rest, metricId) by {
        assert es == [es[0]] + rest;
      }
      assert es[0] == [es[0]][0];
    }
  }

  function LastOf<S>(xs: seq<Sample<S>>): Option<Sample<S>> {
    if xs == [] then None else Some(xs[|xs| - 1])
  }

  lemma {:induction false} RunHears<S>(metricId: string, es: seq<Event<S>>)
    ensures var s := Run(Initial(metricId), es);
            s.metricId == metricId && s.stored == Heard(es, metricId) && s.latest == LastOf(s.stored)
            && (s.listening && !s.stopping <==> Open(es, metricId))
            && (!s.listening ==> !Open(es, metricId))
  {
    if es == [] {
    } else {
      var last := |es| - 1;
      RunHears(metricId, es[..last]);
      assert es == es[..last] + [es[last]];
      HeardSnoc(es[..last], es[last], metricId);
      OneHeard(Run(Initial<S>(metricId), es[..last]), es[last]);
      assert Open(es, metricId) <==> Open(es[..last], metricId) && Open([es[last]], metricId);
    }
  }

  lemma OneHeard<S>(s: State<S>, e: Event<S>)
    requires s.latest == LastOf(s.stored)
    ensures var n := Step(s, e);
            n.metricId == s.metricId && n.latest == LastOf(n.stored)
            && n.stored == s.stored + (if s.listening && !s.stopping then Heard([e], s.metricId) else [])
            && (n.listening && !n.stopping <==> s.listening && !s.stopping && Open([e], s.metricId))
            && (!s.listening ==> !n.listening)
            && (s.listening && !n.listening ==> s.stopping || !Open([e], s.metricId))
  {
    assert [e][0] == e && [e][1..] == [];
  }

  // ---------------------------------------------------------------- the readers

  /** Whether an event stores a sample. */
  predicate Stores<S>(s: State<S>, e: Event<S>) {
    s.listening && !s.stopping && e.Deliver? && e.message.Data? && e.message.sample.metricId == s.metricId
  }

  /** The moves that end a reader's call: a plain read, a first look that finds
      a sample, and taking the lock again after being woken. */
  predicate Returns<S>(s: State<S>, e: Event<S>) {
    match e
    case Get(t) => t !in s.phases
    case Check(t) => t !in s.phases && s.latest.Some?
    case Leave(t) => t in s.phases && s.phases[t].Woken?
    case _ => false
  }

  /** Whatever event makes a thread return, under any interleaving before it,
      the value is the last sample heard up to then, and none exactly when none
      had been, and the thread is free for another call; no other event returns
      anything. */
  lemma ReturnedExactly<S>(metricId: string, es: seq<Event<S>>, e: Event<S>)
    ensures var s, n := Run(Initial(metricId), es), Run(Initial(metricId), es + [e]);
            var heard := Heard(es, metricId);
            n.answers == s.answers + (if Returns(s, e) then [Return(e.thread, LastOf(heard), |heard|)] else [])
            && (Returns(s, e) ==> e.thread !in n.phases)
  {
    hide Heard;
    RunHears(metricId, es);
    assert (es + [e])[..|es|] == es;
  }

  /** Samples stored stay stored, and the ones returned later are never older. */
  ghost predicate Ordered<S>(s: State<S>) {
    (forall i :: 0 <= i < |s.answers| ==>
       s.answers[i].seen <= |s.stored| && s.answers[i].value == LastOf(s.stored[..s.answers[i].seen]))
    && (forall i, j :: 0 <= i < j < |s.answers| ==> s.answers[i].seen <= s.answers[j].seen)
  }

  /** A step stores at most one sample or returns at most one value. */
  lemma StepHistory<S>(s: State<S>, e: Event<S>)
    ensures var n := Step(s, e);
            if Stores(s, e) then n.stored == s.stored + [e.message.sample] && n.answers == s.answers
            else n.stored == s.stored
                 && n.answers == s.answers + if Returns(s, e) then [Return(e.thread, s.latest, |s.stored|)] else []
  {
  }

  lemma StepOrdered<S>(s: State<S>, e: Event<S>)
    requires s.latest == LastOf(s.stored) && Ordered(s)
    ensures Ordered(Step(s, e)) && s.stored <= Step(s, e).stored && s.answers <= Step(s, e).answers
  {
    StepHistory(s, e);
    hide Step, Stores, Returns;
    var n := Step(s, e);
    assert forall k :: 0 <= k <= |s.stored| ==> n.stored[..k] == s.stored[..k];
    assert s.stored[..|s.stored|] == s.stored;
  }

  /** Over every interleaving: each value returned is the sample that was the
      latest when it was read, reads see samples in the order they were stored,
      and once a sample has been stored no later read returns none. */
  lemma {:induction false} ReadsOrdered<S>(metricId: string, es: seq<Event<S>>)
    ensures Ordered(Run(Initial(metricId), es))
    ensures var answers := Run(Initial(metricId), es).answers;
            forall i, j :: 0 <= i < j < |answers| && answers[i].value.Some? ==> answers[j].value.Some?
  {
    if es != [] {
      var last := |es| - 1;
      ReadsOrdered(metricId, es[..last]);
      RunHears(metricId, es[..last]);
      hide Step, Heard;
      StepOrdered(Run(Initial<S>(metricId), es[..last]), es[last]);
    }
  }

  // --------------------------------------------------------- the lost wake-up

  /** Whether a thread is inside `wait_for_sample`, in the given phase. */
  predicate InPhase<S>(s: State<S>, t: Thread, phase: Phase) {
    t in s.phases && s.phases[t] == phase
  }

  /** A waiting thread goes on waiting until a sample is stored or it times out. */
  lemma WaitsOn<S>(s: State<S>, e: Event<S>, t: Thread)
    requires InPhase(s, t, Waiting)
    ensures InPhase(Step(s, e), t, Waiting) <==> !Stores(s, e) && e != Expire(t)
    ensures t in Step(s, e).phases && (InPhase(Step(s, e), t, Waiting) ==> Step(s, e).latest == s.latest)
  {
  }

  /** A thread is in a phase after an event because it was before, or the event
      put it there. */
  lemma PhaseFrom<S>(s: State<S>, e: Event<S>, t: Thread)
    ensures InPhase(Step(s, e), t, Checked) ==>
              InPhase(s, t, Checked) || (e == Check(t) && t !in s.phases && s.latest.None?)
    ensures InPhase(Step(s, e), t, Waiting) ==>
              InPhase(s, t, Waiting) || (e == Enter(t) && InPhase(s, t, Checked) && Step(s, e).latest == s.latest)
  {
  }

  /** After `start` events the thread is inside `wait_for_sample` all the time. */
  ghost predicate InsideFrom<S>(metricId: string, es: seq<Event<S>>, start: nat, t: Thread) {
    forall k :: start <= k <= |es| ==> t in Run(Initial(metricId), es[..k]).phases
  }

  /** The look a thread has taken: the last time it entered `wait_for_sample`,
      when nothing had been heard. */
  ghost predicate Looked<S>(metricId: string, es: seq<Event<S>>, look: nat, t: Thread) {
    look < |es| && es[look] == Check(t) && Heard(es[..look], metricId) == []
    && t !in Run(Initial(metricId), es[..look]).phases && InsideFrom(metricId, es, look + 1, t)
  }

  lemma InsideMore<S>(metricId: string, es: seq<Event<S>>, e: Event<S>, start: nat, t: Thread)
    requires start <= |es| + 1 && (start <= |es| ==> InsideFrom(metricId, es, start, t))
    requires t in Run(Initial(metricId), es + [e]).phases
    ensures InsideFrom(metricId, es + [e], start, t)
  {
    forall k | start <= k <= |es| + 1 ensures t in Run(Initial(metricId), (es + [e])[..k]).phases {
      if k <= |es| {
        assert (es + [e])[..k] == es[..k];
      } else {
        assert (es + [e])[..k] == es + [e];
      }
    }
  }

  lemma {:induction false} CheckedLooked<S>(metricId: string, es: seq<Event<S>>, t: Thread) returns (look: nat)
    requires InPhase(Run(Initial(metricId), es), t, Checked)
    ensures Looked(metricId, es, look, t)
  {
    hide Step, Heard, InsideFrom, InPhase;
    assert es != [] by { NobodyInside<S>(metricId, t); }
    var last := |es| - 1;
    var p := Run(Initial<S>(metricId), es[..last]);
    PhaseFrom(p, es[last], t);
    assert es[..last] + [es[last]] == es;
    assert t in Run(Initial(metricId), es).phases by { InPhaseInside(Run(Initial(metricId), es), t, Checked); }
    if InPhase(p, t, Checked) {
      look := CheckedLooked(metricId, es[..last], t);
      InsideMore(metricId, es[..last], es[last], look + 1, t);
      assert es[..last][..look] == es[..look];
    } else {
      look := last;
      RunHears(metricId, es[..last]);
      InsideMore(metricId, es[..last], es[last], last + 1, t);
    }
  }

  lemma InPhaseInside<S>(s: State<S>, t: Thread, phase: Phase)
    requires InPhase(s, t, phase)
    ensures t in s.phases
  {
  }

  lemma NobodyInside<S>(metricId: string, t: Thread)
    ensures !InPhase(Run(Initial<S>(metricId), []), t, Checked) && !InPhase(Run(Initial<S>(metricId), []), t, Waiting)
  {
  }

  /** Behind every waiting thread there are its look, at event `look` of the
      schedule, when nothing had been heard, and the event `wait` at which it
      began to wait, without having left in between or afterwards.  It sleeps
      although a sample is there if and only if one had been heard by then. */
  lemma {:induction false} LostWakeupExactly<S>(metricId: string, es: seq<Event<S>>, t: Thread)
    returns (look: nat, wait: nat)
    requires InPhase(Run(Initial(metricId), es), t, Waiting)
    ensures look < wait < |es| && Looked(metricId, es, look, t) && es[wait] == Enter(t)
    ensures InPhase(Run(Initial(metricId), es[..wait]), t, Checked)
    ensures forall k :: wait < k <= |es| ==> InPhase(Run(Initial(metricId), es[..k]), t, Waiting)
    ensures Run(Initial(metricId), es).latest.Some? <==> Heard(es[..wait], metricId) != []
    ensures Run(Initial(metricId), es).latest == Run(Initial(metricId), es[..wait]).latest
  {
    hide Step, Heard, InsideFrom, InPhase;
    assert es != [] by { NobodyInside<S>(metricId, t); }
    var last := |es| - 1;
    var p := Run(Initial<S>(metricId), es[..last]);
    PhaseFrom(p, es[last], t);
    assert es[..last] + [es[last]] == es && es[..|es|] == es;
    InPhaseInside(Run(Initial(metricId), es), t, Waiting);
    if InPhase(p, t, Waiting) {
      look, wait := LostWakeupExactly(metricId, es[..last], t);
      InsideMore(metricId, es[..last], es[last], look + 1, t);
      WaitsOn(p, es[last], t);
      assert es[..last][..look] == es[..look];
      assert forall k :: wait < k <= last ==> es[..last][..k] == es[..k];
      assert es[..last][..wait] == es[..wait];
    } else {
      wait := last;
      look := CheckedLooked(metricId, es[..last], t);
      InsideMore(metricId, es[..last], es[last], look + 1, t);
      assert es[..last][..look] == es[..look];
      RunHears(metricId, es[..last]);
    }
  }

  /** From any moment at which nothing has been stored and the listener is up:
      a thread looks, a sample arrives, the thread begins to wait, and then
      whatever else happens, as long as no further sample is delivered and the
      thread has no timeout, it never returns. */
  lemma {:induction false} LostWakeup<S>(s: State<S>, t: Thread, x: Sample<S>, es: seq<Event<S>>)
    requires t !in s.phases && s.latest.None? && s.listening && !s.stopping && x.metricId == s.metricId
    requires forall i :: 0 <= i < |es| ==> es[i] != Expire(t) && !(es[i].Deliver? && es[i].message.Data?)
    ensures var n := Run(Step(Step(Step(s, Check(t)), Deliver(Data(x))), Enter(t)), es);
            n.latest == Some(x) && t in n.phases && n.phases[t].Waiting?
  {
    if es == [] {
    } else {
      LostWakeup(s, t, x, es[..|es| - 1]);
    }
  }

  /** A woken thread stays so until it leaves. */
  lemma {:induction false} StaysWoken<S>(s: State<S>, t: Thread, es: seq<Event<S>>)
    requires InPhase(s, t, Woken) && forall i :: 0 <= i < |es| ==> es[i] != Leave(t)
    ensures InPhase(Run(s, es), t, Woken) && s.stored <= Run(s, es).stored
  {
    if es != [] {
      StaysWoken(s, t, es[..|es| - 1]);
    }
  }

  /** A thread that does wait is not forgotten: once a sample is stored, or its
      timeout expires, it returns at its next turn, whatever other threads do
      meanwhile, with the last sample stored by then; and if it was a sample that
      woke it, it returns one. */
  lemma WokenReturns<S>(metricId: string, es: seq<Event<S>>, e: Event<S>, more: seq<Event<S>>, t: Thread)
    requires InPhase(Run(Initial(metricId), es), t, Waiting)
    requires Stores(Run(Initial(metricId), es), e) || e == Expire(t)
    requires forall i :: 0 <= i < |more| ==> more[i] != Leave(t)
    ensures var s := Run(Step(Run(Initial(metricId), es), e), more);
            var n := Step(s, Leave(t));
            n.answers == s.answers + [Return(t, LastOf(s.stored), |s.stored|)] && t !in n.phases
            && (Stores(Run(Initial(metricId), es), e) ==> LastOf(s.stored).Some?)
  {
    hide Run, Heard;
    var woken := Step(Run(Initial(metricId), es), e);
    StaysWoken(woken, t, more);
    RunJoin(Initial<S>(metricId), es + [e], more);
    RunJoin(Initial<S>(metricId), es, [e]);
    RunHears(metricId, es + [e] + more);
    RunOne(Run(Initial<S>(metricId), es), e);
  }

  lemma {:induction false} RunJoin<S>(s: State<S>, es: seq<Event<S>>, more: seq<Event<S>>)
    ensures Run(s, es + more) == Run(Run(s, es), more)
  {
    hide Step;
    if more == [] {
      assert es + more == es;
    } else {
      assert (es + more)[..|es + more| - 1] == es + more[..|more| - 1];
      RunJoin(s, es, more[..|more| - 1]);
    }
  }

  lemma RunOne<S>(s: State<S>, e: Event<S>)
    ensures Run(s, [e]) == Step(s, e)
  {
    hide Step;
    assert [e][..0] == [];
  }

  // ------------------------------------------------------------------ the class

  class SampleSubscriber<S> {
    const metricId: string
    var latestSample: Option<Sample<S>>
    var stopEvent: bool
    var listening: bool
    var phases: map<Thread, Phase>
    ghost var stored: seq<Sample<S>>
    ghost var answers: seq<Return<S>>

    ghost function Snapshot(): State<S>
      reads this
    {
      State(metricId, latestSample, stopEvent, listening, phases, stored, answers)
    }

    constructor (metricId: string)
      ensures Snapshot() == Initial(metricId)
    {
      this.metricId := metricId;
      latestSample, stopEvent, listening, phases := None, false, true, map[];
      stored, answers := [], [];
    }

    /** `__exit__` up to joining the listener. */
    method RequestStop()
      modifies this
      ensures Snapshot() == Step(old(Snapshot()), Stop)
    {
      stopEvent := true;
    }

    /** One round of `_run`. */
    method Listen(message: Message<S>)
      modifies this
      ensures Snapshot() == Step(old(Snapshot()), Deliver(message))
    {
      if !listening {
        return;
      }
      if stopEvent {
        listening := false;
        return;
      }
      match message
      case Control =>
      case Corrupt => listening := false;
      case Data(sample) =>
        if sample.metricId != metricId {
          listening := false;
        } else {
          latestSample := Some(sample);
          phases := map t | t in phases :: if phases[t].Waiting? then Woken else phases[t];
          stored := stored + [sample];
        }
    }

    /** `get_sample`. */
    method GetSample(t: Thread) returns (sample: Option<Sample<S>>)
      requires t !in phases
      modifies this
      ensures sample == old(latestSample) && Snapshot() == Step(old(Snapshot()), Get(t))
    {
      sample := latestSample;
      answers := answers + [Return(t, sample, |stored|)];
      assert phases - {t} == phases;
    }

    /** `wait_for_sample` up to releasing the lock of its first look. */
    method WaitCheck(t: Thread) returns (sample: Option<Sample<S>>)
      requires t !in phases
      modifies this
      ensures sample == old(latestSample) && Snapshot() == Step(old(Snapshot()), Check(t))
    {
      sample := latestSample;
      assert phases - {t} == phases;
      if sample.Some? {
        answers := answers + [Return(t, sample, |stored|)];
      } else {
        phases := phases[t := Checked];
      }
    }

    /** Taking the condition's lock and waiting on it, without a second look. */
    method WaitEnter(t: Thread)
      requires t in phases && phases[t].Checked?
      modifies this
      ensures Snapshot() == Step(old(Snapshot()), Enter(t))
    {
      phases := phases[t := Waiting];
    }

    /** Woken, the thread takes the lock again and returns what it finds. */
    method WaitLeave(t: Thread) returns (sample: Option<Sample<S>>)
      requires t in phases && phases[t].Woken?
      modifies this
      ensures sample == old(latestSample) && Snapshot() == Step(old(Snapshot()), Leave(t))
    {
      sample := latestSample;
      answers := answers + [Return(t, sample, |stored|)];
      phases := phases - {t};
    }
  }
}
