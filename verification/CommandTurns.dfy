/** What the turns of the command server's thread do to its table, to its
    clients' descriptors and to the command pipe, read off the turns themselves. */
module CommandTurns {
  import opened Common
  import opened CommandServer

  // ------------------------------------------------------ one pass, by its bits

  lemma {:induction false} FdsSplit(cs: seq<Conn>, j: nat)
    requires j <= |cs|
    ensures FdSet(Fds(cs)) == FdSet(Fds(cs[..j])) + FdSet(Fds(cs[j..]))
    ensures Distinct(Fds(cs)) ==>
      Distinct(Fds(cs[..j])) && Distinct(Fds(cs[j..])) && FdSet(Fds(cs[..j])) !! FdSet(Fds(cs[j..]))
  {
    if j == 0 {
      assert cs[..0] == [] && cs[0..] == cs;
    } else {
      hide Fds, FdSet, Distinct;
      assert cs[..j] == [cs[0]] + cs[1..][..j - 1] && cs[1..][j - 1..] == cs[j..];
      assert cs == [cs[0]] + cs[1..];
      FdsCons(cs[0], cs[1..]);
      FdsCons(cs[0], cs[1..][..j - 1]);
      FdsSplit(cs[1..], j - 1);
    }
  }

  lemma FirstRead(rest: seq<Conn>, i: nat, ready: seq<bool>, input: map<int, ReadOutcome>)
    requires rest != [] && i + |rest| < |ready| && Distinct(Fds(rest))
    ensures rest[0].fd in Pass(rest, i, ready, input).read <==> ready[i + 1]
  {
    hide Fds, FdSet, Distinct;
    var first := Examine(rest[0], i, ready, input);
    PassRead(rest[1..], i + |first.kept|, ready, input);
    FdsCons(rest[0], rest[1..]);
    assert rest == [rest[0]] + rest[1..];
  }

  /** Which clients a pass reads: the `j`-th exactly when the entry is set that
      lies as far along as there are clients before it that stay.  As those are
      decided by reads of earlier clients, this determines the whole set. */
  lemma ReadExactly(cs: seq<Conn>, j: nat, ready: seq<bool>, input: map<int, ReadOutcome>)
    requires |cs| < |ready| && j < |cs| && Distinct(Fds(cs))
    ensures var read := Pass(cs, 0, ready, input).read;
            |Survivors(cs[..j], read, input)| <= j
            && (cs[j].fd in read <==> ready[1 + |Survivors(cs[..j], read, input)|])
  {
    hide Fds, FdSet, Distinct, Pass, Survivors;
    PassSplits(cs, j, 0, ready, input);
    KeptCount(cs[..j], 0, ready, input);
    var a := Pass(cs[..j], 0, ready, input);
    var b := Pass(cs[j..], |a.kept|, ready, input);
    FdsSplit(cs, j);
    PassRead(cs[..j], 0, ready, input);
    PassRead(cs[j..], |a.kept|, ready, input);
    PassFilters(cs[..j], 0, ready, input);
    SurvivorsIgnore(cs[..j], a.read, b.read, input);
    assert a.read + b.read == b.read + a.read;
    FirstRead(cs[j..], |a.kept|, ready, input);
    ListedFd(cs[j..]);
  }

  lemma ListedFd(cs: seq<Conn>)
    requires cs != []
    ensures cs[0].fd in FdSet(Fds(cs))
  {
  }

  /** The descriptors of the clients that were read and were gone. */
  function Lost(cs: seq<Conn>, read: set<int>, input: map<int, ReadOutcome>): seq<int> {
    if cs == [] then []
    else (if Dropped(cs[0], read, input) then [cs[0].fd] else []) + Lost(cs[1..], read, input)
  }

  lemma {:induction false} LostIgnore(cs: seq<Conn>, read: set<int>, extra: set<int>, input: map<int, ReadOutcome>)
    requires extra !! FdSet(Fds(cs))
    ensures Lost(cs, extra + read, input) == Lost(cs, read, input)
  {
    hide Fds, FdSet;
    if cs == [] {
    } else {
      FdsCons(cs[0], cs[1..]);
      assert cs == [cs[0]] + cs[1..];
      LostIgnore(cs[1..], read, extra, input);
    }
  }

  lemma ExamineCloses(c: Conn, i: nat, ready: seq<bool>, input: map<int, ReadOutcome>)
    requires i + 1 < |ready|
    ensures var r := Examine(c, i, ready, input);
            r.closed == if Dropped(c, r.read, input) then [c.fd] else []
  {
  }

  /** A pass closes, in table order, the clients that were read and were gone. */
  lemma {:induction false} PassCloses(rest: seq<Conn>, i: nat, ready: seq<bool>, input: map<int, ReadOutcome>)
    requires i + |rest| < |ready| && Distinct(Fds(rest))
    ensures var r := Pass(rest, i, ready, input);
            r.closed == Lost(rest, r.read, input)
  {
    hide Fds, FdSet, Distinct, Examine;
    if rest == [] {
    } else {
      ExamineDrops(rest[0], i, ready, input);
      ExamineCloses(rest[0], i, ready, input);
      var first := Examine(rest[0], i, ready, input);
      var tail := Pass(rest[1..], i + |first.kept|, ready, input);
      FdsCons(rest[0], rest[1..]);
      assert rest == [rest[0]] + rest[1..];
      PassCloses(rest[1..], i + |first.kept|, ready, input);
      PassRead(rest[1..], i + |first.kept|, ready, input);
      LostIgnore(rest[1..], tail.read, first.read, input);
      assert Dropped(rest[0], first.read + tail.read, input) <==> Dropped(rest[0], first.read, input);
    }
  }

  // ---------------------------------------------------------------- one turn

  /** What happens to the descriptor of a client that `accept` returned before
      any client is read: it is opened, and closed again when there is no room. */
  function Admission(s: Server, client: Option<Conn>): seq<FdEvent> {
    match client
    case None => []
    case Some(c) => if |s.table| < s.max then [Opened(c.fd)] else [Opened(c.fd), Shut(c.fd)]
  }

  lemma MetDistinct(s: Server, client: Option<Conn>)
    requires Inv(s) && (client.Some? ==> client.value.fd !in Fds(s.table))
    ensures Distinct(Fds(Met(s, client))) && |Met(s, client)| <= s.max
  {
    hide Fds, Distinct, Replay;
    if client.Some? && |s.table| < s.max {
      FdsSnoc(s.table, client.value);
      DistinctSnoc(Fds(s.table), client.value.fd);
    }
  }

  /** A turn, from the table `accept` leaves and the set of clients read: the
      table keeps the others and the live ones in order, the pipe gets one line
      for each live client read, and the descriptors opened and closed are the
      client's and those of the clients that were gone. */
  lemma TurnExactly(s: Server, t: Turn)
    requires Inv(s) && Legal(s, t)
    ensures t.Interrupted? ==> Step(s, t) == s
    ensures t.Events? ==>
      var met, after := Met(s, t.client), Step(s, t);
      |met| < |t.ready| &&
      var read := Pass(met, 0, t.ready, t.input).read;
      after.table == Survivors(met, read, t.input)
      && after.max == s.max
      && after.stream == s.stream + Lines(met, read, t.input)
      && after.log == s.log + Admission(s, t.client) + Shuts(Lost(met, read, t.input))
  {
    hide Pass, Fds, Distinct, Replay, Shuts, Survivors, Lines, Lost;
    if t.Events? {
      var met := Met(s, t.client);
      MetDistinct(s, t.client);
      PassFilters(met, 0, t.ready, t.input);
      PassWrites(met, 0, t.ready, t.input);
      PassCloses(met, 0, t.ready, t.input);
      var admitted := if t.client.Some? then Accept(s, t.client.value) else s;
      assert admitted.table == met && admitted.stream == s.stream;
      assert admitted.log == s.log + Admission(s, t.client);
    }
  }

  lemma {:induction false} SurvivorsSnoc(cs: seq<Conn>, c: Conn, read: set<int>, input: map<int, ReadOutcome>)
    ensures Survivors(cs + [c], read, input) == Survivors(cs, read, input) + if Dropped(c, read, input) then [] else [c]
    ensures Lost(cs + [c], read, input) == Lost(cs, read, input) + if Dropped(c, read, input) then [c.fd] else []
  {
    if cs == [] {
    } else {
      assert (cs + [c])[1..] == cs[1..] + [c];
      SurvivorsSnoc(cs[1..], c, read, input);
    }
  }

  /** The client that `accept` returned is the last of the table after the turn
      when there was room and its own read, if any, did not fail; otherwise the
      last thing the turn does to its descriptor is to close it. */
  lemma ClientListed(s: Server, c: Conn, ready: seq<bool>, input: map<int, ReadOutcome>)
    requires Inv(s) && Legal(s, Events(Some(c), ready, input))
    ensures var after := Step(s, Events(Some(c), ready, input));
            |s.log| <= |after.log| && after.log[..|s.log|] == s.log &&
            if |s.table| < s.max && !Dropped(c, Pass(s.table + [c], 0, ready, input).read, input)
            then after.table != [] && after.table[|after.table| - 1] == c
            else c.fd !in Fds(after.table) && Shut(c.fd) in after.log[|s.log|..]
  {
    hide Pass, Shuts, Survivors, Lost, Fds, Replay, Step;
    var t := Events(Some(c), ready, input);
    var after := Step(s, t);
    TurnExactly(s, t);
    var read := Pass(Met(s, Some(c)), 0, ready, input).read;
    var events := Admission(s, Some(c)) + Shuts(Lost(Met(s, Some(c)), read, input));
    assert after.log == s.log + events && after.log[|s.log|..] == events;
    if |s.table| < s.max {
      SurvivorsSnoc(s.table, c, read, input);
      if Dropped(c, read, input) {
        ShutsSnoc(Lost(s.table, read, input), c.fd);
        SurvivorsFds(s.table, c.fd, read, input);
        assert Survivors(s.table, read, input) + [] == Survivors(s.table, read, input);
        assert events[|events| - 1] == Shut(c.fd);
      }
    } else {
      SurvivorsFds(s.table, c.fd, read, input);
      assert events[1] == Shut(c.fd);
    }
  }

  lemma {:induction false} SurvivorsFds(cs: seq<Conn>, fd: int, read: set<int>, input: map<int, ReadOutcome>)
    requires fd !in Fds(cs)
    ensures fd !in Fds(Survivors(cs, read, input))
  {
    if cs != [] {
      SurvivorsFds(cs[1..], fd, read, input);
      var rest := Survivors(cs[1..], read, input);
      if Dropped(cs[0], read, input) {
        assert [] + rest == rest;
      } else {
        assert ([cs[0]] + rest)[1..] == rest;
      }
    }
  }

  // ---------------------------------------------------------------- every run

  function Client(t: Turn): seq<int> {
    if t.Events? && t.client.Some? then [t.client.value.fd] else []
  }

  /** The descriptors `accept` returned in the turns of a run, in order. */
  function Clients(turns: seq<Turn>): seq<int> {
    if turns == [] then []
    else Client(turns[0]) + Clients(turns[1..])
  }

  /** The descriptors a history opens, in order. */
  function OpenedFds(log: seq<FdEvent>): seq<int> {
    if log == [] then []
    else (if log[0].Opened? then [log[0].fd] else []) + OpenedFds(log[1..])
  }

  lemma {:induction false} OpenedJoin(a: seq<FdEvent>, b: seq<FdEvent>)
    ensures OpenedFds(a + b) == OpenedFds(a) + OpenedFds(b)
  {
    if a == [] {
      assert a + b == b;
    } else {
      assert (a + b)[1..] == a[1..] + b;
      OpenedJoin(a[1..], b);
    }
  }

  lemma {:induction false} ShutsOpenNothing(fds: seq<int>)
    ensures OpenedFds(Shuts(fds)) == []
  {
    if fds != [] {
      assert Shuts(fds)[1..] == Shuts(fds[1..]);
      ShutsOpenNothing(fds[1..]);
    }
  }

  lemma AdmissionOpens(s: Server, client: Option<Conn>)
    ensures OpenedFds(Admission(s, client)) == if client.Some? then [client.value.fd] else []
  {
    if client.Some? {
      var fd := client.value.fd;
      assert OpenedFds([]) == [];
      assert [Opened(fd)][1..] == [] && [Opened(fd), Shut(fd)][1..] == [Shut(fd)] && [Shut(fd)][1..] == [];
    }
  }

  lemma TurnOpens(s: Server, t: Turn)
    requires Inv(s) && Legal(s, t)
    ensures OpenedFds(Step(s, t).log) == OpenedFds(s.log) + Client(t)
  {
    hide OpenedFds, Step, Pass, Shuts, Lost, Replay;
    TurnExactly(s, t);
    if t.Events? {
      var lost := Lost(Met(s, t.client), Pass(Met(s, t.client), 0, t.ready, t.input).read, t.input);
      OpenedJoin(s.log + Admission(s, t.client), Shuts(lost));
      OpenedJoin(s.log, Admission(s, t.client));
      ShutsOpenNothing(lost);
      AdmissionOpens(s, t.client);
    }
  }

  lemma {:induction false} RunOpens(s: Server, turns: seq<Turn>)
    requires Inv(s) && LegalRun(s, turns)
    ensures OpenedFds(Run(s, turns).log) == OpenedFds(s.log) + Clients(turns)
    decreases |turns|
  {
    hide Step, Replay, Fds, FdSet, Distinct, OpenedFds, Legal, Client;
    if turns == [] {
    } else {
      StepKeeps(s, turns[0]);
      TurnOpens(s, turns[0]);
      RunOpens(Step(s, turns[0]), turns[1..]);
      assert OpenedFds(s.log) + Client(turns[0]) + Clients(turns[1..]) == OpenedFds(s.log) + Clients(turns);
    }
  }

  /** Over every run from creation: the descriptors opened are the ones that
      `accept` returned, each once and in order; with the invariant over runs,
      the table lists exactly those of them that were not closed since. */
  lemma ClientsOpened(max: nat, turns: seq<Turn>)
    requires LegalRun(Fresh(max), turns)
    ensures OpenedFds(Run(Fresh(max), turns).log) == Clients(turns)
  {
    hide LegalRun, Run, Step;
    assert FdSet(Fds([])) == {};
    RunOpens(Fresh(max), turns);
  }
}
