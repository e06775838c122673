/** The command server's connection table (bcp-fetch-client/src/command_server.c):
    accepting, reading and dropping clients, and closing everything at the end.
    `poll`, `accept` and `read` are replaced by their results. */
module CommandServer {
  import opened Common

  const BUFFER_SIZE := 1024
  const SIZE_T := 0x1_0000_0000_0000_0000
  const NEWLINE: Byte := 10

  datatype Conn = Conn(fd: int, addr: int)

  /** A `read` of a client: some bytes, or end of file or an error. */
  datatype ReadOutcome = Chunk(bytes: seq<Byte>) | Gone

  /** What `read` returns for a descriptor during one pass. */
  function Outcome(input: map<int, ReadOutcome>, fd: int): ReadOutcome {
    if fd in input then input[fd] else Gone
  }

  function Fds(cs: seq<Conn>): seq<int> {
    if cs == [] then [] else [cs[0].fd] + Fds(cs[1..])
  }

  predicate Distinct(fds: seq<int>) {
    fds == [] || (fds[0] !in fds[1..] && Distinct(fds[1..]))
  }

  function FdSet(fds: seq<int>): set<int> {
    set fd | fd in fds
  }

  lemma FdSetCons(fd: int, fds: seq<int>)
    ensures FdSet([fd] + fds) == {fd} + FdSet(fds)
  {
  }

  lemma FdsCons(c: Conn, cs: seq<Conn>)
    ensures Fds([c] + cs) == [c.fd] + Fds(cs)
    ensures FdSet(Fds([c] + cs)) == {c.fd} + FdSet(Fds(cs))
    ensures Distinct(Fds([c] + cs)) <==> c.fd !in FdSet(Fds(cs)) && Distinct(Fds(cs))
  {
    assert ([c] + cs)[1..] == cs;
    assert ([c.fd] + Fds(cs))[1..] == Fds(cs);
    FdSetCons(c.fd, Fds(cs));
  }

  lemma DistinctCons(fd: int, fds: seq<int>)
    ensures Distinct([fd] + fds) <==> fd !in FdSet(fds) && Distinct(fds)
  {
    assert ([fd] + fds)[1..] == fds;
  }

  // ------------------------------------------------- one pass over the clients

  /** `tested` pairs each examined descriptor with the index of the `pollfd`
      entry that was consulted for it. */
  datatype PassResult = PassResult(
    kept: seq<Conn>, closed: seq<int>, pipe: seq<Byte>, tested: seq<(int, int)>, read: set<int>)

  function Join(a: PassResult, b: PassResult): PassResult {
    PassResult(a.kept + b.kept, a.closed + b.closed, a.pipe + b.pipe, a.tested + b.tested, a.read + b.read)
  }

  const Nothing := PassResult([], [], [], [], {})

  /** What examining one connection at table index `i` contributes. */
  function Examine(c: Conn, i: nat, ready: seq<bool>, input: map<int, ReadOutcome>): PassResult
    requires i + 1 < |ready|
  {
    Examined(c, i, ready[i + 1], input)
  }

  function Examined(c: Conn, i: nat, bit: bool, input: map<int, ReadOutcome>): PassResult {
    if !bit then PassResult([c], [], [], [(c.fd, i + 1)], {})
    else
      match Outcome(input, c.fd)
      case Gone => PassResult([], [c.fd], [], [(c.fd, i + 1)], {c.fd})
      case Chunk(bytes) => PassResult([c], [], bytes + [NEWLINE], [(c.fd, i + 1)], {c.fd})
  }

  /** The pass from table index `i` on, with `rest` still to be examined: the
      index stays where it is after a removal. */
  function Pass(rest: seq<Conn>, i: nat, ready: seq<bool>, input: map<int, ReadOutcome>): PassResult
    requires i + |rest| < |ready|
  {
    if rest == [] then Nothing
    else
      var first := Examine(rest[0], i, ready, input);
      Join(first, Pass(rest[1..], i + |first.kept|, ready, input))
  }

  predicate Dropped(c: Conn, read: set<int>, input: map<int, ReadOutcome>) {
    c.fd in read && Outcome(input, c.fd).Gone?
  }

  /** The order-preserving filter that drops the clients whose read failed. */
  function Survivors(cs: seq<Conn>, read: set<int>, input: map<int, ReadOutcome>): seq<Conn> {
    if cs == [] then []
    else (if Dropped(cs[0], read, input) then [] else [cs[0]]) + Survivors(cs[1..], read, input)
  }

  lemma {:induction false} PassRead(rest: seq<Conn>, i: nat, ready: seq<bool>, input: map<int, ReadOutcome>)
    requires i + |rest| < |ready|
    ensures Pass(rest, i, ready, input).read <= FdSet(Fds(rest))
  {
    hide Fds, FdSet;
    if rest == [] {
    } else {
      var first := Examine(rest[0], i, ready, input);
      PassRead(rest[1..], i + |first.kept|, ready, input);
      FdsCons(rest[0], rest[1..]);
      assert rest == [rest[0]] + rest[1..];
    }
  }

  /** A descriptor the table does not list makes no difference. */
  lemma {:induction false} SurvivorsIgnore(cs: seq<Conn>, read: set<int>, extra: set<int>, input: map<int, ReadOutcome>)
    requires extra !! FdSet(Fds(cs))
    ensures Survivors(cs, extra + read, input) == Survivors(cs, read, input)
  {
    hide Fds, FdSet;
    if cs == [] {
    } else {
      FdsCons(cs[0], cs[1..]);
      assert cs == [cs[0]] + cs[1..];
      SurvivorsIgnore(cs[1..], read, extra, input);
    }
  }

  /** Whatever the readiness bits are, the table that remains is the table at
      entry without exactly the clients that were read and were gone. */
  lemma {:induction false} PassFilters(rest: seq<Conn>, i: nat, ready: seq<bool>, input: map<int, ReadOutcome>)
    requires i + |rest| < |ready| && Distinct(Fds(rest))
    ensures var r := Pass(rest, i, ready, input);
            r.kept == Survivors(rest, r.read, input)
  {
    hide Fds, FdSet, Distinct, Examine;
    if rest == [] {
    } else {
      ExamineDrops(rest[0], i, ready, input);
      var first := Examine(rest[0], i, ready, input);
      var tail := Pass(rest[1..], i + |first.kept|, ready, input);
      FdsCons(rest[0], rest[1..]);
      assert rest == [rest[0]] + rest[1..];
      PassFilters(rest[1..], i + |first.kept|, ready, input);
      PassRead(rest[1..], i + |first.kept|, ready, input);
      SurvivorsIgnore(rest[1..], tail.read, first.read, input);
      assert Dropped(rest[0], first.read + tail.read, input) <==> Dropped(rest[0], first.read, input);
    }
  }

  lemma ExamineDrops(c: Conn, i: nat, ready: seq<bool>, input: map<int, ReadOutcome>)
    requires i + 1 < |ready|
    ensures var r := Examine(c, i, ready, input);
            r.read <= {c.fd} && r.kept == if Dropped(c, r.read, input) then [] else [c]
  {
  }

  /** What the clients that were read sent, in table order, each chunk with a
      newline after it. */
  function Lines(cs: seq<Conn>, read: set<int>, input: map<int, ReadOutcome>): seq<Byte> {
    if cs == [] then []
    else Line(cs[0], read, input) + Lines(cs[1..], read, input)
  }

  function Line(c: Conn, read: set<int>, input: map<int, ReadOutcome>): seq<Byte> {
    if c.fd in read && Outcome(input, c.fd).Chunk? then Outcome(input, c.fd).bytes + ['\n' as int] else []
  }

  lemma {:induction false} LinesIgnore(cs: seq<Conn>, read: set<int>, extra: set<int>, input: map<int, ReadOutcome>)
    requires extra !! FdSet(Fds(cs))
    ensures Lines(cs, extra + read, input) == Lines(cs, read, input)
  {
    hide Fds, FdSet;
    if cs == [] {
    } else {
      FdsCons(cs[0], cs[1..]);
      assert cs == [cs[0]] + cs[1..];
      LinesIgnore(cs[1..], read, extra, input);
    }
  }

  /** A pass writes to the command pipe exactly what its reads returned, one
      line a client and in table order, also when it removes others on the way. */
  lemma {:induction false} PassWrites(rest: seq<Conn>, i: nat, ready: seq<bool>, input: map<int, ReadOutcome>)
    requires i + |rest| < |ready| && Distinct(Fds(rest))
    ensures var r := Pass(rest, i, ready, input);
            r.pipe == Lines(rest, r.read, input)
  {
    hide Fds, FdSet, Distinct, Examine;
    if rest == [] {
    } else {
      ExamineWrites(rest[0], i, ready, input);
      ExamineDrops(rest[0], i, ready, input);
      var first := Examine(rest[0], i, ready, input);
      var tail := Pass(rest[1..], i + |first.kept|, ready, input);
      FdsCons(rest[0], rest[1..]);
      assert rest == [rest[0]] + rest[1..];
      PassWrites(rest[1..], i + |first.kept|, ready, input);
      PassRead(rest[1..], i + |first.kept|, ready, input);
      LinesIgnore(rest[1..], tail.read, first.read, input);
      assert Line(rest[0], first.read + tail.read, input) == Line(rest[0], first.read, input);
    }
  }

  lemma ExamineWrites(c: Conn, i: nat, ready: seq<bool>, input: map<int, ReadOutcome>)
    requires i + 1 < |ready|
    ensures var r := Examine(c, i, ready, input); r.pipe == Line(c, r.read, input)
  {
  }

  /** Every descriptor of a table is either still listed or closed, never both,
      and neither listed nor closed twice. */
  predicate Partition(kept: seq<int>, closed: seq<int>, fds: seq<int>) {
    Distinct(kept) && Distinct(closed)
    && FdSet(closed) + FdSet(kept) == FdSet(fds) && FdSet(closed) !! FdSet(kept)
    && |kept| + |closed| == |fds|
  }

  lemma PartitionStep(fd: int, kept: seq<int>, closed: seq<int>, fds: seq<int>)
    requires Partition(kept, closed, fds) && fd !in FdSet(fds)
    ensures Partition([fd] + kept, closed, [fd] + fds)
    ensures Partition(kept, [fd] + closed, [fd] + fds)
  {
    hide FdSet, Distinct;
    FdSetCons(fd, kept); FdSetCons(fd, closed); FdSetCons(fd, fds);
    DistinctCons(fd, kept); DistinctCons(fd, closed);
  }

  lemma PartitionNothing()
    ensures Partition([], [], [])
  {
  }

  /** What the first connection adds to the two lists a pass produces. */
  lemma PassCons(rest: seq<Conn>, i: nat, ready: seq<bool>, input: map<int, ReadOutcome>)
    requires rest != [] && i + |rest| < |ready|
    ensures var first := Examine(rest[0], i, ready, input);
            |first.kept| <= 1 &&
            var r, tail := Pass(rest, i, ready, input), Pass(rest[1..], i + |first.kept|, ready, input);
            ((r.kept == [rest[0]] + tail.kept && r.closed == tail.closed)
             || (r.kept == tail.kept && r.closed == [rest[0].fd] + tail.closed))
  {
    hide Examine, Join;
    ExamineSplits(rest[0], i, ready, input);
    var first := Examine(rest[0], i, ready, input);
    JoinCons(rest[0], first, Pass(rest[1..], i + |first.kept|, ready, input));
  }

  lemma JoinCons(c: Conn, first: PassResult, tail: PassResult)
    requires (first.kept == [c] && first.closed == []) || (first.kept == [] && first.closed == [c.fd])
    ensures (Join(first, tail).kept == [c] + tail.kept && Join(first, tail).closed == tail.closed)
            || (Join(first, tail).kept == tail.kept && Join(first, tail).closed == [c.fd] + tail.closed)
  {
    assert [] + tail.kept == tail.kept && [] + tail.closed == tail.closed;
  }

  lemma {:induction false} PassPartitions(rest: seq<Conn>, i: nat, ready: seq<bool>, input: map<int, ReadOutcome>)
    requires i + |rest| < |ready| && Distinct(Fds(rest))
    ensures Partition(Fds(Pass(rest, i, ready, input).kept), Pass(rest, i, ready, input).closed, Fds(rest))
    decreases rest, 1
  {
    if rest == [] {
      PartitionNothing();
    } else {
      PassPartitionsStep(rest, i, ready, input);
    }
  }

  lemma {:induction false} PassPartitionsStep(rest: seq<Conn>, i: nat, ready: seq<bool>, input: map<int, ReadOutcome>)
    requires rest != [] && i + |rest| < |ready| && Distinct(Fds(rest))
    ensures Partition(Fds(Pass(rest, i, ready, input).kept), Pass(rest, i, ready, input).closed, Fds(rest))
    decreases rest, 0
  {
    hide Fds, FdSet, Distinct, Partition, Examine, Pass;
    PassCons(rest, i, ready, input);
    var i' := i + |Examine(rest[0], i, ready, input).kept|;
    var tail := Pass(rest[1..], i', ready, input);
    assert rest == [rest[0]] + rest[1..];
    FdsCons(rest[0], rest[1..]);
    PassPartitions(rest[1..], i', ready, input);
    PartitionStep(rest[0].fd, Fds(tail.kept), tail.closed, Fds(rest[1..]));
    FdsCons(rest[0], tail.kept);
  }

  lemma {:induction false} KeptCount(rest: seq<Conn>, i: nat, ready: seq<bool>, input: map<int, ReadOutcome>)
    requires i + |rest| < |ready|
    ensures var r := Pass(rest, i, ready, input);
            |r.kept| + |r.closed| == |rest|
  {
    hide Examine;
    if rest != [] {
      ExamineSplits(rest[0], i, ready, input);
      KeptCount(rest[1..], i + |Examine(rest[0], i, ready, input).kept|, ready, input);
    }
  }

  /** Removals among the first `j` connections of the table. */
  function DropsBefore(cs: seq<Conn>, j: nat, ready: seq<bool>, input: map<int, ReadOutcome>): nat
    requires |cs| < |ready| && j <= |cs|
  {
    |Pass(cs[..j], 0, ready, input).closed|
  }

  lemma ExamineSplits(c: Conn, i: nat, ready: seq<bool>, input: map<int, ReadOutcome>)
    requires i + 1 < |ready|
    ensures var r := Examine(c, i, ready, input);
            ((r.kept == [c] && r.closed == []) || (r.kept == [] && r.closed == [c.fd]))
            && r.tested == [(c.fd, i + 1)]
  {
  }

  lemma JoinNothing(a: PassResult)
    ensures Join(Nothing, a) == a
  {
    var r := Join(Nothing, a);
    assert r.kept == a.kept && r.closed == a.closed && r.pipe == a.pipe && r.tested == a.tested && r.read == a.read;
  }

  /** A pass over a table is a pass over a prefix and then over the rest. */
  lemma {:induction false} PassSplits(cs: seq<Conn>, j: nat, i: nat, ready: seq<bool>, input: map<int, ReadOutcome>)
    requires i + |cs| < |ready| && j <= |cs|
    ensures |Pass(cs[..j], i, ready, input).kept| <= j
    ensures var a := Pass(cs[..j], i, ready, input);
            Pass(cs, i, ready, input) == Join(a, Pass(cs[j..], i + |a.kept|, ready, input))
  {
    hide Examine, Join;
    KeptCount(cs[..j], i, ready, input);
    if j == 0 {
      assert cs[..0] == [] && cs[0..] == cs;
      JoinNothing(Pass(cs, i, ready, input));
    } else {
      var first := Examine(cs[0], i, ready, input);
      var i' := i + |first.kept|;
      ExamineSplits(cs[0], i, ready, input);
      assert cs[..j][1..] == cs[1..][..j - 1] && cs[..j][0] == cs[0];
      assert cs[1..][j - 1..] == cs[j..];
      PassSplits(cs[1..], j - 1, i', ready, input);
      var mid := Pass(cs[1..][..j - 1], i', ready, input);
      JoinAssociates(first, mid, Pass(cs[j..], i' + |mid.kept|, ready, input));
      JoinKept(first, mid);
    }
  }

  lemma JoinKept(a: PassResult, b: PassResult)
    ensures |Join(a, b).kept| == |a.kept| + |b.kept|
  {
  }

  lemma JoinAssociates(a: PassResult, b: PassResult, c: PassResult)
    ensures Join(Join(a, b), c) == Join(a, Join(b, c))
  {
    var l, r := Join(Join(a, b), c), Join(a, Join(b, c));
    assert l.kept == r.kept && l.closed == r.closed && l.pipe == r.pipe && l.tested == r.tested && l.read == r.read;
  }

  lemma {:induction false} TestedLength(cs: seq<Conn>, i: nat, ready: seq<bool>, input: map<int, ReadOutcome>)
    requires i + |cs| < |ready|
    ensures |Pass(cs, i, ready, input).tested| == |cs|
  {
    if cs != [] {
      var first := Examine(cs[0], i, ready, input);
      TestedLength(cs[1..], i + |first.kept|, ready, input);
    }
  }

  /** A pass examines every connection present at its start exactly once, in
      order; the `j`-th is judged by the entry that belongs to the connection
      as many places before it as there were removals before it. */
  lemma ExaminedOnce(cs: seq<Conn>, j: nat, ready: seq<bool>, input: map<int, ReadOutcome>)
    requires |cs| < |ready| && j < |cs|
    ensures |Pass(cs, 0, ready, input).tested| == |cs|
    ensures Pass(cs, 0, ready, input).tested[j] == (cs[j].fd, j + 1 - DropsBefore(cs, j, ready, input))
  {
    hide Examine;
    TestedLength(cs, 0, ready, input);
    PassSplits(cs, j, 0, ready, input);
    KeptCount(cs[..j], 0, ready, input);
    var a := Pass(cs[..j], 0, ready, input);
    TestedLength(cs[..j], 0, ready, input);
    assert cs[j..][0] == cs[j];
    ExamineSplits(cs[j], |a.kept|, ready, input);
  }

  lemma DropsMonotone(cs: seq<Conn>, j: nat, k: nat, ready: seq<bool>, input: map<int, ReadOutcome>)
    requires |cs| < |ready| && j <= k <= |cs|
    ensures DropsBefore(cs, j, ready, input) <= DropsBefore(cs, k, ready, input)
  {
    hide Pass;
    PassSplits(cs[..k], j, 0, ready, input);
    assert cs[..k][..j] == cs[..j];
  }

  /** Every connection is judged by the entry of its own place exactly when
      nothing but possibly the last connection is removed. */
  lemma OwnPlaces(cs: seq<Conn>, ready: seq<bool>, input: map<int, ReadOutcome>)
    requires |cs| < |ready| && cs != []
    ensures |Pass(cs, 0, ready, input).tested| == |cs|
    ensures (forall j :: 0 <= j < |cs| ==> Pass(cs, 0, ready, input).tested[j].1 == j + 1) <==>
            Pass(cs[..|cs| - 1], 0, ready, input).closed == []
  {
    hide Pass;
    var last := |cs| - 1;
    ExaminedOnce(cs, last, ready, input);
    forall j | 0 <= j < |cs|
      ensures Pass(cs, 0, ready, input).tested[j].1 == j + 1 - DropsBefore(cs, j, ready, input)
      ensures DropsBefore(cs, j, ready, input) <= DropsBefore(cs, last, ready, input)
    {
      ExaminedOnce(cs, j, ready, input);
      DropsMonotone(cs, j, last, ready, input);
    }
  }

  /** Nothing is removed exactly when no client's entry is ready while its read
      would fail: what can be seen before the pass. */
  lemma {:induction false} NoneDropped(rest: seq<Conn>, i: nat, ready: seq<bool>, input: map<int, ReadOutcome>)
    requires i + |rest| < |ready|
    ensures Pass(rest, i, ready, input).closed == [] <==>
            forall j :: 0 <= j < |rest| ==> !ReadyAndGone(rest[j], ready[i + j + 1], input)
  {
    if rest == [] {
    } else if ReadyAndGone(rest[0], ready[i + 1], input) {
      assert !(forall j :: 0 <= j < |rest| ==> !ReadyAndGone(rest[j], ready[i + j + 1], input)) by {
        assert ReadyAndGone(rest[0], ready[i + 0 + 1], input);
      }
    } else {
      NoneDropped(rest[1..], i + 1, ready, input);
      assert forall j :: 1 <= j < |rest| ==> rest[j] == rest[1..][j - 1] && ready[i + j + 1] == ready[i + 1 + (j - 1) + 1];
      assert forall j :: 0 <= j < |rest| - 1 ==> rest[1..][j] == rest[j + 1];
    }
  }

  predicate ReadyAndGone(c: Conn, bit: bool, input: map<int, ReadOutcome>) {
    bit && Outcome(input, c.fd).Gone?
  }

  // ---------------------------------------------------------- whole-run safety

  datatype FdEvent = Opened(fd: int) | Shut(fd: int)

  /** The descriptors open after a history, or `None` if one was opened while
      open or closed while not open. */
  function Replay(log: seq<FdEvent>): Option<set<int>> {
    if log == [] then Some({})
    else
      match (Replay(log[..|log| - 1]), log[|log| - 1])
      case (None, _) => None
      case (Some(open), Opened(fd)) => if fd in open then None else Some(open + {fd})
      case (Some(open), Shut(fd)) => if fd in open then Some(open - {fd}) else None
  }

  function Shuts(fds: seq<int>): seq<FdEvent> {
    if fds == [] then [] else [Shut(fds[0])] + Shuts(fds[1..])
  }

  lemma ReplayNext(log: seq<FdEvent>, e: FdEvent)
    ensures Replay(log + [e]) ==
            match (Replay(log), e)
            case (None, _) => None
            case (Some(open), Opened(fd)) => if fd in open then None else Some(open + {fd})
            case (Some(open), Shut(fd)) => if fd in open then Some(open - {fd}) else None
  {
    assert (log + [e])[..|log|] == log;
  }

  /** Closing distinct open descriptors one after the other is legal and leaves
      the others open. */
  lemma {:induction false} ShutAll(log: seq<FdEvent>, open: set<int>, fds: seq<int>)
    requires Replay(log) == Some(open) && Distinct(fds) && FdSet(fds) <= open
    ensures Replay(log + Shuts(fds)) == Some(open - FdSet(fds))
    decreases |fds|
  {
    hide Replay;
    if fds == [] {
      assert log + Shuts(fds) == log;
      assert open - FdSet(fds) == open;
    } else {
      assert fds == [fds[0]] + fds[1..];
      FdSetCons(fds[0], fds[1..]);
      ReplayNext(log, Shut(fds[0]));
      ShutAll(log + [Shut(fds[0])], open - {fds[0]}, fds[1..]);
      assert log + Shuts(fds) == log + [Shut(fds[0])] + Shuts(fds[1..]);
      assert open - {fds[0]} - FdSet(fds[1..]) == open - FdSet(fds);
    }
  }

  /** The server's table, its history of descriptors and the command stream. */
  datatype Server = Server(table: seq<Conn>, max: nat, log: seq<FdEvent>, stream: seq<Byte>)

  /** One turn of the server thread: an interrupted `poll`, or the connection
      `accept` returned (if any), the readiness bits and the reads. */
  datatype Turn =
    | Interrupted
    | Events(client: Option<Conn>, ready: seq<bool>, input: map<int, ReadOutcome>)

  /** The contract of `accept`: a new descriptor is not one already open. */
  predicate Legal(s: Server, t: Turn) {
    t.Events? ==> |t.ready| == s.max + 1 && (t.client.Some? ==> t.client.value.fd !in Fds(s.table))
  }

  function Accept(s: Server, c: Conn): Server {
    if |s.table| < s.max then s.(table := s.table + [c], log := s.log + [Opened(c.fd)])
    else s.(log := s.log + [Opened(c.fd), Shut(c.fd)])
  }

  function ReadClients(s: Server, ready: seq<bool>, input: map<int, ReadOutcome>): (r: Server)
    requires |s.table| < |ready|
    ensures |r.table| <= |s.table| && r.max == s.max
  {
    KeptCount(s.table, 0, ready, input);
    var r := Pass(s.table, 0, ready, input);
    s.(table := r.kept, log := s.log + Shuts(r.closed), stream := s.stream + r.pipe)
  }

  function Step(s: Server, t: Turn): (r: Server)
    requires |s.table| <= s.max && Legal(s, t)
    ensures |r.table| <= r.max && r.max == s.max
  {
    match t
    case Interrupted => s
    case Events(client, ready, input) =>
      ReadClients(if client.Some? then Accept(s, client.value) else s, ready, input)
  }

  predicate LegalRun(s: Server, turns: seq<Turn>)
    requires |s.table| <= s.max
    decreases |turns|
  {
    turns == [] || (Legal(s, turns[0]) && LegalRun(Step(s, turns[0]), turns[1..]))
  }

  /** The server after any number of turns of its thread. */
  function Run(s: Server, turns: seq<Turn>): Server
    requires |s.table| <= s.max && LegalRun(s, turns)
    decreases |turns|
  {
    if turns == [] then s else Run(Step(s, turns[0]), turns[1..])
  }

  /** The table is within bounds, lists no descriptor twice, and lists exactly
      the descriptors that were accepted and not yet closed. */
  predicate Inv(s: Server) {
    |s.table| <= s.max && Distinct(Fds(s.table)) && Replay(s.log) == Some(FdSet(Fds(s.table)))
  }

  lemma {:induction false} DistinctSnoc(fds: seq<int>, fd: int)
    ensures Distinct(fds + [fd]) <==> Distinct(fds) && fd !in fds
    ensures FdSet(fds + [fd]) == FdSet(fds) + {fd}
  {
    if fds == [] {
    } else {
      assert (fds + [fd])[1..] == fds[1..] + [fd];
      DistinctSnoc(fds[1..], fd);
    }
  }

  lemma {:induction false} FdsSnoc(cs: seq<Conn>, c: Conn)
    ensures Fds(cs + [c]) == Fds(cs) + [c.fd]
  {
    if cs == [] {
    } else {
      assert (cs + [c])[1..] == cs[1..] + [c];
      FdsSnoc(cs[1..], c);
    }
  }

  lemma AcceptKeeps(s: Server, c: Conn)
    requires Inv(s) && c.fd !in Fds(s.table)
    ensures Inv(Accept(s, c))
  {
    hide Replay, Fds, Distinct;
    var open := FdSet(Fds(s.table));
    ReplayNext(s.log, Opened(c.fd));
    if |s.table| < s.max {
      FdsSnoc(s.table, c);
      DistinctSnoc(Fds(s.table), c.fd);
    } else {
      ReplayNext(s.log + [Opened(c.fd)], Shut(c.fd));
      assert s.log + [Opened(c.fd), Shut(c.fd)] == s.log + [Opened(c.fd)] + [Shut(c.fd)];
      assert open + {c.fd} - {c.fd} == open;
    }
  }

  lemma ReadKeeps(s: Server, ready: seq<bool>, input: map<int, ReadOutcome>)
    requires Inv(s) && |s.table| < |ready|
    ensures Inv(ReadClients(s, ready, input))
  {
    hide Replay, Pass, FdSet, Fds, Distinct;
    var r := Pass(s.table, 0, ready, input);
    var open := FdSet(Fds(s.table));
    PassPartitions(s.table, 0, ready, input);
    KeptCount(s.table, 0, ready, input);
    ShutAll(s.log, open, r.closed);
    assert open - FdSet(r.closed) == FdSet(Fds(r.kept));
  }

  lemma AcceptBound(s: Server, c: Conn)
    requires |s.table| <= s.max
    ensures |Accept(s, c).table| <= s.max && Accept(s, c).max == s.max
  {
  }

  lemma StepKeeps(s: Server, t: Turn)
    requires Inv(s) && Legal(s, t)
    ensures Inv(Step(s, t))
  {
    hide Pass, Replay;
    match t
    case Interrupted =>
    case Events(client, ready, input) =>
      if client.Some? {
        AcceptKeeps(s, client.value);
        AcceptBound(s, client.value);
        ReadKeeps(Accept(s, client.value), ready, input);
      } else {
        ReadKeeps(s, ready, input);
      }
  }

  // ------------------------------------------------------- whose bit is tested

  /** The entry tested belongs to the connection, and the `poll` of this turn
      filled it: entry `k` stands for the `k`th of the connections present when
      `poll` was called, and entries past those keep what they had before. */
  predicate OwnBit(polled: seq<Conn>, test: (int, int)) {
    1 <= test.1 <= |polled| && polled[test.1 - 1].fd == test.0
  }

  /** The table the client loop of a turn goes over. */
  function Met(s: Server, client: Option<Conn>): seq<Conn> {
    if client.Some? && |s.table| < s.max then s.table + [client.value] else s.table
  }

  lemma {:induction false} FdAt(cs: seq<Conn>, i: nat, j: nat)
    requires Distinct(Fds(cs)) && i < |cs| && j < |cs|
    ensures cs[i].fd == cs[j].fd <==> i == j
    ensures cs[i].fd in Fds(cs)
  {
    if i > 0 && j > 0 {
      FdAt(cs[1..], i - 1, j - 1);
    } else if i > 0 {
      FdAt(cs[1..], i - 1, i - 1);
    } else if j > 0 {
      FdAt(cs[1..], j - 1, j - 1);
    }
  }

  /** In a turn every client is judged by its own bit, of this turn's poll, if
      and only if no client was accepted into the table this turn and no client
      but the last is both ready and gone. */
  lemma OwnBitsExactly(s: Server, client: Option<Conn>, ready: seq<bool>, input: map<int, ReadOutcome>)
    requires Inv(s) && Legal(s, Events(client, ready, input))
    ensures |Met(s, client)| < |ready|
    ensures var tested := Pass(Met(s, client), 0, ready, input).tested;
            (forall j :: 0 <= j < |tested| ==> OwnBit(s.table, tested[j])) <==>
            (client.None? || |s.table| == s.max)
            && forall j :: 0 <= j < |s.table| - 1 ==> !ReadyAndGone(s.table[j], ready[j + 1], input)
  {
    hide Pass, Fds, Distinct, Replay, ReadyAndGone, Outcome;
    if client.Some? && |s.table| < s.max {
      FreshNotOwn(s, client.value, ready, input);
    } else if s.table == [] {
      TestedLength([], 0, ready, input);
    } else {
      OldOwnBits(s.table, ready, input);
    }
  }

  /** The smallest case where a removal has that effect: the first client hangs
      up, and the second, which sent nothing, is read on the strength of the
      first's bit. */
  lemma NeighbourRead(a: Conn, b: Conn)
    requires a.fd != b.fd
    ensures b.fd in Pass([a, b], 0, [false, true, false], map[a.fd := Gone]).read
  {
    var ready, input := [false, true, false], map[a.fd := Gone];
    assert [a, b][1..] == [b];
    assert b.fd in Pass([b], 0, ready, input).read by {
      assert Pass([b], 0, ready, input) == Join(Examine(b, 0, ready, input), Pass([b][1..], 0, ready, input));
    }
  }

  lemma OldOwnBits(cs: seq<Conn>, ready: seq<bool>, input: map<int, ReadOutcome>)
    requires Distinct(Fds(cs)) && cs != [] && |cs| < |ready|
    ensures var tested := Pass(cs, 0, ready, input).tested;
            (forall j :: 0 <= j < |tested| ==> OwnBit(cs, tested[j])) <==>
            forall j :: 0 <= j < |cs| - 1 ==> !ReadyAndGone(cs[j], ready[j + 1], input)
  {
    hide Pass, Fds, Distinct, ReadyAndGone;
    var last := |cs| - 1;
    OwnPlaces(cs, ready, input);
    NoneDropped(cs[..last], 0, ready, input);
    assert forall j :: 0 <= j < last ==> cs[..last][j] == cs[j] && ready[0 + j + 1] == ready[j + 1];
    var tested := Pass(cs, 0, ready, input).tested;
    forall j | 0 <= j < |cs| ensures OwnBit(cs, tested[j]) <==> tested[j].1 == j + 1 {
      ExaminedOnce(cs, j, ready, input);
      var k := tested[j].1 - 1;
      if 0 <= k < |cs| {
        FdAt(cs, k, j);
      }
    }
  }

  /** A client accepted this turn has no entry of its own. */
  lemma FreshNotOwn(s: Server, c: Conn, ready: seq<bool>, input: map<int, ReadOutcome>)
    requires Inv(s) && |s.table| < s.max && |ready| == s.max + 1 && c.fd !in Fds(s.table)
    ensures var tested := Pass(s.table + [c], 0, ready, input).tested;
            |tested| == |s.table| + 1 && !OwnBit(s.table, tested[|s.table|])
  {
    hide Pass, Replay;
    var n := |s.table|;
    ExaminedOnce(s.table + [c], n, ready, input);
    var k := Pass(s.table + [c], 0, ready, input).tested[n].1 - 1;
    if 0 <= k < n {
      FdAt(s.table, k, k);
    }
  }

  /** When no client from before is removed, one accepted this turn is read or
      not by the entry just past those polled, whatever an earlier turn or the
      allocation left there. */
  lemma FreshClientStale(s: Server, c: Conn, ready: seq<bool>, input: map<int, ReadOutcome>)
    requires Inv(s) && |s.table| < s.max && |ready| == s.max + 1 && c.fd !in Fds(s.table)
    requires forall j :: 0 <= j < |s.table| ==> !ReadyAndGone(s.table[j], ready[j + 1], input)
    ensures c.fd in Pass(s.table + [c], 0, ready, input).read <==> ready[|s.table| + 1]
  {
    hide Pass, Fds, Distinct, Replay, ReadyAndGone, Outcome, Examine;
    var n, all := |s.table|, s.table + [c];
    NoneDropped(s.table, 0, ready, input);
    KeptCount(s.table, 0, ready, input);
    assert all[..n] == s.table && all[n..] == [c] && [c][1..] == [];
    PassSplits(all, n, 0, ready, input);
    PassRead(s.table, 0, ready, input);
    FdInSet(s.table, c.fd);
    OneRead(c, n, ready, input);
  }

  lemma FdInSet(cs: seq<Conn>, fd: int)
    ensures fd in FdSet(Fds(cs)) <==> fd in Fds(cs)
  {
  }

  lemma OneRead(c: Conn, i: nat, ready: seq<bool>, input: map<int, ReadOutcome>)
    requires i + 1 < |ready|
    ensures c.fd in Pass([c], i, ready, input).read <==> ready[i + 1]
  {
    assert [c][1..] == [];
    assert Pass([c], i, ready, input) == Join(Examine(c, i, ready, input), Pass([c][1..], i + |Examine(c, i, ready, input).kept|, ready, input));
  }

  function Fresh(max: nat): Server {
    Server([], max, [], [])
  }

  lemma {:induction false} RunKeeps(s: Server, turns: seq<Turn>)
    requires Inv(s) && LegalRun(s, turns)
    ensures Inv(Run(s, turns))
    decreases |turns|
  {
    hide Step, Replay, Fds, FdSet, Distinct;
    if turns == [] {
    } else {
      StepKeeps(s, turns[0]);
      RunKeeps(Step(s, turns[0]), turns[1..]);
    }
  }

  /** Over every run from creation: never more clients than the maximum, never
      a descriptor listed twice, and never one that is both listed and closed,
      leaked, or closed while not open. */
  lemma RunSafe(max: nat, turns: seq<Turn>)
    requires LegalRun(Fresh(max), turns)
    ensures Inv(Run(Fresh(max), turns))
  {
    hide Step, LegalRun;
    assert FdSet(Fds([])) == {};
    RunKeeps(Fresh(max), turns);
  }

  /** `command_server_destroy`: the clients still listed are closed. */
  function Destroyed(s: Server): Server {
    s.(table := [], log := s.log + Shuts(Fds(s.table)))
  }

  /** After destroy every accepted descriptor has been closed, and none was
      ever closed while not open. */
  lemma DestroyClosesAll(max: nat, turns: seq<Turn>)
    requires LegalRun(Fresh(max), turns)
    ensures Replay(Destroyed(Run(Fresh(max), turns)).log) == Some({})
  {
    hide LegalRun, Run, Replay, Fds;
    RunSafe(max, turns);
    var s := Run(Fresh(max), turns);
    ShutAll(s.log, FdSet(Fds(s.table)), Fds(s.table));
    assert FdSet(Fds(s.table)) - FdSet(Fds(s.table)) == {};
  }

  // -------------------------------------------------------- the server object

  lemma {:induction false} ShutsSnoc(fds: seq<int>, fd: int)
    ensures Shuts(fds + [fd]) == Shuts(fds) + [Shut(fd)]
  {
    if fds == [] {
      assert [fd][1..] == [];
    } else {
      assert (fds + [fd])[1..] == fds[1..] + [fd];
      ShutsSnoc(fds[1..], fd);
    }
  }

  lemma JoinLog(a: PassResult, b: PassResult)
    requires |b.closed| <= 1
    ensures Shuts(Join(a, b).closed) == Shuts(a.closed) + Shuts(b.closed)
  {
    if b.closed == [] {
      assert a.closed + b.closed == a.closed;
    } else {
      assert b.closed == [b.closed[0]];
      ShutsSnoc(a.closed, b.closed[0]);
      assert Shuts(b.closed) == [Shut(b.closed[0])] by { assert b.closed[1..] == []; }
    }
  }

  lemma NothingShut()
    ensures Shuts([]) == []
  {
  }

  lemma NoFds()
    ensures Fds([]) == []
  {
  }

  /** The loop's progress: one connection moves from what is still to be passed
      over to what is done. */
  lemma PassStep(done: PassResult, rest: seq<Conn>, i: nat, ready: seq<bool>, input: map<int, ReadOutcome>)
    requires rest != [] && i + |rest| < |ready|
    ensures var first := Examine(rest[0], i, ready, input);
            |first.kept| <= 1
            && Join(done, Pass(rest, i, ready, input))
               == Join(Join(done, first), Pass(rest[1..], i + |first.kept|, ready, input))
            && Join(done, first).kept == done.kept + first.kept
            && Join(done, first).pipe == done.pipe + first.pipe
            && Shuts(Join(done, first).closed) == Shuts(done.closed) + Shuts(first.closed)
            && (first.kept == [] || first.kept == [rest[0]])
            && first == Examined(rest[0], i, ready[i + 1], input)
  {
    hide Examined, Shuts;
    var first := Examine(rest[0], i, ready, input);
    ExamineSplits(rest[0], i, ready, input);
    JoinAssociates(done, first, Pass(rest[1..], i + |first.kept|, ready, input));
    JoinLog(done, first);
  }

  lemma StepSize(c: Conn, i: nat, bit: bool, input: map<int, ReadOutcome>)
    ensures Examined(c, i, bit, input).kept == [] || Examined(c, i, bit, input).kept == [c]
  {
  }

  lemma AfterSize(s: Server, i: nat, bit: bool, input: map<int, ReadOutcome>)
    requires i < |s.table|
    ensures |AfterClient(s, i, bit, input).table| == |s.table| - 1 + |Examined(s.table[i], i, bit, input).kept|
  {
  }

  /** Unsigned `i--` then `i++` is where it was, also through zero. */
  lemma WrapsBack(i: int)
    requires 0 <= i < SIZE_T - 1
    ensures ((i - 1) % SIZE_T + 1) % SIZE_T == i
    ensures (i + 1) % SIZE_T == i + 1
  {
    if i == 0 {
      assert (i - 1) % SIZE_T == SIZE_T - 1;
    }
  }

  lemma Spliced(table: seq<Conn>, i: nat, kept: seq<Conn>, becomes: seq<Conn>)
    requires i < |table| && becomes == table[..i] + kept + table[i + 1..]
    ensures |becomes| == |table| - 1 + |kept|
    ensures becomes[..i + |kept|] == table[..i] + kept
    ensures becomes[i + |kept|..] == table[i..][1..]
  {
  }

  lemma PassOfNothing(done: PassResult, i: nat, ready: seq<bool>, input: map<int, ReadOutcome>)
    requires i < |ready|
    ensures Join(done, Pass([], i, ready, input)) == done
  {
    var r := Join(done, Nothing);
    assert r.kept == done.kept && r.closed == done.closed && r.pipe == done.pipe && r.tested == done.tested && r.read == done.read;
  }

  /** Where the loop stands: the first `i` connections are done with, and what
      is done together with passing over the rest is the whole pass. */
  ghost predicate Progress(before: Server, done: PassResult, now: Server, i: nat, ready: seq<bool>, input: map<int, ReadOutcome>)
    requires |before.table| < |ready|
  {
    i <= |now.table| < |ready| && now.max == before.max
    && now.table[..i] == done.kept
    && now.log == before.log + Shuts(done.closed)
    && now.stream == before.stream + done.pipe
    && Pass(before.table, 0, ready, input) == Join(done, Pass(now.table[i..], i, ready, input))
  }

  lemma ProgressStarts(s: Server, ready: seq<bool>, input: map<int, ReadOutcome>)
    requires |s.table| < |ready|
    ensures Progress(s, Nothing, s, 0, ready, input)
  {
    hide Pass, Join;
    JoinNothing(Pass(s.table, 0, ready, input));
    assert s.table[0..] == s.table;
  }

  lemma ProgressEnds(before: Server, done: PassResult, now: Server, ready: seq<bool>, input: map<int, ReadOutcome>)
    requires |before.table| < |ready|
    requires Progress(before, done, now, |now.table|, ready, input)
    ensures now == ReadClients(before, ready, input)
    ensures done == Pass(before.table, 0, ready, input)
  {
    hide Pass, Join, Shuts;
    var i := |now.table|;
    assert now.table[i..] == [] && now.table[..i] == now.table;
    PassOfNothing(done, i, ready, input);
  }

  /** One turn of the loop, as `ReadClient` leaves the server. */
  lemma ProgressStep(before: Server, done: PassResult, now: Server, i: nat, ready: seq<bool>, input: map<int, ReadOutcome>, next: Server)
    requires |before.table| < |ready| && Progress(before, done, now, i, ready, input) && i < |now.table|
    requires next == AfterClient(now, i, ready[i + 1], input)
    ensures var first := Examined(now.table[i], i, ready[i + 1], input);
            |first.kept| <= 1
            && Progress(before, Join(done, first), next, i + |first.kept|, ready, input)
  {
    hide Pass, Join, Shuts, Examined;
    var first := Examined(now.table[i], i, ready[i + 1], input);
    PassStep(done, now.table[i..], i, ready, input);
    Spliced(now.table, i, first.kept, next.table);
  }

  /** The server after examining the connection at index `i`. */
  function AfterClient(s: Server, i: nat, bit: bool, input: map<int, ReadOutcome>): Server
    requires i < |s.table|
  {
    var first := Examined(s.table[i], i, bit, input);
    s.(table := s.table[..i] + first.kept + s.table[i + 1..],
       log := s.log + Shuts(first.closed),
       stream := s.stream + first.pipe)
  }

  lemma AfterClientCases(s: Server, i: nat, bit: bool, input: map<int, ReadOutcome>)
    requires i < |s.table|
    ensures var fd := s.table[i].fd;
            AfterClient(s, i, bit, input) ==
            if !bit then s
            else
              match Outcome(input, fd)
              case Chunk(bytes) => s.(stream := s.stream + bytes + [NEWLINE])
              case Gone => s.(table := s.table[..i] + s.table[i + 1..], log := s.log + [Shut(fd)])
  {
    hide Outcome;
    assert s.table[..i] + [s.table[i]] + s.table[i + 1..] == s.table;
    assert s.table[..i] + [] + s.table[i + 1..] == s.table[..i] + s.table[i + 1..];
    assert s.log + [] == s.log && s.stream + [] == s.stream;
    assert Shuts([s.table[i].fd]) == [Shut(s.table[i].fd)] by { assert [s.table[i].fd][1..] == []; }
    if bit && Outcome(input, s.table[i].fd).Chunk? {
      var bytes := Outcome(input, s.table[i].fd).bytes;
      assert s.stream + (bytes + [NEWLINE]) == s.stream + bytes + [NEWLINE];
    }
  }

  /** The server with its fixed array of connections.  `log` records the effect
      of `accept` and `close` on descriptors, `stream` what was written to the
      command pipe. */
  class CommandServer {
    const connections: array<Conn>
    var numConnections: nat
    var log: seq<FdEvent>
    var stream: seq<Byte>

    ghost predicate Valid()
      reads this
    {
      numConnections <= connections.Length < SIZE_T
    }

    function State(): Server
      reads this, connections
      requires Valid()
    {
      Server(connections[..numConnections], connections.Length, log, stream)
    }

    constructor (maxConnections: nat)
      requires maxConnections < SIZE_T
      ensures Valid() && State() == Fresh(maxConnections) && fresh(connections)
    {
      connections := new Conn[maxConnections](_ => Conn(0, 0));
      numConnections, log, stream := 0, [], [];
    }

    method AcceptClient(c: Conn)
      requires Valid()
      modifies this`numConnections, this`log, connections
      ensures Valid() && State() == Accept(old(State()), c)
    {
      log := log + [Opened(c.fd)];
      if numConnections < connections.Length {
        connections[numConnections] := c;
        numConnections := numConnections + 1;
      } else {
        log := log + [Shut(c.fd)];
        assert log == old(log) + [Opened(c.fd), Shut(c.fd)];
      }
    }

    /** Removes entry `i` by moving the entries after it down by one. */
    method Remove(i: nat)
      requires Valid() && i < numConnections
      modifies this`numConnections, connections
      ensures Valid()
      ensures connections[..numConnections] == old(connections[..i] + connections[i + 1..numConnections])
    {
      ghost var before := connections[..numConnections];
      forall k | i <= k < numConnections - 1 {
        connections[k] := connections[k + 1];
      }
      numConnections := numConnections - 1;
      assert connections[..numConnections] == before[..i] + before[i + 1..];
    }

    /** What the loop does for the connection at index `i`. */
    method ReadClient(i: nat, ready: bool, input: map<int, ReadOutcome>) returns (removed: bool)
      requires Valid() && i < numConnections
      modifies this`numConnections, this`log, this`stream, connections
      ensures Valid() && State() == AfterClient(old(State()), i, ready, input)
      ensures removed == (Examined(old(connections[i]), i, ready, input).kept == [])
    {
      hide AfterClient, Outcome;
      AfterClientCases(State(), i, ready, input);
      removed := false;
      if ready {
        var fd := connections[i].fd;
        match Outcome(input, fd)
        case Chunk(bytes) =>
          stream := stream + bytes;
          stream := stream + [NEWLINE];
        case Gone =>
          log := log + [Shut(fd)];
          Remove(i);
          assert State().table == old(State()).table[..i] + old(State()).table[i + 1..];
          removed := true;
      }
    }

    /** The client loop, with its unsigned index: after a removal `i--` may wrap
        around below zero and `i++` wraps it back. */
    method ReadAll(revents: array<bool>, input: map<int, ReadOutcome>)
      returns (ghost tested: seq<(int, int)>)
      requires Valid() && revents.Length == connections.Length + 1
      modifies this`numConnections, this`log, this`stream, connections
      ensures Valid()
      ensures State() == ReadClients(old(State()), revents[..], input)
      ensures tested == Pass(old(State()).table, 0, revents[..], input).tested
    {
      hide Progress, Examined, AfterClient, Join, Pass, ReadClients;
      ghost var ready := revents[..];
      ghost var before := State();
      ghost var done := Nothing;
      ProgressStarts(before, ready, input);
      var i: int := 0;
      while i < numConnections
        invariant Valid() && 0 <= i <= numConnections && revents[..] == ready
        invariant Progress(before, done, State(), i, ready, input)
        decreases numConnections - i
      {
        ghost var now := State();
        ghost var first := Examined(now.table[i], i, ready[i + 1], input);
        var removed := ReadClient(i, revents[i + 1], input);
        ProgressStep(before, done, now, i, ready, input, State());
        StepSize(now.table[i], i, ready[i + 1], input);
        WrapsBack(i);
        AfterSize(now, i, ready[i + 1], input);
        if removed {
          i := (i - 1) % SIZE_T; // wraps at zero
        }
        i := (i + 1) % SIZE_T;
        done := Join(done, first);
      }
      ProgressEnds(before, done, State(), ready, input);
      tested := done.tested;
    }

    /** `command_server_destroy`: the loop that closes the listed clients. */
    method Destroy()
      requires Valid()
      modifies this`numConnections, this`log
      ensures Valid() && State() == Destroyed(old(State()))
    {
      hide Shuts, Fds;
      NothingShut();
      assert connections[..0] == [];
      NoFds();
      for i := 0 to numConnections
        invariant Valid() && numConnections == old(numConnections)
        invariant log == old(log) + Shuts(Fds(connections[..i]))
      {
        log := log + [Shut(connections[i].fd)];
        assert connections[..i + 1] == connections[..i] + [connections[i]];
        FdsSnoc(connections[..i], connections[i]);
        ShutsSnoc(Fds(connections[..i]), connections[i].fd);
      }
      numConnections := 0;
    }

    /** One turn of the server thread. */
    method TakeTurn(client: Option<Conn>, revents: array<bool>, input: map<int, ReadOutcome>)
      requires Valid() && revents.Length == connections.Length + 1
      requires Legal(State(), Events(client, revents[..], input))
      modifies this`numConnections, this`log, this`stream, connections
      ensures Valid() && State() == Step(old(State()), Events(client, old(revents[..]), input))
    {
      hide Pass, Shuts;
      if client.Some? {
        AcceptClient(client.value);
      }
      ghost var tested := ReadAll(revents, input);
    }
  }
}
