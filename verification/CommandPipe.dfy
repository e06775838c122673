/** The command pipe between the server thread and `command_server_recv`
    (bcp-fetch-client/src/command_server.c): newline-terminated chunks are
    written, and each receive takes whatever bytes the pipe has. */
module CommandPipe {
  import opened Common
  import Server = CommandServer

  const BUFFER_SIZE := Server.BUFFER_SIZE
  const NEWLINE := Server.NEWLINE

  /** `strlen` of a buffer: the text before its first NUL. */
  function Terminated(bs: seq<Byte>): (t: seq<Byte>)
    ensures t <= bs
    ensures t == bs <==> 0 !in bs
    ensures 0 !in t && (|t| < |bs| ==> bs[|t|] == 0)
  {
    if bs == [] || bs[0] == 0 then [] else [bs[0]] + Terminated(bs[1..])
  }

  predicate EndsInNewline(raw: seq<Byte>) {
    raw != [] && raw[|raw| - 1] == NEWLINE
  }

  /** The string a receive makes of the bytes it read: one trailing newline
      stripped, then cut at a NUL by `strdup`. */
  function Received(raw: seq<Byte>): seq<Byte> {
    Terminated(if EndsInNewline(raw) then raw[..|raw| - 1] else raw)
  }

  /** A received string with the newline that was stripped from it. */
  function Restored(raw: seq<Byte>): seq<Byte> {
    Received(raw) + if raw != [] && raw[|raw| - 1] == '\n' as int then ['\n' as int] else []
  }

  /** Nothing is lost from bytes without NUL, and only from those. */
  lemma RestoredExactly(raw: seq<Byte>)
    ensures Restored(raw) == raw <==> 0 !in raw
  {
    if EndsInNewline(raw) {
      var body := raw[..|raw| - 1];
      assert raw == body + [NEWLINE];
      if Restored(raw) == raw {
        assert Terminated(body) == Restored(raw)[..|Restored(raw)| - 1] == body;
      }
      assert 0 in raw <==> 0 in body;
    } else {
      assert Restored(raw) == Terminated(raw);
    }
  }

  // ---------------------------------------------------------- the whole stream

  /** The server makes two writes for each chunk it has read, the chunk and then
      a newline; a receive reads `k` bytes, and may come between the two. */
  datatype Event = WriteChunk(chunk: seq<Byte>) | WriteNewline | Recv(k: nat)

  /** Bytes in the pipe, everything written so far, the raw reads in order, and
      whether the server has still to write the newline of its last chunk. */
  datatype Pipe = Pipe(pending: seq<Byte>, written: seq<Byte>, taken: seq<seq<Byte>>, midLine: bool)

  const Empty := Pipe([], [], [], false)

  /** Chunks are not empty, the server's writes alternate, and `read` on a pipe
      returns at least one byte, at most what there is and at most what the
      buffer leaves room for. */
  predicate Legal(p: Pipe, e: Event) {
    match e
    case WriteChunk(chunk) => !p.midLine && chunk != []
    case WriteNewline => p.midLine
    case Recv(k) => 1 <= k <= |p.pending| && k <= BUFFER_SIZE - 1
  }

  function Step(p: Pipe, e: Event): Pipe
    requires Legal(p, e)
  {
    match e
    case WriteChunk(chunk) =>
      p.(pending := p.pending + chunk, written := p.written + chunk, midLine := true)
    case WriteNewline =>
      p.(pending := p.pending + [NEWLINE], written := p.written + [NEWLINE], midLine := false)
    case Recv(k) => p.(pending := p.pending[k..], taken := p.taken + [p.pending[..k]])
  }

  predicate LegalRun(p: Pipe, es: seq<Event>)
    decreases |es|
  {
    es == [] || (Legal(p, es[0]) && LegalRun(Step(p, es[0]), es[1..]))
  }

  function Run(p: Pipe, es: seq<Event>): Pipe
    requires LegalRun(p, es)
    decreases |es|
  {
    if es == [] then p else Run(Step(p, es[0]), es[1..])
  }

  function RestoredAll(taken: seq<seq<Byte>>): seq<Byte> {
    if taken == [] then [] else Restored(taken[0]) + RestoredAll(taken[1..])
  }

  /** What was read and what is in the pipe are what was written. */
  predicate Accounted(p: Pipe) {
    Flatten(p.taken) + p.pending == p.written
  }

  lemma StepAccounted(p: Pipe, e: Event)
    requires Legal(p, e) && Accounted(p)
    ensures Accounted(Step(p, e))
  {
    match e
    case WriteChunk(chunk) =>
      assert Flatten(p.taken) + (p.pending + chunk) == Flatten(p.taken) + p.pending + chunk;
    case WriteNewline =>
      assert Flatten(p.taken) + (p.pending + [NEWLINE]) == Flatten(p.taken) + p.pending + [NEWLINE];
    case Recv(k) =>
      FlattenAppend(p.taken, p.pending[..k]);
      assert p.pending == p.pending[..k] + p.pending[k..];
      assert Flatten(p.taken) + p.pending[..k] + p.pending[k..] == Flatten(p.taken) + p.pending;
  }

  lemma {:induction false} NothingLost(p: Pipe, es: seq<Event>)
    requires LegalRun(p, es) && Accounted(p)
    ensures Accounted(Run(p, es))
    decreases |es|
  {
    hide Accounted, Step;
    if es == [] {
    } else {
      StepAccounted(p, es[0]);
      NothingLost(Step(p, es[0]), es[1..]);
    }
  }

  lemma {:induction false} RestoredAllExactly(taken: seq<seq<Byte>>)
    requires 0 !in Flatten(taken)
    ensures RestoredAll(taken) == Flatten(taken)
  {
    if taken == [] {
    } else {
      assert forall b :: b in taken[0] || b in Flatten(taken[1..]) ==> b in Flatten(taken);
      RestoredExactly(taken[0]);
      RestoredAllExactly(taken[1..]);
    }
  }

  function SentBy(e: Event): seq<Byte> {
    match e
    case WriteChunk(chunk) => chunk
    case WriteNewline => ['\n' as int]
    case Recv(_) => []
  }

  function AskedBy(e: Event): seq<nat> {
    if e.Recv? then [e.k] else []
  }

  /** The stream a schedule writes. */
  function Sent(es: seq<Event>): seq<Byte> {
    if es == [] then [] else SentBy(es[0]) + Sent(es[1..])
  }

  /** How many bytes its receives read, in order. */
  function Asked(es: seq<Event>): seq<nat> {
    if es == [] then [] else AskedBy(es[0]) + Asked(es[1..])
  }

  function Sizes(taken: seq<seq<Byte>>): seq<nat> {
    seq(|taken|, i requires 0 <= i < |taken| => |taken[i]|)
  }

  lemma StepSends(p: Pipe, e: Event)
    requires Legal(p, e)
    ensures Step(p, e).written == p.written + SentBy(e)
    ensures Sizes(Step(p, e).taken) == Sizes(p.taken) + AskedBy(e)
  {
  }

  lemma {:induction false} RunSends(p: Pipe, es: seq<Event>)
    requires LegalRun(p, es)
    ensures Run(p, es).written == p.written + Sent(es)
    ensures Sizes(Run(p, es).taken) == Sizes(p.taken) + Asked(es)
    decreases |es|
  {
    hide Legal, Step, Sizes, SentBy, AskedBy;
    if es == [] {
    } else {
      StepSends(p, es[0]);
      RunSends(Step(p, es[0]), es[1..]);
    }
  }

  /** In every interleaving of the server's single writes and of receives, the
      strings received, one a receive, with their newlines put back, are a prefix
      of the stream of NUL-free chunks, cut where the receives cut it; what is
      missing is still in the pipe. */
  lemma ReceivedIsPrefix(es: seq<Event>)
    requires LegalRun(Empty, es) && 0 !in Sent(es)
    ensures var q := Run(Empty, es);
            RestoredAll(q.taken) + q.pending == Sent(es) && Sizes(q.taken) == Asked(es)
  {
    hide Restored;
    var q := Run(Empty, es);
    RunSends(Empty, es);
    assert Sizes([]) + Asked(es) == Asked(es) && [] + Sent(es) == Sent(es);
    NothingLost(Empty, es);
    assert forall b :: b in Flatten(q.taken) ==> b in q.written;
    RestoredAllExactly(q.taken);
  }

  // --------------------------------------------------------- one receive a chunk

  /** A receive that takes all it can. */
  function Take(p: Pipe): Pipe
    requires p.pending != []
  {
    Step(p, Recv(if |p.pending| <= BUFFER_SIZE - 1 then |p.pending| else BUFFER_SIZE - 1))
  }

  /** A chunk the server forwards, and whether the receive that goes with it
      comes early, between the two writes, or after both. */
  datatype Line = Line(chunk: seq<Byte>, early: bool)

  function AfterLine(p: Pipe, l: Line): (q: Pipe)
    requires !p.midLine && l.chunk != []
    ensures !q.midLine && |q.taken| == |p.taken| + 1
  {
    var w := Step(p, WriteChunk(l.chunk));
    if l.early then Step(Take(w), WriteNewline) else Take(Step(w, WriteNewline))
  }

  function Last(p: Pipe): seq<Byte>
    requires p.taken != []
  {
    p.taken[|p.taken| - 1]
  }

  predicate Delivered(l: Line) {
    !l.early && |l.chunk| <= 1022 && 0 !in l.chunk
  }

  /** From a drained pipe, a receive returns the chunk and leaves the pipe
      drained if and only if it comes after the newline was written and the chunk
      is NUL-free and of at most 1022 bytes. */
  lemma ChunkExactly(p: Pipe, l: Line)
    requires p.pending == [] && !p.midLine && l.chunk != []
    ensures var q := AfterLine(p, l);
            Received(Last(q)) == l.chunk && q.pending == [] <==> Delivered(l)
  {
    var c := l.chunk;
    assert [] + c == c;
    if !l.early {
      var pending := c + [NEWLINE];
      assert pending[..|pending| - 1] == c && pending[..|pending|] == pending;
      assert pending[|pending|..] == [];
    }
  }

  /** What is left of a chunk of a size the server can read: nothing, or, after
      an early receive or 1023 bytes, the newline alone; and then the next
      receive returns an empty command. */
  lemma EmptyCommandExactly(p: Pipe, l: Line)
    requires p.pending == [] && !p.midLine && 1 <= |l.chunk| <= BUFFER_SIZE - 1
    ensures var q := AfterLine(p, l);
            q.pending == (if l.early || |l.chunk| == 1023 then [NEWLINE] else [])
            && (q.pending != [] ==> Last(q) == l.chunk && Received(Last(Take(q))) == [] && Take(q).pending == [])
  {
    var c := l.chunk;
    assert [] + c == c && c[..|c|] == c && c[|c|..] == [] && [] + [NEWLINE] == [NEWLINE];
    var pending := c + [NEWLINE];
    assert pending[|pending|..] == [] && pending[|c|..] == [NEWLINE];
    assert [NEWLINE][..1] == [NEWLINE];
  }

  /** What an early receive returns: the chunk, but without the newline it may
      end in itself. */
  lemma EarlyReceive(p: Pipe, l: Line)
    requires p.pending == [] && !p.midLine && 1 <= |l.chunk| <= BUFFER_SIZE - 1 && l.early
    ensures Received(Last(AfterLine(p, l))) == l.chunk <==> 0 !in l.chunk && !EndsInNewline(l.chunk)
  {
    assert [] + l.chunk == l.chunk && l.chunk[..|l.chunk|] == l.chunk;
  }

  // -------------------------------------------------------- runs of many chunks

  function AfterLines(p: Pipe, ls: seq<Line>): (q: Pipe)
    requires !p.midLine && forall i :: 0 <= i < |ls| ==> ls[i].chunk != []
    ensures !q.midLine && |q.taken| == |p.taken| + |ls|
    decreases |ls|
  {
    if ls == [] then p else AfterLines(AfterLine(p, ls[0]), ls[1..])
  }

  /** The receives of a run gave back the chunks, one each. */
  predicate GaveBack(taken: seq<seq<Byte>>, ls: seq<Line>) {
    |taken| == |ls| && forall i :: 0 <= i < |ls| ==> Received(taken[i]) == ls[i].chunk
  }

  /** The lines as the server writes them. */
  function Stream(ls: seq<Line>): seq<Byte> {
    if ls == [] then [] else ls[0].chunk + [NEWLINE] + Stream(ls[1..])
  }

  lemma LineGrows(p: Pipe, l: Line)
    requires !p.midLine && l.chunk != []
    ensures var q := AfterLine(p, l);
            q.written == p.written + l.chunk + [NEWLINE] && p.taken <= q.taken
            && (Accounted(p) ==> Accounted(q))
  {
    var w := Step(p, WriteChunk(l.chunk));
    var k := if |w.pending| <= BUFFER_SIZE - 1 then |w.pending| else BUFFER_SIZE - 1;
    if Accounted(p) {
      hide Accounted;
      StepAccounted(p, WriteChunk(l.chunk));
      if l.early {
        StepAccounted(w, Recv(k));
        StepAccounted(Take(w), WriteNewline);
      } else {
        StepAccounted(w, WriteNewline);
        var x := Step(w, WriteNewline);
        StepAccounted(x, Recv(if |x.pending| <= BUFFER_SIZE - 1 then |x.pending| else BUFFER_SIZE - 1));
      }
    }
  }

  lemma {:induction false} LinesGrow(p: Pipe, ls: seq<Line>)
    requires !p.midLine && forall i :: 0 <= i < |ls| ==> ls[i].chunk != []
    ensures var q := AfterLines(p, ls);
            q.written == p.written + Stream(ls) && p.taken <= q.taken && (Accounted(p) ==> Accounted(q))
    decreases |ls|
  {
    hide AfterLine, Accounted;
    if ls != [] {
      LineGrows(p, ls[0]);
      LinesGrow(AfterLine(p, ls[0]), ls[1..]);
      assert p.written + ls[0].chunk + [NEWLINE] + Stream(ls[1..]) == p.written + Stream(ls);
    }
  }

  lemma {:induction false} TerminatedPlain(bs: seq<Byte>)
    ensures 0 !in Terminated(bs)
  {
    if bs != [] && bs[0] != 0 {
      TerminatedPlain(bs[1..]);
    }
  }

  lemma {:induction false} StreamPlain(taken: seq<seq<Byte>>, ls: seq<Line>)
    requires GaveBack(taken, ls)
    ensures 0 !in Stream(ls) && forall i :: 0 <= i < |ls| ==> 0 !in ls[i].chunk
  {
    if ls != [] {
      TerminatedPlain(if EndsInNewline(taken[0]) then taken[0][..|taken[0]| - 1] else taken[0]);
      assert Received(taken[0]) == ls[0].chunk;
      SplitGaveBack(taken, ls);
      StreamPlain(taken[1..], ls[1..]);
      assert forall i :: 1 <= i < |ls| ==> ls[i] == ls[1..][i - 1];
    }
  }

  /** NUL-free reads that give back the chunks are at most a newline longer. */
  lemma {:induction false} ReadsFit(taken: seq<seq<Byte>>, ls: seq<Line>)
    requires GaveBack(taken, ls) && 0 !in Flatten(taken)
    ensures |Flatten(taken)| <= |Stream(ls)|
    ensures taken != [] && |taken[0]| <= |ls[0].chunk| ==> |Flatten(taken)| < |Stream(ls)|
  {
    hide Received;
    if taken != [] {
      assert forall b :: b in taken[0] || b in Flatten(taken[1..]) ==> b in Flatten(taken);
      RestoredExactly(taken[0]);
      assert Received(taken[0]) == ls[0].chunk;
      SplitGaveBack(taken, ls);
      ReadsFit(taken[1..], ls[1..]);
    }
  }

  /** A line that is not delivered leaves something behind or damages the chunk. */
  lemma FirstRead(p: Pipe, l: Line)
    requires p.pending == [] && !p.midLine && l.chunk != [] && !Delivered(l) && 0 !in l.chunk
    ensures |Last(AfterLine(p, l))| <= |l.chunk|
  {
  }

  /** In a run of one receive a chunk, from a drained pipe: every receive returns
      its chunk and the pipe ends drained if and only if each receive comes after
      both writes and each chunk is NUL-free and of at most 1022 bytes. */
  lemma {:induction false} LinesExactly(p: Pipe, ls: seq<Line>)
    requires p.pending == [] && !p.midLine && Accounted(p) && forall i :: 0 <= i < |ls| ==> ls[i].chunk != []
    ensures var q := AfterLines(p, ls);
            q.pending == [] && GaveBack(q.taken[|p.taken|..], ls) <==>
            forall i :: 0 <= i < |ls| ==> Delivered(ls[i])
    decreases |ls|
  {
    hide AfterLine, Accounted, Delivered, Received;
    if ls == [] {
    } else {
      var r := AfterLine(p, ls[0]);
      var q := AfterLines(p, ls);
      LineGrows(p, ls[0]);
      LinesGrow(r, ls[1..]);
      ChunkExactly(p, ls[0]);
      var taken := q.taken[|p.taken|..];
      assert taken[0] == Last(r) && taken[1..] == q.taken[|r.taken|..];
      if r.pending == [] {
        LinesExactly(r, ls[1..]);
        SplitGaveBack(taken, ls);
        assert (forall i :: 0 <= i < |ls| ==> Delivered(ls[i])) <==>
               Delivered(ls[0]) && forall i :: 0 <= i < |ls| - 1 ==> Delivered(ls[1..][i]) by {
          assert forall i :: 1 <= i < |ls| ==> ls[i] == ls[1..][i - 1];
        }
      }
      if q.pending == [] && GaveBack(taken, ls) && !Delivered(ls[0]) {
        NotGivenBack(p, ls);
      }
    }
  }

  lemma SplitGaveBack(taken: seq<seq<Byte>>, ls: seq<Line>)
    requires ls != [] && |taken| == |ls|
    ensures GaveBack(taken, ls) <==> Received(taken[0]) == ls[0].chunk && GaveBack(taken[1..], ls[1..])
  {
    hide Received;
    if GaveBack(taken[1..], ls[1..]) && Received(taken[0]) == ls[0].chunk {
      forall i | 0 <= i < |ls| ensures Received(taken[i]) == ls[i].chunk {
        if i > 0 {
          assert taken[1..][i - 1] == taken[i] && ls[1..][i - 1] == ls[i];
        }
      }
    }
  }

  /** The bytes do not add up when the first line of a run is not delivered. */
  lemma NotGivenBack(p: Pipe, ls: seq<Line>)
    requires p.pending == [] && !p.midLine && Accounted(p) && ls != []
    requires forall i :: 0 <= i < |ls| ==> ls[i].chunk != []
    requires !Delivered(ls[0])
    ensures var q := AfterLines(p, ls); !(q.pending == [] && GaveBack(q.taken[|p.taken|..], ls))
  {
    hide AfterLine, AfterLines, Received, Delivered, GaveBack, Flatten, Stream, Accounted;
    var q := AfterLines(p, ls);
    var taken := q.taken[|p.taken|..];
    if q.pending == [] && GaveBack(taken, ls) {
      DrainedReads(p, ls);
      StreamPlain(taken, ls);
      FirstRead(p, ls[0]);
      FirstTaken(p, ls);
      ReadsFit(taken, ls);
    }
  }

  /** When the pipe ends drained, the reads are the stream. */
  lemma DrainedReads(p: Pipe, ls: seq<Line>)
    requires p.pending == [] && !p.midLine && Accounted(p) && forall i :: 0 <= i < |ls| ==> ls[i].chunk != []
    requires AfterLines(p, ls).pending == []
    ensures Flatten(AfterLines(p, ls).taken[|p.taken|..]) == Stream(ls)
  {
    hide AfterLines, Flatten, Stream;
    LinesGrow(p, ls);
    var q := AfterLines(p, ls);
    var taken := q.taken[|p.taken|..];
    assert q.taken == p.taken + taken;
    FlattenConcat(p.taken, taken);
    assert p.written == Flatten(p.taken) && q.written == Flatten(p.taken) + Flatten(taken);
    assert q.written[|p.written|..] == Stream(ls) && q.written[|p.written|..] == Flatten(taken);
  }

  lemma FirstTaken(p: Pipe, ls: seq<Line>)
    requires !p.midLine && ls != [] && forall i :: 0 <= i < |ls| ==> ls[i].chunk != []
    ensures AfterLines(p, ls).taken[|p.taken|..][0] == Last(AfterLine(p, ls[0]))
  {
    hide AfterLine, Stream;
    LineGrows(p, ls[0]);
    LinesGrow(AfterLine(p, ls[0]), ls[1..]);
  }

  /** `command_server_recv` on the bytes the pipe holds; `k` is how many the
      `read` returns, zero standing for an error or a closed pipe. */
  method Receive(pipe: seq<Byte>, k: nat) returns (result: Option<seq<Byte>>, rest: seq<Byte>)
    requires k <= |pipe| && k <= BUFFER_SIZE - 1
    ensures rest == pipe[k..]
    ensures result == if k == 0 then None else Some(Received(pipe[..k]))
  {
    var buffer := new Byte[BUFFER_SIZE](_ => 0);
    rest := pipe[k..];
    if k == 0 {
      return None, rest;
    }
    for i := 0 to k
      invariant buffer[..i] == pipe[..i]
    {
      buffer[i] := pipe[i];
      assert buffer[..i + 1] == buffer[..i] + [pipe[i]];
      assert pipe[..i + 1] == pipe[..i] + [pipe[i]];
    }
    buffer[k] := 0;
    assert buffer[..k] == pipe[..k];
    if buffer[k - 1] == NEWLINE {
      buffer[k - 1] := 0;
      assert buffer[..][..k - 1] == pipe[..k][..k - 1];
      TerminatedAt(buffer[..], k - 1);
    } else {
      assert buffer[..][..k] == pipe[..k];
      TerminatedAt(buffer[..], k);
    }
    result := Some(Terminated(buffer[..]));
  }

  lemma {:induction false} TerminatedAt(bs: seq<Byte>, k: nat)
    requires k < |bs| && bs[k] == 0
    ensures Terminated(bs) == Terminated(bs[..k])
  {
    if k == 0 {
      assert bs[..0] == [];
    } else if bs[0] == 0 {
    } else {
      assert bs[1..][..k - 1] == bs[..k][1..];
      TerminatedAt(bs[1..], k - 1);
    }
  }
}
