/**
  tcpclient.Session: one connection, one request line, one reply line at a time. The pod answers its
  request lines in order but perhaps late, so a reply left unread would be taken for the answer to the
  next request; the broken flag is what prevents that.
*/
module TcpSession {
  import opened Outcomes

  datatype Status = StatusOk | StatusError | StatusOther

  /** A reply line; answers is the number of the request line it answers. */
  datatype Line = Line(answers: nat, status: Status) | Unparsable

  /** What happens during one command. A failed write may still have reached the pod as a whole line. */
  datatype Io = MarshalFails | WriteFails(reached: bool) | ReadFails | Reads(status: Status) | ReadsGarbage

  /** sent: the request lines that reached the pod. read: the reply lines read; the k-th answers the k-th request. */
  datatype State<R> = State(broken: bool, sent: seq<R>, read: nat)

  /** Ok carries the number of the request line the reply answers. */
  type Reply = Result<nat>

  function After<R>(s: State<R>, req: R, io: Io): State<R> {
    if s.broken then s
    else
      match io
      case MarshalFails => s
      case WriteFails(reached) => State(true, if reached then s.sent + [req] else s.sent, s.read)
      case ReadFails => State(true, s.sent + [req], s.read)
      case Reads(_) => State(false, s.sent + [req], s.read + 1)
      case ReadsGarbage => State(true, s.sent + [req], s.read + 1)
  }

  const REFUSED := "the pod refused"

  function Returns<R>(s: State<R>, io: Io): Reply {
    if s.broken then Err("connection unusable after an earlier error")
    else
      match io
      case Reads(StatusOk) => Ok(s.read)
      case Reads(StatusError) => Err(REFUSED)
      case Reads(StatusOther) => Err("unexpected response status")
      case _ => Err("i/o failure")
  }

  /** A run of commands; each comes with what happens to it. */
  datatype Call<R> = Call(req: R, io: Io)

  function Run<R>(s: State<R>, calls: seq<Call<R>>): State<R> {
    if calls == [] then s
    else
      var last := calls[|calls| - 1];
      After(Run(s, calls[..|calls| - 1]), last.req, last.io)
  }

  function Fresh<R>(): State<R> {
    State(false, [], 0)
  }

  /** A session that is not broken owes no reply. */
  predicate Paired<R>(s: State<R>) {
    s.read <= |s.sent| && (!s.broken ==> s.read == |s.sent|)
  }

  lemma {:induction false} PairedAlways<R>(calls: seq<Call<R>>)
    ensures Paired(Run(Fresh(), calls))
  {
    if calls != [] {
      PairedAlways(calls[..|calls| - 1]);
    }
  }

  /**
    In every run from a fresh connection an ok result is the reply to that very request: the line read
    answers the request line this command sent.
  */
  lemma OkAnswersOwnRequest<R>(calls: seq<Call<R>>, i: nat)
    requires i < |calls|
    requires Returns(Run(Fresh(), calls[..i]), calls[i].io).Ok?
    ensures var s := Run(Fresh(), calls[..i + 1]);
            Returns(Run(Fresh(), calls[..i]), calls[i].io) == Ok(|s.sent| - 1) && s.sent[|s.sent| - 1] == calls[i].req
  {
    PairedAlways(calls[..i]);
    assert calls[..i + 1][..i] == calls[..i];
  }

  predicate IoFailed(io: Io) {
    io.WriteFails? || io.ReadFails? || io.ReadsGarbage?
  }

  /** A session is broken exactly from the first I/O failure on ... */
  lemma {:induction false} BrokenExactly<R>(calls: seq<Call<R>>)
    ensures Run(Fresh(), calls).broken <==> exists i | 0 <= i < |calls| :: IoFailed(calls[i].io)
  {
    if calls != [] {
      var front := calls[..|calls| - 1];
      BrokenExactly(front);
      if IoFailed(calls[|calls| - 1].io) {
      } else {
        forall i | 0 <= i < |calls| && IoFailed(calls[i].io) ensures IoFailed(front[i].io) {}
        forall i | 0 <= i < |front| && IoFailed(front[i].io) ensures IoFailed(calls[i].io) {}
      }
    }
  }

  /** ... and no later command touches the wire or succeeds. */
  lemma {:induction false} BrokenIsSilent<R>(s: State<R>, calls: seq<Call<R>>)
    requires s.broken
    ensures Run(s, calls) == s && forall io :: Returns(Run(s, calls), io).Err?
  {
    if calls != [] {
      BrokenIsSilent(s, calls[..|calls| - 1]);
    }
  }

  /**
    When a command succeeds, in every run: exactly when no earlier one failed in I/O and the pod's answer to it says
    ok. A refusal read in full is an error that leaves the session usable.
  */
  lemma OkIff<R>(calls: seq<Call<R>>, i: nat)
    requires i < |calls|
    ensures Returns(Run(Fresh(), calls[..i]), calls[i].io).Ok? <==>
              calls[i].io == Reads(StatusOk) && forall j | 0 <= j < i :: !IoFailed(calls[j].io)
    ensures Returns(Run(Fresh(), calls[..i]), calls[i].io) == Err(REFUSED) <==>
              calls[i].io == Reads(StatusError) && forall j | 0 <= j < i :: !IoFailed(calls[j].io)
    ensures (forall j | 0 <= j <= i :: !IoFailed(calls[j].io)) <==> !Run(Fresh(), calls[..i + 1]).broken
  {
    BrokenExactly(calls[..i]);
    BrokenExactly(calls[..i + 1]);
    assert forall j | 0 <= j < i :: calls[..i][j] == calls[j];
    assert forall j | 0 <= j <= i :: calls[..i + 1][j] == calls[j];
  }

  // ── why the flag is there ──

  /** A run of a session that goes on after a failure, as one without the flag would. */
  function RunOn<R>(calls: seq<Call<R>>): State<R> {
    if calls == [] then Fresh()
    else
      var last := calls[|calls| - 1];
      After(RunOn(calls[..|calls| - 1]).(broken := false), last.req, last.io)
  }

  /** The request reached the pod and its reply was not read. */
  predicate LeftUnanswered(io: Io) {
    io.ReadFails? || (io.WriteFails? && io.reached)
  }

  predicate NoneUnanswered<R>(calls: seq<Call<R>>) {
    forall i | 0 <= i < |calls| :: !LeftUnanswered(calls[i].io)
  }

  /**
    Without the flag a reply is owed exactly when an earlier request was left unanswered; the session never catches
    up.
  */
  lemma {:induction false} OwedIff<R>(calls: seq<Call<R>>)
    ensures var s := RunOn(calls); s.read <= |s.sent| && (s.read == |s.sent| <==> NoneUnanswered(calls))
  {
    if calls != [] {
      var front, last := calls[..|calls| - 1], calls[|calls| - 1];
      OwedIff(front);
      assert NoneUnanswered(calls) <==> NoneUnanswered(front) && !LeftUnanswered(last.io) by {
        assert forall i | 0 <= i < |front| :: front[i] == calls[i];
      }
    }
  }

  /**
    So without the flag an ok is the reply to its own request exactly when no earlier request that reached the
    pod was left unanswered; after that every ok answers an earlier request.
  */
  lemma PairingNeedsTheFlag<R>(calls: seq<Call<R>>, i: nat)
    requires i < |calls| && calls[i].io == Reads(StatusOk)
    ensures var s, after := RunOn(calls[..i]), RunOn(calls[..i + 1]);
            var reply := Returns(s.(broken := false), calls[i].io);
            && reply.Ok? && after.sent[|after.sent| - 1] == calls[i].req
            && (reply.value == |after.sent| - 1 <==> NoneUnanswered(calls[..i]))
            && (!NoneUnanswered(calls[..i]) ==> reply.value < |after.sent| - 1)
  {
    OwedIff(calls[..i]);
    assert calls[..i + 1][..i] == calls[..i];
  }

  // ── the code ──

  /** The connection to the pod. Writes and reads may fail at any point. */
  class Conn<R> {
    var sent: seq<R>
    var read: nat
    /** The reply lines read. */
    ghost var lines: seq<Line>
    /** The writes and reads that failed. */
    ghost var failures: nat

    constructor ()
      ensures sent == [] && read == 0 && lines == [] && failures == 0
    {
      sent, read, lines, failures := [], 0, [], 0;
    }

    method Write(line: R) returns (ok: bool, ghost reached: bool)
      modifies `sent, `failures
      ensures ok ==> reached
      ensures failures == old(failures) + if ok then 0 else 1
      ensures sent == if reached then old(sent) + [line] else old(sent)
    {
      ok := *;
      var whole: bool := *;
      if ok || whole {
        sent := sent + [line];
      }
      reached := ok || whole;
      failures := failures + if ok then 0 else 1;
    }

    /** The next reply line, when it comes in time. */
    method ReadLine() returns (line: Option<Line>)
      requires read < |sent|
      modifies `read, `lines, `failures
      ensures failures == old(failures) + if line.None? then 1 else 0
      ensures line.None? ==> read == old(read) && lines == old(lines)
      ensures line.Some? ==> read == old(read) + 1 && lines == old(lines) + [line.value]
      ensures line.Some? && line.value.Line? ==> line.value.answers == old(read)
    {
      if {
        case true =>
          line := None;
        case true =>
          line, read := Some(Unparsable), read + 1;
        case true =>
          var status: Status := *;
          line, read := Some(Line(read, status)), read + 1;
      }
      lines := if line.Some? then lines + [line.value] else lines;
      failures := failures + if line.None? then 1 else 0;
    }
  }

  /** The line a command read, if it read one. */
  function LineRead(broken: bool, read: nat, io: Io): seq<Line> {
    if broken then []
    else
      match io
      case Reads(status) => [Line(read, status)]
      case ReadsGarbage => [Unparsable]
      case _ => []
  }

  class Session<R> {
    const conn: Conn<R>
    var broken: bool

    ghost function Contents(): State<R>
      reads this, conn
    {
      State(broken, conn.sent, conn.read)
    }

    ghost predicate Valid()
      reads this, conn
    {
      Paired(Contents())
    }

    constructor (conn: Conn<R>)
      requires conn.sent == [] && conn.read == 0
      ensures this.conn == conn && Contents() == Fresh() && Valid()
    {
      this.conn, broken := conn, false;
    }

    /**
      Session.Command. marshals: whether the request can be encoded. It succeeds exactly when a line was read and
      says ok; a refusal read in full leaves the session usable.
    */
    method Command(req: R, marshals: bool) returns (res: Reply, ghost io: Io)
      requires Valid()
      modifies this, conn
      ensures Valid() && Contents() == After(old(Contents()), req, io) && res == Returns(old(Contents()), io)
      ensures res.Ok? ==> res.value == |conn.sent| - 1 && conn.sent == old(conn.sent) + [req]
      ensures old(broken) ==> Contents() == old(Contents()) && res.Err?
      ensures res.Ok? <==> !old(broken) && io == Reads(StatusOk)
      ensures res.Ok? <==>
                |conn.lines| > |old(conn.lines)| && conn.lines[|old(conn.lines)|] == Line(old(conn.read), StatusOk)
      ensures !old(broken) ==> (broken <==> IoFailed(io)) && (io.MarshalFails? <==> !marshals)
      ensures conn.failures == old(conn.failures) + if !old(broken) && (io.WriteFails? || io.ReadFails?) then 1 else 0
      ensures conn.lines == old(conn.lines) + LineRead(old(broken), old(conn.read), io)
    {
      io := MarshalFails;
      if broken {
        return Err("connection unusable after an earlier error"), io;
      }
      if !marshals {
        return Err("i/o failure"), io;
      }
      var ok, reached := conn.Write(req);
      if !ok {
        broken, io := true, WriteFails(reached);
        return Err("i/o failure"), io;
      }
      var line := conn.ReadLine();
      if line.None? {
        broken, io := true, ReadFails;
        return Err("i/o failure"), io;
      }
      if line.value.Unparsable? {
        broken, io := true, ReadsGarbage;
        return Err("i/o failure"), io;
      }
      io := Reads(line.value.status);
      match line.value.status {
        case StatusOk => res := Ok(line.value.answers);
        case StatusError => res := Err(REFUSED);
        case StatusOther => res := Err("unexpected response status");
      }
    }
  }
}
