/**
  uploadChunk as runs of attempts (internal/serialconsole/upload.go:268-307), whatever was on the wire before:
  exactly when "done" can be told to be the truth, and how a wire comes about on which it cannot.
*/
module UploadRuns {
  import opened Bytes
  import opened Outcomes
  import opened Iteration
  import opened UploadPod
  import opened UploadSafety

  const CHUNK_ATTEMPTS: nat := 5

  datatype ChunkEnd = Done | WriteFailed | GaveUp | RefusedByPod | Exhausted

  /** How one attempt at a chunk ends: for good, or with another attempt. */
  datatype Attempt = Finally(result: ChunkEnd) | Again

  /** What uploadChunk makes of the frame's reply. */
  function AttemptOf(reply: Reply): Attempt {
    match reply
    case Okay => Finally(Done)
    case Failed => Finally(RefusedByPod)
    case _ => Again
  }

  /** What it makes of the pod's received count. */
  function AttemptFrom(n: Option<nat>, end: nat): Attempt {
    if n.Some? && n.value >= end then Finally(Done) else Again
  }

  /** A failed write may still have reached the pod. */
  predicate FailedWrite(w: Wire, c: Cmd, after: Wire) {
    after == w.(cut := true) || after == Sent(w, c).(cut := true)
  }

  /** The status query is answered, or its wait ends by the deadline. */
  ghost predicate Queries(sha: Sha, late: bool, w: Wire, got: Option<Line>, after: Wire) {
    exists es :: Ends(sha, late, ForStatus, Sent(w, Status), es, got, after)
  }

  /** uploadReceived: the status query and the count it is answered with, if it is. */
  ghost predicate Asks(sha: Sha, late: bool, w: Wire, n: Option<nat>, after: Wire) {
    match n
    case Some(received) => Queries(sha, late, w, Some(StatusLine(received)), after)
    case None => FailedWrite(w, Status, after) || Queries(sha, late, w, None, after)
  }

  /** The frame, and its reply if one comes. */
  ghost predicate Replies(sha: Sha, late: bool, w: Wire, off: nat, bytes: Data, got: Option<Line>, after: Wire) {
    exists es :: Ends(sha, late, ForReply(DataWord), Sent(w, Frame(off, bytes)), es, got, after)
  }

  /** One attempt: the frame, the wait for its reply, and if none comes the status query. */
  ghost predicate Attempts(sha: Sha, late: bool, w: Wire, off: nat, bytes: Data, a: Attempt, after: Wire) {
    || (a == Finally(WriteFailed) && FailedWrite(w, Frame(off, bytes), after))
    || (a == Finally(GaveUp) && after.cancelled && Replies(sha, late, w, off, bytes, None, after))
    || Answered(sha, late, w, off, bytes, a, after)
    || Unanswered(sha, late, w, off, bytes, a, after)
  }

  ghost predicate Answered(sha: Sha, late: bool, w: Wire, off: nat, bytes: Data, a: Attempt, after: Wire) {
    exists reply :: Replies(sha, late, w, off, bytes, Some(Answer(DataWord, reply)), after) && a == AttemptOf(reply)
  }

  ghost predicate Unanswered(sha: Sha, late: bool, w: Wire, off: nat, bytes: Data, a: Attempt, after: Wire) {
    exists mid, n :: Replies(sha, late, w, off, bytes, None, mid) && !mid.cancelled
      && Asks(sha, late, mid, n, after) && a == AttemptFrom(n, off + |bytes|)
  }

  lemma AttemptOfAsking(sha: Sha, late: bool, w: Wire, off: nat, bytes: Data, mid: Wire, n: Option<nat>, after: Wire)
    requires Replies(sha, late, w, off, bytes, None, mid) && !mid.cancelled && Asks(sha, late, mid, n, after)
    ensures Attempts(sha, late, w, off, bytes, AttemptFrom(n, off + |bytes|), after)
  {
    assert Unanswered(sha, late, w, off, bytes, AttemptFrom(n, off + |bytes|), after);
  }

  lemma AttemptOfReply(sha: Sha, late: bool, w: Wire, off: nat, bytes: Data, reply: Reply, after: Wire)
    requires Replies(sha, late, w, off, bytes, Some(Answer(DataWord, reply)), after)
    ensures Attempts(sha, late, w, off, bytes, AttemptOf(reply), after)
  {
    assert Answered(sha, late, w, off, bytes, AttemptOf(reply), after);
  }

  /** Another attempt follows. */
  ghost function Retries(sha: Sha, late: bool, off: nat, bytes: Data): (Wire, Wire) -> bool {
    (w: Wire, after: Wire) => Attempts(sha, late, w, off, bytes, Again, after)
  }

  /** So many attempts settle nothing, and the next is the last. */
  ghost predicate EndsAfter(sha: Sha, late: bool, w: Wire, off: nat, bytes: Data, made: nat, res: ChunkEnd,
                            after: Wire) {
    exists now :: Iterates(Retries(sha, late, off, bytes), w, made, now)
      && Attempts(sha, late, now, off, bytes, Finally(res), after)
  }

  ghost predicate NoneSettles(sha: Sha, late: bool, w: Wire, off: nat, bytes: Data, after: Wire) {
    exists made: nat | made == CHUNK_ATTEMPTS :: Iterates(Retries(sha, late, off, bytes), w, made, after)
  }

  /** uploadChunk: at most five attempts. */
  ghost predicate ChunkRun(sha: Sha, late: bool, w: Wire, off: nat, bytes: Data, res: ChunkEnd, after: Wire) {
    if res.Exhausted? then NoneSettles(sha, late, w, off, bytes, after)
    else exists made: nat | made < CHUNK_ATTEMPTS :: EndsAfter(sha, late, w, off, bytes, made, res, after)
  }

  /** After so many attempts the next ends in done although the pod has not received up to the chunk's end. */
  ghost predicate Misleads(sha: Sha, w: Wire, off: nat, bytes: Data, made: nat) {
    exists after :: EndsAfter(sha, true, w, off, bytes, made, Done, after) && after.pod.received < off + |bytes|
  }

  ghost predicate ChunkMisleads(sha: Sha, w: Wire, off: nat, bytes: Data) {
    exists made: nat | made < CHUNK_ATTEMPTS :: Misleads(sha, w, off, bytes, made)
  }

  // ── where done is the truth ──

  /** Nothing on the wire can report the chunk falsely. */
  predicate TrueWire(w: Wire, end: nat) {
    NoBegins(w.toPod) && ReportsTrue(w, end)
  }

  lemma AsksKeepsTrue(sha: Sha, late: bool, w: Wire, end: nat, n: Option<nat>, after: Wire)
    requires TrueWire(w, end) && Asks(sha, late, w, n, after)
    ensures TrueWire(after, end) && (n.Some? && end <= n.value ==> end <= after.pod.received)
  {
    if !(n.None? && FailedWrite(w, Status, after)) {
      var got := if n.Some? then Some(StatusLine(n.value)) else None;
      var es :| Ends(sha, late, ForStatus, Sent(w, Status), es, got, after);
      ReportsTrueKept(sha, late, ForStatus, Sent(w, Status), end, es, got, after);
    }
  }

  lemma RepliesKeepsTrue(sha: Sha, late: bool, w: Wire, off: nat, bytes: Data, got: Option<Line>, after: Wire)
    requires TrueWire(w, off + |bytes|) && Replies(sha, late, w, off, bytes, got, after)
    ensures TrueWire(after, off + |bytes|)
    ensures got == Some(Answer(DataWord, Okay)) ==> off + |bytes| <= after.pod.received
  {
    var sent := Sent(w, Frame(off, bytes));
    var es :| Ends(sha, late, ForReply(DataWord), sent, es, got, after);
    ReportsTrueKept(sha, late, ForReply(DataWord), sent, off + |bytes|, es, got, after);
  }

  lemma AttemptKeepsTrue(sha: Sha, late: bool, w: Wire, off: nat, bytes: Data, a: Attempt, after: Wire)
    requires TrueWire(w, off + |bytes|) && Attempts(sha, late, w, off, bytes, a, after)
    ensures TrueWire(after, off + |bytes|) && (a == Finally(Done) ==> off + |bytes| <= after.pod.received)
  {
    if Answered(sha, late, w, off, bytes, a, after) {
      var reply :| Replies(sha, late, w, off, bytes, Some(Answer(DataWord, reply)), after) && a == AttemptOf(reply);
      RepliesKeepsTrue(sha, late, w, off, bytes, Some(Answer(DataWord, reply)), after);
    } else if Unanswered(sha, late, w, off, bytes, a, after) {
      var mid, n :| Replies(sha, late, w, off, bytes, None, mid) && !mid.cancelled
        && Asks(sha, late, mid, n, after) && a == AttemptFrom(n, off + |bytes|);
      RepliesKeepsTrue(sha, late, w, off, bytes, None, mid);
      AsksKeepsTrue(sha, late, mid, off + |bytes|, n, after);
    } else if a == Finally(GaveUp) && after.cancelled && Replies(sha, late, w, off, bytes, None, after) {
      RepliesKeepsTrue(sha, late, w, off, bytes, None, after);
    }
  }

  lemma RetriesKeepTrue(sha: Sha, late: bool, w: Wire, off: nat, bytes: Data, made: nat, now: Wire)
    requires TrueWire(w, off + |bytes|) && Iterates(Retries(sha, late, off, bytes), w, made, now)
    ensures TrueWire(now, off + |bytes|)
  {
    var inv := (k: nat, v: Wire) => TrueWire(v, off + |bytes|);
    forall k: nat, u, v | inv(k, u) && Retries(sha, late, off, bytes)(u, v) ensures inv(k + 1, v) {
      AttemptKeepsTrue(sha, late, u, off, bytes, Again, v);
    }
    IteratesKeep(Retries(sha, late, off, bytes), inv, w, made, now);
  }

  lemma DoneIsTrue(sha: Sha, late: bool, w: Wire, off: nat, bytes: Data, made: nat, after: Wire)
    requires TrueWire(w, off + |bytes|) && EndsAfter(sha, late, w, off, bytes, made, Done, after)
    ensures off + |bytes| <= after.pod.received
  {
    var now :| Iterates(Retries(sha, late, off, bytes), w, made, now)
      && Attempts(sha, late, now, off, bytes, Finally(Done), after);
    RetriesKeepTrue(sha, late, w, off, bytes, made, now);
    AttemptKeepsTrue(sha, late, now, off, bytes, Finally(Done), after);
  }

  // ── where it is not ──

  /** A frame nobody answers, and a status query nobody answers. */
  lemma UnansweredFrame(sha: Sha, w: Wire, off: nat, bytes: Data)
    ensures Replies(sha, true, w, off, bytes, None, Sent(w, Frame(off, bytes)))
  {
    assert Ends(sha, true, ForReply(DataWord), Sent(w, Frame(off, bytes)), [], None, Sent(w, Frame(off, bytes)));
  }

  lemma UnansweredQuery(sha: Sha, w: Wire)
    ensures Asks(sha, true, w, None, Sent(w, Status))
  {
    assert Ends(sha, true, ForStatus, Sent(w, Status), [], None, Sent(w, Status));
  }

  /** A wait that drops one line it does not want, and then ends by its deadline. */
  lemma WaitsPastOne(sha: Sha, await: Await, w: Wire)
    requires w.fromPod != [] && !Wanted(await, w.fromPod[0])
    ensures Ends(sha, true, await, w, [Skips], None, Pop(w))
  {
    assert [Skips] == [] + [Skips];
    FollowExtend(sha, await, w, [], Skips);
  }

  /** An attempt without any answer. */
  lemma UnansweredAttempt(sha: Sha, w: Wire, off: nat, bytes: Data)
    requires !w.cancelled
    ensures Attempts(sha, true, w, off, bytes, Again, Sent(Sent(w, Frame(off, bytes)), Status))
  {
    var mid := Sent(w, Frame(off, bytes));
    UnansweredFrame(sha, w, off, bytes);
    UnansweredQuery(sha, mid);
    AttemptOfAsking(sha, true, w, off, bytes, mid, None, Sent(mid, Status));
  }

  /**
    An attempt that gets no answer and leaves one unread line fewer: a line that reports nothing can always be passed.
  */
  lemma PassesOneLine(sha: Sha, w: Wire, off: nat, bytes: Data) returns (v: Wire)
    requires w.fromPod != [] && !w.cancelled && !Reports(w.fromPod[0], off + |bytes|)
    ensures Attempts(sha, true, w, off, bytes, Again, v)
    ensures v == w.(toPod := v.toPod, fromPod := w.fromPod[1..]) && w.toPod <= v.toPod
  {
    var sent := Sent(w, Frame(off, bytes));
    v := Pop(Sent(sent, Status));
    if Wanted(ForReply(DataWord), w.fromPod[0]) {
      UnansweredFrame(sha, w, off, bytes);
      WaitsPastOne(sha, ForStatus, Sent(sent, Status));
      AttemptOfAsking(sha, true, w, off, bytes, sent, None, v);
    } else {
      WaitsPastOne(sha, ForReply(DataWord), sent);
      UnansweredQuery(sha, Pop(sent));
      AttemptOfAsking(sha, true, w, off, bytes, Pop(sent), None, v);
    }
  }

  /** An attempt that takes a false report at the head of the unread lines. */
  lemma TakesReport(sha: Sha, w: Wire, off: nat, bytes: Data) returns (v: Wire)
    requires w.fromPod != [] && !w.cancelled && Reports(w.fromPod[0], off + |bytes|)
    ensures Attempts(sha, true, w, off, bytes, Finally(Done), v) && v.pod == w.pod
  {
    var sent, l := Sent(w, Frame(off, bytes)), w.fromPod[0];
    if l == Answer(DataWord, Okay) {
      v := Pop(sent);
      assert Ends(sha, true, ForReply(DataWord), sent, [], Some(l), v);
      AttemptOfReply(sha, true, w, off, bytes, Okay, v);
    } else {
      UnansweredFrame(sha, w, off, bytes);
      v := Pop(Sent(sent, Status));
      assert Ends(sha, true, ForStatus, Sent(sent, Status), [], Some(l), v);
      AttemptOfAsking(sha, true, w, off, bytes, sent, Some(l.received), v);
    }
  }

  /** An attempt that takes the ok to a short frame in flight. */
  lemma TakesShort(sha: Sha, w: Wire, off: nat, bytes: Data, k: nat) returns (v: Wire)
    requires w.fromPod == [] && k < |w.toPod| && IsShort(w.toPod[k], |w.pod.staged|, off + |bytes|)
    requires w.pod.received < off + |bytes|
    ensures Attempts(sha, true, w, off, bytes, Finally(Done), v) && v.pod.received < off + |bytes|
  {
    var es;
    es, v := ShortFrameAnswered(sha, Sent(w, Frame(off, bytes)), k, off + |bytes|);
    AttemptOfReply(sha, true, w, off, bytes, Okay, v);
  }

  lemma MisleadsAtOnce(sha: Sha, w: Wire, off: nat, bytes: Data, v: Wire)
    requires Attempts(sha, true, w, off, bytes, Finally(Done), v) && v.pod.received < off + |bytes|
    ensures Misleads(sha, w, off, bytes, 0)
  {
    assert Iterates(Retries(sha, true, off, bytes), w, 0, w);
    assert EndsAfter(sha, true, w, off, bytes, 0, Done, v);
  }

  lemma MisleadsLater(sha: Sha, w: Wire, off: nat, bytes: Data, v: Wire, made: nat)
    requires Attempts(sha, true, w, off, bytes, Again, v) && Misleads(sha, v, off, bytes, made)
    ensures Misleads(sha, w, off, bytes, made + 1)
  {
    var step := Retries(sha, true, off, bytes);
    var after :| EndsAfter(sha, true, v, off, bytes, made, Done, after) && after.pod.received < off + |bytes|;
    var now :| Iterates(step, v, made, now) && Attempts(sha, true, now, off, bytes, Finally(Done), after);
    IteratesLater(step, w, v, made, now);
    assert EndsAfter(sha, true, w, off, bytes, made + 1, Done, after);
  }

  /** A wire that can report falsely misleads after at most as many attempts as there are unread lines. */
  lemma {:induction false} FalseReportMisleads(sha: Sha, w: Wire, off: nat, bytes: Data) returns (made: nat)
    requires !w.cancelled && !ReportsTrue(w, off + |bytes|)
    ensures made <= |w.fromPod| && Misleads(sha, w, off, bytes, made)
    decreases |w.fromPod|
  {
    var end := off + |bytes|;
    if w.fromPod == [] {
      var k :| 0 <= k < |w.toPod| && IsShort(w.toPod[k], |w.pod.staged|, end);
      var v := TakesShort(sha, w, off, bytes, k);
      MisleadsAtOnce(sha, w, off, bytes, v);
      made := 0;
    } else if Reports(w.fromPod[0], end) {
      var v := TakesReport(sha, w, off, bytes);
      MisleadsAtOnce(sha, w, off, bytes, v);
      made := 0;
    } else {
      var v := PassesOneLine(sha, w, off, bytes);
      StillFalse(w, v, end);
      made := FalseReportMisleads(sha, v, off, bytes);
      MisleadsLater(sha, w, off, bytes, v, made);
      made := made + 1;
    }
  }

  lemma StillFalse(w: Wire, v: Wire, end: nat)
    requires !ReportsTrue(w, end) && w.fromPod != [] && !Reports(w.fromPod[0], end)
    requires v == w.(toPod := v.toPod, fromPod := w.fromPod[1..]) && w.toPod <= v.toPod
    ensures !ReportsTrue(v, end)
  {
    if !NoneReports(w.fromPod, end) {
      var i :| 0 <= i < |w.fromPod| && Reports(w.fromPod[i], end);
      assert Reports(v.fromPod[i - 1], end);
    } else {
      var k :| 0 <= k < |w.toPod| && IsShort(w.toPod[k], |w.pod.staged|, end);
      assert IsShort(v.toPod[k], |v.pod.staged|, end);
    }
  }

  // ── the theorems ──

  /**
    Whatever is on the wire: no number of attempts can end in done without the pod having received up to the
    chunk's end, exactly when nothing on the wire can report the chunk falsely.
  */
  lemma DoneIsTrueIff(sha: Sha, w: Wire, off: nat, bytes: Data)
    requires NoBegins(w.toPod) && !w.cancelled
    ensures (forall made :: !Misleads(sha, w, off, bytes, made)) <==> ReportsTrue(w, off + |bytes|)
  {
    if ReportsTrue(w, off + |bytes|) {
      forall made, after | EndsAfter(sha, true, w, off, bytes, made, Done, after)
        ensures off + |bytes| <= after.pod.received
      {
        DoneIsTrue(sha, true, w, off, bytes, made, after);
      }
    } else {
      var made := FalseReportMisleads(sha, w, off, bytes);
    }
  }

  /** The five attempts of uploadChunk are enough to be misled when at most four lines are still to be read. */
  lemma FiveAttemptsIff(sha: Sha, w: Wire, off: nat, bytes: Data)
    requires NoBegins(w.toPod) && !w.cancelled && |w.fromPod| < CHUNK_ATTEMPTS
    ensures !ChunkMisleads(sha, w, off, bytes) <==> ReportsTrue(w, off + |bytes|)
  {
    DoneIsTrueIff(sha, w, off, bytes);
    if !ReportsTrue(w, off + |bytes|) {
      var made := FalseReportMisleads(sha, w, off, bytes);
    }
  }

  /** The pod has received up to end, and of the answers still to be read a retry comes before an ok. */
  predicate RetryThenOk(w: Wire, end: nat) {
    && w.toPod == [] && !w.cancelled && w.pod.received == end
    && |w.fromPod| == 4 && w.fromPod[0].StatusLine? && w.fromPod[1] == Answer(DataWord, Retry)
    && w.fromPod[3] == Answer(DataWord, Okay)
  }

  /**
    How a wire that misleads comes about on a late console with nothing owed: two attempts at a chunk get no answer
    at all, the pod then takes all five commands, the second frame corrupted, and the client reads the first ok.
    The chunk is done, truly ...
  */
  lemma StaleReplies(sha: Sha, w: Wire, off: nat, bytes: Data) returns (idle: Wire)
    requires Drained(w) && !w.cancelled && w.pod.received <= off && off + |bytes| <= |w.pod.staged|
    ensures ChunkRun(sha, true, w, off, bytes, Done, idle) && RetryThenOk(idle, off + |bytes|)
  {
    var made, twice := TwoUnanswered(sha, w, off, bytes);
    idle := AllTaken(sha, twice, off, bytes);
    AttemptOfReply(sha, true, twice, off, bytes, Okay, idle);
    assert EndsAfter(sha, true, w, off, bytes, made, Done, idle);
  }

  /**
    ... but the next one misleads, though no ok to its first frame could: the retry is read first, the stale ok after
    it.
  */
  lemma RetryBeforeOk(sha: Sha, w: Wire, off: nat, next: Data)
    requires RetryThenOk(w, off) && next != []
    ensures OkIsTrue(sha, w, off, next) && ChunkMisleads(sha, w, off, next)
  {
    OkIsTrueIff(sha, w, off, next);
    assert FirstAnswer(w.fromPod[1..]) == Some(Retry);
    assert Reports(w.fromPod[3], off + |next|);
    FiveAttemptsIff(sha, w, off, next);
  }

  /** Two copies of a frame and two status queries are on their way, and nothing else. */
  predicate TwiceInFlight(w: Wire, frame: Cmd) {
    && w.fromPod == [] && !w.cancelled && |w.toPod| == 4
    && w.toPod[0] == frame && w.toPod[1] == Status && w.toPod[2] == frame && w.toPod[3] == Status
  }

  lemma TwoUnanswered(sha: Sha, w: Wire, off: nat, bytes: Data) returns (made: nat, twice: Wire)
    requires Drained(w) && !w.cancelled
    ensures made < CHUNK_ATTEMPTS && Iterates(Retries(sha, true, off, bytes), w, made, twice)
    ensures TwiceInFlight(twice, Frame(off, bytes)) && twice.pod == w.pod
  {
    var once := Sent(Sent(w, Frame(off, bytes)), Status);
    twice := Sent(Sent(once, Frame(off, bytes)), Status);
    UnansweredAttempt(sha, w, off, bytes);
    UnansweredAttempt(sha, once, off, bytes);
    made := TwoSteps(Retries(sha, true, off, bytes), w, once, twice);
  }

  lemma AllTaken(sha: Sha, w: Wire, off: nat, bytes: Data) returns (idle: Wire)
    requires TwiceInFlight(w, Frame(off, bytes)) && off + |bytes| <= |w.pod.staged| && w.pod.received <= off
    ensures Replies(sha, true, w, off, bytes, Some(Answer(DataWord, Okay)), idle)
    ensures RetryThenOk(idle, off + |bytes|)
  {
    var es, v := FiveTaken(sha, Sent(w, Frame(off, bytes)), Frame(off, bytes), off + |bytes|);
    idle := Pop(v);
    assert Ends(sha, true, ForReply(DataWord), Sent(w, Frame(off, bytes)), es, Some(Answer(DataWord, Okay)), idle);
  }

  /** The pod takes three copies of a frame and two status queries, the second copy corrupted. */
  lemma FiveTaken(sha: Sha, w: Wire, frame: Cmd, end: nat) returns (es: seq<Event>, v: Wire)
    requires frame.Frame? && frame.off + |frame.bytes| == end <= |w.pod.staged| && w.pod.received <= end
    requires w.fromPod == [] && |w.toPod| == 5 && w.toPod[0] == frame && w.toPod[1] == Status && w.toPod[2] == frame
    requires w.toPod[3] == Status && w.toPod[4] == frame
    ensures Follow(sha, ForReply(DataWord), w, es) == v && v.toPod == [] && v.cancelled == w.cancelled
    ensures v.pod.received == end
    ensures |v.fromPod| == 5 && v.fromPod[0] == Answer(DataWord, Okay) && v.fromPod[1].StatusLine?
    ensures v.fromPod[2] == Answer(DataWord, Retry) && v.fromPod[4] == Answer(DataWord, Okay)
  {
    var w2 := FrameAndQuery(sha, w, Plain, frame, end);
    var w4 := FrameAndQuery(sha, w2, Corrupted, frame, end);
    v := TakesNext(sha, w4, Plain, end);
    es := [Executes(Plain)];
    FollowPrepend(sha, ForReply(DataWord), w4, Executes(Plain), []);
    es := FollowTaken(sha, w2, Corrupted, Plain, es, v);
    es := FollowTaken(sha, w, Plain, Plain, es, v);
  }

  function AnswerTo(c: Cmd, fate: Fate, end: nat): Line {
    if c.Status? then StatusLine(end) else Answer(DataWord, if fate.Plain? then Okay else Retry)
  }

  lemma FrameAndQuery(sha: Sha, w: Wire, fate: Fate, frame: Cmd, end: nat) returns (v: Wire)
    requires |w.toPod| >= 2 && w.toPod[0] == frame && w.toPod[1] == Status && (fate.Plain? || fate.Corrupted?)
    requires frame.Frame? && frame.off + |frame.bytes| == end <= |w.pod.staged|
    requires w.pod.received == end || (w.pod.received <= end && fate.Plain?)
    ensures v == Take(sha, Take(sha, w, fate), Plain) && v.toPod == w.toPod[2..]
    ensures |v.fromPod| == |w.fromPod| + 2 && w.fromPod <= v.fromPod
    ensures v.fromPod[|w.fromPod|] == AnswerTo(frame, fate, end) && v.fromPod[|w.fromPod| + 1] == StatusLine(end)
    ensures v.cancelled == w.cancelled && v.pod.received == end && |v.pod.staged| == |w.pod.staged|
  {
    var u := TakesNext(sha, w, fate, end);
    v := TakesNext(sha, u, Plain, end);
  }

  /** The pod takes the next command, a frame that ends at end or a query, and answers it; the chunk is then there. */
  lemma TakesNext(sha: Sha, w: Wire, fate: Fate, end: nat) returns (v: Wire)
    requires w.toPod != [] && (fate.Plain? || (fate.Corrupted? && w.toPod[0].Frame?))
    requires if w.toPod[0].Frame? then w.toPod[0].off + |w.toPod[0].bytes| == end <= |w.pod.staged|
               else w.toPod[0].Status?
    requires w.pod.received == end || (w.pod.received <= end && w.toPod[0].Frame? && fate.Plain?)
    ensures v == Take(sha, w, fate) && v.toPod == w.toPod[1..]
    ensures v.fromPod == w.fromPod + [AnswerTo(w.toPod[0], fate, end)]
    ensures v.cancelled == w.cancelled && v.pod.received == end && |v.pod.staged| == |w.pod.staged|
  {
    v := Take(sha, w, fate);
  }

  lemma FollowTaken(sha: Sha, w: Wire, one: Fate, two: Fate, es: seq<Event>, m: Wire) returns (all: seq<Event>)
    requires w.toPod != [] && Take(sha, w, one).toPod != []
    requires Follow(sha, ForReply(DataWord), Take(sha, Take(sha, w, one), two), es) == m
    ensures Follow(sha, ForReply(DataWord), w, all) == m
  {
    all := [Executes(two)] + es;
    FollowPrepend(sha, ForReply(DataWord), Take(sha, w, one), Executes(two), es);
    FollowPrepend(sha, ForReply(DataWord), w, Executes(one), all);
    all := [Executes(one)] + all;
  }
}
