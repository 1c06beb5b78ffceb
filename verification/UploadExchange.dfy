/**
  What single exchanges of a console upload leave behind, on any wire and on a calm, prompt one, and what
  the client itself does in them. The steps of ConsoleUpload's methods.
*/
module UploadExchange {
  import opened Bytes
  import opened Outcomes
  import opened UploadPod
  import opened UploadSafety
  import opened UploadRuns
  import Base64Url
  import opened Iteration

  /** What the client did: the commands it wrote and the replies it acted on. */
  datatype Act = Wrote(cmd: Cmd) | Accepted(line: Line)

  function FrameCount(acts: seq<Act>): nat {
    if acts == [] then 0
    else FrameCount(acts[..|acts| - 1]) + if acts[|acts| - 1].Wrote? && acts[|acts| - 1].cmd.Frame? then 1 else 0
  }

  lemma FrameCountExtend(acts: seq<Act>, a: Act)
    ensures FrameCount(acts + [a]) == FrameCount(acts) + if a.Wrote? && a.cmd.Frame? then 1 else 0
  {
    assert (acts + [a])[..|acts|] == acts;
  }

  /** A status reply that shows the chunk ending at end has landed. */
  predicate ShowsLanded(a: Act, end: nat) {
    a.Accepted? && a.line.StatusLine? && end <= a.line.received
  }

  predicate NoneShown(acts: seq<Act>, end: nat) {
    forall i | 0 <= i < |acts| :: !ShowsLanded(acts[i], end)
  }

  predicate IsFrame(a: Act) {
    a.Wrote? && a.cmd.Frame?
  }

  /** After a frame comes its reply or a status query before any other frame: nothing is resent blindly. */
  predicate NoBlindResend(acts: seq<Act>) {
    forall i | 0 <= i < |acts| - 1 && IsFrame(acts[i]) :: !IsFrame(acts[i + 1])
  }

  /** The client's own conduct while it sends one chunk. */
  predicate ChunkActs(acts: seq<Act>, off: nat, chunk: Data) {
    && FrameCount(acts) <= 5 && NoBlindResend(acts)
    && (forall i | 0 <= i < |acts| && acts[i].Wrote? :: acts[i].cmd == Frame(off, chunk) || acts[i].cmd == Status)
    && (forall i, j | 0 <= i < j < |acts| && ShowsLanded(acts[i], off + |chunk|) :: !acts[j].Wrote?)
    && (forall i | 0 <= i < |acts| - 1 && acts[i].Accepted? :: IsFrame(acts[i + 1]))
  }

  /** Only the staged image differs. */
  predicate OnlyStaged(p: Pod, q: Pod) {
    q == p.(staged := q.staged, received := q.received)
  }

  predicate Undisturbed(w: Wire) {
    !w.cancelled && !w.cut
  }

  /** Nothing gets better with time: faults stay counted, a wire once cut or given up stays so, and the firmware too. */
  predicate Later(was: Wire, now: Wire) {
    && was.faults <= now.faults && was.refused <= now.refused && now.pod.sigAware == was.pod.sigAware
    && (Undisturbed(now) ==> Undisturbed(was))
  }

  /** A prompt console that was calm, with nothing going wrong since. */
  predicate FaultFree(late: bool, was: Wire, now: Wire) {
    !late && Calm(was) && Undisturbed(now) && now.faults == was.faults
  }

  // ── exchanges on a calm, prompt console ──

  lemma CalmFrame(sha: Sha, w: Wire, off: nat, chunk: Data, es: seq<Event>, got: Option<Line>, after: Wire)
    requires Calm(w) && off + |chunk| <= |w.pod.staged|
    requires Ends(sha, false, ForReply(DataWord), Sent(w, Frame(off, chunk)), es, got, after)
    requires got.Some? || !after.cancelled
    ensures Calm(after) && w.faults <= after.faults && OnlyStaged(w.pod, after.pod)
    ensures got != Some(Answer(DataWord, Okay)) ==> after.faults == w.faults + 1
    ensures got == Some(Answer(DataWord, Failed)) ==> after.refused == w.refused + 1
  {
    OneCommandOneFate(sha, ForReply(DataWord), w, Frame(off, chunk), es, got, after);
    var fate :| Exchanged(sha, ForReply(DataWord), w, Frame(off, chunk), fate, got, after);
    if fate.Plain? {
      assert Answer(DataWord, Okay) in Says(sha, w.pod, Frame(off, chunk), fate);
    }
  }

  lemma CalmQuery(sha: Sha, await: Await, w: Wire, c: Cmd, es: seq<Event>, got: Option<Line>, after: Wire)
    requires (c == Status && await == ForStatus) || (c == SigQuery && await == ForSig)
    requires Calm(w) && Ends(sha, false, await, Sent(w, c), es, got, after)
    requires got.Some? || !after.cancelled
    ensures Calm(after) && after.pod == w.pod
    ensures if got.Some? then got.value == PlainReply(sha, w.pod, c) && after.faults == w.faults
            else after.faults == w.faults + 1
  {
    OneCommandOneFate(sha, await, w, c, es, got, after);
    var fate :| Exchanged(sha, await, w, c, fate, got, after);
    if fate.Plain? {
      assert PlainReply(sha, w.pod, c) in Says(sha, w.pod, c, fate);
    }
  }

  /** A command with a one-word reply: an ok means the pod has executed it, anything else is a fault. */
  lemma CalmOk(sha: Sha, w: Wire, c: Cmd, es: seq<Event>, got: Option<Line>, after: Wire)
    requires IsKey(c) || (((c.SigPart? && c.part <= 1) || c.SigClear?) && w.pod.sigAware)
    requires c.End? ==> sha(w.pod.staged) == w.pod.digest
    requires c.Commit? ==> w.pod.stage == Verified
    requires Calm(w) && Ends(sha, false, ForReply(WordOf(c)), Sent(w, c), es, got, after)
    requires got.Some? || !after.cancelled
    ensures Calm(after) && w.faults <= after.faults
    ensures got.Some? && got.value.reply.Resetting? ==> c.Commit?
    ensures if got.Some? && IsOk(got.value.reply) then after.pod == Executed(sha, w.pod, c)
            else after.faults == w.faults + 1 && (after.pod == w.pod || after.pod == Executed(sha, w.pod, c))
  {
    OneCommandOneFate(sha, ForReply(WordOf(c)), w, c, es, got, after);
    var fate :| Exchanged(sha, ForReply(WordOf(c)), w, c, fate, got, after);
    if fate.Plain? {
      assert PlainReply(sha, w.pod, c) in Says(sha, w.pod, c, fate);
    }
  }

  // ── exchanges while frames are on their way ──

  /** What every exchange between begin and end keeps. */
  predicate Kept(sha: Sha, was: Wire, spec: Spec, off: nat, end: nat, now: Wire) {
    && Staging(sha, now, spec)
    && (ChunkInv(was, spec.data, off, end) ==> ChunkInv(now, spec.data, off, end))
    && Later(was, now)
    && Untouched(was, now)
  }

  /** What uploadReceived leaves. */
  predicate Asked(sha: Sha, late: bool, was: Wire, spec: Spec, off: nat, end: nat, n: Option<nat>, now: Wire) {
    && Kept(sha, was, spec, off, end, now)
    && (ChunkInv(was, spec.data, off, end) && n.Some? ==> n.value <= now.pod.received)
    && (!late && Calm(was) && Undisturbed(now) ==>
          Calm(now) && OnlyStaged(was.pod, now.pod) && (n.None? ==> now.faults > was.faults))
  }

  lemma SentKept(sha: Sha, w: Wire, spec: Spec, off: nat, end: nat, c: Cmd)
    requires Staging(sha, w, spec) && off <= end <= |spec.data|
    requires !IsKey(c) && (c.Frame? ==> c == Frame(off, spec.data[off..end]))
    ensures Kept(sha, w, spec, off, end, Sent(w, c)) && Kept(sha, w, spec, off, end, Sent(w, c).(cut := true))
  {
  }

  lemma FollowKept(sha: Sha, late: bool, await: Await, w: Wire, spec: Spec, off: nat, end: nat,
                   es: seq<Event>, got: Option<Line>, after: Wire)
    requires Staging(sha, w, spec) && Ends(sha, late, await, w, es, got, after)
    ensures Kept(sha, w, spec, off, end, after)
  {
    Monotone(sha, await, w, es);
    FollowUntouched(sha, await, w, es);
    StagingKept(sha, late, await, w, spec, es, got, after);
    if ChunkInv(w, spec.data, off, end) {
      ChunkKept(sha, late, await, w, spec.data, off, end, es, got, after);
    }
  }

  lemma QueryAsked(sha: Sha, late: bool, was: Wire, spec: Spec, off: nat, end: nat, es: seq<Event>, got: Option<Line>,
                   now: Wire)
    requires Staging(sha, was, spec) && off <= end <= |spec.data|
    requires Ends(sha, late, ForStatus, Sent(was, Status), es, got, now)
    ensures Asked(sha, late, was, spec, off, end, if got.Some? then Some(got.value.received) else None, now)
  {
    SentKept(sha, was, spec, off, end, Status);
    var sent := Sent(was, Status);
    FollowKept(sha, late, ForStatus, sent, spec, off, end, es, got, now);
    if ChunkInv(was, spec.data, off, end) {
      ChunkKept(sha, late, ForStatus, sent, spec.data, off, end, es, got, now);
    }
    if !late && Calm(was) && Undisturbed(now) {
      CalmQuery(sha, ForStatus, was, Status, es, got, now);
    }
  }

  lemma AsksAsked(sha: Sha, late: bool, was: Wire, spec: Spec, off: nat, end: nat, n: Option<nat>, now: Wire)
    requires Staging(sha, was, spec) && off <= end <= |spec.data| && Asks(sha, late, was, n, now)
    ensures Asked(sha, late, was, spec, off, end, n, now)
  {
    if n.None? && FailedWrite(was, Status, now) {
      SentKept(sha, was, spec, off, end, Status);
    } else {
      var got := if n.Some? then Some(StatusLine(n.value)) else None;
      var es :| Ends(sha, late, ForStatus, Sent(was, Status), es, got, now);
      QueryAsked(sha, late, was, spec, off, end, es, got, now);
    }
  }

  /** What that means for every chunk of an upload that is under way. */
  ghost predicate AskedAlways(sha: Sha, late: bool, was: Wire, n: Option<nat>, now: Wire) {
    forall spec, off: nat, end: nat | Staging(sha, was, spec) && off <= end <= |spec.data| ::
      Asked(sha, late, was, spec, off, end, n, now)
  }

  lemma AsksAskedAlways(sha: Sha, late: bool, was: Wire, n: Option<nat>, now: Wire)
    requires Asks(sha, late, was, n, now)
    ensures AskedAlways(sha, late, was, n, now)
  {
    forall spec, off: nat, end: nat | Staging(sha, was, spec) && off <= end <= |spec.data|
      ensures Asked(sha, late, was, spec, off, end, n, now)
    {
      AsksAsked(sha, late, was, spec, off, end, n, now);
    }
  }

  /** What one attempt at the chunk [off, end) leaves. */
  predicate Tried(sha: Sha, late: bool, was: Wire, spec: Spec, off: nat, end: nat, a: Attempt, now: Wire) {
    && Kept(sha, was, spec, off, end, now)
    && (!late && Calm(was) && Undisturbed(now) ==>
          && Calm(now) && OnlyStaged(was.pod, now.pod)
          && (a == Finally(RefusedByPod) ==> now.refused > was.refused)
          && (a != Finally(Done) ==> now.faults > was.faults) && a != Finally(WriteFailed) && a != Finally(GaveUp))
  }

  /** What the frame's own reply, or its absence, leaves. */
  predicate Replied(sha: Sha, late: bool, was: Wire, spec: Spec, off: nat, end: nat, got: Option<Line>, now: Wire) {
    && Kept(sha, was, spec, off, end, now)
    && (!late && Calm(was) && Undisturbed(now) ==>
          && Calm(now) && OnlyStaged(was.pod, now.pod)
          && (got == Some(Answer(DataWord, Failed)) ==> now.refused > was.refused)
          && (got != Some(Answer(DataWord, Okay)) ==> now.faults > was.faults))
  }

  lemma FrameReplied(sha: Sha, late: bool, was: Wire, spec: Spec, off: nat, end: nat, got: Option<Line>, now: Wire)
    requires Staging(sha, was, spec) && off <= end <= |spec.data|
    requires Replies(sha, late, was, off, spec.data[off..end], got, now)
    ensures Replied(sha, late, was, spec, off, end, got, now)
  {
    var c := Frame(off, spec.data[off..end]);
    var es :| Ends(sha, late, ForReply(DataWord), Sent(was, c), es, got, now);
    SentKept(sha, was, spec, off, end, c);
    FollowKept(sha, late, ForReply(DataWord), Sent(was, c), spec, off, end, es, got, now);
    if !late && Calm(was) && Undisturbed(now) {
      CalmFrame(sha, was, off, spec.data[off..end], es, got, now);
    }
  }

  lemma AskedTried(sha: Sha, late: bool, was: Wire, spec: Spec, off: nat, end: nat, mid: Wire, n: Option<nat>,
                   now: Wire)
    requires Replied(sha, late, was, spec, off, end, None, mid) && Asked(sha, late, mid, spec, off, end, n, now)
    ensures Tried(sha, late, was, spec, off, end, AttemptFrom(n, end), now)
  {
  }

  lemma RepliedTried(sha: Sha, late: bool, was: Wire, spec: Spec, off: nat, end: nat, reply: Reply, now: Wire)
    requires Replied(sha, late, was, spec, off, end, Some(Answer(DataWord, reply)), now)
    ensures Tried(sha, late, was, spec, off, end, AttemptOf(reply), now)
  {
  }

  lemma AnsweredTried(sha: Sha, late: bool, was: Wire, spec: Spec, off: nat, end: nat, a: Attempt, now: Wire)
    requires Staging(sha, was, spec) && off <= end <= |spec.data|
    requires Answered(sha, late, was, off, spec.data[off..end], a, now)
    ensures Tried(sha, late, was, spec, off, end, a, now)
  {
    var chunk := spec.data[off..end];
    var reply :| Replies(sha, late, was, off, chunk, Some(Answer(DataWord, reply)), now) && a == AttemptOf(reply);
    FrameReplied(sha, late, was, spec, off, end, Some(Answer(DataWord, reply)), now);
    RepliedTried(sha, late, was, spec, off, end, reply, now);
  }

  lemma UnansweredTried(sha: Sha, late: bool, was: Wire, spec: Spec, off: nat, end: nat, a: Attempt, now: Wire)
    requires Staging(sha, was, spec) && off <= end <= |spec.data|
    requires Unanswered(sha, late, was, off, spec.data[off..end], a, now)
    ensures Tried(sha, late, was, spec, off, end, a, now)
  {
    var chunk := spec.data[off..end];
    var mid, n :| Replies(sha, late, was, off, chunk, None, mid) && !mid.cancelled
      && Asks(sha, late, mid, n, now) && a == AttemptFrom(n, end);
    FrameReplied(sha, late, was, spec, off, end, None, mid);
    AsksAsked(sha, late, mid, spec, off, end, n, now);
    AskedTried(sha, late, was, spec, off, end, mid, n, now);
  }

  lemma AttemptTried(sha: Sha, late: bool, was: Wire, spec: Spec, off: nat, end: nat, a: Attempt, now: Wire)
    requires Staging(sha, was, spec) && off <= end <= |spec.data|
    requires Attempts(sha, late, was, off, spec.data[off..end], a, now)
    ensures Tried(sha, late, was, spec, off, end, a, now)
  {
    var chunk := spec.data[off..end];
    if Answered(sha, late, was, off, chunk, a, now) {
      AnsweredTried(sha, late, was, spec, off, end, a, now);
    } else if Unanswered(sha, late, was, off, chunk, a, now) {
      UnansweredTried(sha, late, was, spec, off, end, a, now);
    } else if a == Finally(GaveUp) && Replies(sha, late, was, off, chunk, None, now) {
      FrameReplied(sha, late, was, spec, off, end, None, now);
    } else {
      SentKept(sha, was, spec, off, end, Frame(off, chunk));
    }
  }

  function StatusActs(n: Option<nat>): seq<Act> {
    [Wrote(Status)] + if n.Some? then [Accepted(StatusLine(n.value))] else []
  }

  function FrameActs(off: nat, chunk: Data, got: Option<Line>): seq<Act> {
    [Wrote(Frame(off, chunk))] + if got.Some? then [Accepted(got.value)] else []
  }

  /** What n attempts that settled nothing leave. */
  predicate Retried(sha: Sha, late: bool, was: Wire, spec: Spec, off: nat, end: nat, n: nat, now: Wire) {
    && Kept(sha, was, spec, off, end, now)
    && (!late && Calm(was) && Undisturbed(now) ==>
          Calm(now) && OnlyStaged(was.pod, now.pod) && now.faults >= was.faults + n)
  }

  lemma RetriedStep(sha: Sha, late: bool, start: Wire, spec: Spec, off: nat, end: nat, n: nat, was: Wire, now: Wire)
    requires Retried(sha, late, start, spec, off, end, n, was) && Tried(sha, late, was, spec, off, end, Again, now)
    ensures Retried(sha, late, start, spec, off, end, n + 1, now)
  {
  }

  lemma IteratesRetried(sha: Sha, late: bool, start: Wire, spec: Spec, off: nat, end: nat, n: nat, now: Wire)
    requires Staging(sha, start, spec) && off <= end <= |spec.data|
    requires Iterates(Retries(sha, late, off, spec.data[off..end]), start, n, now)
    ensures Retried(sha, late, start, spec, off, end, n, now)
  {
    var step := Retries(sha, late, off, spec.data[off..end]);
    var inv := (k: nat, v: Wire) => Retried(sha, late, start, spec, off, end, k, v);
    forall k: nat, u, v | inv(k, u) && step(u, v) ensures inv(k + 1, v) {
      AttemptTried(sha, late, u, spec, off, end, Again, v);
      RetriedStep(sha, late, start, spec, off, end, k, u, v);
    }
    IteratesKeep(step, inv, start, n, now);
  }

  /** What uploadChunk leaves. */
  predicate Chunked(sha: Sha, late: bool, was: Wire, spec: Spec, off: nat, end: nat, res: ChunkEnd, now: Wire) {
    && Kept(sha, was, spec, off, end, now)
    && (ReportsTrue(was, end) && res.Done? ==> end <= now.pod.received)
    && (!late && Calm(was) && Undisturbed(now) ==>
          && Calm(now) && OnlyStaged(was.pod, now.pod)
          && match res
             case Done => true
             case RefusedByPod => now.faults > was.faults && now.refused > was.refused
             case Exhausted => now.faults >= was.faults + CHUNK_ATTEMPTS
             case _ => false)
  }

  lemma LastTried(sha: Sha, late: bool, start: Wire, spec: Spec, off: nat, end: nat, n: nat, was: Wire, res: ChunkEnd,
                  now: Wire)
    requires Retried(sha, late, start, spec, off, end, n, was)
    requires Tried(sha, late, was, spec, off, end, Finally(res), now)
    requires !res.Exhausted? && (ReportsTrue(start, end) && res.Done? ==> end <= now.pod.received)
    ensures Chunked(sha, late, start, spec, off, end, res, now)
  {
  }

  /** On a calm, prompt console fewer than five faults, none of them a refusal, cannot keep a chunk from landing. */
  lemma CalmChunkLands(sha: Sha, start: Wire, spec: Spec, off: nat, end: nat, res: ChunkEnd, now: Wire)
    requires Staging(sha, start, spec) && off <= end <= |spec.data|
    requires ChunkRun(sha, false, start, off, spec.data[off..end], res, now)
    requires Calm(start) && Undisturbed(now)
    requires now.faults < start.faults + 5 && now.refused == start.refused
    ensures res.Done? && Calm(now)
    ensures Prefix(start.pod, spec.data) && off <= start.pod.received ==> end <= now.pod.received
  {
    RunChunked(sha, false, start, spec, off, end, res, now);
    CalmLogs(start);
  }

  /** What every run of uploadChunk leaves, on any wire and on a calm, prompt one. */
  lemma RunChunked(sha: Sha, late: bool, start: Wire, spec: Spec, off: nat, end: nat, res: ChunkEnd, now: Wire)
    requires Staging(sha, start, spec) && off <= end <= |spec.data|
    requires ChunkRun(sha, late, start, off, spec.data[off..end], res, now)
    ensures Chunked(sha, late, start, spec, off, end, res, now)
  {
    var chunk := spec.data[off..end];
    if res.Exhausted? {
      IteratesRetried(sha, late, start, spec, off, end, CHUNK_ATTEMPTS, now);
    } else {
      var made: nat :| made < CHUNK_ATTEMPTS && EndsAfter(sha, late, start, off, chunk, made, res, now);
      var was :| Iterates(Retries(sha, late, off, chunk), start, made, was)
        && Attempts(sha, late, was, off, chunk, Finally(res), now);
      IteratesRetried(sha, late, start, spec, off, end, made, was);
      AttemptTried(sha, late, was, spec, off, end, Finally(res), now);
      if res.Done? && ReportsTrue(start, end) {
        DoneIsTrue(sha, late, start, off, chunk, made, now);
      }
      LastTried(sha, late, start, spec, off, end, made, was, res, now);
    }
  }

  /** The chunk is the data's, in an upload that is under way. */
  predicate ChunkOf(sha: Sha, w: Wire, spec: Spec, off: nat, chunk: Data) {
    Staging(sha, w, spec) && off + |chunk| <= |spec.data| && chunk == spec.data[off..off + |chunk|]
  }

  /** What that means for every upload whose chunk it is. */
  ghost predicate ChunkedAlways(sha: Sha, late: bool, was: Wire, off: nat, chunk: Data, res: ChunkEnd, now: Wire) {
    forall spec | ChunkOf(sha, was, spec, off, chunk) :: Chunked(sha, late, was, spec, off, off + |chunk|, res, now)
  }

  lemma RunChunkedOf(sha: Sha, late: bool, was: Wire, spec: Spec, off: nat, chunk: Data, res: ChunkEnd, now: Wire)
    requires ChunkOf(sha, was, spec, off, chunk) && ChunkRun(sha, late, was, off, chunk, res, now)
    ensures Chunked(sha, late, was, spec, off, off + |chunk|, res, now)
  {
    assert spec.data[off..off + |chunk|] == chunk;
    RunChunked(sha, late, was, spec, off, off + |chunk|, res, now);
  }

  lemma RunChunkedAlways(sha: Sha, late: bool, was: Wire, off: nat, chunk: Data, res: ChunkEnd, now: Wire)
    requires ChunkRun(sha, late, was, off, chunk, res, now)
    ensures ChunkedAlways(sha, late, was, off, chunk, res, now)
  {
    forall spec | ChunkOf(sha, was, spec, off, chunk)
      ensures Chunked(sha, late, was, spec, off, off + |chunk|, res, now)
    {
      RunChunkedOf(sha, late, was, spec, off, chunk, res, now);
    }
  }

  /** How an attempt ends shows in its last act. */
  predicate LastAct(acts: seq<Act>, off: nat, chunk: Data, a: Attempt) {
    acts != [] &&
    var last := acts[|acts| - 1];
    && (a == Finally(Done) <==> last == Accepted(Answer(DataWord, Okay)) || ShowsLanded(last, off + |chunk|))
    && (a == Finally(RefusedByPod) <==> last == Accepted(Answer(DataWord, Failed)))
    && (a == Finally(WriteFailed) || a == Finally(GaveUp) <==> last == Wrote(Frame(off, chunk)))
  }

  predicate AttemptActs(acts: seq<Act>, off: nat, chunk: Data, a: Attempt) {
    && FrameCount(acts) == 1 && NoBlindResend(acts) && IsFrame(acts[0]) && LastAct(acts, off, chunk, a)
    && (a.Again? ==> !IsFrame(acts[|acts| - 1]))
    && (forall i | 0 <= i < |acts| && acts[i].Wrote? :: acts[i].cmd == Frame(off, chunk) || acts[i].cmd == Status)
    && (forall i, j | 0 <= i < j < |acts| && ShowsLanded(acts[i], off + |chunk|) :: !acts[j].Wrote?)
    && (a.Again? ==> NoneShown(acts, off + |chunk|))
    && (forall i | 0 <= i < |acts| - 1 :: acts[i].Wrote?)
  }

  /** The acts of an attempt: the frame and its reply ... */
  lemma FrameActsAre(off: nat, chunk: Data, got: Option<Line>, a: Attempt)
    requires if got.Some? then got.value.Answer? && got.value.word == DataWord && a == AttemptOf(got.value.reply)
             else a == Finally(WriteFailed) || a == Finally(GaveUp)
    ensures AttemptActs(FrameActs(off, chunk, got), off, chunk, a)
  {
    var frame := Wrote(Frame(off, chunk));
    FrameCountExtend([], frame);
    assert [] + [frame] == [frame];
    if got.Some? {
      FrameCountExtend([frame], Accepted(got.value));
    } else {
      assert FrameActs(off, chunk, got) == [frame];
    }
  }

  lemma StatusSentActs(off: nat, chunk: Data)
    ensures AttemptActs([Wrote(Frame(off, chunk)), Wrote(Status)], off, chunk, Again)
  {
    var frame := Wrote(Frame(off, chunk));
    FrameActsAre(off, chunk, None, Finally(GaveUp));
    assert FrameActs(off, chunk, None) == [frame] && [frame, Wrote(Status)] == [frame] + [Wrote(Status)];
    FrameCountExtend([frame], Wrote(Status));
  }

  lemma StatusShownActs(off: nat, chunk: Data, n: nat)
    ensures AttemptActs([Wrote(Frame(off, chunk)), Wrote(Status), Accepted(StatusLine(n))], off, chunk,
                        AttemptFrom(Some(n), off + |chunk|))
  {
    var sent := [Wrote(Frame(off, chunk)), Wrote(Status)];
    StatusSentActs(off, chunk);
    FrameCountExtend(sent, Accepted(StatusLine(n)));
    assert sent + [Accepted(StatusLine(n))] == [Wrote(Frame(off, chunk)), Wrote(Status), Accepted(StatusLine(n))];
  }

  /** ... or the frame and a status query. */
  lemma StatusActsAre(off: nat, chunk: Data, n: Option<nat>)
    ensures AttemptActs(FrameActs(off, chunk, None) + StatusActs(n), off, chunk, AttemptFrom(n, off + |chunk|))
  {
    var acts, frame := FrameActs(off, chunk, None) + StatusActs(n), Wrote(Frame(off, chunk));
    if n.Some? {
      StatusShownActs(off, chunk, n.value);
      assert acts == [frame, Wrote(Status), Accepted(StatusLine(n.value))];
    } else {
      StatusSentActs(off, chunk);
      assert acts == [frame, Wrote(Status)];
    }
  }

  lemma {:induction false} FrameCountSum(a: seq<Act>, b: seq<Act>)
    ensures FrameCount(a + b) == FrameCount(a) + FrameCount(b)
  {
    if b == [] {
      assert a + b == a;
    } else {
      var front := b[..|b| - 1];
      FrameCountSum(a, front);
      assert a + b == (a + front) + [b[|b| - 1]] && b == front + [b[|b| - 1]];
      FrameCountExtend(a + front, b[|b| - 1]);
    }
  }

  /** The acts of the attempts so far, none of which settled the chunk. */
  predicate AttemptsActs(acts: seq<Act>, off: nat, chunk: Data, attempts: nat) {
    && (attempts > 0 ==> LastAct(acts, off, chunk, Again))
    && FrameCount(acts) == attempts && NoneShown(acts, off + |chunk|)
    && NoBlindResend(acts) && (acts != [] ==> !IsFrame(acts[|acts| - 1]))
    && (forall i | 0 <= i < |acts| - 1 && acts[i].Accepted? :: IsFrame(acts[i + 1]))
    && (forall i | 0 <= i < |acts| && acts[i].Wrote? :: acts[i].cmd == Frame(off, chunk) || acts[i].cmd == Status)
  }

  /** The acts of a whole chunk that ended so. */
  predicate Told(acts: seq<Act>, off: nat, chunk: Data, res: ChunkEnd) {
    && ChunkActs(acts, off, chunk) && LastAct(acts, off, chunk, if res.Exhausted? then Again else Finally(res))
    && (res.Exhausted? ==> FrameCount(acts) == 5)
  }

  lemma JoinedActs(acts: seq<Act>, more: seq<Act>, off: nat, chunk: Data, attempts: nat, a: Attempt)
    requires AttemptsActs(acts, off, chunk, attempts) && AttemptActs(more, off, chunk, a)
    ensures attempts < CHUNK_ATTEMPTS ==> ChunkActs(acts + more, off, chunk)
    ensures FrameCount(acts + more) == attempts + 1 && LastAct(acts + more, off, chunk, a)
  {
    FrameCountSum(acts, more);
  }

  lemma MoreActs(acts: seq<Act>, more: seq<Act>, off: nat, chunk: Data, attempts: nat)
    requires AttemptsActs(acts, off, chunk, attempts) && AttemptActs(more, off, chunk, Again)
    ensures AttemptsActs(acts + more, off, chunk, attempts + 1)
  {
    FrameCountSum(acts, more);
  }

  lemma OneMoreAttempt(acts: seq<Act>, more: seq<Act>, off: nat, chunk: Data, attempts: nat, a: Attempt)
    requires AttemptsActs(acts, off, chunk, attempts) && AttemptActs(more, off, chunk, a)
    ensures a.Again? ==> AttemptsActs(acts + more, off, chunk, attempts + 1)
    ensures a.Finally? && !a.result.Exhausted? && attempts < CHUNK_ATTEMPTS ==> Told(acts + more, off, chunk, a.result)
    ensures a.Again? && attempts + 1 == CHUNK_ATTEMPTS ==> Told(acts + more, off, chunk, Exhausted)
  {
    JoinedActs(acts, more, off, chunk, attempts, a);
    if a.Again? {
      MoreActs(acts, more, off, chunk, attempts);
    }
  }

  // ── begin, end and commit ──

  /** What sending a key command leaves; reply is None when the write fails or no reply comes. */
  ghost predicate KeySent(sha: Sha, late: bool, was: Wire, spec: Spec, c: Cmd, reply: Option<Reply>, now: Wire) {
    && (reply.Some? && IsOk(reply.value) ==> Effect(sha, c, now.pod, spec) && now.toPod == [] && Quiet(now))
    && (!c.Begin? && BeginFree(was) ==> BeginFree(now))
    && Later(was, now)
    && (if c.Commit? then SafeSlots(sha, was, now, spec) else Untouched(was, now))
    && (c.Commit? && reply.Some? && IsOk(reply.value) ==> now.commits == was.commits + 1)
    && (!late && Calm(was) && Undisturbed(now) && (c.End? ==> sha(was.pod.staged) == was.pod.digest) ==>
          && Calm(now) && (reply == Some(Resetting) ==> c.Commit?)
          && if reply.Some? && IsOk(reply.value) then now.pod == Executed(sha, was.pod, c) else now.faults > was.faults)
  }

  lemma KeySlots(sha: Sha, await: Await, was: Wire, spec: Spec, c: Cmd, es: seq<Event>)
    requires Clear(c, was) && Stands(sha, c, was, spec)
    ensures var m := Follow(sha, await, Sent(was, c), es);
            && (if c.Commit? then SafeSlots(sha, was, m, spec) else Untouched(was, m))
            && (c.Commit? && m.fromPod != [] && IsCommitOk(m.fromPod[0]) ==> m.commits == was.commits + 1)
  {
    if c.Commit? {
      FollowOneCommit(sha, await, Sent(was, c), es);
      assert SameDigest(sha, was.pod.staged, spec);
    } else {
      FollowUntouched(sha, await, Sent(was, c), es);
    }
  }

  lemma KeyCut(sha: Sha, late: bool, was: Wire, spec: Spec, c: Cmd, now: Wire)
    requires FailedWrite(was, c, now)
    ensures KeySent(sha, late, was, spec, c, None, now)
  {
  }

  lemma KeyReplied(sha: Sha, late: bool, was: Wire, spec: Spec, c: Cmd, es: seq<Event>, got: Option<Line>, now: Wire)
    requires Clear(c, was) && Stands(sha, c, was, spec)
    requires Ends(sha, late, ForReply(WordOf(c)), Sent(was, c), es, got, now)
    ensures KeySent(sha, late, was, spec, c, if got.Some? then Some(got.value.reply) else None, now)
  {
    Monotone(sha, ForReply(WordOf(c)), Sent(was, c), es);
    KeySlots(sha, ForReply(WordOf(c)), was, spec, c, es);
    if !c.Begin? && BeginFree(was) {
      BeginFreeKept(sha, ForReply(WordOf(c)), Sent(was, c), es);
    }
    if got.Some? && IsOk(got.value.reply) {
      OkMeansEffect(sha, late, c, spec, was, es, got.value, now);
    }
    if !late && Calm(was) && Undisturbed(now) && (c.End? ==> sha(was.pod.staged) == was.pod.digest) {
      CalmOk(sha, was, c, es, got, now);
    }
  }

  // ── the signed manifest ──

  /** What an exchange about the manifest leaves, before begin or after it. */
  ghost predicate SigKept(sha: Sha, was: Wire, now: Wire) {
    && (BeginFree(was) ==> BeginFree(now))
    && (forall spec | Staging(sha, was, spec) :: Staging(sha, now, spec))
    && Later(was, now)
    && Untouched(was, now)
  }

  lemma SigExchangeKept(sha: Sha, late: bool, await: Await, was: Wire, c: Cmd, es: seq<Event>, got: Option<Line>,
                        now: Wire)
    requires !IsKey(c) && Ends(sha, late, await, Sent(was, c), es, got, now)
    ensures SigKept(sha, was, now)
  {
    Monotone(sha, await, Sent(was, c), es);
    FollowUntouched(sha, await, Sent(was, c), es);
    if BeginFree(was) {
      BeginFreeKept(sha, await, Sent(was, c), es);
    }
    forall spec | Staging(sha, was, spec) ensures Staging(sha, now, spec) {
      StagingKept(sha, late, await, Sent(was, c), spec, es, got, now);
    }
  }

  lemma SigCutKept(sha: Sha, was: Wire, c: Cmd, now: Wire)
    requires !IsKey(c) && FailedWrite(was, c, now)
    ensures SigKept(sha, was, now)
  {
  }

  lemma SigKeptTrans(sha: Sha, a: Wire, b: Wire, c: Wire)
    requires SigKept(sha, a, b) && SigKept(sha, b, c)
    ensures SigKept(sha, a, c)
  {
  }

  /** On a calm console the bare upload-sig reads back what the pod made of the last begin's manifest. */
  ghost predicate Queried(sha: Sha, late: bool, was: Wire, res: Option<string>, now: Wire) {
    && SigKept(sha, was, now)
    && (!late && Calm(was) && Undisturbed(now) ==>
          && Calm(now) && now.pod == was.pod
          && match res
             case Some(text) => was.pod.sigAware && text == SigCheck(was.pod.manifest)
             case None => was.pod.sigAware ==> now.faults > was.faults)
  }

  lemma QueryReplied(sha: Sha, late: bool, was: Wire, es: seq<Event>, got: Option<Line>, now: Wire)
    requires Ends(sha, late, ForSig, Sent(was, SigQuery), es, got, now)
    ensures Queried(sha, late, was, if got.Some? && got.value.SigResult? then Some(got.value.result) else None, now)
  {
    SigExchangeKept(sha, late, ForSig, was, SigQuery, es, got, now);
    if !late && Calm(was) && Undisturbed(now) {
      CalmQuery(sha, ForSig, was, SigQuery, es, got, now);
    }
  }

  /** Only the collected manifest text differs. */
  predicate OnlySig(p: Pod, q: Pod) {
    q == p.(sig := q.sig)
  }

  /** What sending one part of the manifest, or clearing it, leaves. */
  ghost predicate SigSent(sha: Sha, late: bool, was: Wire, c: Cmd, ok: bool, now: Wire) {
    && SigKept(sha, was, now)
    && (!late && Calm(was) && Undisturbed(now) && was.pod.sigAware ==>
          && Calm(now) && OnlySig(was.pod, now.pod)
          && (ok ==> now.pod == SigAfter(was.pod, c))
          && (!ok ==> now.faults > was.faults))
  }

  lemma SigReplied(sha: Sha, late: bool, was: Wire, c: Cmd, es: seq<Event>, got: Option<Line>, now: Wire)
    requires (c.SigPart? && c.part <= 1) || c.SigClear?
    requires Ends(sha, late, ForReply(SigWord), Sent(was, c), es, got, now)
    ensures SigSent(sha, late, was, c, got.Some? && got.value.reply.Okay?, now)
  {
    SigExchangeKept(sha, late, ForReply(SigWord), was, c, es, got, now);
    if !late && Calm(was) && Undisturbed(now) && was.pod.sigAware {
      CalmOk(sha, was, c, es, got, now);
    }
  }

  /** What sendUploadSig leaves: the whole manifest, or nothing of it unless two commands met a fault. */
  ghost predicate ManifestSent(sha: Sha, late: bool, was: Wire, text: string, ok: bool, now: Wire) {
    && SigKept(sha, was, now)
    && (!late && Calm(was) && Undisturbed(now) && was.pod.sigAware ==>
          && Calm(now) && OnlySig(was.pod, now.pod)
          && (ok ==> now.pod.sig == text)
          && (!ok ==> now.faults > was.faults && (now.pod.sig == "" || now.faults >= was.faults + 2)))
  }

  /** The manifest did not get through. */
  ghost predicate PartFailed(sha: Sha, late: bool, was: Wire, now: Wire) {
    && SigKept(sha, was, now)
    && (!late && Calm(was) && Undisturbed(now) && was.pod.sigAware ==>
          Calm(now) && OnlySig(was.pod, now.pod) && now.faults > was.faults)
  }

  lemma FirstPartSent(sha: Sha, late: bool, was: Wire, part: string, now: Wire)
    requires SigSent(sha, late, was, SigPart(0, part), false, now)
    ensures PartFailed(sha, late, was, now)
  {
  }

  lemma PartsSent(sha: Sha, late: bool, was: Wire, text: string, half: nat, mid: Wire, ok: bool, now: Wire)
    requires half <= |text|
    requires SigSent(sha, late, was, SigPart(0, text[..half]), true, mid)
    requires SigSent(sha, late, mid, SigPart(1, text[half..]), ok, now)
    ensures ok ==> ManifestSent(sha, late, was, text, true, now)
    ensures !ok ==> PartFailed(sha, late, was, now)
  {
    SigKeptTrans(sha, was, mid, now);
    assert text[..half] + text[half..] == text;
  }

  lemma CutParts(sha: Sha, late: bool, was: Wire, text: string, now: Wire)
    requires PartFailed(sha, late, was, now) && now.cut
    ensures ManifestSent(sha, late, was, text, false, now)
  {
  }

  lemma ClearedAfter(sha: Sha, late: bool, was: Wire, text: string, mid: Wire, cleared: bool, now: Wire)
    requires PartFailed(sha, late, was, mid) && SigSent(sha, late, mid, SigClear, cleared, now)
    ensures ManifestSent(sha, late, was, text, false, now)
  {
    SigKeptTrans(sha, was, mid, now);
  }

  /** What asking whether the firmware takes upload-sig leaves, the answer remembered or new. */
  ghost predicate Probed(sha: Sha, late: bool, knows: bool, was: Wire, supported: bool, now: Wire) {
    && SigKept(sha, was, now)
    && (!late && knows && Calm(was) && Undisturbed(now) ==>
          Calm(now) && now.pod == was.pod && (supported ==> now.pod.sigAware))
  }

  lemma QueryProbed(sha: Sha, late: bool, was: Wire, res: Option<string>, now: Wire)
    requires Queried(sha, late, was, res, now)
    ensures Probed(sha, late, true, was, res.Some?, now)
  {
  }

  // ── what the client does, in order ──

  predicate NoCommit(acts: seq<Act>) {
    forall i | 0 <= i < |acts| :: acts[i] != Wrote(Commit)
  }

  /** Only lines about the manifest were written. */
  predicate OnlySigs(acts: seq<Act>) {
    forall i | 0 <= i < |acts| && acts[i].Wrote? ::
      acts[i].cmd.SigQuery? || acts[i].cmd.SigPart? || acts[i].cmd.SigClear?
  }

  const UPLOAD_CHUNK: nat := 512

  /** A frame carries one of the pieces the image is cut into: 512 bytes, or what is left at the end. */
  predicate IsPiece(c: Cmd, data: Data) {
    c.Frame? ==> c.off % 512 == 0 && c.off < |data| && c.bytes == data[c.off..Min(c.off + 512, |data|)]
  }

  predicate Pieces(acts: seq<Act>, data: Data) {
    forall i | 0 <= i < |acts| && acts[i].Wrote? :: IsPiece(acts[i].cmd, data)
  }

  lemma PiecesSum(a: seq<Act>, b: seq<Act>, data: Data)
    requires Pieces(a, data) && Pieces(b, data)
    ensures Pieces(a + b, data)
  {
  }

  lemma SigsArePieces(acts: seq<Act>, data: Data)
    requires OnlySigs(acts)
    ensures NoCommit(acts) && Pieces(acts, data)
  {
  }

  predicate AtPiece(off: nat, data: Data) {
    off <= |data| && (off % 512 == 0 || off == |data|)
  }

  /** One more piece of the image, sent as one chunk. */
  lemma OneMorePiece(acts: seq<Act>, more: seq<Act>, off: nat, end: nat, data: Data)
    requires NoCommit(acts) && Pieces(acts, data) && AtPiece(off, data) && off < |data|
    requires end == Min(off + 512, |data|) && ChunkActs(more, off, data[off..end])
    ensures NoCommit(acts + more) && Pieces(acts + more, data) && AtPiece(end, data)
  {
    assert IsPiece(Frame(off, data[off..end]), data);
    assert Pieces(more, data) && NoCommit(more);
    PiecesSum(acts, more, data);
  }

  predicate Rejected(a: Act, word: Word) {
    a.Accepted? && a.line.Answer? && a.line.word == word && a.line.reply != Okay
  }

  /** How an upload ended shows in the last thing the client did; the cases exclude each other. */
  predicate ToldByLast(acts: seq<Act>, begin: Cmd, res: UploadEnd) {
    if acts == [] then res.EmptyImage?
    else
      var last := acts[|acts| - 1];
      match res
      case EmptyImage => false
      case BeginFailed => last == Wrote(begin) || Rejected(last, BeginWord)
      case ChunkFailed(_) => last == Wrote(Abort)
      case EndFailed => last == Wrote(End) || Rejected(last, EndWord)
      case CommitFailed =>
        last == Wrote(Commit) || (Rejected(last, CommitWord) && last != Accepted(Answer(CommitWord, Resetting)))
      case Uploaded => last == Accepted(Answer(CommitWord, Okay)) || last == Accepted(Answer(CommitWord, Resetting))
  }

  /** A key command and its reply, if one comes. */
  function KeyActs(c: Cmd, reply: Option<Reply>): seq<Act> {
    [Wrote(c)] + if reply.Some? then [Accepted(Answer(WordOf(c), reply.value))] else []
  }

  lemma EndRejected(reply: Option<Reply>, begin: Cmd, data: Data)
    requires reply != Some(Okay)
    ensures EndActs(KeyActs(End, reply)) && ToldByLast(KeyActs(End, reply), begin, EndFailed)
    ensures Pieces(KeyActs(End, reply), data)
  {
  }

  lemma CommitAnswered(reply: Option<Reply>, begin: Cmd, data: Data)
    ensures var acts := KeyActs(End, Some(Okay)) + KeyActs(Commit, reply);
            && acts != [] && EndActs(acts) && Pieces(acts, data)
            && ToldByLast(acts, begin, if reply.Some? && IsOk(reply.value) then Uploaded else CommitFailed)
  {
    var acts := KeyActs(End, Some(Okay)) + KeyActs(Commit, reply);
    assert acts[..3] == [Wrote(End), Accepted(Answer(EndWord, Okay)), Wrote(Commit)];
    if reply.None? {
      assert acts == acts[..3];
    }
  }

  lemma ToldLater(before: seq<Act>, acts: seq<Act>, begin: Cmd, res: UploadEnd)
    requires acts != [] && ToldByLast(acts, begin, res)
    ensures ToldByLast(before + acts, begin, res)
  {
  }

  /** A commit is written only right after upload-end was answered ok, and no frame after it. */
  predicate CommitGuarded(acts: seq<Act>) {
    forall j | 0 <= j < |acts| && acts[j] == Wrote(Commit) ::
      && j >= 2 && acts[j - 1] == Accepted(Answer(EndWord, Okay)) && acts[j - 2] == Wrote(End)
      && forall k | j < k < |acts| :: !(acts[k].Wrote? && acts[k].cmd.Frame?)
  }

  /** The acts from upload-end on. */
  predicate EndActs(acts: seq<Act>) {
    || NoCommit(acts)
    || (|| acts == [Wrote(End), Accepted(Answer(EndWord, Okay)), Wrote(Commit)]
        || (&& |acts| == 4 && acts[3].Accepted?
            && acts[..3] == [Wrote(End), Accepted(Answer(EndWord, Okay)), Wrote(Commit)]))
  }

  lemma EndActsGuarded(before: seq<Act>, acts: seq<Act>)
    requires NoCommit(before) && EndActs(acts)
    ensures CommitGuarded(before + acts)
  {
    if !NoCommit(acts) {
      var all, n := before + acts, |before|;
      assert all[n] == acts[0] == acts[..3][0] && all[n + 1] == acts[1] == acts[..3][1]
        && all[n + 2] == acts[2] == acts[..3][2];
    }
  }

  lemma GuardedLater(before: seq<Act>, acts: seq<Act>)
    requires NoCommit(before) && CommitGuarded(acts)
    ensures CommitGuarded(before + acts)
  {
    var all, n := before + acts, |before|;
    forall j | 0 <= j < |all| && all[j] == Wrote(Commit)
      ensures j >= 2 && all[j - 1] == Accepted(Answer(EndWord, Okay)) && all[j - 2] == Wrote(End)
      ensures forall k | j < k < |all| :: !(all[k].Wrote? && all[k].cmd.Frame?)
    {
      assert acts[j - n] == Wrote(Commit);
      assert all[j - 1] == acts[j - 1 - n] && all[j - 2] == acts[j - 2 - n];
    }
  }

  lemma NoCommitGuarded(acts: seq<Act>)
    requires NoCommit(acts)
    ensures CommitGuarded(acts)
  {
  }

  /** The pod's check of a whole manifest. */
  lemma SigCheckOfManifest(manifest: Data)
    requires |manifest| == MANIFEST_LEN
    ensures SigCheck(Base64Url.Encode(manifest)) == "ok"
  {
    Base64Url.RoundTripUnpadded(manifest);
    assert Base64Url.Decode("") == Ok([]) || Base64Url.Decode("").Err?;
  }

  // ── the stages of UploadSigned ──

  /** What is done about the manifest before begin. knows: what the console remembers of upload-sig is right. */
  ghost predicate Prepared(sha: Sha, late: bool, knows: bool, was: Wire, text: string, sent: bool, now: Wire) {
    && SigKept(sha, was, now)
    && (!late && knows && Calm(was) && Undisturbed(now) ==>
          && Calm(now) && OnlySig(was.pod, now.pod)
          && (sent ==> now.pod.sigAware && now.pod.sig == text)
          && (!sent && was.pod.sig == "" ==> now.pod.sig == "" || now.faults >= was.faults + 2))
  }

  lemma NotSentPrepared(sha: Sha, late: bool, knows: bool, was: Wire, text: string, supported: bool, now: Wire)
    requires Probed(sha, late, knows, was, supported, now)
    ensures Prepared(sha, late, knows, was, text, false, now)
  {
  }

  lemma SentPrepared(sha: Sha, late: bool, knows: bool, was: Wire, mid: Wire, text: string, sent: bool, now: Wire)
    requires Probed(sha, late, knows, was, true, mid) && ManifestSent(sha, late, mid, text, sent, now)
    ensures Prepared(sha, late, knows, was, text, sent, now)
  {
    SigKeptTrans(sha, was, mid, now);
  }

  /** What the loop over the chunks leaves; why is None when all were done. */
  predicate Streamed(sha: Sha, late: bool, was: Wire, spec: Spec, done: nat, why: Option<ChunkEnd>, now: Wire) {
    && Staging(sha, now, spec) && done <= |spec.data|
    && Later(was, now)
    && Untouched(was, now)
    && (!late && Calm(was) && Undisturbed(now) && Prefix(was.pod, spec.data) ==>
          && Calm(now) && OnlyStaged(was.pod, now.pod) && Prefix(now.pod, spec.data)
          && match why
             case None => done <= now.pod.received
             case Some(Exhausted) => now.faults >= was.faults + CHUNK_ATTEMPTS
             case Some(RefusedByPod) => now.faults > was.faults && now.refused > was.refused
             case Some(_) => false)
  }

  lemma StreamedStep(sha: Sha, late: bool, start: Wire, spec: Spec, off: nat, end: nat, was: Wire, res: ChunkEnd,
                     now: Wire)
    requires off <= end <= |spec.data| && Streamed(sha, late, start, spec, off, None, was)
    requires Chunked(sha, late, was, spec, off, end, res, now)
    ensures Streamed(sha, late, start, spec, end, if res.Done? then None else Some(res), now)
  {
    if !late && Calm(start) && Undisturbed(now) && Prefix(start.pod, spec.data) {
      CalmLogs(was);
      assert ChunkInv(was, spec.data, off, end);
      ChunkInvReportsTrue(was, spec.data, off, end);
    }
  }

  /** One more chunk. */
  lemma RunStreamed(sha: Sha, late: bool, start: Wire, spec: Spec, off: nat, end: nat, was: Wire, res: ChunkEnd,
                    now: Wire)
    requires off <= end <= |spec.data| && Streamed(sha, late, start, spec, off, None, was)
    requires ChunkRun(sha, late, was, off, spec.data[off..end], res, now)
    ensures if res.Done? then Streamed(sha, late, start, spec, end, None, now)
            else Streamed(sha, late, start, spec, 0, Some(res), now)
  {
    RunChunked(sha, late, was, spec, off, end, res, now);
    StreamedStep(sha, late, start, spec, off, end, was, res, now);
  }

  datatype UploadEnd = Uploaded | EmptyImage | BeginFailed | ChunkFailed(why: ChunkEnd) | EndFailed | CommitFailed

  /** supported: the firmware takes upload-sig; sent: the manifest went before begin; result: the pod's check of it. */
  datatype SigReport = SigReport(supported: bool, sent: bool, result: Option<string>)

  /**
    What UploadSigned promises on every wire. What it says of the slots holds if no commit was in flight before;
    unless upload-begin failed, another upload can follow.
  */
  ghost predicate SafeUpload(sha: Sha, was: Wire, spec: Spec, res: UploadEnd, now: Wire) {
    && (res.Uploaded? ==> CommittedAs(sha, now.pod, spec) && Quiet(now))
    && (!res.BeginFailed? ==> BeginFree(now))
    && (NoCommits(was.toPod) ==>
          && SafeSlots(sha, was, now, spec) && (res.Uploaded? ==> now.commits == was.commits + 1)
          && (!res.Uploaded? && !res.CommitFailed? ==> now.commits == was.commits && NoCommits(now.toPod)))
  }

  /** What it promises on a calm, prompt console: no assumption about digests, and no failure without faults. */
  predicate CalmUpload(was: Wire, spec: Spec, text: string, rep: SigReport, res: UploadEnd, now: Wire) {
    match res
    case Uploaded =>
      && Calm(now)
      && now.pod.committed == was.pod.committed[spec.target := Image(spec.data, spec.version)]
      && (rep.sent ==> now.pod.manifest == text && (rep.result.Some? ==> rep.result == Some(SigCheck(text))))
      && (!rep.sent && was.pod.sigAware && was.pod.sig == "" && now.faults <= was.faults + 1 ==> now.pod.manifest == "")
    case EmptyImage => spec.data == []
    case ChunkFailed(Exhausted) => now.faults >= was.faults + CHUNK_ATTEMPTS
    case ChunkFailed(RefusedByPod) => now.faults > was.faults && now.refused > was.refused
    case ChunkFailed(_) => false
    case _ => now.faults > was.faults
  }

  ghost predicate UploadResult(sha: Sha, late: bool, knows: bool, was: Wire, spec: Spec, text: string, rep: SigReport,
                               res: UploadEnd, now: Wire) {
    && SafeUpload(sha, was, spec, res, now)
    && (!late && knows && Calm(was) && Undisturbed(now) ==> CalmUpload(was, spec, text, rep, res, now))
  }

  /** Everything up to the end of the chunk loop. */
  ghost predicate Loaded(sha: Sha, late: bool, knows: bool, was: Wire, spec: Spec, text: string, rep: SigReport,
                         now: Wire) {
    && Staging(sha, now, spec) && spec.data != []
    && Later(was, now) && Untouched(was, now)
    && (!late && knows && Calm(was) && Undisturbed(now) ==>
          && Calm(now) && now.pod.committed == was.pod.committed && now.pod.sigAware == was.pod.sigAware
          && Prefix(now.pod, spec.data)
          && (rep.sent ==> now.pod.manifest == text && (rep.result.Some? ==> rep.result == Some(SigCheck(text))))
          && (!rep.sent && was.pod.sigAware && was.pod.sig == "" ==>
                now.pod.manifest == "" || now.faults >= was.faults + 2))
  }

  lemma BeginLoads(sha: Sha, late: bool, knows: bool, was: Wire, spec: Spec, text: string, rep: SigReport,
                   s1: Wire, s2: Wire, reply: Option<Reply>)
    requires spec.data != [] && rep.result.None?
    requires Prepared(sha, late, knows, was, text, rep.sent, s1)
    requires KeySent(sha, late, s1, spec, BeginOf(sha, spec), reply, s2)
    ensures reply == Some(Okay) ==> Loaded(sha, late, knows, was, spec, text, rep, s2)
    ensures reply != Some(Okay) ==> UploadResult(sha, late, knows, was, spec, text, rep, BeginFailed, s2)
  {
  }

  lemma QueryLoads(sha: Sha, late: bool, knows: bool, was: Wire, spec: Spec, text: string, rep: SigReport,
                   s2: Wire, res: Option<string>, s3: Wire)
    requires Loaded(sha, late, knows, was, spec, text, rep, s2) && Queried(sha, late, s2, res, s3)
    ensures Loaded(sha, late, knows, was, spec, text, rep.(result := res), s3)
  {
  }

  lemma StreamLoads(sha: Sha, late: bool, knows: bool, was: Wire, spec: Spec, text: string, rep: SigReport,
                    s3: Wire, why: Option<ChunkEnd>, s4: Wire)
    requires Loaded(sha, late, knows, was, spec, text, rep, s3)
    requires Streamed(sha, late, s3, spec, if why.None? then |spec.data| else 0, why, s4)
    ensures Loaded(sha, late, knows, was, spec, text, rep, s4)
    ensures !late && knows && Calm(was) && Undisturbed(s4) && why.None? ==> s4.pod.staged == spec.data
    ensures why.Some? ==> UploadResult(sha, late, knows, was, spec, text, rep, ChunkFailed(why.value), s4)
  {
  }

  lemma AbortKeeps(sha: Sha, late: bool, knows: bool, was: Wire, spec: Spec, text: string, rep: SigReport,
                   why: ChunkEnd, s4: Wire, s5: Wire)
    requires UploadResult(sha, late, knows, was, spec, text, rep, ChunkFailed(why), s4)
    requires s5 == Sent(s4, Abort) || FailedWrite(s4, Abort, s5)
    ensures UploadResult(sha, late, knows, was, spec, text, rep, ChunkFailed(why), s5)
  {
  }

  lemma EndVerdict(sha: Sha, late: bool, knows: bool, was: Wire, spec: Spec, text: string, rep: SigReport,
                   s4: Wire, reply: Option<Reply>, s5: Wire)
    requires Loaded(sha, late, knows, was, spec, text, rep, s4)
    requires !late && knows && Calm(was) && Undisturbed(s4) ==> s4.pod.staged == spec.data
    requires KeySent(sha, late, s4, spec, End, reply, s5)
    ensures reply != Some(Okay) ==> UploadResult(sha, late, knows, was, spec, text, rep, EndFailed, s5)
    ensures reply == Some(Okay) ==>
              && Loaded(sha, late, knows, was, spec, text, rep, s5) && Checked(sha, s5.pod, spec) && s5.toPod == []
              && (!late && knows && Calm(was) && Undisturbed(s5) ==> s5.pod.staged == spec.data)
  {
  }

  lemma CommitVerdict(sha: Sha, late: bool, knows: bool, was: Wire, spec: Spec, text: string, rep: SigReport,
                      s5: Wire, reply: Option<Reply>, s6: Wire)
    requires Loaded(sha, late, knows, was, spec, text, rep, s5) && Checked(sha, s5.pod, spec)
    requires !late && knows && Calm(was) && Undisturbed(s5) ==> s5.pod.staged == spec.data
    requires KeySent(sha, late, s5, spec, Commit, reply, s6)
    ensures UploadResult(sha, late, knows, was, spec, text, rep,
                         if reply.Some? && IsOk(reply.value) then Uploaded else CommitFailed, s6)
  {
  }

  // ── when nothing goes wrong ──

  /** What an upload without a fault ends in; known: whether the console has asked before, and what it was told. */
  predicate SignedWell(known: Option<bool>, was: Wire, manifest: Data, rep: SigReport) {
    && (rep.sent <==> rep.supported)
    && (rep.supported <==> |manifest| == MANIFEST_LEN && if known.Some? then known.value else was.pod.sigAware)
  }

  lemma FaultFreeUploads(sha: Sha, late: bool, knows: bool, was: Wire, spec: Spec, text: string, rep: SigReport,
                         res: UploadEnd, now: Wire)
    requires UploadResult(sha, late, knows, was, spec, text, rep, res, now) && spec.data != []
    ensures FaultFree(late, was, now) && knows ==> res.Uploaded?
  {
  }

  lemma FaultFreeReport(sha: Sha, late: bool, knows: bool, was: Wire, spec: Spec, manifest: Data, asked: SigReport,
                        begun: Wire, rep: SigReport, now: Wire, known: Option<bool>)
    requires Loaded(sha, late, knows, was, spec, Base64Url.Encode(manifest), asked, begun)
    requires Later(begun, now)
    requires FaultFree(late, was, begun) && knows ==> SignedWell(known, was, manifest, asked)
    requires asked.result.None? && rep == asked.(result := rep.result) && (!asked.supported ==> rep == asked)
    requires FaultFree(late, begun, now) && asked.supported && begun.pod.sigAware ==>
               rep.result == Some(SigCheck(begun.pod.manifest))
    requires knows && known == Some(true) ==> was.pod.sigAware
    ensures FaultFree(late, was, now) && knows ==>
              SignedWell(known, was, manifest, rep) && rep.result == if rep.supported then Some("ok") else None
  {
    if |manifest| == MANIFEST_LEN {
      SigCheckOfManifest(manifest);
    }
  }
}
