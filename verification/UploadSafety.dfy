/**
  What stays true on the wire during a console upload, whatever replies are lost or late and whatever
  commands the pod misses: the invariants behind UploadSigned and uploadChunk.
*/
module UploadSafety {
  import opened Bytes
  import opened Outcomes
  import opened Sequences
  import opened UploadPod

  datatype Spec = Spec(target: string, data: Data, version: int)

  function BeginOf(sha: Sha, spec: Spec): Cmd {
    Begin(spec.target, |spec.data|, sha(spec.data), spec.version)
  }

  /** The commands whose order makes an upload safe: upload-begin, upload-end and upload-commit. */
  predicate IsKey(c: Cmd) {
    c.Begin? || c.End? || c.Commit?
  }

  predicate NoKeys(cs: seq<Cmd>) {
    forall i | 0 <= i < |cs| :: !IsKey(cs[i])
  }

  predicate IsKeyAnswer(l: Line) {
    l.Answer? && (l.word.BeginWord? || l.word.EndWord? || l.word.CommitWord?)
  }

  predicate NoKeyAnswers(ls: seq<Line>) {
    forall i | 0 <= i < |ls| :: !IsKeyAnswer(ls[i])
  }

  /** No reply to an upload command is owed from before. */
  predicate Quiet(w: Wire) {
    NoKeys(w.toPod) && NoKeyAnswers(w.fromPod)
  }

  predicate NoBegins(cs: seq<Cmd>) {
    forall i | 0 <= i < |cs| :: !cs[i].Begin?
  }

  predicate IsBeginAnswer(l: Line) {
    l.Answer? && l.word.BeginWord?
  }

  /** No upload-begin is on its way, and no answer to one is still to be read. */
  predicate BeginFree(w: Wire) {
    NoBegins(w.toPod) && forall i | 0 <= i < |w.fromPod| :: !IsBeginAnswer(w.fromPod[i])
  }

  predicate Begun(sha: Sha, p: Pod, spec: Spec) {
    p.target == spec.target && p.digest == sha(spec.data) && p.version == spec.version && |p.staged| == |spec.data|
  }

  predicate Checked(sha: Sha, p: Pod, spec: Spec) {
    Begun(sha, p, spec) && p.stage == Verified && sha(p.staged) == sha(spec.data)
  }

  /** The pod committed an image of the data's length, digest and version for the target, namely what it had staged. */
  predicate CommittedAs(sha: Sha, p: Pod, spec: Spec) {
    && Checked(sha, p, spec)
    && spec.target in p.committed && p.committed[spec.target] == Image(p.staged, spec.version)
  }

  /** What an ok to a key command means. */
  predicate Effect(sha: Sha, c: Cmd, p: Pod, spec: Spec) {
    match c
    case Begin(_, _, _, _) => Begun(sha, p, spec)
    case End => Checked(sha, p, spec)
    case Commit => CommittedAs(sha, p, spec)
    case _ => true
  }

  /** What holds of the pod before a key command is written. */
  predicate Stands(sha: Sha, c: Cmd, w: Wire, spec: Spec) {
    match c
    case Begin(_, _, _, _) => c == BeginOf(sha, spec)
    case End => Begun(sha, w.pod, spec)
    case Commit => Checked(sha, w.pod, spec)
    case _ => false
  }

  /** The key command is in flight, behind what was written before it. */
  predicate Waiting(sha: Sha, c: Cmd, w: Wire, spec: Spec) {
    && w.toPod != [] && w.toPod[|w.toPod| - 1] == c
    && NoKeys(w.toPod[..|w.toPod| - 1]) && NoKeyAnswers(w.fromPod)
    && (c.Commit? ==> |w.toPod| == 1)
    && Stands(sha, c, w, spec)
  }

  predicate OneKeyAnswer(ls: seq<Line>) {
    forall i, j | 0 <= i < j < |ls| :: !(IsKeyAnswer(ls[i]) && IsKeyAnswer(ls[j]))
  }

  predicate IsOk(r: Reply) {
    r.Okay? || r.Resetting?
  }

  /** The pod has taken it; an ok on its way back means what it says. */
  predicate Settled(sha: Sha, c: Cmd, w: Wire, spec: Spec) {
    && w.toPod == [] && OneKeyAnswer(w.fromPod)
    && forall i | 0 <= i < |w.fromPod| && IsKeyAnswer(w.fromPod[i]) ::
         IsOk(w.fromPod[i].reply) ==> Effect(sha, c, w.pod, spec)
  }

  predicate KeyInv(sha: Sha, c: Cmd, w: Wire, spec: Spec) {
    Waiting(sha, c, w, spec) || Settled(sha, c, w, spec)
  }

  lemma WaitingStep(sha: Sha, await: Await, c: Cmd, w: Wire, spec: Spec, e: Event)
    requires Waiting(sha, c, w, spec) && (e.Executes? ==> |w.toPod| > 1)
    ensures Waiting(sha, c, Happens(sha, await, w, e), spec)
  {
    if e.Executes? {
      var x := w.toPod[0];
      assert x == w.toPod[..|w.toPod| - 1][0];
      ExecKeepsBegun(sha, w.pod, x, e.fate, spec);
      SaysNoKey(sha, w.pod, x, e.fate);
    }
  }

  lemma ExecKeepsBegun(sha: Sha, p: Pod, x: Cmd, fate: Fate, spec: Spec)
    requires !IsKey(x)
    ensures Begun(sha, p, spec) ==> Begun(sha, PodAfter(sha, p, x, fate), spec)
    ensures PodAfter(sha, p, x, fate).committed == p.committed
  {
  }

  lemma SaysNoKey(sha: Sha, p: Pod, x: Cmd, fate: Fate)
    requires !IsKey(x)
    ensures NoKeyAnswers(Says(sha, p, x, fate))
  {
  }

  /** The pod takes the key command. */
  lemma KeyTaken(sha: Sha, c: Cmd, w: Wire, spec: Spec, fate: Fate)
    requires Waiting(sha, c, w, spec) && |w.toPod| == 1
    ensures Settled(sha, c, Take(sha, w, fate), spec)
  {
    EffectOfOk(sha, w.pod, c, w, spec, fate);
  }

  lemma EffectOfOk(sha: Sha, p: Pod, c: Cmd, w: Wire, spec: Spec, fate: Fate)
    requires Stands(sha, c, w, spec) && p == w.pod
    ensures forall l | l in Says(sha, p, c, fate) && IsKeyAnswer(l) && IsOk(l.reply) ::
              Effect(sha, c, PodAfter(sha, p, c, fate), spec)
  {
  }

  lemma SettledStep(sha: Sha, await: Await, c: Cmd, w: Wire, spec: Spec, e: Event)
    requires Settled(sha, c, w, spec)
    ensures Settled(sha, c, Happens(sha, await, w, e), spec)
  {
  }

  lemma KeyStep(sha: Sha, await: Await, c: Cmd, w: Wire, spec: Spec, e: Event)
    requires KeyInv(sha, c, w, spec)
    ensures KeyInv(sha, c, Happens(sha, await, w, e), spec)
  {
    if Settled(sha, c, w, spec) {
      SettledStep(sha, await, c, w, spec, e);
    } else if e.Executes? && |w.toPod| == 1 {
      KeyTaken(sha, c, w, spec, e.fate);
    } else {
      WaitingStep(sha, await, c, w, spec, e);
    }
  }

  /** upload-begin is in flight, behind whatever was written before it. */
  predicate BeginWaiting(w: Wire, c: Cmd) {
    && w.toPod != [] && w.toPod[|w.toPod| - 1] == c
    && BeginFree(w.(toPod := w.toPod[..|w.toPod| - 1]))
  }

  predicate OnlyLogs(ls: seq<Line>) {
    forall i | 0 <= i < |ls| :: ls[i] == LogLine
  }

  /** The pod has taken it; an ok to it means what it says, and only log lines come after. */
  predicate BeginSettled(sha: Sha, w: Wire, spec: Spec) {
    && w.toPod == []
    && forall i | 0 <= i < |w.fromPod| && IsBeginAnswer(w.fromPod[i]) ::
         (IsOk(w.fromPod[i].reply) ==> Begun(sha, w.pod, spec)) && OnlyLogs(w.fromPod[i + 1..])
  }

  lemma SaysNoBegin(sha: Sha, p: Pod, x: Cmd, fate: Fate)
    requires !x.Begin?
    ensures forall l | l in Says(sha, p, x, fate) :: !IsBeginAnswer(l)
  {
  }

  lemma BeginFreeStep(sha: Sha, await: Await, w: Wire, e: Event)
    requires BeginFree(w)
    ensures BeginFree(Happens(sha, await, w, e))
  {
    if e.Executes? && w.toPod != [] {
      SaysNoBegin(sha, w.pod, w.toPod[0], e.fate);
    }
  }

  lemma BeginFreeKept(sha: Sha, await: Await, w: Wire, es: seq<Event>)
    requires BeginFree(w)
    ensures BeginFree(Follow(sha, await, w, es))
  {
    var inv := (v: Wire) => BeginFree(v);
    forall v, e | inv(v) ensures inv(Happens(sha, await, v, e)) {
      BeginFreeStep(sha, await, v, e);
    }
    FollowKeeps(inv, sha, await, w, es);
  }

  lemma BeginWaitingStep(sha: Sha, await: Await, w: Wire, spec: Spec, e: Event)
    requires BeginWaiting(w, BeginOf(sha, spec))
    ensures var v := Happens(sha, await, w, e); BeginWaiting(v, BeginOf(sha, spec)) || BeginSettled(sha, v, spec)
  {
    if e.Executes? && |w.toPod| > 1 {
      assert w.toPod[..|w.toPod| - 1][0] == w.toPod[0];
      SaysNoBegin(sha, w.pod, w.toPod[0], e.fate);
    }
  }

  lemma BeginSettledStep(sha: Sha, await: Await, w: Wire, spec: Spec, e: Event)
    requires BeginSettled(sha, w, spec)
    ensures BeginSettled(sha, Happens(sha, await, w, e), spec)
  {
    var v := Happens(sha, await, w, e);
    forall i | 0 <= i < |v.fromPod| && IsBeginAnswer(v.fromPod[i]) ensures OnlyLogs(v.fromPod[i + 1..]) {
      if v.fromPod == w.fromPod[1..] {
        assert v.fromPod[i] == w.fromPod[i + 1] && v.fromPod[i + 1..] == w.fromPod[i + 2..];
      } else {
        assert v.fromPod[i] == w.fromPod[i] && w.fromPod[i + 1..] <= v.fromPod[i + 1..];
      }
    }
  }

  /**
    Whatever else is still on the wire: an ok to upload-begin means that the pod has begun this upload, and
    leaves nothing on its way but log lines.
  */
  lemma OkToBegin(sha: Sha, late: bool, spec: Spec, w: Wire, es: seq<Event>, l: Line, after: Wire)
    requires BeginFree(w)
    requires Ends(sha, late, ForReply(BeginWord), Sent(w, BeginOf(sha, spec)), es, Some(l), after) && IsOk(l.reply)
    ensures Begun(sha, after.pod, spec) && after.toPod == [] && OnlyLogs(after.fromPod)
  {
    var c, await := BeginOf(sha, spec), ForReply(BeginWord);
    assert Sent(w, c).toPod[..|w.toPod|] == w.toPod;
    var inv := (v: Wire) => BeginWaiting(v, c) || BeginSettled(sha, v, spec);
    forall v, e | inv(v) ensures inv(Happens(sha, await, v, e)) {
      if BeginWaiting(v, c) {
        BeginWaitingStep(sha, await, v, spec, e);
      } else {
        BeginSettledStep(sha, await, v, spec, e);
      }
    }
    FollowKeeps(inv, sha, await, Sent(w, c), es);
    assert IsBeginAnswer(Follow(sha, await, Sent(w, c), es).fromPod[0]);
  }

  /** What must hold of the wire before a key command is written. */
  predicate Clear(c: Cmd, w: Wire) {
    if c.Begin? then BeginFree(w) else Quiet(w) && (c.Commit? ==> w.toPod == [])
  }

  /**
    An ok to a key command, read after everything else was settled, means what it says: the pod began,
    checked or committed this very upload. Nothing of it is then left on the wire.
  */
  lemma OkMeansEffect(sha: Sha, late: bool, c: Cmd, spec: Spec, w: Wire, es: seq<Event>, l: Line, after: Wire)
    requires Clear(c, w) && Stands(sha, c, w, spec)
    requires Ends(sha, late, ForReply(WordOf(c)), Sent(w, c), es, Some(l), after) && IsOk(l.reply)
    ensures Effect(sha, c, after.pod, spec) && after.toPod == [] && Quiet(after)
  {
    if c.Begin? {
      OkToBegin(sha, late, spec, w, es, l, after);
    } else {
      OkToEndOrCommit(sha, late, c, spec, w, es, l, after);
    }
  }

  lemma OkToEndOrCommit(sha: Sha, late: bool, c: Cmd, spec: Spec, w: Wire, es: seq<Event>, l: Line, after: Wire)
    requires Quiet(w) && Stands(sha, c, w, spec) && (c.Commit? ==> w.toPod == [])
    requires Ends(sha, late, ForReply(WordOf(c)), Sent(w, c), es, Some(l), after) && IsOk(l.reply)
    ensures Effect(sha, c, after.pod, spec) && after.toPod == [] && Quiet(after)
  {
    assert Sent(w, c).toPod[..|w.toPod|] == w.toPod;
    assert Waiting(sha, c, Sent(w, c), spec);
    var await := ForReply(WordOf(c));
    var inv := v => KeyInv(sha, c, v, spec);
    forall v, e | inv(v) ensures inv(Happens(sha, await, v, e)) {
      KeyStep(sha, await, c, v, spec, e);
    }
    FollowKeeps(inv, sha, await, Sent(w, c), es);
    var m := Follow(sha, await, Sent(w, c), es);
    assert IsKeyAnswer(m.fromPod[0]);
    assert Settled(sha, c, m, spec);
  }

  // ── between begin and end ──

  /** The upload is under way and nothing but frames and queries is on the wire. */
  predicate Staging(sha: Sha, w: Wire, spec: Spec) {
    Begun(sha, w.pod, spec) && Quiet(w)
  }

  lemma StagingStep(sha: Sha, await: Await, w: Wire, spec: Spec, e: Event)
    requires Staging(sha, w, spec)
    ensures Staging(sha, Happens(sha, await, w, e), spec)
  {
    if e.Executes? && w.toPod != [] {
      ExecKeepsBegun(sha, w.pod, w.toPod[0], e.fate, spec);
      SaysNoKey(sha, w.pod, w.toPod[0], e.fate);
    }
  }

  lemma StagingKept(sha: Sha, late: bool, await: Await, w: Wire, spec: Spec, es: seq<Event>, got: Option<Line>,
                    after: Wire)
    requires Staging(sha, w, spec) && Ends(sha, late, await, w, es, got, after)
    ensures Staging(sha, after, spec)
  {
    var inv := v => Staging(sha, v, spec);
    forall v, e | inv(v) ensures inv(Happens(sha, await, v, e)) {
      StagingStep(sha, await, v, spec, e);
    }
    FollowKeeps(inv, sha, await, w, es);
  }

  // ── the staged prefix ──

  /** The bytes up to the high-water mark are the data's. */
  predicate Prefix(p: Pod, data: Data) {
    p.received <= |p.staged| == |data| && p.staged[..p.received] == data[..p.received]
  }

  /**
    What the wire holds about one chunk is true: its frames are this chunk's, and an ok or a status says only what was
    received.
  */
  predicate Honest(w: Wire, data: Data, off: nat, end: nat) {
    && off <= end <= |data|
    && (forall i | 0 <= i < |w.toPod| :: w.toPod[i].Frame? ==> w.toPod[i] == Frame(off, data[off..end]))
    && (forall i | 0 <= i < |w.fromPod| :: w.fromPod[i] == Answer(DataWord, Okay) ==> end <= w.pod.received)
    && (forall i | 0 <= i < |w.fromPod| :: w.fromPod[i].StatusLine? ==> w.fromPod[i].received <= w.pod.received)
  }

  predicate ChunkInv(w: Wire, data: Data, off: nat, end: nat) {
    Quiet(w) && Prefix(w.pod, data) && off <= w.pod.received && Honest(w, data, off, end)
  }

  lemma FramePrefix(p: Pod, data: Data, off: nat, end: nat)
    requires Prefix(p, data) && off <= p.received && off <= end <= |data|
    ensures Prefix(FrameAfter(p, Frame(off, data[off..end])), data)
    ensures FrameAfter(p, Frame(off, data[off..end])).received == Max(p.received, end)
  {
    StoredPrefix(p.staged, data, p.received, off, end);
  }

  lemma ChunkPod(sha: Sha, p: Pod, data: Data, off: nat, end: nat, c: Cmd, fate: Fate)
    requires Prefix(p, data) && off <= p.received && off <= end <= |data|
    requires !IsKey(c) && (c.Frame? ==> c == Frame(off, data[off..end]))
    ensures var q := PodAfter(sha, p, c, fate);
            && Prefix(q, data) && p.received <= q.received
            && (forall l | l in Says(sha, p, c, fate) :: !IsKeyAnswer(l))
            && (forall l | l in Says(sha, p, c, fate) :: l == Answer(DataWord, Okay) ==> end <= q.received)
            && (forall l | l in Says(sha, p, c, fate) :: l.StatusLine? ==> l.received <= q.received)
  {
    SaysNoKey(sha, p, c, fate);
    if c.Frame? {
      FramePrefix(p, data, off, end);
    }
  }

  lemma ChunkStep(sha: Sha, await: Await, w: Wire, data: Data, off: nat, end: nat, e: Event)
    requires ChunkInv(w, data, off, end)
    ensures ChunkInv(Happens(sha, await, w, e), data, off, end)
  {
    if e.Executes? && w.toPod != [] {
      ChunkPod(sha, w.pod, data, off, end, w.toPod[0], e.fate);
    }
  }

  /**
    While one chunk is sent, resent and asked about, the staged prefix stays the data's and every ok or status about
    it is true.
  */
  lemma ChunkKept(sha: Sha, late: bool, await: Await, w: Wire, data: Data, off: nat, end: nat,
                  es: seq<Event>, got: Option<Line>, after: Wire)
    requires ChunkInv(w, data, off, end) && Ends(sha, late, await, w, es, got, after)
    ensures ChunkInv(after, data, off, end)
    ensures got == Some(Answer(DataWord, Okay)) ==> end <= after.pod.received
    ensures got.Some? && got.value.StatusLine? ==> got.value.received <= after.pod.received
  {
    var inv := v => ChunkInv(v, data, off, end);
    forall v, e | inv(v) ensures inv(Happens(sha, await, v, e)) {
      ChunkStep(sha, await, v, data, off, end, e);
    }
    FollowKeeps(inv, sha, await, w, es);
  }

  // ── what the pod has committed ──

  predicate NoCommits(cs: seq<Cmd>) {
    forall i | 0 <= i < |cs| :: cs[i] != Commit
  }

  /** Without a commit in flight the pod carries none out, and its slots stay as they are. */
  predicate Untouched(was: Wire, now: Wire) {
    NoCommits(was.toPod) ==>
      NoCommits(now.toPod) && now.pod.committed == was.pod.committed && now.commits == was.commits
  }

  lemma FollowUntouched(sha: Sha, await: Await, w: Wire, es: seq<Event>)
    ensures Untouched(w, Follow(sha, await, w, es))
  {
    FollowKeeps((m: Wire) => Untouched(w, m), sha, await, w, es);
  }

  predicate IsCommitOk(l: Line) {
    l.Answer? && l.word.CommitWord? && IsOk(l.reply)
  }

  /**
    A commit in flight alone, with no answer to one on its way, is carried out at most once, and answered ok only if
    it was.
  */
  predicate OneCommit(w0: Wire, w: Wire) {
    if w.commits == w0.commits then
      && (w.toPod == [Commit] || w.toPod == []) && w.pod == w0.pod
      && forall i | 0 <= i < |w.fromPod| :: !IsCommitOk(w.fromPod[i])
    else
      w.commits == w0.commits + 1 && w.toPod == [] && w0.pod.stage == Verified && w.pod == CommitAfter(w0.pod)
  }

  lemma OneCommitStep(sha: Sha, await: Await, w0: Wire, w: Wire, e: Event)
    requires OneCommit(w0, w)
    ensures OneCommit(w0, Happens(sha, await, w, e))
  {
  }

  lemma FollowOneCommit(sha: Sha, await: Await, w: Wire, es: seq<Event>)
    requires w.toPod == [Commit] && NoKeyAnswers(w.fromPod)
    ensures OneCommit(w, Follow(sha, await, w, es))
  {
    var inv := (m: Wire) => OneCommit(w, m);
    forall v, e | inv(v) ensures inv(Happens(sha, await, v, e)) {
      OneCommitStep(sha, await, w, v, e);
    }
    FollowKeeps(inv, sha, await, w, es);
  }

  /** The fate of the first command the pod takes. */
  function FirstFate(es: seq<Event>): Option<Fate> {
    if es == [] then None
    else
      var before, e := FirstFate(es[..|es| - 1]), es[|es| - 1];
      if before.None? && e.Executes? then Some(e.fate) else before
  }

  predicate TakesEffect(fate: Option<Fate>) {
    fate == Some(Plain) || fate == Some(Mute)
  }

  /**
    Whether the one commit in flight was carried out, on any console and however the wait for its reply ends: exactly
    when the pod executed it, answered or not.
  */
  lemma {:induction false} CarriedOutIff(sha: Sha, await: Await, w: Wire, es: seq<Event>)
    requires w.toPod == [Commit] && w.pod.stage == Verified
    ensures var m := Follow(sha, await, w, es);
            && (m.commits == w.commits + 1 <==> TakesEffect(FirstFate(es)))
            && (m.toPod == (if FirstFate(es).None? then [Commit] else []))
            && (FirstFate(es).None? ==> m.pod == w.pod)
            && m.commits <= w.commits + 1 && w.commits <= m.commits
  {
    if es != [] {
      CarriedOutIff(sha, await, w, es[..|es| - 1]);
    }
  }

  /**
    An upload that ends in an error with the image committed: even on a prompt console, when only the reply to the
    commit is lost.
  */
  lemma UnheardCommit(sha: Sha, w: Wire, spec: Spec) returns (after: Wire)
    requires Drained(w) && Checked(sha, w.pod, spec)
    ensures Ends(sha, false, ForReply(CommitWord), Sent(w, Commit), [Executes(Mute)], None, after)
    ensures CommittedAs(sha, after.pod, spec) && after.commits == w.commits + 1
  {
    var sent := Sent(w, Commit);
    after := Take(sha, sent, Mute);
    assert [Executes(Mute)] == [] + [Executes(Mute)];
    FollowExtend(sha, ForReply(CommitWord), sent, [], Executes(Mute));
  }

  /** ... and on a late one the image may be committed only after the upload has reported the error. */
  lemma CommitAfterTheError(sha: Sha, w: Wire, spec: Spec)
    requires Drained(w) && Checked(sha, w.pod, spec)
    ensures var given := Sent(w, Commit);
            && Ends(sha, true, ForReply(CommitWord), given, [], None, given) && given.commits == w.commits
            && var later := Follow(sha, ForReply(CommitWord), given, [Executes(Plain)]);
               CommittedAs(sha, later.pod, spec) && later.commits == w.commits + 1
  {
    assert [Executes(Plain)] == [] + [Executes(Plain)];
    FollowExtend(sha, ForReply(CommitWord), Sent(w, Commit), [], Executes(Plain));
  }

  /**
    One commit was carried out between the two, and with it the upload's slot holds an image of the right length and
    digest.
  */
  ghost predicate Recorded(sha: Sha, was: Wire, now: Wire, spec: Spec) {
    now.commits == was.commits + 1
    && exists x: Data ::
         now.pod.committed == was.pod.committed[spec.target := Image(x, spec.version)] && SameDigest(sha, x, spec)
  }

  /** The slots are as they were, and no commit was carried out; or one was, and the slots differ by no more than it. */
  ghost predicate SafeSlots(sha: Sha, was: Wire, now: Wire, spec: Spec) {
    (now.commits == was.commits && now.pod.committed == was.pod.committed) || Recorded(sha, was, now, spec)
  }

  predicate SameDigest(sha: Sha, x: Data, spec: Spec) {
    |x| == |spec.data| && sha(x) == sha(spec.data)
  }

  /** If no other image of that length has the data's digest, the committed image is the data. */
  lemma CommittedExactly(sha: Sha, p: Pod, spec: Spec)
    requires CommittedAs(sha, p, spec)
    requires forall x | SameDigest(sha, x, spec) :: x == spec.data
    ensures p.committed[spec.target] == Image(spec.data, spec.version)
  {
    assert SameDigest(sha, p.staged, spec);
  }

  // ── a reply owed from before ──

  /** The first answer to a frame among the lines still to be read. */
  function FirstAnswer(lines: seq<Line>): Option<Reply> {
    if lines == [] then None
    else if Wanted(ForReply(DataWord), lines[0]) then Some(lines[0].reply)
    else FirstAnswer(lines[1..])
  }

  lemma {:induction false} FirstAnswerOfSum(a: seq<Line>, b: seq<Line>)
    ensures FirstAnswer(a + b) == if FirstAnswer(a).Some? then FirstAnswer(a) else FirstAnswer(b)
  {
    if a == [] {
      assert a + b == b;
    } else {
      FirstAnswerOfSum(a[1..], b);
      assert (a + b)[1..] == a[1..] + b;
    }
  }

  /** A frame the pod would stage, and answer ok, that ends before the given offset. */
  predicate IsShort(c: Cmd, staged: nat, end: nat) {
    c.Frame? && c.off + |c.bytes| <= staged && c.off + |c.bytes| < end
  }

  predicate NoneShort(cs: seq<Cmd>, staged: nat, end: nat) {
    forall i | 0 <= i < |cs| :: !IsShort(cs[i], staged, end)
  }

  /**
    The next answer the client would take is an ok only if the pod has received up to end: it has, or the first
    answer to be read is not an ok and no frame still in flight can make a false one of it.
  */
  predicate NextIsTrue(end: nat, w: Wire) {
    || end <= w.pod.received
    || (&& FirstAnswer(w.fromPod) != Some(Okay)
        && (FirstAnswer(w.fromPod).None? ==> NoneShort(w.toPod, |w.pod.staged|, end)))
  }

  lemma ReceivedRises(sha: Sha, p: Pod, c: Cmd, fate: Fate)
    requires !c.Begin?
    ensures var q := PodAfter(sha, p, c, fate);
            && p.received <= q.received && |q.staged| == |p.staged|
            && (c.Frame? && Answer(DataWord, Okay) in Says(sha, p, c, fate) ==>
                  c.off + |c.bytes| <= |p.staged| && c.off + |c.bytes| <= q.received)
            && (!c.Frame? ==> FirstAnswer(Says(sha, p, c, fate)).None?)
  {
  }

  /** A line that reports the chunk ending at end as received. */
  predicate Reports(l: Line, end: nat) {
    l == Answer(DataWord, Okay) || (l.StatusLine? && end <= l.received)
  }

  predicate NoneReports(ls: seq<Line>, end: nat) {
    forall i | 0 <= i < |ls| :: !Reports(ls[i], end)
  }

  /**
    The pod has the chunk ending at end, or nothing on the wire can report it falsely: no line still to be read
    is an ok to a frame or a status that far, and every frame in flight that the pod would take ends at or beyond it.
  */
  predicate ReportsTrue(w: Wire, end: nat) {
    end <= w.pod.received || (NoneReports(w.fromPod, end) && NoneShort(w.toPod, |w.pod.staged|, end))
  }

  lemma ReportsTrueTake(sha: Sha, w: Wire, end: nat, fate: Fate)
    requires NoBegins(w.toPod) && w.toPod != [] && ReportsTrue(w, end)
    ensures ReportsTrue(Take(sha, w, fate), end)
  {
    ReceivedRises(sha, w.pod, w.toPod[0], fate);
  }

  lemma ReportsTrueStep(sha: Sha, await: Await, w: Wire, end: nat, e: Event)
    requires NoBegins(w.toPod) && ReportsTrue(w, end)
    ensures var v := Happens(sha, await, w, e); NoBegins(v.toPod) && ReportsTrue(v, end)
  {
    if e.Executes? && w.toPod != [] {
      ReportsTrueTake(sha, w, end, e.fate);
    }
  }

  /** On such a wire every wait keeps it so, and what it reads of the chunk is true. */
  lemma ReportsTrueKept(sha: Sha, late: bool, await: Await, w: Wire, end: nat, es: seq<Event>, got: Option<Line>,
                        after: Wire)
    requires NoBegins(w.toPod) && ReportsTrue(w, end) && Ends(sha, late, await, w, es, got, after)
    ensures NoBegins(after.toPod) && ReportsTrue(after, end)
    ensures got.Some? && Reports(got.value, end) ==> end <= after.pod.received
  {
    var inv := (v: Wire) => NoBegins(v.toPod) && ReportsTrue(v, end);
    forall v, e | inv(v) ensures inv(Happens(sha, await, v, e)) {
      ReportsTrueStep(sha, await, v, end, e);
    }
    FollowKeeps(inv, sha, await, w, es);
  }

  /** With nothing owed about another frame, nothing on the wire can report the chunk falsely. */
  lemma ChunkInvReportsTrue(w: Wire, data: Data, off: nat, end: nat)
    requires ChunkInv(w, data, off, end)
    ensures ReportsTrue(w, end)
  {
  }

  lemma FirstAnswerIn(ls: seq<Line>)
    requires |ls| <= 1
    ensures FirstAnswer(ls) == Some(Okay) <==> Answer(DataWord, Okay) in ls
  {
  }

  lemma NextIsTrueTake(sha: Sha, end: nat, w: Wire, fate: Fate)
    requires NoBegins(w.toPod) && w.toPod != [] && NextIsTrue(end, w)
    ensures NextIsTrue(end, Take(sha, w, fate))
  {
    var c := w.toPod[0];
    var says := Says(sha, w.pod, c, fate);
    ReceivedRises(sha, w.pod, c, fate);
    FirstAnswerOfSum(w.fromPod, says);
    FirstAnswerIn(says);
  }

  lemma NextIsTrueStep(sha: Sha, end: nat, w: Wire, e: Event)
    requires NoBegins(w.toPod) && NextIsTrue(end, w)
    ensures var v := Happens(sha, ForReply(DataWord), w, e); NoBegins(v.toPod) && NextIsTrue(end, v)
  {
    match e {
      case Executes(fate) =>
        if w.toPod != [] {
          NextIsTrueTake(sha, end, w, fate);
        }
      case Prints => FirstAnswerOfSum(w.fromPod, [LogLine]);
      case _ =>
    }
  }

  /** Nothing but skipping leads the client to the first answer. */
  lemma {:induction false} SkipToFirst(sha: Sha, w: Wire) returns (es: seq<Event>, after: Wire)
    requires FirstAnswer(w.fromPod).Some?
    ensures Ends(sha, true, ForReply(DataWord), w, es, Some(Answer(DataWord, FirstAnswer(w.fromPod).value)), after)
    ensures after.pod == w.pod
    decreases |w.fromPod|
  {
    if Wanted(ForReply(DataWord), w.fromPod[0]) {
      es, after := [], Pop(w);
    } else {
      var rest;
      rest, after := SkipToFirst(sha, Pop(w));
      es := [Skips] + rest;
      FollowPrepend(sha, ForReply(DataWord), w, Skips, rest);
    }
  }

  lemma {:induction false} FollowPrepend(sha: Sha, await: Await, w: Wire, e: Event, es: seq<Event>)
    ensures Follow(sha, await, w, [e] + es) == Follow(sha, await, Happens(sha, await, w, e), es)
  {
    if es == [] {
      assert [e] + es == [] + [e];
      FollowExtend(sha, await, w, [], e);
    } else {
      var front := es[..|es| - 1];
      FollowPrepend(sha, await, w, e, front);
      assert es == front + [es[|es| - 1]];
      Assoc([e], front, [es[|es| - 1]]);
      FollowExtend(sha, await, w, [e] + front, es[|es| - 1]);
    }
  }

  /** A short frame in flight makes a false ok: the pod misses what is before it and takes it. */
  lemma ShortFrameAnswered(sha: Sha, w: Wire, k: nat, end: nat) returns (es: seq<Event>, after: Wire)
    requires k < |w.toPod| && IsShort(w.toPod[k], |w.pod.staged|, end)
    requires FirstAnswer(w.fromPod).None? && w.pod.received < end
    ensures Ends(sha, true, ForReply(DataWord), w, es, Some(Answer(DataWord, Okay)), after) && after.pod.received < end
    decreases k
  {
    var fate := if k == 0 then Plain else Ignored;
    var v := Take(sha, w, fate);
    FirstAnswerOfSum(w.fromPod, Says(sha, w.pod, w.toPod[0], fate));
    var rest;
    if k == 0 {
      rest, after := SkipToFirst(sha, v);
    } else {
      assert v.fromPod == w.fromPod + [] == w.fromPod;
      rest, after := ShortFrameAnswered(sha, v, k - 1, end);
    }
    es := [Executes(fate)] + rest;
    FollowPrepend(sha, ForReply(DataWord), w, Executes(fate), rest);
  }

  /** Every ok that can be read after the chunk is sent comes with the pod having received up to its end. */
  ghost predicate OkIsTrue(sha: Sha, w: Wire, off: nat, bytes: Data) {
    forall es, after |
      Ends(sha, true, ForReply(DataWord), Sent(w, Frame(off, bytes)), es, Some(Answer(DataWord, Okay)), after) ::
      off + |bytes| <= after.pod.received
  }

  /**
    An ok is taken for the chunk just sent whatever frame it answers. Whatever is on the wire, in either
    direction, it is the truth in every run exactly when the pod has the chunk already, or the first answer still
    to be read, if any, is not an ok and, if there is none, every frame still in flight that the pod would take
    ends at or beyond the chunk's end.
  */
  lemma OkIsTrueIff(sha: Sha, w: Wire, off: nat, bytes: Data)
    requires NoBegins(w.toPod)
    ensures OkIsTrue(sha, w, off, bytes) <==> NextIsTrue(off + |bytes|, w)
  {
    var end, await := off + |bytes|, ForReply(DataWord);
    var sent := Sent(w, Frame(off, bytes));
    if NextIsTrue(end, w) {
      assert NextIsTrue(end, sent);
      forall es, after | Ends(sha, true, await, sent, es, Some(Answer(DataWord, Okay)), after)
        ensures end <= after.pod.received
      {
        var inv := (v: Wire) => NoBegins(v.toPod) && NextIsTrue(end, v);
        forall v, e | inv(v) ensures inv(Happens(sha, await, v, e)) {
          NextIsTrueStep(sha, end, v, e);
        }
        FollowKeeps(inv, sha, await, sent, es);
      }
    } else if FirstAnswer(w.fromPod) == Some(Okay) {
      var es, after := SkipToFirst(sha, sent);
    } else {
      var k :| 0 <= k < |w.toPod| && IsShort(w.toPod[k], |w.pod.staged|, end);
      var es, after := ShortFrameAnswered(sha, sent, k, end);
    }
  }

  /**
    How a failing wire comes about on a late console with nothing owed: no reply to a chunk, none to the status
    query, the chunk is resent, and the ok to its first copy is taken with the second still in flight. The chunk
    is done, truly; but the next one can be reported as done without having been received.
  */
  lemma ResentFrameMisleads(sha: Sha, w: Wire, off: nat, bytes: Data, next: Data) returns (es: seq<Event>, idle: Wire)
    requires Drained(w) && w.pod.received <= off && off + |bytes| + |next| <= |w.pod.staged| && next != []
    ensures var frame := Frame(off, bytes);
            var waited := Sent(w, frame);
            var asked := Sent(waited, Status);
            && Ends(sha, true, ForReply(DataWord), waited, [], None, waited)
            && Ends(sha, true, ForStatus, asked, [], None, asked)
            && Ends(sha, true, ForReply(DataWord), Sent(asked, frame), es, Some(Answer(DataWord, Okay)), idle)
    ensures idle.toPod == [Status, Frame(off, bytes)] && idle.pod.received == off + |bytes|
    ensures !OkIsTrue(sha, idle, off + |bytes|, next)
  {
    var frame := Frame(off, bytes);
    var asked := Sent(Sent(w, frame), Status);
    var resent := Sent(asked, frame);
    var v := Take(sha, resent, Plain);
    assert resent.toPod == [frame, Status, frame];
    es, idle := [Executes(Plain)], Pop(v);
    assert es == [] + [Executes(Plain)];
    FollowExtend(sha, ForReply(DataWord), resent, [], Executes(Plain));
    assert idle.toPod[1] == frame;
    OkIsTrueIff(sha, idle, off + |bytes|, next);
  }
}
