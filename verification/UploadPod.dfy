/**
  The pod's side of a console upload and the wire to it (internal/serialconsole/upload_test.go:19-237, and
  the protocol as upload.go reads it): upload-begin, upload-data frames, upload-end, upload-commit, and
  the signed manifest sent before them.
*/
module UploadPod {
  import opened Bytes
  import opened Outcomes
  import opened Sequences
  import Base64Url

  const MANIFEST_LEN: nat := 128
  const FIRMWARE := "firmware"

  /** A console line or an upload-data frame with its bytes. */
  datatype Cmd =
    | Begin(target: string, size: nat, digest: Digest, version: int)
    | Frame(off: nat, bytes: Data)
    | End
    | Commit
    | Status
    | Abort
    | SigQuery
    | SigPart(part: nat, text: string)
    | SigClear

  datatype Word = BeginWord | DataWord | EndWord | CommitWord | AbortWord | StatusWord | SigWord

  datatype Reply = Okay | Resetting | Retry | BusyNow | Failed

  /** A whole line the pod prints; LogLine is an echo, a prompt or a log line. */
  datatype Line =
    | LogLine
    | Answer(word: Word, reply: Reply)
    | StatusLine(received: nat)
    | SigResult(result: string)
    | UnknownCommand

  datatype Stage = Idle | Receiving | Verified | Broken

  datatype Image = Image(bytes: Data, version: int)

  /**
    received: the staged high-water mark. sig: the manifest text collected for the next begin. manifest:
    the text the last begin took with it.
  */
  datatype Pod = Pod(
    target: string, digest: Digest, version: int,
    staged: Data, received: nat, stage: Stage,
    committed: map<string, Image>,
    sigAware: bool, sig: string, manifest: string)

  /** What becomes of one command. Every fate but Plain is a fault. */
  datatype Fate =
    | Plain
    | Mute       // executed, the reply is lost
    | Ignored    // never seen by the command interpreter
    | Corrupted  // a frame whose CRC does not match
    | Busy       // the receive ring is full
    | Refused

  // ── one command ──

  function Stored(staged: Data, off: nat, bytes: Data): (r: Data)
    requires off + |bytes| <= |staged|
    ensures |r| == |staged|
  {
    staged[..off] + bytes + staged[off + |bytes|..]
  }

  /**
    Storing the data's bytes inside or right behind a prefix of the data leaves a prefix that reaches as far as
    either.
  */
  lemma StoredPrefix(staged: Data, data: Data, received: nat, off: nat, end: nat)
    requires off <= received <= |data| == |staged| && off <= end <= |data| && staged[..received] == data[..received]
    ensures Stored(staged, off, data[off..end])[..Max(received, end)] == data[..Max(received, end)]
  {
    forall i | 0 <= i < Max(received, end) ensures Stored(staged, off, data[off..end])[i] == data[i] {
      if i < received {
        assert staged[i] == staged[..received][i] == data[..received][i];
      }
    }
  }

  function Max(a: nat, b: nat): nat {
    if a >= b then a else b
  }

  function BeginAfter(p: Pod, c: Cmd): Pod
    requires c.Begin?
  {
    p.(target := c.target, digest := c.digest, version := c.version,
       staged := seq(c.size, i => 0), received := 0, stage := Receiving,
       sig := if p.sigAware then "" else p.sig, manifest := if p.sigAware then p.sig else p.manifest)
  }

  function FrameAfter(p: Pod, c: Cmd): Pod
    requires c.Frame?
  {
    if c.off + |c.bytes| <= |p.staged| then
      p.(staged := Stored(p.staged, c.off, c.bytes), received := Max(p.received, c.off + |c.bytes|))
    else p
  }

  function CommitAfter(p: Pod): Pod {
    if p.stage == Verified then p.(committed := p.committed[p.target := Image(p.staged, p.version)]) else p
  }

  function SigAfter(p: Pod, c: Cmd): Pod {
    match c
    case SigPart(part, text) => if part == 0 then p.(sig := text) else if part == 1 then p.(sig := p.sig + text) else p
    case SigClear => p.(sig := "")
    case _ => p
  }

  function Executed(sha: Sha, p: Pod, c: Cmd): Pod {
    match c
    case Begin(_, _, _, _) => BeginAfter(p, c)
    case Frame(_, _) => FrameAfter(p, c)
    case End => p.(stage := if sha(p.staged) == p.digest then Verified else Broken)
    case Commit => CommitAfter(p)
    case Status => p
    case Abort => p.(stage := Idle)
    case _ => if p.sigAware then SigAfter(p, c) else p
  }

  function PodAfter(sha: Sha, p: Pod, c: Cmd, fate: Fate): Pod {
    if fate.Plain? || fate.Mute? then Executed(sha, p, c) else p
  }

  function WordOf(c: Cmd): Word {
    match c
    case Begin(_, _, _, _) => BeginWord
    case Frame(_, _) => DataWord
    case End => EndWord
    case Commit => CommitWord
    case Status => StatusWord
    case Abort => AbortWord
    case _ => SigWord
  }

  /** The word after "upload-sig result". */
  function SigCheck(manifest: string): string {
    if manifest == "" then "none"
    else
      var d := Base64Url.Decode(manifest);
      if d.Ok? && |d.value| == MANIFEST_LEN then "ok" else "format"
  }

  function PlainReply(sha: Sha, p: Pod, c: Cmd): Line {
    match c
    case Frame(off, bytes) => Answer(DataWord, if off + |bytes| <= |p.staged| then Okay else Failed)
    case End => Answer(EndWord, if sha(p.staged) == p.digest then Okay else Failed)
    case Commit =>
      Answer(CommitWord, if p.stage != Verified then Failed else if p.target == FIRMWARE then Resetting else Okay)
    case Status => StatusLine(p.received)
    case SigQuery => if p.sigAware then SigResult(SigCheck(p.manifest)) else UnknownCommand
    case SigPart(part, _) => if !p.sigAware then UnknownCommand else Answer(SigWord, if part <= 1 then Okay else Failed)
    case SigClear => if p.sigAware then Answer(SigWord, Okay) else UnknownCommand
    case _ => Answer(WordOf(c), Okay)
  }

  /** The reply lines: at most one. */
  function Says(sha: Sha, p: Pod, c: Cmd, fate: Fate): (lines: seq<Line>)
    ensures |lines| <= 1
    ensures forall i | 0 <= i < |lines| :: lines[i] != LogLine
  {
    match fate
    case Plain => [PlainReply(sha, p, c)]
    case Mute => []
    case Ignored => []
    case Corrupted => if c.Frame? then [Answer(DataWord, Retry)] else []
    case Busy => if c.Frame? then [Answer(DataWord, BusyNow)] else []
    case Refused => [Answer(WordOf(c), Failed)]
  }

  // ── the wire ──

  /**
    toPod: written and not yet taken by the pod, in order. fromPod: printed and not yet read. chatter: log
    lines the pod will still print. cut: a write has failed. faults: commands that had a fate other than Plain;
    refused: those of them the pod refused.
    commits: commits the pod has carried out.
  */
  datatype Wire = Wire(toPod: seq<Cmd>, fromPod: seq<Line>, pod: Pod, chatter: nat, cancelled: bool, cut: bool,
                       faults: nat, refused: nat, commits: nat)

  /** What a read loop waits for. */
  datatype Await = ForReply(word: Word) | ForStatus | ForSig

  predicate Wanted(await: Await, l: Line) {
    match await
    case ForReply(word) => l.Answer? && l.word == word
    case ForStatus => l.StatusLine?
    case ForSig => l.SigResult? || l.UnknownCommand?
  }

  /** One thing that happens while the client reads; Skips is the client dropping a line it does not want. */
  datatype Event = Executes(fate: Fate) | Prints | Cancels | Skips

  function Pop(w: Wire): Wire
    requires w.fromPod != []
  {
    w.(fromPod := w.fromPod[1..])
  }

  /** The pod carries out a commit: it executes the command, with a verified image. */
  predicate CarriesOut(p: Pod, c: Cmd, fate: Fate) {
    c.Commit? && (fate.Plain? || fate.Mute?) && p.stage == Verified
  }

  function Take(sha: Sha, w: Wire, fate: Fate): Wire
    requires w.toPod != []
  {
    w.(toPod := w.toPod[1..],
       pod := PodAfter(sha, w.pod, w.toPod[0], fate),
       fromPod := w.fromPod + Says(sha, w.pod, w.toPod[0], fate),
       faults := if fate.Plain? then w.faults else w.faults + 1,
       refused := if fate.Refused? then w.refused + 1 else w.refused,
       commits := if CarriesOut(w.pod, w.toPod[0], fate) then w.commits + 1 else w.commits)
  }

  function Happens(sha: Sha, await: Await, w: Wire, e: Event): Wire {
    match e
    case Executes(fate) => if w.toPod == [] then w else Take(sha, w, fate)
    case Prints => if w.chatter == 0 then w else w.(fromPod := w.fromPod + [LogLine], chatter := w.chatter - 1)
    case Cancels => w.(cancelled := true)
    case Skips => if w.fromPod != [] && !Wanted(await, w.fromPod[0]) then Pop(w) else w
  }

  function Follow(sha: Sha, await: Await, w: Wire, es: seq<Event>): Wire {
    if es == [] then w else Happens(sha, await, Follow(sha, await, w, es[..|es| - 1]), es[|es| - 1])
  }

  lemma FollowExtend(sha: Sha, await: Await, w: Wire, es: seq<Event>, e: Event)
    ensures Follow(sha, await, w, es + [e]) == Happens(sha, await, Follow(sha, await, w, es), e)
  {
    assert (es + [e])[..|es|] == es;
  }

  /** Induction over what happens while the client reads. */
  lemma {:induction false} FollowKeeps(inv: Wire -> bool, sha: Sha, await: Await, w: Wire, es: seq<Event>)
    requires inv(w)
    requires forall v, e :: inv(v) ==> inv(Happens(sha, await, v, e))
    ensures inv(Follow(sha, await, w, es))
  {
    if es != [] {
      FollowKeeps(inv, sha, await, w, es[..|es| - 1]);
    }
  }

  lemma Monotone(sha: Sha, await: Await, w: Wire, es: seq<Event>)
    ensures var m := Follow(sha, await, w, es);
            && m.faults >= w.faults && m.refused >= w.refused && m.pod.sigAware == w.pod.sigAware
            && m.cut == w.cut && (w.cancelled ==> m.cancelled)
  {
    var inv := (m: Wire) =>
      && m.faults >= w.faults && m.refused >= w.refused && m.pod.sigAware == w.pod.sigAware
      && m.cut == w.cut && (w.cancelled ==> m.cancelled);
    FollowKeeps(inv, sha, await, w, es);
  }

  predicate Drained(w: Wire) {
    w.toPod == [] && w.fromPod == []
  }

  /**
    How a wait ends after es: with the first wanted line, or by its deadline. On a prompt console (not late)
    the deadline only passes when no reply is on its way, or when the caller gives up.
  */
  predicate Ends(sha: Sha, late: bool, await: Await, w: Wire, es: seq<Event>, got: Option<Line>, after: Wire) {
    var m := Follow(sha, await, w, es);
    match got
    case Some(l) => m.fromPod != [] && m.fromPod[0] == l && Wanted(await, l) && after == Pop(m)
    case None => after == m && (late || m.cancelled || Drained(m))
  }

  function Sent(w: Wire, c: Cmd): Wire {
    w.(toPod := w.toPod + [c])
  }

  // ── a prompt console: one command, one fate ──

  function AnswerOf(l: Line): seq<Line> {
    if l == LogLine then [] else [l]
  }

  /** The lines that are not log lines. */
  function Answers(lines: seq<Line>): seq<Line> {
    if lines == [] then [] else AnswerOf(lines[0]) + Answers(lines[1..])
  }

  lemma {:induction false} AnswersIn(lines: seq<Line>)
    ensures forall l | l in lines && l != LogLine :: l in Answers(lines)
  {
    if lines != [] {
      AnswersIn(lines[1..]);
      assert lines == [lines[0]] + lines[1..];
    }
  }

  lemma {:induction false} AnswersOfSum(a: seq<Line>, b: seq<Line>)
    ensures Answers(a + b) == Answers(a) + Answers(b)
  {
    if a == [] {
      assert a + b == b;
    } else {
      AnswersOfSum(a[1..], b);
      assert (a + b)[1..] == a[1..] + b;
      Assoc(AnswerOf(a[0]), Answers(a[1..]), Answers(b));
    }
  }

  lemma {:induction false} AnswersOfReplies(a: seq<Line>)
    requires forall i | 0 <= i < |a| :: a[i] != LogLine
    ensures Answers(a) == a
  {
    if a != [] {
      AnswersOfReplies(a[1..]);
    }
  }

  /** Nothing is on its way in either direction but log lines. */
  predicate Calm(w: Wire) {
    w.toPod == [] && Answers(w.fromPod) == []
  }

  lemma CalmLogs(w: Wire)
    requires Calm(w)
    ensures forall i | 0 <= i < |w.fromPod| :: w.fromPod[i] == LogLine
  {
    AnswersIn(w.fromPod);
    forall i | 0 <= i < |w.fromPod| ensures w.fromPod[i] == LogLine {
      assert w.fromPod[i] in w.fromPod;
    }
  }

  /** Before the pod takes the one command in flight. */
  predicate Underway(w0: Wire, c: Cmd, w: Wire) {
    && w.toPod == [c] && Answers(w.fromPod) == [] && w.pod == w0.pod
    && w.faults == w0.faults && w.refused == w0.refused && w.commits == w0.commits
  }

  /** After it; the reply is still to be read, or was not one the client waits for. */
  predicate Dealt(sha: Sha, await: Await, w0: Wire, c: Cmd, fate: Fate, w: Wire) {
    && w.toPod == []
    && w.pod == PodAfter(sha, w0.pod, c, fate)
    && w.faults == (if fate.Plain? then w0.faults else w0.faults + 1)
    && w.refused == (if fate.Refused? then w0.refused + 1 else w0.refused)
    && w.commits == (if CarriesOut(w0.pod, c, fate) then w0.commits + 1 else w0.commits)
    && (|| Answers(w.fromPod) == Says(sha, w0.pod, c, fate)
        || (Answers(w.fromPod) == [] && forall l | l in Says(sha, w0.pod, c, fate) :: !Wanted(await, l)))
  }

  ghost predicate Solo(sha: Sha, await: Await, w0: Wire, c: Cmd, w: Wire) {
    Underway(w0, c, w) || exists fate :: Dealt(sha, await, w0, c, fate, w)
  }

  lemma DealtStep(sha: Sha, await: Await, w0: Wire, c: Cmd, fate: Fate, w: Wire, e: Event)
    requires Dealt(sha, await, w0, c, fate, w)
    ensures Dealt(sha, await, w0, c, fate, Happens(sha, await, w, e))
  {
    match e {
      case Prints => AnswersOfSum(w.fromPod, [LogLine]);
      case Skips => AnswersFirst(w.fromPod);
      case _ =>
    }
  }

  lemma AnswersFirst(lines: seq<Line>)
    ensures lines != [] ==> Answers(lines) == AnswerOf(lines[0]) + Answers(lines[1..])
  {
  }

  lemma UnderwayStep(sha: Sha, await: Await, w0: Wire, c: Cmd, w: Wire, e: Event)
    requires Underway(w0, c, w)
    ensures Solo(sha, await, w0, c, Happens(sha, await, w, e))
  {
    match e {
      case Prints => AnswersOfSum(w.fromPod, [LogLine]);
      case Executes(fate) =>
        AnswersOfSum(w.fromPod, Says(sha, w.pod, c, fate));
        AnswersOfReplies(Says(sha, w.pod, c, fate));
        assert Dealt(sha, await, w0, c, fate, Happens(sha, await, w, e));
      case _ =>
    }
  }

  lemma SoloStep(sha: Sha, await: Await, w0: Wire, c: Cmd, w: Wire, e: Event)
    requires Solo(sha, await, w0, c, w)
    ensures Solo(sha, await, w0, c, Happens(sha, await, w, e))
  {
    if Underway(w0, c, w) {
      UnderwayStep(sha, await, w0, c, w, e);
    } else {
      var fate :| Dealt(sha, await, w0, c, fate, w);
      DealtStep(sha, await, w0, c, fate, w, e);
    }
  }

  /** The one fate of a command sent on a calm, prompt console explains what the client then saw and left. */
  predicate Exchanged(sha: Sha, await: Await, w0: Wire, c: Cmd, fate: Fate, got: Option<Line>, after: Wire) {
    && Calm(after)
    && after.pod == PodAfter(sha, w0.pod, c, fate)
    && after.faults == (if fate.Plain? then w0.faults else w0.faults + 1)
    && after.refused == (if fate.Refused? then w0.refused + 1 else w0.refused)
    && after.commits == (if CarriesOut(w0.pod, c, fate) then w0.commits + 1 else w0.commits)
    && (got.Some? ==> Says(sha, w0.pod, c, fate) == [got.value])
    && (got.None? ==> forall l | l in Says(sha, w0.pod, c, fate) :: !Wanted(await, l))
  }

  lemma OneCommandOneFate(sha: Sha, await: Await, w0: Wire, c: Cmd, es: seq<Event>, got: Option<Line>, after: Wire)
    requires Calm(w0) && Ends(sha, false, await, Sent(w0, c), es, got, after)
    requires got.Some? || !after.cancelled
    ensures exists fate :: Exchanged(sha, await, w0, c, fate, got, after)
  {
    var inv := w => Solo(sha, await, w0, c, w);
    forall v, e | inv(v) ensures inv(Happens(sha, await, v, e)) {
      SoloStep(sha, await, w0, c, v, e);
    }
    FollowKeeps(inv, sha, await, Sent(w0, c), es);
    var m := Follow(sha, await, Sent(w0, c), es);
    var fate :| Dealt(sha, await, w0, c, fate, m);
    assert Exchanged(sha, await, w0, c, fate, got, after);
  }
}
