/**
  Uploading an image over the pod's network API (cmd/benchpod-cli/blobs_target.go): ota_begin, ota_data
  lines of at most 768 bytes, ota_end, ota_commit, and ota_abort when something fails on the way.
*/
module LanUpload {
  import opened Bytes
  import opened Outcomes
  import Base64Url
  import opened UploadPod

  const LAN_BLOB_CHUNK: nat := 768

  datatype Ota =
    | OtaBegin(size: nat, digest: Digest, target: string, version: int, sig: Option<string>)
    | OtaData(off: nat, text: string)
    | OtaEnd
    | OtaCommit
    | OtaAbort

  /** The pod's state names. */
  const RECEIVING := "receiving"
  const VERIFIED := "verified"
  const ERROR := "error"
  const INSTALLED := "installed"
  const IDLE := "idle"

  datatype LanPod = LanPod(target: string, digest: Digest, version: int, staged: Data, state: string,
                           slots: map<string, Image>)

  /** What becomes of one command. Every fate but Answered is a fault. */
  datatype Fate =
    | Answered(terse: bool)   // acted and answered; a terse reply leaves the state out, as a commit's may
    | RefusedBy               // an error reply, nothing done
    | NotDelivered            // an I/O failure before the pod acted: the session breaks
    | ReplyLost               // acted, then an I/O failure: the session breaks
    | Misanswered             // acted; the reply has another status or cannot be decoded
    | InstallFails            // a commit the pod could not carry out

  /** What the caller of lanSession.cmd gets; the state a reply carries, if it does. */
  datatype Reply = Fine(state: Option<string>) | PodError | IoError | BadReply

  /**
    The session, the pod, the requests put on the wire with what became of each, oldest first, and the commits the pod
    has carried out.
  */
  datatype Lan = Lan(broken: bool, pod: LanPod, sent: seq<Ota>, fates: seq<Fate>, faults: nat, commits: nat)

  function Written(p: LanPod, r: Ota): LanPod
    requires r.OtaData?
  {
    if r.off + |Piece(r)| <= |p.staged| then p.(staged := Stored(p.staged, r.off, Piece(r))) else p
  }

  function Acted(sha: Sha, p: LanPod, r: Ota): LanPod {
    match r
    case OtaBegin(size, digest, target, version, _) =>
      p.(target := target, digest := digest, version := version, staged := seq(size, i => 0), state := RECEIVING)
    case OtaData(_, _) => Written(p, r)
    case OtaEnd => p.(state := if sha(p.staged) == p.digest then VERIFIED else ERROR)
    case OtaCommit => p.(slots := p.slots[p.target := Image(p.staged, p.version)], state := INSTALLED)
    case OtaAbort => p.(state := IDLE)
  }

  /** The requests the pod answers with an error, without acting. */
  predicate Objects(p: LanPod, r: Ota) {
    match r
    case OtaData(off, text) => Base64Url.RawDecode(text).Err? || off + |Piece(r)| > |p.staged|
    case OtaCommit => p.state != VERIFIED
    case _ => false
  }

  function LanAfter(sha: Sha, p: LanPod, r: Ota, fate: Fate): LanPod {
    if Objects(p, r) || fate.RefusedBy? || fate.NotDelivered? then p
    else if fate.InstallFails? && r.OtaCommit? then p.(state := ERROR)
    else Acted(sha, p, r)
  }

  predicate Breaks(fate: Fate) {
    fate.NotDelivered? || fate.ReplyLost?
  }

  /** The pod carries out a commit: it has a verified image, does not refuse, and the install does not fail. */
  predicate CarriesOut(p: LanPod, r: Ota, fate: Fate) {
    r.OtaCommit? && !Objects(p, r) && !fate.RefusedBy? && !fate.NotDelivered? && !fate.InstallFails?
  }

  function Exchange(sha: Sha, s: Lan, r: Ota, fate: Fate): Lan {
    if s.broken then s
    else Lan(Breaks(fate), LanAfter(sha, s.pod, r, fate), s.sent + [r], s.fates + [fate],
             if fate.Answered? then s.faults else s.faults + 1,
             if CarriesOut(s.pod, r, fate) then s.commits + 1 else s.commits)
  }

  /** A reply that reports a failure always says so. */
  function ReplyTo(sha: Sha, s: Lan, r: Ota, fate: Fate): Reply {
    if s.broken || Breaks(fate) then IoError
    else if Objects(s.pod, r) || fate.RefusedBy? then PodError
    else if fate.Misanswered? then BadReply
    else
      var state := LanAfter(sha, s.pod, r, fate).state;
      if fate.Answered? && fate.terse && state != ERROR then Fine(None) else Fine(Some(state))
  }

  // ── the chunks ──

  /** The bytes an ota_data line carries; none if the text is bad. */
  function Piece(r: Ota): Data {
    if r.OtaData? && Base64Url.RawDecode(r.text).Ok? then Base64Url.RawDecode(r.text).value else []
  }

  lemma PieceOfEncoded(off: nat, bytes: Data)
    ensures Piece(OtaData(off, Base64Url.Encode(bytes))) == bytes
  {
    Base64Url.RawRoundTrip(bytes);
  }

  /** A piece of the image and where it goes. */
  datatype Chunk = Chunk(off: nat, bytes: Data)

  /** The ota_data lines that carry the chunks. */
  function Lines(chunks: seq<Chunk>): seq<Ota> {
    seq(|chunks|, i requires 0 <= i < |chunks| => OtaData(chunks[i].off, Base64Url.Encode(chunks[i].bytes)))
  }

  /** What chunks put together, when each is within the limit and goes where the one before ended. */
  function Rejoin(chunks: seq<Chunk>): Option<Data> {
    if chunks == [] then Some([])
    else
      var sofar, last := Rejoin(chunks[..|chunks| - 1]), chunks[|chunks| - 1];
      if sofar.Some? && last.off == |sofar.value| && 0 < |last.bytes| <= 768
      then Some(sofar.value + last.bytes)
      else None
  }

  lemma ChunkCovers(chunks: seq<Chunk>, data: Data, off: nat, end: nat)
    requires off < end <= |data| && end - off <= LAN_BLOB_CHUNK && Rejoin(chunks) == Some(data[..off])
    ensures Rejoin(chunks + [Chunk(off, data[off..end])]) == Some(data[..end])
    ensures Covers(chunks + [Chunk(off, data[off..end])], data, ChunkFailed(off, false))
  {
    assert data[..end] == data[..off] + data[off..end];
    assert (chunks + [Chunk(off, data[off..end])])[..|chunks|] == chunks;
  }

  lemma LinesExtend(chunks: seq<Chunk>, c: Chunk)
    ensures Lines(chunks + [c]) == Lines(chunks) + [OtaData(c.off, Base64Url.Encode(c.bytes))]
  {
  }

  datatype UploadEnd =
    | Installed
    | EmptyImage
    | BeginFailed
    | ChunkFailed(off: nat, aborts: bool)
    | EndFailed(aborts: bool)
    | NotVerified
    | CommitFailed

  /**
    The chunks sent: contiguous, disjoint, none empty or over the limit, together the data up to where the upload
    stopped.
  */
  predicate Covers(chunks: seq<Chunk>, data: Data, res: UploadEnd) {
    match res
    case EmptyImage => chunks == []
    case BeginFailed => chunks == []
    case ChunkFailed(off, _) =>
      && chunks != [] && chunks[|chunks| - 1].off == off <= |data|
      && Rejoin(chunks[..|chunks| - 1]) == Some(data[..off])
    case _ => Rejoin(chunks) == Some(data)
  }

  /** The lines after the chunks. */
  function LastLines(res: UploadEnd): seq<Ota> {
    match res
    case Installed => [OtaEnd, OtaCommit]
    case CommitFailed => [OtaEnd, OtaCommit]
    case NotVerified => [OtaEnd, OtaAbort]
    case EndFailed(aborts) => [OtaEnd] + if aborts then [OtaAbort] else []
    case ChunkFailed(_, aborts) => if aborts then [OtaAbort] else []
    case _ => []
  }

  /**
    What an upload leaves in the slots: the data when it was installed, nothing new when it stopped before the
    commit, and after a failed commit the data exactly when that commit's reply was lost or cannot be read.
  */
  predicate Leaves(was: Lan, target: string, data: Data, version: int, res: UploadEnd, now: Lan) {
    var committed := res.Installed? || (res.CommitFailed? && now.fates != [] && Unheard(now.fates[|now.fates| - 1]));
    && now.pod.slots == (if committed then was.pod.slots[target := Image(data, version)] else was.pod.slots)
    && now.commits == (if committed then was.commits + 1 else was.commits)
    && (res.CommitFailed? ==> now.fates != [])
  }

  /** A line whose reply the client takes as no failure; what would fail a commit does no harm to another line. */
  predicate Passes(fate: Fate) {
    fate.Answered? || fate.InstallFails?
  }

  predicate AllPass(fates: seq<Fate>, from: nat, to: nat) {
    to <= |fates| && forall i | from <= i < to :: Passes(fates[i])
  }

  /**
    How the fates of an upload's lines decide its end; the n-th is that of ota_begin, then come so many chunks,
    ota_end and the commit, or an abort whose fate does not matter. A pod that leaves the state out of its reply to
    ota_end is taken for one that did not verify.
  */
  predicate DecidedBy(fates: seq<Fate>, n: nat, chunks: nat, res: UploadEnd) {
    match res
    case EmptyImage => |fates| == n
    case BeginFailed => |fates| == n + 1 && !Passes(fates[n])
    case ChunkFailed(_, _) => chunks > 0 && AllPass(fates, n, n + chunks) && PassedOver(fates, n + chunks)
    case EndFailed(_) => AllPass(fates, n, n + chunks + 1) && PassedOver(fates, n + chunks + 1)
    case NotVerified =>
      AllPass(fates, n, n + chunks + 1) && n + chunks + 1 < |fates| && fates[n + chunks + 1] == Answered(true)
    case CommitFailed => Committing(fates, n, chunks) && !fates[n + chunks + 2].Answered?
    case Installed => Committing(fates, n, chunks) && fates[n + chunks + 2].Answered?
  }

  /** How many lines were not simply answered. */
  function Odd(fates: seq<Fate>): nat {
    if fates == [] then 0 else Odd(fates[..|fates| - 1]) + if fates[|fates| - 1] == Answered(false) then 0 else 1
  }

  lemma {:induction false} OddGrows(was: seq<Fate>, now: seq<Fate>)
    requires was <= now
    ensures Odd(was) <= Odd(now)
    ensures Odd(was) == Odd(now) ==> forall i | |was| <= i < |now| :: now[i] == Answered(false)
  {
    if |was| < |now| {
      OddGrows(was, now[..|now| - 1]);
    } else {
      assert was == now;
    }
  }

  /** An upload all of whose lines are answered installs. */
  lemma AnsweredInstalls(was: seq<Fate>, now: seq<Fate>, chunks: nat, res: UploadEnd)
    requires was <= now && DecidedBy(now, |was|, chunks, res) && Odd(was) == Odd(now)
    ensures res.Installed? || res.EmptyImage?
  {
    OddGrows(was, now);
  }

  predicate PassedOver(fates: seq<Fate>, i: nat) {
    i < |fates| && !Passes(fates[i])
  }

  /** Everything before the commit went through. */
  predicate Committing(fates: seq<Fate>, n: nat, chunks: nat) {
    |fates| == n + chunks + 3 && AllPass(fates, n, n + chunks + 2) && fates[n + chunks + 1] != Answered(true)
  }

  /** The fates of so many chunks: all passed, but for the last if the loop failed. */
  predicate ChunkFates(was: seq<Fate>, now: seq<Fate>, chunks: nat, failed: bool) {
    && was <= now && |now| == |was| + chunks
    && (if failed then chunks > 0 && AllPass(now, |was|, |was| + chunks - 1) && PassedOver(now, |was| + chunks - 1)
        else AllPass(now, |was|, |was| + chunks))
  }

  /** The fates of ota_end and what follows; state: what the pod reported last. */
  predicate EndFates(was: seq<Fate>, now: seq<Fate>, state: string, res: UploadEnd) {
    var n := |was|;
    && was <= now && n < |now| && (res.EndFailed? <==> !Passes(now[n]))
    && (res.NotVerified? <==> now[n] == Answered(true) && state != VERIFIED)
    && (res.CommitFailed? ==> |now| == n + 2 && !now[n + 1].Answered?)
    && (res.Installed? ==> |now| == n + 2 && now[n + 1].Answered?)
  }

  lemma ChunksDecide(f0: seq<Fate>, f1: seq<Fate>, f2: seq<Fate>, f3: seq<Fate>, chunks: nat, off: nat, aborts: bool)
    requires ChunkFates(f0, f1, 1, false) && ChunkFates(f1, f2, chunks, true) && f2 <= f3
    ensures DecidedBy(f3, |f0|, chunks, ChunkFailed(off, aborts))
  {
    assert forall i | 0 <= i < |f1| :: f2[i] == f1[i];
    assert forall i | 0 <= i < |f2| :: f3[i] == f2[i];
  }

  lemma EndDecides(f0: seq<Fate>, f1: seq<Fate>, f2: seq<Fate>, f3: seq<Fate>, chunks: nat, state: string,
                   res: UploadEnd)
    requires ChunkFates(f0, f1, 1, false) && ChunkFates(f1, f2, chunks, false)
    requires EndFates(f2, f3, state, res) && state != VERIFIED
    requires res.Installed? || res.CommitFailed? || res.EndFailed? || res.NotVerified?
    ensures DecidedBy(f3, |f0|, chunks, res)
  {
    assert forall i | 0 <= i < |f1| :: f2[i] == f1[i];
    assert forall i | 0 <= i < |f2| :: f3[i] == f2[i];
  }

  // ── what a healthy exchange shows ──

  /** The pod has begun this upload and staged the data up to off. */
  predicate Staged(sha: Sha, p: LanPod, target: string, data: Data, version: int, off: nat) {
    && p.target == target && p.digest == sha(data) && p.version == version
    && off <= |data| == |p.staged| && p.staged[..off] == data[..off]
  }

  lemma BeginStages(sha: Sha, s: Lan, target: string, data: Data, version: int, sig: Option<string>, fate: Fate)
    ensures var r := OtaBegin(|data|, sha(data), target, version, sig);
            var after := Exchange(sha, s, r, fate);
            && (ReplyTo(sha, s, r, fate).Fine? ==> Staged(sha, after.pod, target, data, version, 0))
            && after.pod.slots == s.pod.slots && after.commits == s.commits
            && (!ReplyTo(sha, s, r, fate).Fine? ==> s.broken || after.faults > s.faults)
            && (!s.broken ==> (ReplyTo(sha, s, r, fate).Fine? <==> Passes(fate)) && after.fates == s.fates + [fate])
            && (ReplyTo(sha, s, r, fate).Fine? ==> ReplyTo(sha, s, r, fate).state != Some(VERIFIED))
  {
  }

  lemma DataStages(sha: Sha, s: Lan, target: string, data: Data, version: int, off: nat, end: nat, line: Ota,
                   fate: Fate)
    requires off < end <= |data| && Staged(sha, s.pod, target, data, version, off) && !s.broken
    requires line.OtaData? && line.off == off && Piece(line) == data[off..end]
    ensures var after := Exchange(sha, s, line, fate);
            && (ReplyTo(sha, s, line, fate).Fine? ==>
                  Staged(sha, after.pod, target, data, version, end) && !after.broken)
            && after.pod.slots == s.pod.slots && after.commits == s.commits
            && after.sent == s.sent + [line] && s.faults <= after.faults
            && (!ReplyTo(sha, s, line, fate).Fine? ==> after.faults > s.faults)
            && (ReplyTo(sha, s, line, fate).Fine? <==> Passes(fate)) && after.fates == s.fates + [fate]
  {
    StoredPrefix(s.pod.staged, data, off, off, end);
  }

  lemma EndVerifies(sha: Sha, s: Lan, target: string, data: Data, version: int, fate: Fate)
    requires Staged(sha, s.pod, target, data, version, |data|) && !s.broken
    ensures var after := Exchange(sha, s, OtaEnd, fate);
            && after.pod.slots == s.pod.slots && after.commits == s.commits
            && (ReplyTo(sha, s, OtaEnd, fate).Fine? ==> after.pod == s.pod.(state := VERIFIED) && !after.broken)
            && (ReplyTo(sha, s, OtaEnd, fate).Fine? <==> Passes(fate)) && after.fates == s.fates + [fate]
            && (ReplyTo(sha, s, OtaEnd, fate) == Fine(None) <==> fate == Answered(true))
            && (ReplyTo(sha, s, OtaEnd, fate) != Fine(Some(VERIFIED)) && fate != Answered(true) ==>
                  after.faults > s.faults)
  {
    assert s.pod.staged == data;
  }

  /** The commit was carried out although its reply did not arrive, or not in a form the client can read. */
  predicate Unheard(fate: Fate) {
    fate.ReplyLost? || fate.Misanswered?
  }

  /**
    An accepted commit installs the data itself; one that is not accepted installs it exactly when its reply was lost
    or cannot be read.
  */
  lemma CommitInstalls(sha: Sha, s: Lan, target: string, data: Data, version: int, fate: Fate)
    requires Staged(sha, s.pod, target, data, version, |data|) && s.pod.state == VERIFIED && !s.broken
    ensures var after, answer := Exchange(sha, s, OtaCommit, fate), ReplyTo(sha, s, OtaCommit, fate);
            var installed := s.pod.slots[target := Image(data, version)];
            && (answer.Fine? && answer.state != Some(ERROR) ==> after.pod.slots == installed)
            && (answer.Fine? && answer.state != Some(ERROR) ==> after.commits == s.commits + 1)
            && (!answer.Fine? || answer.state == Some(ERROR) ==>
                  && after.faults > s.faults
                  && (after.commits == s.commits + 1 <==> Unheard(fate))
                  && (after.commits == s.commits <==> !Unheard(fate))
                  && after.pod.slots == if Unheard(fate) then installed else s.pod.slots)
            && (answer.Fine? && answer.state != Some(ERROR) <==> fate.Answered?)
            && after.fates == s.fates + [fate]
  {
    assert s.pod.staged == data;
  }

  /**
    An upload of one chunk that ends in an error with the image installed: everything is answered but the
    commit, whose reply is lost.
  */
  lemma UnheardRun(sha: Sha, s: Lan, target: string, data: Data, version: int, sig: Option<string>)
    returns (verified: Lan, after: Lan)
    requires !s.broken && 0 < |data| <= LAN_BLOB_CHUNK
    ensures var begin, line := OtaBegin(|data|, sha(data), target, version, sig), OtaData(0, Base64Url.Encode(data));
            var begun := Exchange(sha, s, begin, Answered(false));
            var staged := Exchange(sha, begun, line, Answered(false));
            && ReplyTo(sha, s, begin, Answered(false)).Fine? && ReplyTo(sha, begun, line, Answered(false)).Fine?
            && ReplyTo(sha, staged, OtaEnd, Answered(false)) == Fine(Some(VERIFIED))
            && verified == Exchange(sha, staged, OtaEnd, Answered(false))
    ensures ReplyTo(sha, verified, OtaCommit, ReplyLost) == IoError
    ensures after == Exchange(sha, verified, OtaCommit, ReplyLost)
    ensures after.pod.slots == s.pod.slots[target := Image(data, version)]
  {
    var begin, line := OtaBegin(|data|, sha(data), target, version, sig), OtaData(0, Base64Url.Encode(data));
    var begun := Exchange(sha, s, begin, Answered(false));
    var staged := Exchange(sha, begun, line, Answered(false));
    assert data[0..|data|] == data;
    BeginStages(sha, s, target, data, version, sig, Answered(false));
    PieceOfEncoded(0, data);
    DataStages(sha, begun, target, data, version, 0, |data|, line, Answered(false));
    assert staged.pod.staged == data;
    verified := Exchange(sha, staged, OtaEnd, Answered(false));
    EndVerifies(sha, staged, target, data, version, Answered(false));
    after := Exchange(sha, verified, OtaCommit, ReplyLost);
    CommitInstalls(sha, verified, target, data, version, ReplyLost);
  }

  /** The upload's last line was a commit whose reply was lost or cannot be read. */
  predicate CommitUnheard(was: Lan, now: Lan) {
    |was.sent| < |now.sent| && now.sent[|now.sent| - 1] == OtaCommit && now.fates != []
      && Unheard(now.fates[|now.fates| - 1])
  }

  /** An upload ends in a commit exactly when it was installed or its commit failed. */
  lemma EndsInCommit(was: seq<Ota>, begin: seq<Ota>, chunks: seq<Chunk>, res: UploadEnd, now: seq<Ota>)
    requires now == was + begin + Lines(chunks) + LastLines(res)
    requires forall i | 0 <= i < |begin| :: begin[i].OtaBegin?
    ensures |was| < |now| && now[|now| - 1] == OtaCommit <==> res.Installed? || res.CommitFailed?
  {
    var last := LastLines(res);
    if last != [] {
      assert now[|now| - 1] == last[|last| - 1];
    } else if chunks != [] {
      assert now == was + begin + Lines(chunks) && now[|now| - 1] == Lines(chunks)[|chunks| - 1];
    } else if begin != [] {
      assert now == was + begin && now[|now| - 1] == begin[|begin| - 1];
    } else {
      assert now == was;
    }
  }

  // ── the code ──

  class LanBlobs {
    var s: Lan
    const sha: Sha

    constructor (sha: Sha, s: Lan)
      ensures this.sha == sha && this.s == s
    {
      this.sha, this.s := sha, s;
    }

    /** lanSession.cmd. */
    method Cmd(r: Ota) returns (reply: Reply, ghost fate: Fate)
      modifies this
      ensures s == Exchange(sha, old(s), r, fate) && reply == ReplyTo(sha, old(s), r, fate)
    {
      var f: Fate := *;
      reply, fate := ReplyTo(sha, s, r, f), f;
      s := Exchange(sha, s, r, f);
    }

    method Abort() returns (aborts: bool)
      modifies this
      ensures aborts == !old(s).broken && s.pod.slots == old(s).pod.slots && s.commits == old(s).commits
      ensures s.faults >= old(s).faults
      ensures !aborts ==> s.broken
      ensures old(s).fates <= s.fates
      ensures s.sent == old(s).sent + if aborts then [OtaAbort] else []
    {
      aborts := !s.broken;
      if aborts {
        var _, fate := Cmd(OtaAbort);
      }
    }

    /** The loop over the chunks. */
    method SendChunks(target: string, data: Data, version: int) returns (failed: Option<nat>, ghost chunks: seq<Chunk>)
      requires !s.broken && Staged(sha, s.pod, target, data, version, 0)
      modifies this
      ensures s.pod.slots == old(s).pod.slots && s.commits == old(s).commits
      ensures s.sent == old(s).sent + Lines(chunks) && s.faults >= old(s).faults
      ensures failed.None? ==>
                !s.broken && Staged(sha, s.pod, target, data, version, |data|) && Rejoin(chunks) == Some(data)
      ensures ChunkFates(old(s).fates, s.fates, |chunks|, failed.Some?)
      ensures failed.Some? ==> s.faults > old(s).faults && Covers(chunks, data, ChunkFailed(failed.value, false))
    {
      var off := 0;
      chunks := [];
      while off < |data|
        invariant off <= |data| && !s.broken && Staged(sha, s.pod, target, data, version, off)
        invariant s.pod.slots == old(s).pod.slots && s.commits == old(s).commits
        invariant s.sent == old(s).sent + Lines(chunks) && s.faults >= old(s).faults
        invariant Rejoin(chunks) == Some(data[..off])
        invariant ChunkFates(old(s).fates, s.fates, |chunks|, false)
      {
        var end := Min(off + LAN_BLOB_CHUNK, |data|);
        var line := OtaData(off, Base64Url.Encode(data[off..end]));
        PieceOfEncoded(off, data[off..end]);
        ChunkCovers(chunks, data, off, end);
        LinesExtend(chunks, Chunk(off, data[off..end]));
        ghost var was := s;
        var reply, fate := Cmd(line);
        DataStages(sha, was, target, data, version, off, end, line, fate);
        chunks := chunks + [Chunk(off, data[off..end])];
        if !reply.Fine? {
          return Some(off), chunks;
        }
        off := end;
      }
      assert data[..off] == data;
      failed := None;
    }

    /** ota_end and, once the pod says the image is verified, ota_commit. was: the state the pod reported last. */
    method Conclude(target: string, data: Data, version: int, was: string) returns (res: UploadEnd)
      requires !s.broken && Staged(sha, s.pod, target, data, version, |data|)
      modifies this
      ensures res.Installed? || res.CommitFailed? || res.EndFailed? || res.NotVerified?
      ensures Leaves(old(s), target, data, version, res, s)
      ensures s.sent == old(s).sent + LastLines(res)
      ensures res.EndFailed? && !res.aborts ==> s.broken
      ensures !res.Installed? && !res.NotVerified? ==> s.faults > old(s).faults
      ensures s.faults >= old(s).faults
      ensures EndFates(old(s).fates, s.fates, was, res) && (res.Installed? ==> !s.broken)
    {
      var reply, fate := Cmd(OtaEnd);
      EndVerifies(sha, old(s), target, data, version, fate);
      if !reply.Fine? {
        var aborts := Abort();
        return EndFailed(aborts);
      }
      var state := if reply.state.Some? then reply.state.value else was;
      if state != VERIFIED {
        var _ := Abort();
        return NotVerified;
      }
      ghost var mid := s;
      reply, fate := Cmd(OtaCommit);
      CommitInstalls(sha, mid, target, data, version, fate);
      if !reply.Fine? {
        return CommitFailed;
      }
      state := if reply.state.Some? then reply.state.value else state;
      res := if state == ERROR then CommitFailed else Installed;
    }

    /** What comes after ota_begin was answered; state: what the pod reported then. before: the fates before that. */
    method Transfer(target: string, data: Data, version: int, state: string, ghost before: seq<Fate>)
      returns (res: UploadEnd, ghost chunks: seq<Chunk>)
      requires !s.broken && Staged(sha, s.pod, target, data, version, 0) && state != VERIFIED
      requires ChunkFates(before, s.fates, 1, false)
      modifies this
      ensures !res.EmptyImage? && !res.BeginFailed?
      ensures Leaves(old(s), target, data, version, res, s) && Covers(chunks, data, res)
      ensures s.sent == old(s).sent + Lines(chunks) + LastLines(res)
      ensures (res.ChunkFailed? || res.EndFailed?) && !res.aborts ==> s.broken
      ensures DecidedBy(s.fates, |before|, |chunks|, res)
      ensures old(s).fates <= s.fates && (res.Installed? ==> !s.broken)
      ensures !res.Installed? ==> s.faults > old(s).faults || res.NotVerified?
    {
      var failed;
      failed, chunks := SendChunks(target, data, version);
      ghost var sent := s.fates;
      if failed.Some? {
        var aborts := Abort();
        ChunksDecide(before, old(s).fates, sent, s.fates, |chunks|, failed.value, aborts);
        return ChunkFailed(failed.value, aborts), chunks;
      }
      res := Conclude(target, data, version, state);
      EndDecides(before, old(s).fates, sent, s.fates, |chunks|, state, res);
    }

    /**
      lanBlobs.UploadSigned. Installed means the slot holds the data itself; an upload that ends otherwise,
      but for a failed commit, has changed no slot. What it sends is ota_begin, chunks that cover the data
      one after the other, ota_end and ota_commit, up to the line that failed; then an abort unless the
      session is broken, but none after a failed begin or commit. Only faults make it fail, or a pod that
      leaves the state out of its reply to ota_end.
    */
    method UploadSigned(target: string, data: Data, version: int, sig: Option<string>)
      returns (res: UploadEnd, ghost chunks: seq<Chunk>)
      modifies this
      ensures Leaves(old(s), target, data, version, res, s)
      ensures Covers(chunks, data, res)
      ensures s.sent == old(s).sent
                + (if data == [] || old(s).broken then [] else [OtaBegin(|data|, sha(data), target, version, sig)])
                + Lines(chunks) + LastLines(res)
      ensures (res.ChunkFailed? || res.EndFailed?) && !res.aborts ==> s.broken
      ensures data != [] && !old(s).broken ==> !res.EmptyImage? && DecidedBy(s.fates, |old(s).fates|, |chunks|, res)
      ensures res.EmptyImage? <==> data == []
      ensures old(s).fates <= s.fates && (res.Installed? ==> !s.broken)
      ensures old(s).broken && data != [] ==> res.BeginFailed?
      ensures !res.Installed? ==> data == [] || old(s).broken || s.faults > old(s).faults || res.NotVerified?
    {
      chunks := [];
      assert Lines(chunks) == [];
      if |data| == 0 {
        return EmptyImage, chunks;
      }
      var begin := OtaBegin(|data|, sha(data), target, version, sig);
      var reply, fate := Cmd(begin);
      BeginStages(sha, old(s), target, data, version, sig, fate);
      if !reply.Fine? {
        return BeginFailed, chunks;
      }
      var state := if reply.state.Some? then reply.state.value else "";
      res, chunks := Transfer(target, data, version, state, old(s).fates);
    }
  }
}
