/**
  Uploading an image over the pod's console (internal/serialconsole/upload.go): UploadSigned,
  uploadChunk, uploadReceived, awaitReply and the signed manifest.
*/
module ConsoleUpload {
  import opened Bytes
  import opened Outcomes
  import opened Sequences
  import opened UploadPod
  import opened UploadSafety
  import opened UploadRuns
  import opened Iteration
  import opened UploadExchange
  import Base64Url

  class Console {
    /** The wire and the pod behind it. */
    var w: Wire
    ghost var log: seq<Act>
    var sigProbed: bool
    var sigSupported: bool
    /** Whether replies may come after the client has stopped waiting for them. */
    const late: bool
    const sha: Sha

    constructor (sha: Sha, late: bool, w: Wire)
      ensures this.sha == sha && this.late == late && this.w == w && !sigProbed && log == []
    {
      this.sha, this.late, this.w := sha, late, w;
      sigProbed, sigSupported, log := false, false, [];
    }

    /** What the console remembers of upload-sig is right. */
    predicate Knows()
      reads this
    {
      sigProbed && sigSupported ==> w.pod.sigAware
    }

    /** A failed write may still have reached the pod. */
    method WriteLine(c: Cmd) returns (ok: bool)
      modifies `w, `log
      ensures log == old(log) + [Wrote(c)]
      ensures ok ==> w == Sent(old(w), c)
      ensures !ok ==> FailedWrite(old(w), c, w)
    {
      log := log + [Wrote(c)];
      ok := *;
      var reached: bool := *;
      if ok || reached {
        w := Sent(w, c);
      }
      if !ok {
        w := w.(cut := true);
      }
    }

    /** The read loop all waits share; the pod and the caller act in between, in any order. */
    method AwaitLine(await: Await) returns (got: Option<Line>, ghost es: seq<Event>)
      modifies `w, `log
      ensures Ends(sha, late, await, old(w), es, got, w)
      ensures log == old(log) + if got.Some? then [Accepted(got.value)] else []
    {
      es := [];
      while true
        invariant w == Follow(sha, await, old(w), es)
        invariant log == old(log)
        decreases 2 * |w.toPod| + 2 * w.chatter + |w.fromPod| + if w.cancelled then 0 else 1
      {
        ghost var e: Event;
        ghost var before := w;
        if {
        case w.fromPod != [] =>
          var line := w.fromPod[0];
          if Wanted(await, line) {
            w, log := Pop(w), log + [Accepted(line)];
            return Some(line), es;
          }
          e, w := Skips, Pop(w);
        case w.toPod != [] =>
          var fate: Fate := *;
          e, w := Executes(fate), Take(sha, w, fate);
        case w.chatter > 0 =>
          e, w := Prints, w.(fromPod := w.fromPod + [LogLine], chatter := w.chatter - 1);
        case !w.cancelled =>
          e, w := Cancels, w.(cancelled := true);
        case late || w.cancelled || Drained(w) =>
          return None, es;
        }
        assert w == Happens(sha, await, before, e);
        FollowExtend(sha, await, old(w), es, e);
        es := es + [e];
      }
    }

    /** uploadReceived: how many bytes of the current upload the pod has staged. */
    method UploadReceived() returns (n: Option<nat>)
      modifies `w, `log
      ensures Asks(sha, late, old(w), n, w) && AskedAlways(sha, late, old(w), n, w)
      ensures log == old(log) + StatusActs(n)
    {
      var ok := WriteLine(Status);
      n := None;
      if ok {
        var got, es := AwaitLine(ForStatus);
        n := if got.Some? then Some(got.value.received) else None;
      }
      AsksAskedAlways(sha, late, old(w), n, w);
    }

    /** The frame and its reply; sent is false when the write fails. */
    method SendFrame(off: nat, chunk: Data) returns (sent: bool, got: Option<Line>)
      modifies `w, `log
      ensures sent ==> Replies(sha, late, old(w), off, chunk, got, w)
      ensures !sent ==> got.None? && FailedWrite(old(w), Frame(off, chunk), w)
      ensures got.Some? ==> Wanted(ForReply(DataWord), got.value)
      ensures log == old(log) + FrameActs(off, chunk, got)
    {
      sent := WriteLine(Frame(off, chunk));
      if !sent {
        return false, None;
      }
      ghost var es;
      got, es := AwaitLine(ForReply(DataWord));
    }

    /** One attempt of uploadChunk: the frame, its reply, and if none comes the question how far the pod got. */
    method TryChunk(off: nat, chunk: Data) returns (a: Attempt, ghost acts: seq<Act>)
      modifies `w, `log
      ensures Attempts(sha, late, old(w), off, chunk, a, w) && a != Finally(Exhausted)
      ensures log == old(log) + acts && AttemptActs(acts, off, chunk, a)
    {
      var sent, got := SendFrame(off, chunk);
      acts := FrameActs(off, chunk, got);
      if !sent {
        a := Finally(WriteFailed);
      } else if got.Some? {
        AttemptOfReply(sha, late, old(w), off, chunk, got.value.reply, w);
        a := AttemptOf(got.value.reply);
      } else if w.cancelled {
        a := Finally(GaveUp);
      } else {
        ghost var mid := w;
        var n := UploadReceived();
        AttemptOfAsking(sha, late, old(w), off, chunk, mid, n, w);
        StatusActsAre(off, chunk, n);
        return AttemptFrom(n, off + |chunk|), acts + StatusActs(n);
      }
      FrameActsAre(off, chunk, got, a);
    }

    /**
      uploadChunk: a run of at most five attempts (ChunkRun). The client sends at most five frames, resends none
      blindly and none after a status shows the chunk landed. During an upload, whatever is lost or late, the upload
      stays this one; if nothing on the wire could report the chunk falsely, Done means the pod has received up to the
      chunk's end; on a prompt console the wire is then calm again, and only five faults or a refusal can keep the
      chunk from landing (UploadExchange.RunChunked).
    */
    method UploadChunk(off: nat, chunk: Data) returns (res: ChunkEnd, ghost acts: seq<Act>)
      modifies `w, `log
      ensures ChunkRun(sha, late, old(w), off, chunk, res, w)
      ensures ChunkedAlways(sha, late, old(w), off, chunk, res, w)
      ensures log == old(log) + acts && Told(acts, off, chunk, res)
    {
      var attempt := 1;
      acts := [];
      while attempt <= CHUNK_ATTEMPTS
        invariant 1 <= attempt <= CHUNK_ATTEMPTS + 1
        invariant Iterates(Retries(sha, late, off, chunk), old(w), attempt - 1, w)
        invariant log == old(log) + acts && AttemptsActs(acts, off, chunk, attempt - 1)
        invariant attempt > CHUNK_ATTEMPTS ==> Told(acts, off, chunk, Exhausted)
      {
        ghost var was := w;
        var a, more := TryChunk(off, chunk);
        OneMoreAttempt(acts, more, off, chunk, attempt - 1, a);
        Assoc(old(log), acts, more);
        acts := acts + more;
        if a.Finally? {
          assert EndsAfter(sha, late, old(w), off, chunk, attempt - 1, a.result, w);
          RunChunkedAlways(sha, late, old(w), off, chunk, a.result, w);
          return a.result, acts;
        }
        assert Retries(sha, late, off, chunk)(was, w);
        attempt := attempt + 1;
      }
      RunChunkedAlways(sha, late, old(w), off, chunk, Exhausted, w);
      return Exhausted, acts;
    }

    // ── the signed manifest ──

    /** queryUploadSig: None when the firmware does not know it, or on any failure. */
    method QueryUploadSig() returns (res: Option<string>, ghost acts: seq<Act>)
      modifies `w, `log
      ensures Queried(sha, late, old(w), res, w)
      ensures log == old(log) + acts && OnlySigs(acts)
    {
      acts := [Wrote(SigQuery)];
      var ok := WriteLine(SigQuery);
      if !ok {
        SigCutKept(sha, old(w), SigQuery, w);
        return None, acts;
      }
      var got, es := AwaitLine(ForSig);
      QueryReplied(sha, late, old(w), es, got, w);
      acts := acts + if got.Some? then [Accepted(got.value)] else [];
      res := if got.Some? && got.value.SigResult? then Some(got.value.result) else None;
    }

    /** uploadSigSupported: asks once per console session. */
    method UploadSigSupported() returns (supported: bool, ghost acts: seq<Act>)
      modifies `w, `log, `sigProbed, `sigSupported
      ensures sigProbed && supported == sigSupported
      ensures old(sigProbed) ==> sigSupported == old(sigSupported) && w == old(w) && acts == []
      ensures Probed(sha, late, old(Knows()), old(w), supported, w)
      ensures !old(sigProbed) && FaultFree(late, old(w), w) ==> (supported <==> old(w).pod.sigAware)
      ensures log == old(log) + acts && OnlySigs(acts)
    {
      acts := [];
      if !sigProbed {
        sigProbed := true;
        var res;
        res, acts := QueryUploadSig();
        sigSupported := res.Some?;
        QueryProbed(sha, late, old(w), res, w);
      }
      supported := sigSupported;
    }

    /** One line of the manifest, and its answer. */
    method SendSigLine(c: Cmd) returns (written: bool, ok: bool, ghost acts: seq<Act>)
      requires (c.SigPart? && c.part <= 1) || c.SigClear?
      modifies `w, `log
      ensures SigSent(sha, late, old(w), c, ok, w)
      ensures !written ==> !ok && w.cut
      ensures log == old(log) + acts && OnlySigs(acts)
    {
      acts := [Wrote(c)];
      written := WriteLine(c);
      if !written {
        SigCutKept(sha, old(w), c, w);
        return false, false, acts;
      }
      var got, es := AwaitLine(ForReply(SigWord));
      SigReplied(sha, late, old(w), c, es, got, w);
      acts := acts + if got.Some? then [Accepted(got.value)] else [];
      ok := got.Some? && got.value.reply.Okay?;
    }

    /** sendUploadSig: the two halves, each answered before the next; any trouble clears what the pod collected. */
    method SendUploadSig(manifest: Data) returns (ok: bool, ghost acts: seq<Act>)
      modifies `w, `log
      ensures ManifestSent(sha, late, old(w), Base64Url.Encode(manifest), ok, w)
      ensures log == old(log) + acts && OnlySigs(acts)
    {
      var text := Base64Url.Encode(manifest);
      var half := Base64Url.Half(text);
      var written;
      ghost var more;
      written, ok, acts := SendSigLine(SigPart(0, text[..half]));
      ghost var mid := w;
      if ok {
        written, ok, more := SendSigLine(SigPart(1, text[half..]));
        acts := acts + more;
        PartsSent(sha, late, old(w), text, half, mid, ok, w);
        if ok {
          return;
        }
      } else {
        FirstPartSent(sha, late, old(w), text[..half], w);
      }
      if !written {
        CutParts(sha, late, old(w), text, w);
        return;
      }
      ghost var failed := w;
      var _, cleared, last := SendSigLine(SigClear);
      acts := acts + last;
      ClearedAfter(sha, late, old(w), text, failed, cleared, w);
    }

    /** What UploadSigned does about the manifest before upload-begin. */
    method PrepareManifest(manifest: Data) returns (rep: SigReport, ghost acts: seq<Act>)
      modifies this
      ensures Prepared(sha, late, old(Knows()), old(w),
                       Base64Url.Encode(manifest), rep.sent, w)
      ensures rep.result.None? && (rep.sent ==> rep.supported) && (rep.supported ==> |manifest| == MANIFEST_LEN)
      ensures FaultFree(late, old(w), w) ==>
                (rep.supported <==>
                   |manifest| == MANIFEST_LEN && if old(sigProbed) then old(sigSupported) else old(w).pod.sigAware)
      ensures FaultFree(late, old(w), w) && old(Knows()) ==> (rep.sent <==> rep.supported) && Knows()
      ensures log == old(log) + acts && OnlySigs(acts)
    {
      ghost var knows := Knows();
      rep, acts := SigReport(false, false, None), [];
      if |manifest| == MANIFEST_LEN {
        var supported;
        supported, acts := UploadSigSupported();
        rep := rep.(supported := supported);
        ghost var mid := w;
        NotSentPrepared(sha, late, knows, old(w), Base64Url.Encode(manifest), supported, w);
        if supported {
          var sent, more := SendUploadSig(manifest);
          acts := acts + more;
          rep := rep.(sent := sent);
          SentPrepared(sha, late, knows, old(w), mid, Base64Url.Encode(manifest), sent, w);
        }
      }
    }

    // ── the upload ──

    /** upload-begin, upload-end or upload-commit, and its reply. */
    method SendKey(c: Cmd, ghost spec: Spec) returns (reply: Option<Reply>, ghost acts: seq<Act>)
      requires IsKey(c) && Clear(c, w) && Stands(sha, c, w, spec)
      modifies `w, `log
      ensures KeySent(sha, late, old(w), spec, c, reply, w)
      ensures acts == KeyActs(c, reply)
      ensures log == old(log) + acts
    {
      acts := [Wrote(c)];
      var ok := WriteLine(c);
      if !ok {
        KeyCut(sha, late, old(w), spec, c, w);
        return None, acts;
      }
      var got, es := AwaitLine(ForReply(WordOf(c)));
      KeyReplied(sha, late, old(w), spec, c, es, got, w);
      acts := acts + if got.Some? then [Accepted(got.value)] else [];
      reply := if got.Some? then Some(got.value.reply) else None;
    }

    /** The loop over the chunks. */
    method UploadChunks(data: Data, ghost spec: Spec) returns (why: Option<ChunkEnd>, ghost acts: seq<Act>)
      requires Staging(sha, w, spec) && data == spec.data
      modifies `w, `log
      ensures Streamed(sha, late, old(w), spec, if why.None? then |data| else 0, why, w)
      ensures log == old(log) + acts && NoCommit(acts) && Pieces(acts, data)
    {
      var off := 0;
      acts := [];
      while off < |data|
        invariant Streamed(sha, late, old(w), spec, off, None, w)
        invariant log == old(log) + acts && NoCommit(acts) && Pieces(acts, data)
        invariant AtPiece(off, data)
      {
        var end := Min(off + UPLOAD_CHUNK, |data|);
        ghost var was := w;
        var res, more := UploadChunk(off, data[off..end]);
        Assoc(old(log), acts, more);
        OneMorePiece(acts, more, off, end, data);
        acts := acts + more;
        RunStreamed(sha, late, old(w), spec, off, end, was, res, w);
        if !res.Done? {
          return Some(res), acts;
        }
        off := end;
      }
      why := None;
    }

    /** The manifest and upload-begin. */
    method Open(manifest: Data, target: string, data: Data, version: int)
      returns (rep: SigReport, begun: bool, ghost acts: seq<Act>)
      requires BeginFree(w) && data != []
      modifies this
      ensures begun ==> Loaded(sha, late, old(Knows()), old(w),
                               Spec(target, data, version), Base64Url.Encode(manifest), rep, w)
      ensures !begun ==> UploadResult(sha, late, old(Knows()), old(w),
                                      Spec(target, data, version), Base64Url.Encode(manifest), rep, BeginFailed, w)
      ensures log == old(log) + acts && NoCommit(acts) && Pieces(acts, data) && acts != []
      ensures begun ==> acts[|acts| - 1] == Accepted(Answer(BeginWord, Okay))
      ensures !begun ==> ToldByLast(acts, Begin(target, |data|, sha(data), version), BeginFailed)
      ensures rep.sent ==> rep.supported && |manifest| == MANIFEST_LEN
      ensures rep.result.None? && Later(old(w), w)
      ensures FaultFree(late, old(w), w) && old(Knows()) ==>
                SignedWell(if old(sigProbed) then Some(old(sigSupported)) else None, old(w), manifest, rep) && Knows()
    {
      ghost var knows := Knows();
      rep, acts := PrepareManifest(manifest);
      SigsArePieces(acts, data);
      ghost var s1, spec := w, Spec(target, data, version);
      var reply, more := SendKey(Begin(target, |data|, sha(data), version), spec);
      acts := acts + more;
      BeginLoads(sha, late, knows, old(w), spec, Base64Url.Encode(manifest), rep, s1, w, reply);
      begun := reply == Some(Okay);
    }

    /** The pod's check of the manifest. */
    method CheckManifest(ghost was: Wire, ghost spec: Spec, ghost knows: bool, ghost text: string, asked: SigReport)
      returns (rep: SigReport, ghost acts: seq<Act>)
      requires Loaded(sha, late, knows, was, spec, text, asked, w)
      modifies `w, `log
      ensures rep == asked.(result := rep.result) && Later(old(w), w) && (!asked.supported ==> rep == asked)
      ensures FaultFree(late, old(w), w) && asked.supported && old(w).pod.sigAware ==>
                rep.result == Some(SigCheck(old(w).pod.manifest))
      ensures Loaded(sha, late, knows, was, spec, text, rep, w)
      ensures log == old(log) + acts && OnlySigs(acts)
    {
      rep, acts := asked, [];
      if rep.supported {
        var result;
        result, acts := QueryUploadSig();
        QueryLoads(sha, late, knows, was, spec, text, rep, old(w), result, w);
        rep := rep.(result := result);
      }
    }

    /** The chunks, and an abort if they fail. */
    method LoadData(data: Data, ghost was: Wire, ghost spec: Spec, ghost knows: bool, ghost text: string,
                    ghost rep: SigReport)
      returns (why: Option<ChunkEnd>, ghost acts: seq<Act>)
      requires data == spec.data && Loaded(sha, late, knows, was, spec, text, rep, w)
      modifies `w, `log
      ensures Later(old(w), w)
      ensures why.None? ==> Loaded(sha, late, knows, was, spec, text, rep, w)
      ensures why.None? && !late && knows && Calm(was) && Undisturbed(w) ==> w.pod.staged == spec.data
      ensures why.Some? ==> UploadResult(sha, late, knows, was, spec, text, rep, ChunkFailed(why.value), w)
      ensures log == old(log) + acts && NoCommit(acts) && Pieces(acts, data)
      ensures why.Some? ==> acts != [] && acts[|acts| - 1] == Wrote(Abort)
    {
      why, acts := UploadChunks(data, spec);
      StreamLoads(sha, late, knows, was, spec, text, rep, old(w), why, w);
      if why.Some? {
        ghost var s4 := w;
        var _ := WriteLine(Abort);
        acts := acts + [Wrote(Abort)];
        AbortKeeps(sha, late, knows, was, spec, text, rep, why.value, s4, w);
      }
    }

    /** upload-end, and upload-commit if it is answered ok. */
    method Conclude(ghost was: Wire, ghost spec: Spec, ghost knows: bool, ghost text: string, ghost rep: SigReport)
      returns (res: UploadEnd, ghost acts: seq<Act>)
      requires Loaded(sha, late, knows, was, spec, text, rep, w)
      requires !late && knows && Calm(was) && Undisturbed(w) ==> w.pod.staged == spec.data
      modifies `w, `log
      ensures UploadResult(sha, late, knows, was, spec, text, rep, res, w)
      ensures log == old(log) + acts && Later(old(w), w)
      ensures acts != [] && ToldByLast(acts, Begin(spec.target, |spec.data|, sha(spec.data), spec.version), res)
      ensures Pieces(acts, spec.data)
      ensures EndActs(acts) && (res.Uploaded? || res.EndFailed? || res.CommitFailed?)
    {
      var reply, last := SendKey(End, spec);
      EndVerdict(sha, late, knows, was, spec, text, rep, old(w), reply, w);
      acts := last;
      ghost var begin := Begin(spec.target, |spec.data|, sha(spec.data), spec.version);
      if reply != Some(Okay) {
        EndRejected(reply, begin, spec.data);
        return EndFailed, acts;
      }
      ghost var s5 := w;
      reply, last := SendKey(Commit, spec);
      CommitVerdict(sha, late, knows, was, spec, text, rep, s5, reply, w);
      CommitAnswered(reply, begin, spec.data);
      acts := acts + last;
      res := if reply.Some? && IsOk(reply.value) then Uploaded else CommitFailed;
    }

    /** What comes after upload-begin was answered ok. */
    method Transfer(data: Data, ghost was: Wire, ghost spec: Spec, ghost knows: bool, ghost text: string,
                    asked: SigReport)
      returns (rep: SigReport, res: UploadEnd, ghost acts: seq<Act>)
      requires data == spec.data && Loaded(sha, late, knows, was, spec, text, asked, w)
      modifies `w, `log
      ensures UploadResult(sha, late, knows, was, spec, text, rep, res, w)
      ensures rep == asked.(result := rep.result) && Later(old(w), w) && (!asked.supported ==> rep == asked)
      ensures FaultFree(late, old(w), w) && asked.supported && old(w).pod.sigAware ==>
                rep.result == Some(SigCheck(old(w).pod.manifest))
      ensures log == old(log) + acts && CommitGuarded(acts) && !res.EmptyImage? && Pieces(acts, data)
      ensures acts != [] && ToldByLast(acts, BeginOf(sha, spec), res)
    {
      rep, acts := CheckManifest(was, spec, knows, text, asked);
      SigsArePieces(acts, data);
      ghost var more;
      var why;
      why, more := LoadData(data, was, spec, knows, text, rep);
      PiecesSum(acts, more, data);
      acts := acts + more;
      if why.Some? {
        NoCommitGuarded(acts);
        return rep, ChunkFailed(why.value), acts;
      }
      res, more := Conclude(was, spec, knows, text, rep);
      EndActsGuarded(acts, more);
      PiecesSum(acts, more, data);
      ToldLater(acts, more, BeginOf(sha, spec), res);
      acts := acts + more;
    }

    /**
      UploadSigned. Whatever replies are lost or late: nil means the pod committed an image of the data's
      length and digest, and a commit is written only right after upload-end was answered ok. On a calm,
      prompt console: nil means the pod committed the data itself, and only faults make it fail.
    */
    method UploadSigned(target: string, data: Data, version: int, manifest: Data)
      returns (rep: SigReport, res: UploadEnd, ghost acts: seq<Act>)
      requires BeginFree(w)
      modifies this
      ensures UploadResult(sha, late, old(Knows()), old(w),
                           Spec(target, data, version), Base64Url.Encode(manifest), rep, res, w)
      ensures log == old(log) + acts && CommitGuarded(acts) && Pieces(acts, data)
      ensures ToldByLast(acts, Begin(target, |data|, sha(data), version), res)
      ensures rep.sent ==> rep.supported && |manifest| == MANIFEST_LEN
      ensures FaultFree(late, old(w), w) && old(Knows()) && data != [] ==>
                && res.Uploaded? && rep.result == (if rep.supported then Some("ok") else None)
                && SignedWell(if old(sigProbed) then Some(old(sigSupported)) else None, old(w), manifest, rep)
                && Knows()
      ensures Later(old(w), w) && (res.EmptyImage? <==> data == [])
    {
      ghost var spec, text := Spec(target, data, version), Base64Url.Encode(manifest);
      ghost var knows := Knows();
      ghost var known := if sigProbed then Some(sigSupported) else None;
      rep, acts := SigReport(false, false, None), [];
      if |data| == 0 {
        return rep, EmptyImage, acts;
      }
      var begun;
      rep, begun, acts := Open(manifest, target, data, version);
      NoCommitGuarded(acts);
      ghost var asked, begunAt, more := rep, w, [];
      if !begun {
        FaultFreeUploads(sha, late, knows, old(w), spec, text, rep, BeginFailed, w);
        return rep, BeginFailed, acts;
      }
      rep, res, more := Transfer(data, old(w), spec, knows, text, rep);
      GuardedLater(acts, more);
      PiecesSum(acts, more, data);
      ToldLater(acts, more, BeginOf(sha, spec), res);
      acts := acts + more;
      FaultFreeUploads(sha, late, knows, old(w), spec, text, rep, res, w);
      FaultFreeReport(sha, late, knows, old(w), spec, manifest, asked, begunAt, rep, w, known);
    }
  }
}
