/** benchpod spi-flash write (cmd/benchpod-cli/spiflash.go): identify the part, erase, program and verify. */
module SpiWriting {
  import opened Bytes
  import opened Outcomes
  import opened NorPod
  import opened SpiLink
  import opened SpiFlash
  import Base64Url

  /** fits: an unknown size (0) fits everything. */
  predicate Fits(size: int, addr: int, n: int) {
    !(size > 0 && addr + n > size)
  }

  /**
    What a flashed part looks like, byte by byte: the image, 0xFF in the rest of the touched sectors, the old bytes
    elsewhere.
  */
  ghost predicate Flashed(old_: Data, new_: Data, addr: int, data: Data) {
    && |new_| == |old_| && InPart(old_, addr, |data|)
    && forall i | 0 <= i < |old_| ::
         new_[i] == (if addr <= i < addr + |data| then data[i - addr]
                     else if Down(addr) <= i < Up(addr + |data|) then 0xFF
                     else old_[i])
  }

  lemma SpliceIntoErased(mem: Data, addr: int, data: Data)
    requires 0 <= addr && 0 < |data| && InPart(mem, addr, |data|)
    ensures IsErased(EraseRange(mem, Down(addr), Up(addr + |data|)), addr, |data|)
    ensures Flashed(mem, Splice(EraseRange(mem, Down(addr), Up(addr + |data|)), addr, data), addr, data)
  {
    SectorBounds(addr);
    SectorBounds(addr + |data|);
  }

  /** Any part of the image reads back from a flashed part. */
  lemma ReadBack(old_: Data, new_: Data, addr: int, data: Data, from: nat, to: nat)
    requires Flashed(old_, new_, addr, data) && from <= to <= |data|
    ensures new_[addr + from..addr + to] == data[from..to]
  {
  }

  // ── nothing outside the touched sectors, whatever happens ──

  /** At most the memory in [lo, hi) has changed. */
  ghost predicate KeepsOutside(p: Part, q: Part, lo: int, hi: int) {
    && q == p.(mem := q.mem) && |q.mem| == |p.mem|
    && forall i | 0 <= i < |p.mem| && !(lo <= i < hi) :: q.mem[i] == p.mem[i]
  }

  /** A command that stays inside [addr, end): an erase or a chunk of a write. */
  predicate Inside(r: Request, addr: int, end: int) {
    match r
    case FlashErase(at, n) => addr <= at && at + n <= end
    case FlashWrite(at, text, _) =>
      addr <= at && (var d := Base64Url.Decode(text); d.Ok? ==> at + |d.value| <= end)
    case _ => false
  }

  lemma EraseInsideHull(mem: Data, s: int, e: int, lo: int, hi: int)
    requires lo <= s && e <= hi
    ensures forall i | 0 <= i < |mem| && !(lo <= i < hi) :: EraseRange(mem, s, e)[i] == mem[i]
  {
  }

  lemma DownMonotone(a: int, b: int)
    requires a <= b
    ensures Down(a) <= Down(b)
  {
    SectorBounds(a);
    SectorBounds(b);
  }

  lemma EraseStepInside(p: Part, at: int, n: int, addr: int, end: int)
    requires addr <= at && at + n <= end
    ensures KeepsOutside(p, After(p, FlashErase(at, n)), Down(addr), Up(end))
  {
    DownMonotone(addr, at);
    UpMonotone(at + n, end);
    EraseInsideHull(p.mem, Down(at), Up(at + n), Down(addr), Up(end));
  }

  lemma ProgramInside(mem: Data, at: int, d: Data, lo: int, hi: int)
    requires lo <= at && at + |d| <= hi
    ensures forall i | 0 <= i < |mem| && !(lo <= i < hi) :: Program(mem, at, d)[i] == mem[i]
  {
  }

  lemma WriteStepInside(p: Part, r: Request, addr: int, end: int)
    requires r.FlashWrite? && Inside(r, addr, end)
    ensures KeepsOutside(p, After(p, r), Down(addr), Up(end))
  {
    SectorBounds(addr);
    SectorBounds(end);
    var d := WriteData(p.mem, r);
    if d.Ok? {
      ProgramInside(p.mem, r.addr, d.value, Down(addr), Up(end));
    }
  }

  lemma StepInside(p: Part, e: Exchange, q: Part, addr: int, end: int)
    requires PodStep(p, e, q) && Inside(e.req, addr, end)
    ensures KeepsOutside(p, q, Down(addr), Up(end))
  {
    if e.req.FlashErase? {
      EraseStepInside(p, e.req.addr, e.req.n, addr, end);
    } else {
      WriteStepInside(p, e.req, addr, end);
    }
  }

  lemma {:induction false} TraceInside(ps: seq<Part>, ex: seq<Exchange>, addr: int, end: int, k: nat)
    requires Trace(ps, ex) && k <= |ex| && forall i | 0 <= i < |ex| :: Inside(ex[i].req, addr, end)
    ensures KeepsOutside(ps[0], ps[k], Down(addr), Up(end))
  {
    if k > 0 {
      TraceInside(ps, ex, addr, end, k - 1);
      assert StepAt(ps, ex, k - 1);
      StepInside(ps[k - 1], ex[k - 1], ps[k], addr, end);
    }
  }

  lemma EraseInside(ps: seq<Part>, addr: int, n: int, ats: seq<int>, ex: seq<Exchange>)
    requires n > 0 && EraseRun(addr, addr + n, ats, ex) && Trace(ps, ex)
    ensures KeepsOutside(ps[0], ps[|ex|], Down(addr), Up(addr + n))
  {
    EraseRequestsBounded(addr, n, ats, ex);
    TraceInside(ps, ex, addr, addr + n, |ex|);
  }

  lemma WriteInside(ps: seq<Part>, addr: int, data: Data, verify: bool, ex: seq<Exchange>)
    requires WriteRun(addr, data, verify, ex) && Trace(ps, ex)
    ensures KeepsOutside(ps[0], ps[|ex|], Down(addr), Up(addr + |data|))
  {
    WriteStepsInside(addr, data, verify, ex);
    TraceInside(ps, ex, addr, addr + |data|, |ex|);
  }

  lemma IdKeeps(p: Part, e: Exchange, q: Part)
    requires e.req == FlashId && PodStep(p, e, q)
    ensures q == p
  {
  }

  datatype WriteError = Nil | IdFailed | NoFlash | DoesNotFit | EraseFailed | WriteFailed

  /** What memory holds after spiWrite returned nil on an honest pod. */
  ghost predicate Written(old_: Data, new_: Data, addr: int, data: Data, erase: bool, verify: bool) {
    if erase then Flashed(old_, new_, addr, data)
    else if verify then InPart(old_, addr, |data|) && new_ == Splice(old_, addr, data)
    else InPart(old_, addr, |data|) && new_ == Program(old_, addr, data)
  }

  lemma ErasedThenWritten(m0: Data, m1: Data, m2: Data, addr: int, data: Data, verify: bool)
    requires 0 <= addr && 0 < |data| && InPart(m1, addr, |data|) && m1 == EraseRange(m0, Down(addr), Up(addr + |data|))
    requires Exact(m1, addr, |data|, verify) ==> m2 == Splice(m1, addr, data)
    ensures Flashed(m0, m2, addr, data)
  {
    SpliceIntoErased(m0, addr, data);
  }

  /** Only flash commands were sent. */
  predicate FlashOnly(ex: seq<Exchange>) {
    forall i | 0 <= i < |ex| :: IsFlashCommand(ex[i].req)
  }

  lemma EraseFlashOnly(addr: int, end: int, ats: seq<int>, ex: seq<Exchange>)
    requires EraseRun(addr, end, ats, ex)
    ensures FlashOnly(ex) && ErasesIn(ex, 0, |ex|) && (!AllOk(ex) ==> ex != [] && Outcome(ex[|ex| - 1]).Err?)
  {
    forall i | 0 <= i < |ex| ensures ex[i].req.FlashErase? {
      assert EraseStep(end, ats[i], ex[i], ats[i + 1]);
    }
  }

  lemma WriteFlashOnly(addr: int, data: Data, verify: bool, ex: seq<Exchange>)
    requires WriteRun(addr, data, verify, ex)
    ensures FlashOnly(ex) && WritesIn(ex, 0, verify) && (AllAccepted(data, verify, ex) ==> AllOk(ex))
  {
    forall i | 0 <= i < |ex| ensures ex[i].req.FlashWrite? && ex[i].req.verify == verify {
      assert WriteStep(addr, data, verify, i, ex[i]);
    }
  }

  // ── when every command is answered ──

  lemma AnsweredErase(ps: seq<Part>, addr: int, n: int, ats: seq<int>, ex: seq<Exchange>)
    requires n > 0 && EraseRun(addr, addr + n, ats, ex) && Trace(ps, ex) && AllDelivered(ex)
    requires ps[0].armed && InPart(ps[0].mem, addr, n)
    ensures AllOk(ex)
  {
    EraseRequestsBounded(addr, n, ats, ex);
    forall i | 0 <= i < |ex| ensures Outcome(ex[i]).Ok? {
      TraceInside(ps, ex, addr, addr + n, i);
      assert StepAt(ps, ex, i);
      EraseAnswered(ps[i], ex[i].req.addr, ex[i].req.n, ex[i], ps[i + 1]);
    }
  }

  /** The image can be programmed over what is there: no bit would have to be set. */
  predicate Programmable(mem: Data, addr: int, data: Data) {
    InPart(mem, addr, |data|) && Holds(Program(mem, addr, data), addr, data)
  }

  lemma WriteStepsInside(addr: int, data: Data, verify: bool, ex: seq<Exchange>)
    requires WriteRun(addr, data, verify, ex)
    ensures forall i | 0 <= i < |ex| :: Inside(ex[i].req, addr, addr + |data|)
  {
    forall i | 0 <= i < |ex| ensures Inside(ex[i].req, addr, addr + |data|) {
      assert WriteStep(addr, data, verify, i, ex[i]);
      ChunkBounds(data, i);
      Base64Url.RoundTripUnpadded(Chunk(data, i));
    }
  }

  /** A chunk is accepted by a pod that has the image up to there. */
  lemma ChunkAccepted(p: Part, mem: Data, addr: int, data: Data, verify: bool, k: nat, e: Exchange, q: Part)
    requires WriteStep(addr, data, verify, k, e) && e.fate.Delivered? && PodStep(p, e, q)
    requires p.armed && p.mem == Program(mem, addr, data[..Reach(|data|, k)])
    requires InPart(mem, addr, |data|) && (verify ==> Programmable(mem, addr, data))
    ensures Accepted(e, Chunk(data, k), verify)
  {
    ChunkBounds(data, k);
    if verify {
      PartProgrammable(mem, addr, data, Reach(|data|, k), Reach(|data|, k + 1));
    }
    ChunkAnswered(p, addr + k * MAX_WRITE, Chunk(data, k), verify, e, q);
  }

  /** The k-th chunk is accepted when those before it were. */
  lemma NextAnswered(ps: seq<Part>, addr: int, data: Data, verify: bool, ex: seq<Exchange>, k: nat)
    requires WriteRun(addr, data, verify, ex) && Trace(ps, ex) && AllDelivered(ex) && k < |ex|
    requires ps[0].armed && InPart(ps[0].mem, addr, |data|) && (verify ==> Programmable(ps[0].mem, addr, data))
    ensures Accepted(ex[k], Chunk(data, k), verify)
  {
    assert WriteStep(addr, data, verify, k, ex[k]) && StepAt(ps, ex, k);
    HonestChunks(ps, addr, data, verify, ex, k);
    WrittenPrefix(addr, data, verify, ps, k);
    ChunkAccepted(ps[k], ps[0].mem, addr, data, verify, k, ex[k], ps[k + 1]);
  }

  lemma AnsweredWrite(ps: seq<Part>, addr: int, data: Data, verify: bool, ex: seq<Exchange>)
    requires WriteRun(addr, data, verify, ex) && Trace(ps, ex) && AllDelivered(ex)
    requires ps[0].armed && InPart(ps[0].mem, addr, |data|) && (verify ==> Programmable(ps[0].mem, addr, data))
    ensures AllAccepted(data, verify, ex)
  {
    forall k | 0 <= k < |ex| ensures Accepted(ex[k], Chunk(data, k), verify) {
      NextAnswered(ps, addr, data, verify, ex, k);
    }
  }

  /** The range is in the part and within reach, and the image can be programmed there if it is to be verified. */
  predicate CanWrite(mem: Data, addr: int, data: Data, verify: bool) {
    InPart(mem, addr, |data|) && 0 < |data| && addr + |data| <= ADDR_SPACE && (verify ==> Programmable(mem, addr, data))
  }

  // ── the order of the commands ──

  /** From the i-th command on so many erases. */
  predicate ErasesIn(ex: seq<Exchange>, i: nat, j: nat) {
    i <= j <= |ex| && forall k | i <= k < j :: ex[k].req.FlashErase?
  }

  predicate WritesIn(ex: seq<Exchange>, i: nat, verify: bool) {
    i <= |ex| && forall k | i <= k < |ex| :: ex[k].req.FlashWrite? && ex[k].req.verify == verify
  }

  /**
    The id, the erases and then the writes; a phase that fails ends with a command that did not succeed, or sends
    none.
  */
  predicate InPhases(ex: seq<Exchange>, j: nat, erase: bool, verify: bool, err: WriteError) {
    && 1 <= j <= |ex| && ErasesIn(ex, 1, j) && WritesIn(ex, j, verify) && (!erase ==> j == 1)
    && (err.EraseFailed? ==> erase && j == |ex| && (j == 1 || Outcome(ex[j - 1]).Err?))
    && (err.WriteFailed? || err.Nil? ==> forall k | 1 <= k < j :: Outcome(ex[k]).Ok?)
    && (err.Nil? ==> forall k | j <= k < |ex| :: Outcome(ex[k]).Ok?)
  }

  lemma PhasesJoin(id: seq<Exchange>, ex: seq<Exchange>, more: seq<Exchange>, verify: bool, ok: bool)
    requires |id| == 1 && ErasesIn(ex, 0, |ex|) && AllOk(ex) && WritesIn(more, 0, verify) && (ok ==> AllOk(more))
    ensures InPhases(id + ex + more, 1 + |ex|, true, verify, if ok then Nil else WriteFailed)
    ensures ex == [] ==> InPhases(id + more, 1, false, verify, if ok then Nil else WriteFailed)
  {
    var all := id + ex + more;
    assert forall k | 1 <= k < 1 + |ex| :: all[k] == ex[k - 1];
    assert forall k | 1 + |ex| <= k < |all| :: all[k] == more[k - 1 - |ex|];
    if ex == [] {
      assert id + more == all;
    }
  }

  lemma EraseStops(id: seq<Exchange>, ex: seq<Exchange>, verify: bool)
    requires |id| == 1 && ErasesIn(ex, 0, |ex|) && (ex != [] ==> Outcome(ex[|ex| - 1]).Err?)
    ensures InPhases(id + ex, 1 + |ex|, true, verify, EraseFailed)
  {
    assert forall k | 1 <= k < 1 + |ex| :: (id + ex)[k] == ex[k - 1];
  }

  // ── the phases ──

  /** What the erase phase leaves, and, when it succeeded on an honest pod, the erased sectors. */
  ghost predicate Erased(p: Part, q: Part, addr: int, n: int, ok: bool, ex: seq<Exchange>) {
    && FlashOnly(ex) && KeepsOutside(p, q, Down(addr), Up(addr + n))
    && (ok ==> CheckRange(addr, n) && AllOk(ex))
    && ErasesIn(ex, 0, |ex|) && (!ok && ex != [] ==> Outcome(ex[|ex| - 1]).Err?)
    && (ok && NoForgery(ex) ==> q.mem == EraseRange(p.mem, Down(addr), Up(addr + n)))
    && (AllDelivered(ex) && p.armed && InPart(p.mem, addr, n) && CheckRange(addr, n) ==> ok)
  }

  /** What the write phase leaves, and, when it succeeded on an honest pod, the image. */
  ghost predicate Programmed(p: Part, q: Part, addr: int, data: Data, verify: bool, ok: bool, ex: seq<Exchange>) {
    && FlashOnly(ex) && KeepsOutside(p, q, Down(addr), Up(addr + |data|))
    && (ok ==> CheckRange(addr, |data|) && AllOk(ex))
    && WritesIn(ex, 0, verify)
    && (ok && NoForgery(ex) ==>
          && InPart(p.mem, addr, |data|) && q.mem == Program(p.mem, addr, data)
          && (Exact(p.mem, addr, |data|, verify) ==> q.mem == Splice(p.mem, addr, data)))
    && (AllDelivered(ex) && p.armed && CanWrite(p.mem, addr, data, verify) ==> ok)
  }

  lemma KeepsAll(p: Part, lo: int, hi: int)
    ensures KeepsOutside(p, p, lo, hi)
  {
  }

  /** The erase phase: p.Erase and its progress. */
  method ErasePhase(link: Link, addr: int, n: int) returns (ok: bool, ghost ex: seq<Exchange>)
    requires link.Valid() && n > 0
    modifies link, link.pod, link.pod.mem
    ensures Erased(old(link.pod.State()), link.pod.State(), addr, n, ok, ex) && link.log == old(link.log) + ex
  {
    var prog;
    ghost var ats, ps;
    ok, prog, ats, ex, ps := Erase(link, addr, n);
    KeepsAll(ps[0], Down(addr), Up(addr + n));
    if CheckRange(addr, n) {
      EraseInside(ps, addr, n, ats, ex);
      EraseFlashOnly(addr, addr + n, ats, ex);
      if AllDelivered(ex) && ps[0].armed && InPart(ps[0].mem, addr, n) {
        AnsweredErase(ps, addr, n, ats, ex);
      }
      if ok && NoForgery(ex) {
        HonestEraseHull(ps, addr, n, ats, ex);
      }
    }
  }

  /** The write phase: p.Write and its progress. */
  method WritePhase(link: Link, addr: int, data: Data, verify: bool) returns (ok: bool, ghost ex: seq<Exchange>)
    requires link.Valid() && data != []
    modifies link, link.pod, link.pod.mem
    ensures Programmed(old(link.pod.State()), link.pod.State(), addr, data, verify, ok, ex)
    ensures link.log == old(link.log) + ex
  {
    ghost var ps;
    ok, ex, ps := Write(link, addr, data, verify);
    KeepsAll(ps[0], Down(addr), Up(addr + |data|));
    if CheckRange(addr, |data|) {
      WriteInside(ps, addr, data, verify, ex);
      WriteFlashOnly(addr, data, verify, ex);
      if AllDelivered(ex) && ps[0].armed && CanWrite(ps[0].mem, addr, data, verify) {
        AnsweredWrite(ps, addr, data, verify, ex);
      }
      if ok && NoForgery(ex) {
        HonestWrite(ps, addr, data, verify, ex);
      }
    }
  }

  lemma KeepsOutsideTwice(p: Part, q: Part, r: Part, lo: int, hi: int)
    requires KeepsOutside(p, q, lo, hi) && KeepsOutside(q, r, lo, hi)
    ensures KeepsOutside(p, r, lo, hi)
  {
  }

  /** What the answer to FlashId, or its failure, decides. */
  predicate Identified(p: Part, addr: int, n: int, err: WriteError, id: Exchange) {
    && id.req == FlashId
    && (err.IdFailed? <==> Outcome(id).Err?)
    && (err.NoFlash? <==> Outcome(id).Ok? && !(Outcome(id).value.IdReply? && Outcome(id).value.present))
    && (err.DoesNotFit? <==>
          && Outcome(id).Ok? && Outcome(id).value.IdReply? && Outcome(id).value.present
          && Outcome(id).value.size > 0 && addr + n > Outcome(id).value.size)
    && (id.fate.Delivered? ==> (err.IdFailed? <==> !p.armed))
    && (id.fate.Delivered? && p.armed ==> Outcome(id) == Ok(IdReply(p.present, p.size)))
  }

  /** FlashId and the size check; nil lets the write go on. */
  method Identify(link: Link, addr: int, n: int) returns (err: WriteError, ghost ex: seq<Exchange>)
    requires link.Valid()
    modifies link, link.pod, link.pod.mem
    ensures link.pod.State() == old(link.pod.State()) && FlashOnly(ex) && ex != [] && link.log == old(link.log) + ex
    ensures |ex| == 1 && Identified(link.pod.State(), addr, n, err, ex[0])
    ensures err.Nil? || err.IdFailed? || err.NoFlash? || err.DoesNotFit?
  {
    ghost var p := link.pod.State();
    var res, e := link.Command(FlashId);
    IdKeeps(p, e, link.pod.State());
    ex := [e];
    if res.Err? {
      return IdFailed, ex;
    }
    if !res.value.IdReply? || !res.value.present {
      return NoFlash, ex;
    }
    err := if Fits(res.value.size, addr, n) then Nil else DoesNotFit;
  }

  /** An answered pod takes the image: it is armed, its part is there, large enough, and can be written. */
  predicate CanFlash(p: Part, addr: int, data: Data, erase: bool, verify: bool) {
    && p.armed && p.present && (p.size == 0 || addr + |data| <= p.size)
    && CanWrite(p.mem, addr, data, verify && !erase)
  }

  /**
    What spiWrite leaves. Whatever the pod replies and wherever it fails, bytes outside the touched sectors stay as
    they were.
  */
  ghost predicate WriteLeaves(p: Part, q: Part, addr: int, data: Data, erase: bool, verify: bool, err: WriteError,
                              ex: seq<Exchange>) {
    && FlashOnly(ex) && ex != [] && KeepsOutside(p, q, Down(addr), Up(addr + |data|))
    && Identified(p, addr, |data|, err, ex[0])
    && (err.IdFailed? || err.NoFlash? || err.DoesNotFit? ==> q == p && |ex| == 1)
    && (err.EraseFailed? || err.WriteFailed? || err.Nil? ==> exists j: nat :: InPhases(ex, j, erase, verify, err))
    && (err.Nil? && NoForgery(ex) ==> Written(p.mem, q.mem, addr, data, erase, verify))
    && (AllDelivered(ex) ==> (err.Nil? <==> CanFlash(p, addr, data, erase, verify)))
  }

  lemma NoForgeryParts(a: seq<Exchange>, b: seq<Exchange>)
    ensures NoForgery(a + b) <==> NoForgery(a) && NoForgery(b)
    ensures FlashOnly(a) && FlashOnly(b) ==> FlashOnly(a + b)
  {
    assert forall i | 0 <= i < |a| :: (a + b)[i] == a[i];
    assert forall i | 0 <= i < |b| :: (a + b)[|a| + i] == b[i];
  }

  lemma DeliveredParts(a: seq<Exchange>, b: seq<Exchange>)
    ensures AllDelivered(a + b) <==> AllDelivered(a) && AllDelivered(b)
    ensures AllDelivered(a) ==> NoForgery(a)
  {
    assert forall i | 0 <= i < |a| :: (a + b)[i] == a[i];
    assert forall i | 0 <= i < |b| :: (a + b)[|a| + i] == b[i];
  }

  /** Whatever was there: once erased, the range can be programmed. */
  lemma ErasedProgrammable(m0: Data, m1: Data, addr: int, data: Data)
    requires 0 <= addr && 0 < |data| && InPart(m0, addr, |data|) && m1 == EraseRange(m0, Down(addr), Up(addr + |data|))
    ensures Programmable(m1, addr, data)
  {
    SpliceIntoErased(m0, addr, data);
    ProgramErased(m1, addr, |data|, data);
  }

  lemma StoppedAtErase(p: Part, q: Part, addr: int, data: Data, verify: bool, id: seq<Exchange>, ex: seq<Exchange>)
    requires FlashOnly(id) && |id| == 1 && Identified(p, addr, |data|, Nil, id[0])
    requires Erased(p, q, addr, |data|, false, ex)
    ensures WriteLeaves(p, q, addr, data, true, verify, EraseFailed, id + ex)
  {
    NoForgeryParts(id, ex);
    DeliveredParts(id, ex);
    EraseStops(id, ex, verify);
  }

  lemma WroteErased(p: Part, q: Part, r: Part, addr: int, data: Data, verify: bool, ok: bool,
                    id: seq<Exchange>, ex: seq<Exchange>, more: seq<Exchange>)
    requires data != [] && FlashOnly(id) && |id| == 1 && Identified(p, addr, |data|, Nil, id[0])
    requires Erased(p, q, addr, |data|, true, ex) && Programmed(q, r, addr, data, verify, ok, more)
    ensures WriteLeaves(p, r, addr, data, true, verify, if ok then Nil else WriteFailed, id + ex + more)
  {
    NoForgeryParts(id, ex);
    NoForgeryParts(id + ex, more);
    PhasesJoin(id, ex, more, verify, ok);
    DeliveredParts(id, ex);
    DeliveredParts(id + ex, more);
    DeliveredParts(more, []);
    KeepsOutsideTwice(p, q, r, Down(addr), Up(addr + |data|));
    if ok && NoForgery(id + ex + more) {
      ErasedThenWritten(p.mem, q.mem, r.mem, addr, data, verify);
    }
    if AllDelivered(id + ex + more) && CanFlash(p, addr, data, true, verify) {
      DeliveredParts(ex, []);
      ErasedProgrammable(p.mem, q.mem, addr, data);
    }
  }

  lemma WroteDirectly(p: Part, q: Part, addr: int, data: Data, verify: bool, ok: bool, id: seq<Exchange>,
                      ex: seq<Exchange>)
    requires FlashOnly(id) && |id| == 1 && Identified(p, addr, |data|, Nil, id[0])
    requires Programmed(p, q, addr, data, verify, ok, ex)
    ensures WriteLeaves(p, q, addr, data, false, verify, if ok then Nil else WriteFailed, id + ex)
  {
    NoForgeryParts(id, ex);
    DeliveredParts(id, ex);
    DeliveredParts(ex, []);
    PhasesJoin(id, [], ex, verify, ok);
  }

  /** spiWrite. */
  method SpiWrite(link: Link, addr: int, data: Data, erase: bool, verify: bool)
    returns (err: WriteError, ghost ex: seq<Exchange>)
    requires link.Valid() && data != []
    modifies link, link.pod, link.pod.mem
    ensures WriteLeaves(old(link.pod.State()), link.pod.State(), addr, data, erase, verify, err, ex)
    ensures link.log == old(link.log) + ex
  {
    err, ex := Identify(link, addr, |data|);
    KeepsAll(link.pod.State(), Down(addr), Up(addr + |data|));
    if !err.Nil? {
      return;
    }
    ghost var p, id, more := link.pod.State(), ex, [];
    var ok;
    if erase {
      ok, ex := ErasePhase(link, addr, |data|);
      if !ok {
        StoppedAtErase(p, link.pod.State(), addr, data, verify, id, ex);
        return EraseFailed, id + ex;
      }
      ghost var q := link.pod.State();
      ok, more := WritePhase(link, addr, data, verify);
      WroteErased(p, q, link.pod.State(), addr, data, verify, ok, id, ex, more);
      ex := id + ex + more;
    } else {
      ok, more := WritePhase(link, addr, data, verify);
      WroteDirectly(p, link.pod.State(), addr, data, verify, ok, id, more);
      ex := id + more;
    }
    err := if ok then Nil else WriteFailed;
  }
}
