/** Reading, erasing and programming a range in bounded commands (internal/spiflash/spiflash.go). */
module SpiFlash {
  import opened Bytes
  import opened Outcomes
  import opened NorPod
  import opened SpiLink
  import Base64Url

  function CheckRange(addr: int, n: int): bool {
    addr >= 0 && n > 0 && addr + n <= ADDR_SPACE
  }

  /** Zero when the reply has no such field, as json.Unmarshal leaves it. */
  function AddrOf(r: Reply): int { if r.EraseReply? then r.addr else 0 }
  function LenOf(r: Reply): int { if r.EraseReply? then r.len else if r.WriteReply? then r.len else 0 }
  function VerifiedOf(r: Reply): bool { r.WriteReply? && r.verified }
  function TextOf(r: Reply): string { if r.ReadReply? then r.text else "" }

  /** The result of 64-bit addition: a dishonest reply's sum may wrap around. */
  function Wrap64(x: int): int {
    (x + 0x8000_0000_0000_0000) % 0x1_0000_0000_0000_0000 - 0x8000_0000_0000_0000
  }

  // ── erase ──

  /** Where erasing goes on after a step [at, at + l): at the end the reply reports when that is further. */
  function NextAt(at: int, l: int, r: Reply): int {
    var e := Wrap64(AddrOf(r) + LenOf(r));
    if LenOf(r) > 0 && e > at + l then e else at + l
  }

  function StepLen(at: int, end: int): int {
    Min(MAX_ERASE, end - at)
  }

  lemma WrapSmall(x: int)
    requires 0 <= x < 0x1_0000_0000
    ensures Wrap64(x) == x
  {
  }

  /** One round of Erase's loop: the command sent at `at`, and where the loop stands afterwards. */
  predicate EraseStep(end: int, at: int, e: Exchange, next: int) {
    && at < end && e.req == FlashErase(at, StepLen(at, end))
    && match Outcome(e)
       case Ok(r) => next == NextAt(at, StepLen(at, end), r)
       case Err(_) => next == at
  }

  /** A run of the loop: ats[i] is where the i-th command started, and only the last command may have failed. */
  ghost predicate EraseRun(addr: int, end: int, ats: seq<int>, ex: seq<Exchange>) {
    && |ats| == |ex| + 1 && ats[0] == addr
    && (forall i | 0 <= i < |ex| :: EraseStep(end, ats[i], ex[i], ats[i + 1]))
    && (forall i | 0 <= i < |ex| - 1 :: Outcome(ex[i]).Ok?)
  }

  /** The progress reports of a run: one for each command that succeeded. */
  ghost predicate EraseProgress(addr: int, end: int, ats: seq<int>, ex: seq<Exchange>, prog: seq<int>)
    requires |ats| == |ex| + 1
  {
    && |ex| - 1 <= |prog| <= |ex| && (|prog| == |ex| <==> AllOk(ex))
    && forall i | 0 <= i < |prog| :: prog[i] == Min(ats[i + 1], end) - addr
  }

  lemma StepAdvances(end: int, at: int, e: Exchange, next: int)
    requires EraseStep(end, at, e, next)
    ensures Outcome(e).Ok? ==> Min(next, end) > at && (next < end ==> next >= at + MAX_ERASE)
  {
  }

  lemma {:induction false} EraseAdvances(addr: int, end: int, ats: seq<int>, ex: seq<Exchange>, i: nat)
    requires EraseRun(addr, end, ats, ex) && i < |ex|
    ensures ats[i] >= addr + MAX_ERASE * i
  {
    if i > 0 {
      EraseAdvances(addr, end, ats, ex, i - 1);
      StepAdvances(end, ats[i - 1], ex[i - 1], ats[i]);
      assert EraseStep(end, ats[i], ex[i], ats[i + 1]);
    }
  }

  lemma Ceiling(k: nat, n: int)
    requires k > 0 && MAX_ERASE * (k - 1) < n
    ensures k <= (n + MAX_ERASE - 1) / MAX_ERASE
  {
  }

  lemma {:induction false} ProgressRises(addr: int, end: int, ats: seq<int>, ex: seq<Exchange>, prog: seq<int>,
                                         i: nat, j: nat)
    requires EraseRun(addr, end, ats, ex) && EraseProgress(addr, end, ats, ex, prog) && i < j < |prog|
    ensures prog[i] < prog[j]
  {
    assert Outcome(ex[j]).Ok?;
    StepAdvances(end, ats[j], ex[j], ats[j + 1]);
    if j > i + 1 {
      ProgressRises(addr, end, ats, ex, prog, i, j - 1);
    }
  }

  /**
    Whatever the pod replies, every command lies inside [addr, addr + n) and asks for 1 byte to 1 MB, and there are at
    most ceil(n / 1 MB).
  */
  lemma EraseRequestsBounded(addr: int, n: int, ats: seq<int>, ex: seq<Exchange>)
    requires n > 0 && EraseRun(addr, addr + n, ats, ex)
    ensures forall i | 0 <= i < |ex| ::
              ex[i].req.FlashErase? && addr <= ex[i].req.addr && 1 <= ex[i].req.n <= 0x10_0000
              && ex[i].req.addr + ex[i].req.n <= addr + n
    ensures |ex| <= (n + 0xF_FFFF) / 0x10_0000
  {
    forall i | 0 <= i < |ex|
      ensures ex[i].req.FlashErase? && addr <= ex[i].req.addr && 1 <= ex[i].req.n <= MAX_ERASE
              && ex[i].req.addr + ex[i].req.n <= addr + n
    {
      EraseAdvances(addr, addr + n, ats, ex, i);
      assert EraseStep(addr + n, ats[i], ex[i], ats[i + 1]);
    }
    if ex != [] {
      EraseAdvances(addr, addr + n, ats, ex, |ex| - 1);
      assert EraseStep(addr + n, ats[|ex| - 1], ex[|ex| - 1], ats[|ex|]);
      Ceiling(|ex|, n);
    }
  }

  /** ... and the reported progress rises strictly and ends at n once the loop is through. */
  lemma EraseProgressMonotone(addr: int, n: int, ats: seq<int>, ex: seq<Exchange>, prog: seq<int>)
    requires n > 0 && EraseRun(addr, addr + n, ats, ex) && EraseProgress(addr, addr + n, ats, ex, prog)
    ensures forall i, j | 0 <= i < j < |prog| :: prog[i] < prog[j]
    ensures ats[|ex|] >= addr + n ==> prog != [] && prog[|prog| - 1] == n
  {
    forall i, j | 0 <= i < j < |prog| ensures prog[i] < prog[j] {
      ProgressRises(addr, addr + n, ats, ex, prog, i, j);
    }
    if ats[|ex|] >= addr + n {
      assert EraseStep(addr + n, ats[|ex| - 1], ex[|ex| - 1], ats[|ex|]);
    }
  }

  // ── an honest pod erases the sector hull ──

  lemma HonestNext(p: Part, at: int, end: int, e: Exchange, next: int, q: Part)
    requires EraseStep(end, at, e, next) && 0 <= at && end <= ADDR_SPACE
    requires PodStep(p, e, q) && Outcome(e).Ok? && !e.fate.Forged?
    ensures next == Up(at + StepLen(at, end)) && next % SECTOR == 0 && Down(at) <= at < next <= Up(end)
    ensures q == p.(mem := EraseRange(p.mem, Down(at), next))
    ensures next >= end ==> next == Up(end)
  {
    var l := StepLen(at, end);
    EraseTaken(p, at, l);
    SectorBounds(at);
    SectorBounds(at + l);
    SectorBounds(end);
    WrapSmall(Up(at + l));
    UpMonotone(at + l, end);
  }

  /** Every address between a and the end of its sector has the same sector end; further addresses have a later one. */
  lemma UpMonotone(a: int, b: int)
    requires a <= b
    ensures Up(a) <= Up(b)
    ensures b <= Up(a) ==> Up(b) == Up(a)
  {
    SectorBounds(a);
    SectorBounds(b);
  }

  lemma ErasesCompose(mem: Data, s: int, m: int, e: int)
    requires s <= m <= e
    ensures EraseRange(EraseRange(mem, s, m), m, e) == EraseRange(mem, s, e)
  {
  }

  lemma EraseNothing(mem: Data, s: int)
    ensures EraseRange(mem, s, s) == mem
  {
  }

  /** Where the erased sectors end after i steps. */
  function ErasedTo(addr: int, ats: seq<int>, i: nat): int
    requires i < |ats|
  {
    if i == 0 then Down(addr) else ats[i]
  }

  /** i honest steps have erased whole sectors from addr's own on; the next one starts at a new sector. */
  lemma {:induction false} HonestErase(ps: seq<Part>, addr: int, end: int, ats: seq<int>, ex: seq<Exchange>, i: nat)
    requires EraseRun(addr, end, ats, ex) && Trace(ps, ex) && NoForgery(ex) && AllOk(ex)
    requires 0 <= addr && end <= ADDR_SPACE && i <= |ex|
    ensures ats[i] >= addr && Down(ats[i]) == ErasedTo(addr, ats, i) >= Down(addr)
    ensures i > 0 && ats[i] >= end ==> ats[i] == Up(end)
    ensures ps[i] == ps[0].(mem := EraseRange(ps[0].mem, Down(addr), ErasedTo(addr, ats, i)))
  {
    if i == 0 {
      EraseNothing(ps[0].mem, Down(addr));
    } else {
      HonestErase(ps, addr, end, ats, ex, i - 1);
      var at, next := ats[i - 1], ats[i];
      assert StepAt(ps, ex, i - 1);
      HonestNext(ps[i - 1], at, end, ex[i - 1], next, ps[i]);
      DownOfMultiple(next);
      ErasesCompose(ps[0].mem, Down(addr), Down(at), next);
    }
  }

  /** The sectors a command erases on an honest pod. */
  function Erased(r: Request): (int, int)
    requires r.FlashErase?
  {
    (Down(r.addr), Up(r.addr + r.n))
  }

  lemma HonestPieceAt(p: Part, at: int, end: int, e: Exchange, next: int, q: Part)
    requires EraseStep(end, at, e, next) && 0 <= at && end <= ADDR_SPACE
    requires PodStep(p, e, q) && Outcome(e).Ok? && !e.fate.Forged?
    ensures e.req.FlashErase? && Erased(e.req) == (Down(at), next) && Down(at) < next
  {
    HonestNext(p, at, end, e, next, q);
  }

  /** Honest commands erase the sectors between consecutive marks. */
  lemma HonestPiece(ps: seq<Part>, addr: int, end: int, ats: seq<int>, ex: seq<Exchange>, i: nat)
    requires EraseRun(addr, end, ats, ex) && Trace(ps, ex) && NoForgery(ex) && AllOk(ex)
    requires 0 <= addr && end <= ADDR_SPACE && i < |ex|
    ensures ex[i].req.FlashErase? && Erased(ex[i].req) == (ErasedTo(addr, ats, i), ats[i + 1])
    ensures ErasedTo(addr, ats, i) < ats[i + 1]
  {
    HonestErase(ps, addr, end, ats, ex, i);
    assert StepAt(ps, ex, i);
    HonestPieceAt(ps[i], ats[i], end, ex[i], ats[i + 1], ps[i + 1]);
  }

  /**
    A completed honest run erases exactly the whole sectors around [addr, addr + n), as adjacent pieces
    that cover the hull, no sector twice.
  */
  lemma HonestEraseHull(ps: seq<Part>, addr: int, n: int, ats: seq<int>, ex: seq<Exchange>)
    requires CheckRange(addr, n) && EraseRun(addr, addr + n, ats, ex) && ats[|ex|] >= addr + n
    requires Trace(ps, ex) && NoForgery(ex) && AllOk(ex)
    ensures ps[|ex|] == ps[0].(mem := EraseRange(ps[0].mem, Down(addr), Up(addr + n)))
    ensures ex != [] && forall i | 0 <= i < |ex| :: ex[i].req.FlashErase? && Erased(ex[i].req).0 < Erased(ex[i].req).1
    ensures Erased(ex[0].req).0 == Down(addr) && Erased(ex[|ex| - 1].req).1 == Up(addr + n)
    ensures forall i | 0 <= i < |ex| - 1 :: Erased(ex[i].req).1 == Erased(ex[i + 1].req).0
  {
    HonestErase(ps, addr, addr + n, ats, ex, |ex|);
    forall i | 0 <= i < |ex|
      ensures ex[i].req.FlashErase? && Erased(ex[i].req) == (ErasedTo(addr, ats, i), ats[i + 1])
              && ErasedTo(addr, ats, i) < ats[i + 1]
    {
      HonestPiece(ps, addr, addr + n, ats, ex, i);
    }
  }

  lemma EraseRunExtend(addr: int, end: int, ats: seq<int>, ex: seq<Exchange>, prog: seq<int>, e: Exchange, next: int)
    requires EraseRun(addr, end, ats, ex) && AllOk(ex) && EraseProgress(addr, end, ats, ex, prog)
    requires EraseStep(end, ats[|ex|], e, next)
    ensures EraseRun(addr, end, ats + [next], ex + [e])
    ensures Outcome(e).Err? ==> !AllOk(ex + [e]) && EraseProgress(addr, end, ats + [next], ex + [e], prog)
    ensures Outcome(e).Ok? ==>
              AllOk(ex + [e]) && EraseProgress(addr, end, ats + [next], ex + [e], prog + [Min(next, end) - addr])
  {
    var ats', ex' := ats + [next], ex + [e];
    assert ex'[|ex|] == e;
    forall i | 0 <= i < |ex'| ensures EraseStep(end, ats'[i], ex'[i], ats'[i + 1]) {
      if i < |ex| {
        assert EraseStep(end, ats[i], ex[i], ats[i + 1]);
      }
    }
  }

  /** Pod.Erase. */
  method Erase(link: Link, addr: int, n: int)
    returns (ok: bool, prog: seq<int>, ghost ats: seq<int>, ghost ex: seq<Exchange>, ghost ps: seq<Part>)
    requires link.Valid()
    modifies link, link.pod, link.pod.mem
    ensures link.log == old(link.log) + ex
    ensures Trace(ps, ex) && ps[0] == old(link.pod.State()) && ps[|ex|] == link.pod.State()
    ensures !CheckRange(addr, n) ==> !ok && ex == []
    ensures CheckRange(addr, n) ==>
              EraseRun(addr, addr + n, ats, ex) && EraseProgress(addr, addr + n, ats, ex, prog)
              && (ok <==> AllOk(ex) && ats[|ex|] >= addr + n) && (ok <==> AllOk(ex))
  {
    ats, ex, ps, prog := [addr], [], [link.pod.State()], [];
    if !CheckRange(addr, n) {
      return false, prog, ats, ex, ps;
    }
    var end, at := addr + n, addr;
    while at < end
      invariant link.log == old(link.log) + ex
      invariant Trace(ps, ex) && ps[0] == old(link.pod.State()) && ps[|ex|] == link.pod.State()
      invariant EraseRun(addr, end, ats, ex) && at == ats[|ex|] && EraseProgress(addr, end, ats, ex, prog)
      invariant AllOk(ex)
      decreases end - at
    {
      var l := Min(MAX_ERASE, end - at);
      var res, e := link.Command(FlashErase(at, l));
      TraceExtend(ps, ex, e, link.pod.State());
      ps := ps + [link.pod.State()];
      if res.Err? {
        EraseRunExtend(addr, end, ats, ex, prog, e, at);
        ats, ex := ats + [at], ex + [e];
        return false, prog, ats, ex, ps;
      }
      var next := at + l;
      var reported := Wrap64(AddrOf(res.value) + LenOf(res.value));
      if LenOf(res.value) > 0 && reported > next {
        next := reported;
      }
      EraseRunExtend(addr, end, ats, ex, prog, e, next);
      at := next;
      ats, ex, prog := ats + [at], ex + [e], prog + [Min(at, end) - addr];
    }
    return true, prog, ats, ex, ps;
  }

  // ── write ──

  /** The i-th chunk's start, and how far i chunks reach. */
  function Reach(n: nat, i: nat): nat {
    Min(i * MAX_WRITE, n)
  }

  function Chunk(data: Data, i: nat): Data {
    data[Reach(|data|, i)..Reach(|data|, i + 1)]
  }

  /** What Write takes as success of one chunk. */
  predicate Accepted(e: Exchange, chunk: Data, verify: bool) {
    var res := Outcome(e);
    res.Ok? && LenOf(res.value) == |chunk| && (verify ==> VerifiedOf(res.value))
  }

  /** A run of Write's loop: chunk after chunk in order, and only the last one may not have been accepted. */
  ghost predicate WriteRun(addr: int, data: Data, verify: bool, ex: seq<Exchange>) {
    && (forall i | 0 <= i < |ex| :: WriteStep(addr, data, verify, i, ex[i]))
    && (forall i | 0 <= i < |ex| - 1 :: Accepted(ex[i], Chunk(data, i), verify))
  }

  predicate WriteStep(addr: int, data: Data, verify: bool, i: nat, e: Exchange) {
    i * MAX_WRITE < |data| && e.req == FlashWrite(addr + i * MAX_WRITE, Base64Url.Encode(Chunk(data, i)), verify)
  }

  predicate AllAccepted(data: Data, verify: bool, ex: seq<Exchange>) {
    forall i | 0 <= i < |ex| :: Accepted(ex[i], Chunk(data, i), verify)
  }

  lemma ChunkBounds(data: Data, i: nat)
    requires i * MAX_WRITE < |data|
    ensures Reach(|data|, i) == i * 768 && 0 < |Chunk(data, i)| <= 768
    ensures Reach(|data|, i + 1) == i * MAX_WRITE + |Chunk(data, i)|
  {
  }

  lemma ProgramNothing(mem: Data, addr: int)
    ensures Program(mem, addr, []) == mem
  {
  }

  lemma ProgramsCompose(mem: Data, addr: int, a: Data, b: Data)
    ensures Program(Program(mem, addr, a), addr + |a|, b) == Program(mem, addr, a + b)
  {
  }

  /** Programming an erased range, or one whose read-back matches, leaves exactly the data there. */
  predicate Holds(mem: Data, addr: int, d: Data) {
    InPart(mem, addr, |d|) && forall i | 0 <= i < |d| :: mem[addr + i] == d[i]
  }

  predicate IsErased(mem: Data, addr: int, n: int) {
    InPart(mem, addr, n) && forall i | addr <= i < addr + n :: mem[i] == 0xFF
  }

  lemma ProgramErased(mem: Data, addr: int, n: int, d: Data)
    requires IsErased(mem, addr, n) && |d| <= n
    ensures Holds(Program(mem, addr, d), addr, d)
    ensures IsErased(Program(mem, addr, d), addr + |d|, n - |d|)
  {
    forall b: byte ensures And(0xFF, b) == b { AndErased(b); }
  }

  /** What an accepted chunk did on an honest pod: it is programmed, and with verify it read back equal. */
  ghost predicate ChunkDone(addr: int, data: Data, verify: bool, i: nat, p: Part, q: Part) {
    && InPart(p.mem, addr + Reach(|data|, i), |Chunk(data, i)|)
    && q == p.(mem := Program(p.mem, addr + Reach(|data|, i), Chunk(data, i)))
    && (verify ==> Holds(q.mem, addr + Reach(|data|, i), Chunk(data, i)))
  }

  lemma HonestWriteTaken(p: Part, at: int, d: Data, verify: bool, e: Exchange, q: Part)
    requires e.req == FlashWrite(at, Base64Url.Encode(d), verify) && 0 < |d| <= MAX_WRITE
    requires PodStep(p, e, q) && !e.fate.Forged? && Outcome(e).Ok?
    ensures InPart(p.mem, at, |d|) && q == p.(mem := Program(p.mem, at, d))
    ensures verify ==> q.mem[at..at + |d|] == d
  {
    OkIsDelivered(e);
    WriteTaken(p, at, d, verify);
  }

  lemma HonestChunk(addr: int, data: Data, verify: bool, i: nat, p: Part, e: Exchange, q: Part)
    requires WriteStep(addr, data, verify, i, e) && Accepted(e, Chunk(data, i), verify)
    requires PodStep(p, e, q) && !e.fate.Forged?
    ensures ChunkDone(addr, data, verify, i, p, q)
  {
    ChunkBounds(data, i);
    var at, d := addr + i * MAX_WRITE, Chunk(data, i);
    HonestWriteTaken(p, at, d, verify, e, q);
    if verify {
      ReadBackHolds(q.mem, at, d);
    }
  }

  lemma ReadBackHolds(mem: Data, at: int, d: Data)
    requires InPart(mem, at, |d|) && mem[at..at + |d|] == d
    ensures Holds(mem, at, d)
  {
    forall k | 0 <= k < |d| ensures mem[at + k] == d[k] {
      assert mem[at..at + |d|][k] == d[k];
    }
  }

  /** k chunks done in order from ps[0] to ps[k]. */
  ghost predicate ChunksDone(addr: int, data: Data, verify: bool, ps: seq<Part>, k: nat) {
    && k < |ps| && (forall i | 0 <= i < k :: i * MAX_WRITE < |data|)
    && forall i | 0 <= i < k :: ChunkDone(addr, data, verify, i, ps[i], ps[i + 1])
  }

  lemma HonestChunks(ps: seq<Part>, addr: int, data: Data, verify: bool, ex: seq<Exchange>, k: nat)
    requires WriteRun(addr, data, verify, ex) && Trace(ps, ex) && NoForgery(ex)
    requires k <= |ex| && (k > 0 ==> Accepted(ex[k - 1], Chunk(data, k - 1), verify))
    ensures ChunksDone(addr, data, verify, ps, k)
  {
    forall i | 0 <= i < k
      ensures i * MAX_WRITE < |data| && ChunkDone(addr, data, verify, i, ps[i], ps[i + 1])
    {
      assert WriteStep(addr, data, verify, i, ex[i]) && StepAt(ps, ex, i);
      HonestChunk(addr, data, verify, i, ps[i], ex[i], ps[i + 1]);
    }
  }

  lemma ReachStep(data: Data, i: nat)
    requires i * MAX_WRITE < |data|
    ensures data[..Reach(|data|, i)] + Chunk(data, i) == data[..Reach(|data|, i + 1)]
    ensures |data[..Reach(|data|, i)]| == Reach(|data|, i)
  {
    ChunkBounds(data, i);
  }

  /** Done chunks leave the old memory programmed with the image up to there, and nothing else changed. */
  lemma {:induction false} WrittenPrefix(addr: int, data: Data, verify: bool, ps: seq<Part>, k: nat)
    requires ChunksDone(addr, data, verify, ps, k)
    ensures ps[k] == ps[0].(mem := Program(ps[0].mem, addr, data[..Reach(|data|, k)]))
  {
    if k == 0 {
      ProgramNothing(ps[0].mem, addr);
      assert data[..Reach(|data|, 0)] == [];
    } else {
      WrittenPrefix(addr, data, verify, ps, k - 1);
      assert ChunkDone(addr, data, verify, k - 1, ps[k - 1], ps[k]);
      ReachStep(data, k - 1);
      ProgramsCompose(ps[0].mem, addr, data[..Reach(|data|, k - 1)], Chunk(data, k - 1));
    }
  }

  lemma ProgramKeepsBefore(mem: Data, addr: int, d: Data, at: int, held: Data)
    requires Holds(mem, at, held) && at + |held| <= addr
    ensures Holds(Program(mem, addr, d), at, held)
  {
  }

  lemma HoldsConcat(mem: Data, addr: int, a: Data, b: Data)
    requires Holds(mem, addr, a) && Holds(mem, addr + |a|, b)
    ensures Holds(mem, addr, a + b)
  {
  }

  lemma HoldsNext(mem: Data, addr: int, done: Data, d: Data, after: Data)
    requires Holds(mem, addr, done) && after == Program(mem, addr + |done|, d) && Holds(after, addr + |done|, d)
    ensures |after| == |mem| && Holds(after, addr, done + d)
  {
    ProgramKeepsBefore(mem, addr + |done|, d, addr, done);
    HoldsConcat(after, addr, done, d);
  }

  lemma VerifiedStep(addr: int, data: Data, k: nat, p: Part, q: Part)
    requires k * MAX_WRITE < |data| && ChunkDone(addr, data, true, k, p, q)
    requires Holds(p.mem, addr, data[..Reach(|data|, k)])
    ensures |q.mem| == |p.mem| && Holds(q.mem, addr, data[..Reach(|data|, k + 1)])
  {
    ReachStep(data, k);
    HoldsNext(p.mem, addr, data[..Reach(|data|, k)], Chunk(data, k), q.mem);
  }

  /** With verify the done chunks are in memory whatever was there before. */
  lemma {:induction false} VerifiedPrefix(addr: int, data: Data, ps: seq<Part>, k: nat)
    requires ChunksDone(addr, data, true, ps, k) && 0 <= addr <= |ps[0].mem|
    ensures |ps[k].mem| == |ps[0].mem| && Holds(ps[k].mem, addr, data[..Reach(|data|, k)])
  {
    if k > 0 {
      VerifiedPrefix(addr, data, ps, k - 1);
      VerifiedStep(addr, data, k - 1, ps[k - 1], ps[k]);
    }
  }

  /** mem with d in place of what is at addr. */
  function Splice(mem: Data, addr: int, d: Data): Data
    requires InPart(mem, addr, |d|)
  {
    mem[..addr] + d + mem[addr + |d|..]
  }

  lemma HoldsIsSplice(mem: Data, addr: int, d: Data)
    requires InPart(mem, addr, |d|) && Holds(Program(mem, addr, d), addr, d)
    ensures Program(mem, addr, d) == Splice(mem, addr, d)
  {
  }

  /** How many chunks Write sends. */
  function Chunks(n: nat): nat {
    (n + MAX_WRITE - 1) / MAX_WRITE
  }

  /** Write returned nil: every chunk went out and was accepted. */
  ghost predicate WriteOk(addr: int, data: Data, verify: bool, ex: seq<Exchange>) {
    WriteRun(addr, data, verify, ex) && AllAccepted(data, verify, ex) && |ex| == Chunks(|data|)
  }

  /** The condition under which a write leaves the image itself: it was verified, or the range was erased. */
  predicate Exact(mem: Data, addr: int, n: int, verify: bool) {
    verify || IsErased(mem, addr, n)
  }

  /**
    A write that succeeded on an honest pod: memory is the old memory programmed with the image. Verified or
    on an erased range, that is the old memory with the image in place and every other byte as it was.
  */
  lemma HonestWrite(ps: seq<Part>, addr: int, data: Data, verify: bool, ex: seq<Exchange>)
    requires CheckRange(addr, |data|) && WriteOk(addr, data, verify, ex) && Trace(ps, ex) && NoForgery(ex)
    ensures InPart(ps[0].mem, addr, |data|)
    ensures ps[|ex|] == ps[0].(mem := Program(ps[0].mem, addr, data))
    ensures Exact(ps[0].mem, addr, |data|, verify) ==> ps[|ex|].mem == Splice(ps[0].mem, addr, data)
  {
    var k := |ex|;
    HonestChunks(ps, addr, data, verify, ex, k);
    LastChunk(data, k);
    WrittenPrefix(addr, data, verify, ps, k);
    WrittenPrefix(addr, data, verify, ps, k - 1);
    assert ChunkDone(addr, data, verify, k - 1, ps[k - 1], ps[k]);
    assert data[..Reach(|data|, k)] == data;
    if verify {
      VerifiedPrefix(addr, data, ps, k);
      HoldsIsSplice(ps[0].mem, addr, data);
    } else if IsErased(ps[0].mem, addr, |data|) {
      ProgramErased(ps[0].mem, addr, |data|, data);
      HoldsIsSplice(ps[0].mem, addr, data);
    }
  }

  lemma LastChunk(data: Data, k: nat)
    requires |data| > 0 && k == Chunks(|data|)
    ensures k > 0 && Reach(|data|, k) == |data| && Reach(|data|, k - 1) + |Chunk(data, k - 1)| == |data|
  {
  }

  lemma AttemptEffect(p: Part, at: int, d: Data, verify: bool, e: Exchange, q: Part)
    requires e.req == FlashWrite(at, Base64Url.Encode(d), verify) && 0 < |d| <= MAX_WRITE
    requires PodStep(p, e, q)
    ensures q == p || q == p.(mem := Program(p.mem, at, d))
  {
    WriteEffect(p, at, d, verify);
  }

  lemma AttemptAt(addr: int, data: Data, verify: bool, k: nat, e: Exchange, p: Part, q: Part)
    requires WriteStep(addr, data, verify, k, e) && PodStep(p, e, q)
    ensures k * MAX_WRITE < |data|
    ensures q == p || q == p.(mem := Program(p.mem, addr + Reach(|data|, k), Chunk(data, k)))
  {
    ChunkBounds(data, k);
    AttemptEffect(p, addr + k * MAX_WRITE, Chunk(data, k), verify, e, q);
  }

  /** The last command of a run, whatever became of it, left the pod as it was or programmed its chunk. */
  lemma LastAttempt(ps: seq<Part>, addr: int, data: Data, verify: bool, ex: seq<Exchange>, k: nat)
    requires WriteRun(addr, data, verify, ex) && Trace(ps, ex) && k < |ex|
    ensures k * MAX_WRITE < |data|
    ensures ps[k + 1] == ps[k]
              || ps[k + 1] == ps[k].(mem := Program(ps[k].mem, addr + Reach(|data|, k), Chunk(data, k)))
  {
    assert WriteStep(addr, data, verify, k, ex[k]) && StepAt(ps, ex, k);
    AttemptAt(addr, data, verify, k, ex[k], ps[k], ps[k + 1]);
  }

  lemma AfterLastAttempt(mem: Data, before: Data, after: Data, addr: int, done: Data, d: Data)
    requires before == Program(mem, addr, done)
    requires after == before || after == Program(before, addr + |done|, d)
    ensures after == Program(mem, addr, done) || after == Program(mem, addr, done + d)
    ensures Holds(before, addr, done) ==> Holds(after, addr, done)
  {
    ProgramsCompose(mem, addr, done, d);
    if Holds(before, addr, done) {
      ProgramKeepsBefore(before, addr + |done|, d, addr, done);
    }
  }

  lemma DoneHolds(ps: seq<Part>, addr: int, data: Data, verify: bool, k: nat)
    requires ChunksDone(addr, data, verify, ps, k) && k > 0 && 0 <= addr
    requires Exact(ps[0].mem, addr, Reach(|data|, k), verify)
    ensures Holds(ps[k].mem, addr, data[..Reach(|data|, k)])
  {
    if verify {
      assert ChunkDone(addr, data, verify, 0, ps[0], ps[1]);
      VerifiedPrefix(addr, data, ps, k);
    } else {
      WrittenPrefix(addr, data, verify, ps, k);
      ProgramErased(ps[0].mem, addr, Reach(|data|, k), data[..Reach(|data|, k)]);
    }
  }

  /** A run whose last command may have failed: the chunks before it are done, the last is done or untouched. */
  lemma UntilLast(ps: seq<Part>, addr: int, data: Data, verify: bool, ex: seq<Exchange>, k: nat)
    requires WriteRun(addr, data, verify, ex) && Trace(ps, ex) && NoForgery(ex) && |ex| == k + 1
    ensures ChunksDone(addr, data, verify, ps, k) && k * MAX_WRITE < |data|
    ensures ps[k].mem == Program(ps[0].mem, addr, data[..Reach(|data|, k)])
    ensures ps[k + 1].mem == ps[k].mem || ps[k + 1].mem == Program(ps[k].mem, addr + Reach(|data|, k), Chunk(data, k))
  {
    HonestChunks(ps, addr, data, verify, ex, k);
    WrittenPrefix(addr, data, verify, ps, k);
    LastAttempt(ps, addr, data, verify, ex, k);
  }

  /**
    A write that failed at its last command: the chunks before it are programmed, that chunk is programmed or
    untouched, and everything beyond it is as before, also when the range runs past the end of the part. Verified
    or on an erased range the earlier chunks are the image.
  */
  lemma FailedWrite(ps: seq<Part>, addr: int, data: Data, verify: bool, ex: seq<Exchange>, k: nat)
    requires WriteRun(addr, data, verify, ex) && Trace(ps, ex) && NoForgery(ex) && |ex| == k + 1
    requires CheckRange(addr, |data|)
    ensures ps[k + 1].mem == Program(ps[0].mem, addr, data[..Reach(|data|, k)])
            || ps[k + 1].mem == Program(ps[0].mem, addr, data[..Reach(|data|, k + 1)])
    ensures k > 0 && Exact(ps[0].mem, addr, Reach(|data|, k), verify) ==>
              Holds(ps[k + 1].mem, addr, data[..Reach(|data|, k)])
  {
    UntilLast(ps, addr, data, verify, ex, k);
    ChunkBounds(data, k);
    var done, d := data[..Reach(|data|, k)], Chunk(data, k);
    assert done + d == data[..Reach(|data|, k + 1)];
    AfterLastAttempt(ps[0].mem, ps[k].mem, ps[k + 1].mem, addr, done, d);
    if k > 0 && Exact(ps[0].mem, addr, Reach(|data|, k), verify) {
      DoneHolds(ps, addr, data, verify, k);
    }
  }

  lemma WriteRunExtend(addr: int, data: Data, verify: bool, ex: seq<Exchange>, e: Exchange)
    requires WriteRun(addr, data, verify, ex) && AllAccepted(data, verify, ex) && WriteStep(addr, data, verify, |ex|, e)
    ensures WriteRun(addr, data, verify, ex + [e])
    ensures AllAccepted(data, verify, ex + [e]) <==> Accepted(e, Chunk(data, |ex|), verify)
  {
    var ex' := ex + [e];
    assert ex'[|ex|] == e;
    forall i | 0 <= i < |ex'| ensures WriteStep(addr, data, verify, i, ex'[i]) {
      if i < |ex| {
        assert WriteStep(addr, data, verify, i, ex[i]);
      }
    }
  }

  // ── when commands are answered ──

  /** Every command reached the pod, and its own reply came back. */
  predicate AllDelivered(ex: seq<Exchange>) {
    forall i | 0 <= i < |ex| :: ex[i].fate.Delivered?
  }

  /** An armed pod takes every erase of 1 byte to 1 MB inside the part. */
  lemma EraseAnswered(p: Part, at: int, n: int, e: Exchange, q: Part)
    requires e.req == FlashErase(at, n) && e.fate.Delivered? && PodStep(p, e, q)
    requires p.armed && 1 <= n <= MAX_ERASE && InPart(p.mem, at, n)
    ensures Outcome(e).Ok?
  {
  }

  /** ... and every chunk inside it that can be programmed there, if it is to be verified. */
  lemma ChunkAnswered(p: Part, at: int, d: Data, verify: bool, e: Exchange, q: Part)
    requires e.req == FlashWrite(at, Base64Url.Encode(d), verify) && e.fate.Delivered? && PodStep(p, e, q)
    requires p.armed && 0 < |d| <= MAX_WRITE && InPart(p.mem, at, |d|)
    requires verify ==> Holds(Program(p.mem, at, d), at, d)
    ensures Accepted(e, d, verify)
  {
    EncodedData(p.mem, at, d, verify);
    if verify {
      var m := Program(p.mem, at, d);
      assert m[at..at + |d|] == d;
    }
    assert Outcome(e) == Ok(WriteReply(|d|, verify));
  }

  /** A part of an image that can be programmed can be programmed, also after what comes before it. */
  lemma PartProgrammable(mem: Data, addr: int, data: Data, from: nat, to: nat)
    requires InPart(mem, addr, |data|) && from <= to <= |data| && Holds(Program(mem, addr, data), addr, data)
    ensures Holds(Program(Program(mem, addr, data[..from]), addr + from, data[from..to]), addr + from, data[from..to])
  {
    var before := Program(mem, addr, data[..from]);
    forall i | 0 <= i < to - from
      ensures Program(before, addr + from, data[from..to])[addr + from + i] == data[from..to][i]
    {
      assert Program(mem, addr, data)[addr + (from + i)] == data[from + i];
      assert before[addr + from + i] == mem[addr + from + i];
    }
  }

  /** Pod.Write. */
  method Write(link: Link, addr: int, data: Data, verify: bool)
    returns (ok: bool, ghost ex: seq<Exchange>, ghost ps: seq<Part>)
    requires link.Valid()
    modifies link, link.pod, link.pod.mem
    ensures link.log == old(link.log) + ex
    ensures Trace(ps, ex) && ps[0] == old(link.pod.State()) && ps[|ex|] == link.pod.State()
    ensures !CheckRange(addr, |data|) ==> !ok && ex == []
    ensures CheckRange(addr, |data|) ==> WriteRun(addr, data, verify, ex) && (ok <==> WriteOk(addr, data, verify, ex))
    ensures CheckRange(addr, |data|) && !ok ==> ex != [] && !Accepted(ex[|ex| - 1], Chunk(data, |ex| - 1), verify)
  {
    ex, ps := [], [link.pod.State()];
    if !CheckRange(addr, |data|) {
      return false, ex, ps;
    }
    var off := 0;
    while off < |data|
      invariant link.log == old(link.log) + ex
      invariant Trace(ps, ex) && ps[0] == old(link.pod.State()) && ps[|ex|] == link.pod.State()
      invariant WriteRun(addr, data, verify, ex) && AllAccepted(data, verify, ex)
      invariant off == |ex| * MAX_WRITE && off < |data| + MAX_WRITE
    {
      ChunkBounds(data, |ex|);
      var chunk := data[off..Min(off + MAX_WRITE, |data|)];
      assert chunk == Chunk(data, |ex|);
      var res, e := link.Command(FlashWrite(addr + off, Base64Url.Encode(chunk), verify));
      TraceExtend(ps, ex, e, link.pod.State());
      WriteRunExtend(addr, data, verify, ex, e);
      ex, ps := ex + [e], ps + [link.pod.State()];
      if res.Err? || LenOf(res.value) != |chunk| || (verify && !VerifiedOf(res.value)) {
        assert !Accepted(e, chunk, verify);
        return false, ex, ps;
      }
      off := off + MAX_WRITE;
    }
    return true, ex, ps;
  }

  // ── read ──

  /** What Read takes from a reply to a command for l bytes: exactly that many, or nothing. */
  function ReadData(l: nat, e: Exchange): Option<Data> {
    var res := Outcome(e);
    if res.Err? then None
    else
      var d := Base64Url.Decode(TextOf(res.value));
      if d.Ok? && |d.value| == l then Some(d.value) else None
  }

  lemma ReadText(p: Part, at: int, l: nat, e: Exchange, q: Part)
    requires e.req == FlashRead(at, l) && Outcome(e).Ok? && !e.fate.Forged? && PodStep(p, e, q)
    ensures InPart(p.mem, at, l) && TextOf(Outcome(e).value) == Base64Url.Encode(p.mem[at..at + l])
  {
    OkIsDelivered(e);
    ReadTaken(p, at, l);
  }

  /** An accepted read on an honest pod yields the memory there. */
  lemma HonestRead(p: Part, at: int, l: nat, e: Exchange, q: Part)
    requires e.req == FlashRead(at, l) && ReadData(l, e).Some? && !e.fate.Forged? && PodStep(p, e, q)
    ensures InPart(p.mem, at, l) && ReadData(l, e).value == p.mem[at..at + l]
  {
    ReadText(p, at, l, e, q);
    Base64Url.RoundTripUnpadded(p.mem[at..at + l]);
    assert |p.mem[at..at + l]| == l;
  }

  /** A read changes nothing, whatever becomes of it. */
  lemma ReadKeeps(p: Part, e: Exchange, q: Part)
    requires e.req.FlashRead? && PodStep(p, e, q)
    ensures q == p
  {
  }

  /** out is what an honest pod holds from addr on. */
  predicate ReadSoFar(mem: Data, addr: int, out: Data) {
    out != [] ==> InPart(mem, addr, |out|) && out == mem[addr..addr + |out|]
  }

  lemma ReadMore(p: Part, addr: int, out: Data, l: nat, e: Exchange, q: Part)
    requires 0 <= addr && 0 < l && ReadSoFar(p.mem, addr, out)
    requires e.req == FlashRead(addr + |out|, l) && ReadData(l, e).Some? && !e.fate.Forged? && PodStep(p, e, q)
    ensures ReadSoFar(p.mem, addr, out + ReadData(l, e).value)
  {
    HonestRead(p, addr + |out|, l, e, q);
    Joined(p.mem, addr, out, l);
  }

  lemma Joined(mem: Data, addr: int, out: Data, l: nat)
    requires ReadSoFar(mem, addr, out) && 0 <= addr && InPart(mem, addr + |out|, l)
    ensures ReadSoFar(mem, addr, out + mem[addr + |out|..addr + |out| + l])
  {
  }

  /** The i-th command of Read's loop. */
  predicate ReadStep(addr: int, n: int, i: nat, e: Exchange) {
    i * 1024 < n && e.req == FlashRead(addr + i * 1024, Min(1024, n - i * 1024))
  }

  /** What Read takes as success of its i-th command. */
  predicate ReadAccepted(n: int, i: nat, e: Exchange)
    requires i * MAX_READ < n
  {
    ReadData(Min(MAX_READ, n - i * MAX_READ), e).Some?
  }

  /** A run of Read's loop: command after command in order, and only the last one may not have been accepted. */
  ghost predicate ReadRun(addr: int, n: int, ex: seq<Exchange>) {
    && (forall i | 0 <= i < |ex| :: ReadStep(addr, n, i, ex[i]))
    && (forall i | 0 <= i < |ex| - 1 :: i * MAX_READ < n && ReadAccepted(n, i, ex[i]))
  }

  lemma ReadRunExtend(addr: int, n: int, ex: seq<Exchange>, e: Exchange)
    requires ReadRun(addr, n, ex) && AllRead(n, ex) && ReadStep(addr, n, |ex|, e)
    ensures ReadRun(addr, n, ex + [e])
    ensures AllRead(n, ex + [e]) <==> ReadAccepted(n, |ex|, e)
  {
    var ex' := ex + [e];
    assert ex'[|ex|] == e;
    forall i | 0 <= i < |ex'| ensures ReadStep(addr, n, i, ex'[i]) {
      if i < |ex| {
        assert ReadStep(addr, n, i, ex[i]);
      }
    }
  }

  predicate AllRead(n: int, ex: seq<Exchange>) {
    forall i | 0 <= i < |ex| :: i * MAX_READ < n && ReadAccepted(n, i, ex[i])
  }

  lemma NoForgeryExtend(ex: seq<Exchange>, e: Exchange)
    ensures NoForgery(ex + [e]) <==> NoForgery(ex) && !e.fate.Forged?
  {
    assert (ex + [e])[|ex|] == e;
    assert forall i | 0 <= i < |ex| :: (ex + [e])[i] == ex[i];
  }

  /** An armed pod answers every read of 1 to 1024 bytes inside the part. */
  lemma ReadAnswered(p: Part, at: int, l: nat, e: Exchange, q: Part)
    requires e.req == FlashRead(at, l) && e.fate.Delivered? && PodStep(p, e, q)
    requires p.armed && 1 <= l <= MAX_READ && InPart(p.mem, at, l)
    ensures Outcome(e) == Ok(ReadReply(Base64Url.Encode(p.mem[at..at + l])))
  {
  }

  lemma TextRead(d: Data, e: Exchange)
    requires Outcome(e) == Ok(ReadReply(Base64Url.Encode(d)))
    ensures ReadData(|d|, e) == Some(d)
  {
    Base64Url.RoundTripUnpadded(d);
  }

  predicate CanRead(p: Part, addr: int, n: int) {
    p.armed && 0 <= addr && 0 < n && addr + n <= ADDR_SPACE && InPart(p.mem, addr, n)
  }

  /** A command of the loop that was answered, on a pod that can be read, gives its bytes. */
  lemma StepAnswered(p: Part, addr: int, n: int, i: nat, e: Exchange, q: Part)
    requires ReadStep(addr, n, i, e) && PodStep(p, e, q)
    ensures CanRead(p, addr, n) && e.fate.Delivered? ==> ReadAccepted(n, i, e)
  {
    if CanRead(p, addr, n) && e.fate.Delivered? {
      var at, l := addr + i * MAX_READ, Min(MAX_READ, n - i * MAX_READ);
      ReadAnswered(p, at, l, e, q);
      TextRead(p.mem[at..at + l], e);
    }
  }

  /**
    Pod.Read: it succeeds exactly when every command did, and then an honest pod has given the memory of the range
    itself.
  */
  method Read(link: Link, addr: int, n: int) returns (res: Option<Data>, ghost ex: seq<Exchange>)
    requires link.Valid()
    modifies link, link.pod, link.pod.mem
    ensures link.pod.State() == old(link.pod.State()) && link.log == old(link.log) + ex
    ensures !CheckRange(addr, n) ==> res.None? && ex == []
    ensures CheckRange(addr, n) ==> ReadRun(addr, n, ex) && (res.Some? <==> AllRead(n, ex) && |ex| * MAX_READ >= n)
    ensures CheckRange(addr, n) ==> (res.Some? <==> AllRead(n, ex))
    ensures res.Some? ==> |res.value| == n > 0
    ensures res.Some? && NoForgery(ex) ==> ReadSoFar(old(link.pod.mem[..]), addr, res.value)
    ensures AllDelivered(ex) && CanRead(old(link.pod.State()), addr, n) ==> res.Some?
  {
    ex := [];
    if !CheckRange(addr, n) {
      return None, ex;
    }
    ghost var p := link.pod.State();
    var out: Data, off := [], 0;
    while off < n
      invariant link.pod.State() == p && link.log == old(link.log) + ex && |out| == Min(off, n)
      invariant off == |ex| * MAX_READ && ReadRun(addr, n, ex) && AllRead(n, ex)
      invariant NoForgery(ex) ==> ReadSoFar(p.mem, addr, out)
      decreases n - off
    {
      var l := Min(MAX_READ, n - off);
      var r, e := link.Command(FlashRead(addr + off, l));
      ReadKeeps(p, e, link.pod.State());
      ReadRunExtend(addr, n, ex, e);
      NoForgeryExtend(ex, e);
      if NoForgery(ex + [e]) && ReadData(l, e).Some? {
        ReadMore(p, addr, out, l, e, link.pod.State());
      }
      StepAnswered(p, addr, n, |ex|, e, link.pod.State());
      ex := ex + [e];
      assert ex[|ex| - 1] == e;
      if r.Err? {
        return None, ex;
      }
      var b := Base64Url.Decode(TextOf(r.value));
      if b.Err? || |b.value| != l {
        return None, ex;
      }
      out := out + b.value;
      off := off + MAX_READ;
    }
    return Some(out), ex;
  }
}
