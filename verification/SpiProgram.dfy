/**
  spi-flash write and read as a user runs them (cmd/benchpod-cli/spiflash.go): spiWrite inside a session, and
  a read of what was written.
*/
module SpiProgramming {
  import opened Bytes
  import opened Outcomes
  import opened NorPod
  import opened SpiLink
  import opened SpiFlash
  import opened SpiWriting
  import SpiSession

  datatype ProgramEnd = Programmed | NotOpened(why: SpiSession.SessionError) | NotWritten(error: WriteError)
    | NotCleaned

  /** What a session around spiWrite leaves on the pod, from p through m to q. */
  ghost predicate SessionLeaves(p: Part, q: Part, nreset: bool, addr: int, data: Data, erase: bool, verify: bool,
                                end: ProgramEnd, t: SpiSession.Phases, m: SpiSession.Marks) {
    && SpiSession.Ordered(t, nreset) && SpiSession.Ran(p, t, m) && m.released == q
    && KeepsOutside(m.started, m.worked, Down(addr), Up(addr + |data|)) && m.started.mem == p.mem
      && q.mem == m.worked.mem
    && (end.Programmed? ==>
          && !q.armed && (nreset ==> !q.nrst)
          && (NoForgery(t.work) ==> Written(p.mem, q.mem, addr, data, erase, verify)))
  }

  /** A cleanup that reported no failure has reached the pod. */
  lemma OkReached(ex: seq<Exchange>)
    requires !SpiSession.Failed(ex)
    ensures SpiSession.Succeeded(ex)
  {
    forall i | 0 <= i < |ex| ensures Acts(ex[i]) {
      assert Outcome(ex[i]).Ok?;
    }
  }

  lemma ClosedLeaves(p: Part, q: Part, nreset: bool, addr: int, data: Data, erase: bool, verify: bool,
                     end: ProgramEnd, t: SpiSession.Phases, m: SpiSession.Marks)
    requires SpiSession.Ordered(t, nreset) && SpiSession.Ran(p, t, m) && m.released == q
    requires KeepsOutside(m.started, m.worked, Down(addr), Up(addr + |data|))
    requires end.Programmed? ==>
               && SpiSession.Owed(t) && !SpiSession.Failed(t.stop) && !SpiSession.Failed(t.release)
               && (NoForgery(t.work) ==> Written(m.started.mem, m.worked.mem, addr, data, erase, verify))
    ensures SessionLeaves(p, q, nreset, addr, data, erase, verify, end, t, m)
  {
    SpiSession.HoldStep(p, t, nreset, m);
    SpiSession.StartStep(p, t, nreset, m);
    SpiSession.CleanupKeeps(p, t, nreset, m);
    if end.Programmed? {
      OkReached(t.stop);
      OkReached(t.release);
      SpiSession.PodLeftSafe(p, t, nreset, m);
    }
  }

  /** Answered commands of a session fail only in spi_start, and that only when the engine is taken. */
  lemma SessionAnswered(p: Part, t: SpiSession.Phases, nreset: bool, m: SpiSession.Marks)
    requires SpiSession.Ordered(t, nreset) && SpiSession.Ran(p, t, m)
    requires AllDelivered(t.hold) && AllDelivered(t.start) && AllDelivered(t.stop) && AllDelivered(t.release)
    ensures !SpiSession.Failed(t.hold) && !SpiSession.Failed(t.stop) && !SpiSession.Failed(t.release)
    ensures SpiSession.Failed(t.start) <==> p.busy || p.armed
    ensures !p.busy && !p.armed ==> m.started == p.(armed := true, nrst := m.started.nrst)
  {
    SpiSession.HoldStep(p, t, nreset, m);
    assert !SpiSession.Failed(t.hold);
    SpiSession.StartAnswered(m.held, t.start[0], m.started);
  }

  lemma PhasesDelivered(t: SpiSession.Phases)
    requires AllDelivered(t.All())
    ensures AllDelivered(t.hold) && AllDelivered(t.start) && AllDelivered(t.work)
    ensures AllDelivered(t.stop) && AllDelivered(t.release)
  {
    DeliveredParts(t.hold + t.start + t.work + t.stop, t.release);
    DeliveredParts(t.hold + t.start + t.work, t.stop);
    DeliveredParts(t.hold + t.start, t.work);
    DeliveredParts(t.hold, t.start);
  }

  /** How the session's failures and spiWrite's decide the end. */
  predicate Decides(t: SpiSession.Phases, wrote: WriteError, end: ProgramEnd) {
    && (end.NotOpened? <==> SpiSession.Failed(t.hold) || SpiSession.Failed(t.start))
    && (!end.NotOpened? ==> (end.NotWritten? <==> !wrote.Nil?) && (end.NotWritten? ==> end.error == wrote))
    && (end.NotCleaned? <==>
          && !end.NotOpened? && wrote.Nil?
          && (SpiSession.Failed(t.stop) || SpiSession.Failed(t.release)))
  }

  /** When every command is answered, the image goes in exactly when the engine is free and the part can take it. */
  lemma AnsweredSession(p: Part, t: SpiSession.Phases, nreset: bool, m: SpiSession.Marks, addr: int, data: Data,
                        erase: bool, verify: bool, wrote: WriteError, end: ProgramEnd)
    requires SpiSession.Ordered(t, nreset) && SpiSession.Ran(p, t, m) && Decides(t, wrote, end) && AllDelivered(t.All())
    requires !end.NotOpened? ==> WriteLeaves(m.started, m.worked, addr, data, erase, verify, wrote, t.work)
    ensures end.Programmed? <==> !p.busy && !p.armed && CanFlash(p.(armed := true), addr, data, erase, verify)
  {
    PhasesDelivered(t);
    SessionAnswered(p, t, nreset, m);
  }

  /**
    spi-flash write: a session with spiWrite as fn. Nothing outside the touched sectors changes on any path;
    success means the image is in place, the pod is disarmed and the reset is released.
  */
  method SessionWrite(link: Link, nreset: bool, addr: int, data: Data, erase: bool, verify: bool)
    returns (end: ProgramEnd, ghost t: SpiSession.Phases, ghost m: SpiSession.Marks, ghost wrote: WriteError)
    requires link.Valid() && data != []
    modifies link, link.pod, link.pod.mem
    ensures SessionLeaves(old(link.pod.State()), link.pod.State(), nreset, addr, data, erase, verify, end, t, m)
    ensures link.log == old(link.log) + t.All()
    ensures Decides(t, wrote, end)
    ensures !end.NotOpened? ==> WriteLeaves(m.started, m.worked, addr, data, erase, verify, wrote, t.work)
    ensures AllDelivered(t.All()) ==>
              (end.Programmed? <==>
                 && !link.pod.busy && !old(link.pod.armed)
                 && CanFlash(old(link.pod.State()).(armed := true), addr, data, erase, verify))
  {
    ghost var p := link.pod.State();
    var err, started, failure := SpiSession.Nil, false, Nil;
    err, started, t, m := SpiSession.Open(link, nreset);
    KeepsAll(m.started, Down(addr), Up(addr + |data|));
    if err.Nil? {
      ghost var ex;
      failure, ex := SpiWrite(link, addr, data, erase, verify);
      SpiSession.WorkLogged(old(link.log), t, ex);
      SpiSession.Worked(p, t, nreset, m, ex, link.pod.State());
      t, m := t.(work := ex), SpiSession.Marks(m.held, m.started, link.pod.State(), link.pod.State(), link.pod.State());
    }
    ghost var before := t;
    var cleaned;
    cleaned, t, m := SpiSession.Close(link, nreset, started, p, t, m);
    SpiSession.CleanupLogged(old(link.log), before, t);
    end := if !err.Nil? then NotOpened(err)
           else if !failure.Nil? then NotWritten(failure)
           else if !cleaned then NotCleaned
           else Programmed;
    ClosedLeaves(p, link.pod.State(), nreset, addr, data, erase, verify, end, t, m);
    wrote := failure;
    if AllDelivered(t.All()) {
      AnsweredSession(p, t, nreset, m, addr, data, erase, verify, wrote, end);
    }
  }

  // ── reading what was written ──

  /** Holding data at addr means any read inside it that an honest pod answers returns that part of it. */
  lemma ReadOfHeld(mem: Data, addr: int, data: Data, from: nat, to: nat, out: Data)
    requires Holds(mem, addr, data) && from < to <= |data|
    requires |out| == to - from && ReadSoFar(mem, addr + from, out)
    ensures out == data[from..to]
  {
    forall i | 0 <= i < |out| ensures out[i] == data[from + i] {
      assert out[i] == mem[addr + from..addr + from + |out|][i] == mem[addr + from + i];
    }
  }

  lemma SpliceHolds(mem: Data, addr: int, data: Data)
    requires InPart(mem, addr, |data|)
    ensures Holds(Splice(mem, addr, data), addr, data)
  {
  }

  lemma ReadOfWritten(before: Data, mem: Data, addr: int, data: Data, erase: bool, verify: bool, from: nat, to: nat,
                      out: Data)
    requires Written(before, mem, addr, data, erase, verify) && (erase || verify) && from < to <= |data|
    requires |out| == to - from && ReadSoFar(mem, addr + from, out)
    ensures out == data[from..to]
  {
    if erase {
      ReadBack(before, mem, addr, data, from, to);
    } else {
      SpliceHolds(before, addr, data);
      ReadOfHeld(mem, addr, data, from, to, out);
    }
  }

  /** A pod that takes an image can be read back over it, whatever is programmed. */
  lemma ReadableAfter(p: Part, q: Part, lo: int, hi: int, addr: int, data: Data, verify: bool, from: nat, to: nat)
    requires KeepsOutside(p, q, lo, hi) && p.armed && CanWrite(p.mem, addr, data, verify) && from < to <= |data|
    ensures CanRead(q, addr + from, to - from)
  {
  }

  lemma ReadsWritten(p: Part, q: Part, addr: int, data: Data, verify: bool, wrote: bool, ex: seq<Exchange>,
                     from: nat, to: nat, out: Data)
    requires SpiWriting.Programmed(p, q, addr, data, verify, wrote, ex) && from < to <= |data|
    requires wrote && NoForgery(ex) && Exact(p.mem, addr, |data|, verify)
    requires |out| == to - from && ReadSoFar(q.mem, addr + from, out)
    ensures out == data[from..to]
  {
    SpliceHolds(p.mem, addr, data);
    ReadOfHeld(q.mem, addr, data, from, to, out);
  }

  /** After Write: any sub-range reads back, when the write was verified or went to an erased range. */
  method WriteThenRead(link: Link, addr: int, data: Data, verify: bool, from: nat, to: nat)
    returns (wrote: bool, read: Option<Data>, ghost ex: seq<Exchange>, ghost later: seq<Exchange>)
    requires link.Valid() && from < to <= |data|
    modifies link, link.pod, link.pod.mem
    ensures link.log == old(link.log) + ex + later
    ensures NoForgery(ex) && NoForgery(later) && wrote && Exact(old(link.pod.mem[..]), addr, |data|, verify) ==>
              (read.Some? ==> read.value == data[from..to])
    ensures AllDelivered(ex) && AllDelivered(later) && old(link.pod.armed) ==>
              (CanWrite(old(link.pod.mem[..]), addr, data, verify) ==> wrote && read.Some?)
  {
    ghost var before := link.pod.State();
    wrote, ex := WritePhase(link, addr, data, verify);
    ghost var after := link.pod.State();
    if before.armed && CanWrite(before.mem, addr, data, verify) {
      ReadableAfter(before, after, Down(addr), Up(addr + |data|), addr, data, verify, from, to);
    }
    read, later := SpiFlash.Read(link, addr + from, to - from);
    if NoForgery(ex) && NoForgery(later) && wrote && Exact(before.mem, addr, |data|, verify) && read.Some? {
      ReadsWritten(before, after, addr, data, verify, wrote, ex, from, to, read.value);
    }
  }

  /** After spiWrite: any sub-range reads back, when it erased or verified. */
  method SpiWriteThenRead(link: Link, addr: int, data: Data, erase: bool, verify: bool, from: nat, to: nat)
    returns (err: WriteError, read: Option<Data>, ghost ex: seq<Exchange>, ghost later: seq<Exchange>)
    requires link.Valid() && from < to <= |data|
    modifies link, link.pod, link.pod.mem
    ensures link.log == old(link.log) + ex + later
    ensures NoForgery(ex) && NoForgery(later) && err.Nil? && (erase || verify) && read.Some? ==>
              read.value == data[from..to]
    ensures AllDelivered(ex) && AllDelivered(later) && CanFlash(old(link.pod.State()), addr, data, erase, verify) ==>
              err.Nil? && read.Some?
  {
    ghost var before := link.pod.State();
    err, ex := SpiWrite(link, addr, data, erase, verify);
    ghost var after := link.pod.State();
    if CanFlash(before, addr, data, erase, verify) {
      ReadableAfter(before, after, Down(addr), Up(addr + |data|), addr, data, verify && !erase, from, to);
    }
    read, later := SpiFlash.Read(link, addr + from, to - from);
    if NoForgery(ex) && NoForgery(later) && err.Nil? && (erase || verify) && read.Some? {
      ReadOfWritten(before.mem, after.mem, addr, data, erase, verify, from, to, read.value);
    }
  }
}
