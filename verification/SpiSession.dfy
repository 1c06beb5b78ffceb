/**
  Session: hold the DUT in reset, spi_start, the caller's commands, then always spi_stop and release the
  reset, in that order, over whichever connection still works.
*/
module SpiSession {
  import opened Outcomes
  import opened Text
  import opened NorPod
  import opened SpiLink

  /** isSPIBusy. */
  predicate IsSpiBusy(message: string) {
    Contains(message, "spi busy") || Contains(message, "swd or spi busy")
  }

  /** The commands of one session by phase. hold, start, stop and release have at most one each. */
  datatype Phases = Phases(hold: seq<Exchange>, start: seq<Exchange>, work: seq<Exchange>, stop: seq<Exchange>,
                           release: seq<Exchange>)
  {
    function All(): seq<Exchange> {
      hold + start + work + stop + release
    }
  }

  predicate IsOne(ex: seq<Exchange>, req: Request) {
    |ex| == 1 && ex[0].req == req
  }

  predicate Failed(ex: seq<Exchange>) {
    exists i | 0 <= i < |ex| :: Outcome(ex[i]).Err?
  }

  /** spi_start was sent and its refusal said another session has the engine. */
  predicate RefusedBusy(start: seq<Exchange>) {
    |start| == 1 && Outcome(start[0]).Err? && IsSpiBusy(Outcome(start[0]).error)
  }

  /** What Session sends, for every pattern of failures. */
  predicate Ordered(t: Phases, nreset: bool) {
    && (if nreset then IsOne(t.hold, Nrst(true)) else t.hold == [])
    && (if Failed(t.hold) then t.start == [] else IsOne(t.start, SpiStart))
    && (t.start == [] || Failed(t.start) ==> t.work == [])
    && (forall i | 0 <= i < |t.work| :: IsFlashCommand(t.work[i].req))
    && (if t.start != [] && !RefusedBusy(t.start) then IsOne(t.stop, SpiStop) else t.stop == [])
    && (if nreset then IsOne(t.release, Nrst(false)) else t.release == [])
  }

  function Count(ex: seq<Exchange>, req: Request): nat {
    if ex == [] then 0 else Count(ex[..|ex| - 1], req) + (if ex[|ex| - 1].req == req then 1 else 0)
  }

  lemma {:induction false} CountConcat(a: seq<Exchange>, b: seq<Exchange>, req: Request)
    ensures Count(a + b, req) == Count(a, req) + Count(b, req)
  {
    if b == [] {
      assert a + b == a;
    } else {
      assert (a + b)[..|a + b| - 1] == a + b[..|b| - 1];
      CountConcat(a, b[..|b| - 1], req);
    }
  }

  lemma {:induction false} CountNone(ex: seq<Exchange>, req: Request)
    requires forall i | 0 <= i < |ex| :: ex[i].req != req
    ensures Count(ex, req) == 0
  {
    if ex != [] {
      CountNone(ex[..|ex| - 1], req);
    }
  }

  lemma CountOne(ex: seq<Exchange>, req: Request, r: Request)
    requires IsOne(ex, r)
    ensures Count(ex, req) == if r == req then 1 else 0
  {
    assert ex[..0] == [];
  }

  lemma CountPhases(t: Phases, req: Request)
    ensures Count(t.All(), req)
      == Count(t.hold, req) + Count(t.start, req) + Count(t.work, req) + Count(t.stop, req) + Count(t.release, req)
  {
    CountConcat(t.hold, t.start, req);
    CountConcat(t.hold + t.start, t.work, req);
    CountConcat(t.hold + t.start + t.work, t.stop, req);
    CountConcat(t.hold + t.start + t.work + t.stop, t.release, req);
  }

  lemma CountPhase(ex: seq<Exchange>, r: Request, req: Request)
    requires ex == [] || IsOne(ex, r)
    ensures Count(ex, req) == if ex != [] && r == req then 1 else 0
  {
    if ex != [] {
      CountOne(ex, req, r);
    }
  }

  /** How often a session sends one of its own commands. */
  lemma CountOwn(t: Phases, nreset: bool, req: Request)
    requires Ordered(t, nreset) && !IsFlashCommand(req)
    ensures Count(t.All(), req)
      == (if t.hold != [] && req == Nrst(true) then 1 else 0) + (if t.start != [] && req == SpiStart then 1 else 0)
         + (if t.stop != [] && req == SpiStop then 1 else 0) + (if t.release != [] && req == Nrst(false) then 1 else 0)
  {
    CountPhases(t, req);
    CountPhase(t.hold, Nrst(true), req);
    CountPhase(t.start, SpiStart, req);
    CountNone(t.work, req);
    CountPhase(t.stop, SpiStop, req);
    CountPhase(t.release, Nrst(false), req);
  }

  /**
    For every pattern of failures: spi_stop goes out exactly once if spi_start went out and was not refused
    as busy, and else not at all; the reset is released exactly once if it was to be held, and else never.
  */
  lemma CleanupExactly(t: Phases, nreset: bool)
    requires Ordered(t, nreset)
    ensures Count(t.All(), SpiStart) == if Failed(t.hold) then 0 else 1
    ensures Count(t.All(), SpiStop) == if Count(t.All(), SpiStart) == 1 && !RefusedBusy(t.start) then 1 else 0
    ensures Count(t.All(), Nrst(false)) == if nreset then 1 else 0
  {
    CountOwn(t, nreset, SpiStart);
    CountOwn(t, nreset, SpiStop);
    CountOwn(t, nreset, Nrst(false));
  }

  /** Where a session's command belongs. */
  function Rank(r: Request): nat {
    match r
    case Nrst(hold) => if hold then 0 else 4
    case SpiStart => 1
    case SpiStop => 3
    case _ => 2
  }

  predicate InOrder(ex: seq<Exchange>) {
    forall i, j | 0 <= i < j < |ex| :: Rank(ex[i].req) <= Rank(ex[j].req)
  }

  predicate Below(ex: seq<Exchange>, r: nat) {
    forall i | 0 <= i < |ex| :: Rank(ex[i].req) < r
  }

  predicate Ranked(ex: seq<Exchange>, r: nat) {
    forall i | 0 <= i < |ex| :: Rank(ex[i].req) == r
  }

  lemma OrderConcat(a: seq<Exchange>, b: seq<Exchange>, r: nat)
    requires InOrder(a) && Below(a, r) && Ranked(b, r)
    ensures InOrder(a + b) && Below(a + b, r + 1)
  {
  }

  lemma PhaseRanks(t: Phases, nreset: bool)
    requires Ordered(t, nreset)
    ensures Ranked(t.hold, 0) && Ranked(t.start, 1) && Ranked(t.work, 2) && Ranked(t.stop, 3) && Ranked(t.release, 4)
  {
  }

  lemma PhasesInOrder(a: seq<Exchange>, b: seq<Exchange>, c: seq<Exchange>, d: seq<Exchange>, e: seq<Exchange>)
    requires Ranked(a, 0) && Ranked(b, 1) && Ranked(c, 2) && Ranked(d, 3) && Ranked(e, 4)
    ensures InOrder(a + b + c + d + e)
  {
    OrderConcat(a, b, 1);
    OrderConcat(a + b, c, 2);
    OrderConcat(a + b + c, d, 3);
    OrderConcat(a + b + c + d, e, 4);
  }

  /** The order on the wire: reset held, spi_start, the work, spi_stop, reset released. */
  lemma CleanupOrder(t: Phases, nreset: bool)
    requires Ordered(t, nreset)
    ensures InOrder(t.All())
  {
    PhaseRanks(t, nreset);
    PhasesInOrder(t.hold, t.start, t.work, t.stop, t.release);
  }

  // ── how the pod is left ──

  /** The pod's state between the phases. */
  datatype Marks = Marks(held: Part, started: Part, worked: Part, stopped: Part, released: Part)

  ghost predicate One(p: Part, ex: seq<Exchange>, q: Part) {
    if ex == [] then q == p else |ex| == 1 && PodStep(p, ex[0], q)
  }

  /**
    The phases ran on the pod from p, with m after each phase. The work phase only touches the memory, and that only
    by commands.
  */
  ghost predicate Ran(p: Part, t: Phases, m: Marks) {
    && One(p, t.hold, m.held) && One(m.held, t.start, m.started)
    && m.worked == m.started.(mem := m.worked.mem) && (t.work == [] ==> m.worked == m.started)
    && One(m.worked, t.stop, m.stopped) && One(m.stopped, t.release, m.released)
  }

  predicate Succeeded(ex: seq<Exchange>) {
    forall i | 0 <= i < |ex| :: Acts(ex[i])
  }

  lemma HoldStep(p: Part, t: Phases, nreset: bool, m: Marks)
    requires Ordered(t, nreset) && Ran(p, t, m)
    ensures m.held == p.(nrst := m.held.nrst) && (!nreset ==> m.held == p)
  {
  }

  lemma StartStep(p: Part, t: Phases, nreset: bool, m: Marks)
    requires Ordered(t, nreset) && Ran(p, t, m)
    ensures m.started == m.held.(armed := m.started.armed)
    ensures t.start == [] ==> m.started == m.held
    ensures m.held.armed ==> m.started == m.held
  {
  }

  /** Neither cleanup command touches the memory. */
  lemma CleanupKeeps(p: Part, t: Phases, nreset: bool, m: Marks)
    requires Ordered(t, nreset) && Ran(p, t, m)
    ensures m.released.mem == m.worked.mem
  {
  }

  lemma CleanupSteps(p: Part, t: Phases, nreset: bool, m: Marks)
    requires Ordered(t, nreset) && Ran(p, t, m) && Succeeded(t.stop) && Succeeded(t.release)
    ensures m.released.armed == (if t.stop != [] then false else m.started.armed)
    ensures m.released.nrst == (if nreset then false else m.started.nrst)
    ensures m.released.mem == m.worked.mem && m.released.busy == m.started.busy
  {
  }

  /**
    With the cleanup commands reaching the pod, and no earlier one still on its way, it is left disarmed unless
    spi_start was never sent or was refused as busy, and with the reset released. A pod that was armed by someone else
    stays so in exactly those cases.
  */
  lemma PodLeftSafe(p: Part, t: Phases, nreset: bool, m: Marks)
    requires Ordered(t, nreset) && Ran(p, t, m) && Succeeded(t.stop) && Succeeded(t.release)
    ensures t.start != [] && !RefusedBusy(t.start) ==> !m.released.armed
    ensures nreset ==> !m.released.nrst
    ensures !nreset ==> m.released.nrst == p.nrst
    ensures p.armed ==> (m.released.armed <==> t.start == [] || RefusedBusy(t.start))
    ensures m.released.busy == p.busy
  {
    HoldStep(p, t, nreset, m);
    StartStep(p, t, nreset, m);
    CleanupSteps(p, t, nreset, m);
  }

  /** An I/O failure does not read as busy. */
  lemma IoErrorIsNotBusy()
    ensures !IsSpiBusy(IO_ERROR)
  {
    NotContained(IO_ERROR, "spi busy");
    NotContained(IO_ERROR, "swd or spi busy");
  }

  lemma NotContained(s: string, p: string)
    requires p != "" && forall i | 0 <= i < |s| :: s[i] != p[0]
    ensures !Contains(s, p)
  {
    forall i: nat | i + |p| <= |s| ensures !OccursAt(s, p, i) {
      assert s[i..i + |p|][0] == s[i];
    }
  }

  lemma LostReplyIsNotBusy(start: seq<Exchange>)
    requires |start| == 1 && start[0].fate.ReplyLost?
    ensures !RefusedBusy(start)
  {
    IoErrorIsNotBusy();
  }

  /**
    The refusal's reply is what protects another session: lost on the way, spi_stop follows and takes that session
    down.
  */
  lemma LostRefusalStopsTheOther(p: Part, t: Phases, nreset: bool, m: Marks)
    requires Ordered(t, nreset) && Ran(p, t, m) && Succeeded(t.stop) && Succeeded(t.release)
    requires p.armed && t.start != [] && t.start[0].fate.ReplyLost?
    ensures !m.released.armed
  {
    LostReplyIsNotBusy(t.start);
    PodLeftSafe(p, t, nreset, m);
  }

  /**
    A command that was still on its way is taken when the cleanup is through, as the first connection is closed
    only then. The pod is left armed exactly if it was armed anyway, or that command is spi_start and the engine
    is free; reset is held exactly if it was anyway, or that command holds it; a flash command changes nothing.
    (Taken before the spi_stop it is a command whose reply was lost; between the two: LateBeforeReleaseIff.)
  */
  lemma LateCommandIff(p: Part, t: Phases, nreset: bool, m: Marks, e: Exchange)
    requires Ordered(t, nreset) && Ran(p, t, m) && Succeeded(t.stop) && Succeeded(t.release)
    requires e in t.hold + t.start + t.work && e.fate.Pending?
    ensures var late := After(m.released, e.req);
            && (late.armed <==> m.released.armed || (e.req == SpiStart && !p.busy))
            && (late.nrst <==> m.released.nrst || e.req == Nrst(true))
            && late.mem == m.released.mem
  {
    HoldStep(p, t, nreset, m);
    StartStep(p, t, nreset, m);
    CleanupSteps(p, t, nreset, m);
    if e in t.work {
      WorkIsStopped(t, nreset);
    }
  }

  lemma ReleaseStep(t: Phases, nreset: bool, a: Part, q: Part)
    requires Ordered(t, nreset) && One(a, t.release, q) && Succeeded(t.release)
    ensures q == a.(nrst := !nreset && a.nrst)
  {
  }

  /**
    Taken between the spi_stop and the release, it can still leave the pod armed, under the same condition, but
    no longer hold the reset.
  */
  lemma LateBeforeReleaseIff(p: Part, t: Phases, nreset: bool, m: Marks, e: Exchange, q: Part)
    requires Ordered(t, nreset) && Ran(p, t, m) && Succeeded(t.stop) && Succeeded(t.release)
    requires e in t.hold + t.start + t.work && e.fate.Pending?
    requires One(After(m.stopped, e.req), t.release, q)
    ensures q.armed <==> m.released.armed || (e.req == SpiStart && !p.busy)
    ensures q.nrst == m.released.nrst && q.mem == m.released.mem
  {
    ReleaseStep(t, nreset, m.stopped, m.released);
    ReleaseStep(t, nreset, After(m.stopped, e.req), q);
    HoldStep(p, t, nreset, m);
    StartStep(p, t, nreset, m);
    CleanupSteps(p, t, nreset, m);
    if e in t.work {
      WorkIsStopped(t, nreset);
    }
  }

  /** Work means spi_start succeeded, so spi_stop follows. */
  lemma WorkIsStopped(t: Phases, nreset: bool)
    requires Ordered(t, nreset) && t.work != []
    ensures Owed(t) && t.stop != []
  {
    assert !Failed(t.start);
    assert Outcome(t.start[0]).Ok?;
  }

  /**
    Such a session: the reply to spi_start does not come in time, the cleanup gets through, and the pod is armed after
    it.
  */
  lemma LateStartHappens() returns (p: Part, t: Phases, m: Marks)
    ensures Ordered(t, false) && Ran(p, t, m) && Succeeded(t.stop) && Succeeded(t.release)
    ensures t.start != [] && t.start[0].fate.Pending? && !m.released.armed && After(m.released, t.start[0].req).armed
  {
    p := Part([], false, false, false, true, 0);
    var start, stop := Exchange(SpiStart, Pending, false), Exchange(SpiStop, Delivered(Done), true);
    t := Phases([], [start], [], [stop], []);
    m := Marks(p, p, p, p, p);
    IoErrorIsNotBusy();
    assert PodStep(p, start, p) && PodStep(p, stop, p);
  }

  /**
    Such a session: the pod is armed for another client, the busy reply to spi_start is lost, and the cleanup gets
    through.
  */
  lemma LostRefusalHappens() returns (p: Part, t: Phases, m: Marks)
    ensures Ordered(t, false) && Ran(p, t, m) && Succeeded(t.stop) && Succeeded(t.release)
    ensures p.armed && t.start != [] && t.start[0].fate.ReplyLost? && !m.released.armed
  {
    p := Part([], true, false, false, true, 0);
    var off := p.(armed := false);
    var start, stop := Exchange(SpiStart, ReplyLost, false), Exchange(SpiStop, Delivered(Done), true);
    t := Phases([], [start], [], [stop], []);
    m := Marks(p, p, p, off, off);
    LostReplyIsNotBusy(t.start);
    assert PodStep(p, start, p) && PodStep(p, stop, off);
  }

  lemma BusyIsBusy()
    ensures IsSpiBusy(BUSY_MESSAGE)
  {
    assert OccursAt(BUSY_MESSAGE, "spi busy", 0);
  }

  lemma StartAnswered(p: Part, e: Exchange, q: Part)
    requires e.req == SpiStart && PodStep(p, e, q) && e.fate.Delivered?
    ensures Outcome(e) == (if p.busy || p.armed then Err(BUSY_MESSAGE) else Ok(Done))
    ensures q == if p.busy || p.armed then p else p.(armed := true)
  {
  }

  /**
    A session whose spi_start the pod answered is refused as busy exactly when another client had the engine.
    It then sends no work and no spi_stop, and leaves that client's session, the memory and the engine as they
    were; the reset line is all it has touched.
  */
  lemma BusyRefusalSparesTheOther(p: Part, t: Phases, nreset: bool, m: Marks)
    requires Ordered(t, nreset) && Ran(p, t, m) && t.start != [] && t.start[0].fate.Delivered?
    ensures RefusedBusy(t.start) <==> p.armed || p.busy
    ensures p.armed || p.busy ==> t.work == [] && t.stop == [] && m.released == p.(nrst := m.released.nrst)
  {
    HoldStep(p, t, nreset, m);
    StartAnswered(m.held, t.start[0], m.started);
    BusyIsBusy();
  }

  /** What the caller is told. */
  datatype SessionError = Nil | HoldFailed | StartFailed | WorkFailed | CleanupFailed

  /** fn: the caller's flash commands, sent until one fails; it may also fail for a reason of its own. */
  method Work(link: Link, commands: seq<Request>, ownFailure: bool) returns (ok: bool, ghost ex: seq<Exchange>)
    requires link.Valid() && forall i | 0 <= i < |commands| :: IsFlashCommand(commands[i])
    modifies link, link.pod, link.pod.mem
    ensures forall i | 0 <= i < |ex| :: IsFlashCommand(ex[i].req)
    ensures link.log == old(link.log) + ex && (ok <==> !ownFailure && !Failed(ex))
    ensures !Failed(ex) ==> |ex| == |commands|
    ensures |ex| <= |commands| && forall i | 0 <= i < |ex| :: ex[i].req == commands[i]
    ensures forall i | 0 <= i < |ex| - 1 :: Outcome(ex[i]).Ok?
    ensures link.pod.State() == old(link.pod.State()).(mem := link.pod.mem[..])
    ensures ex == [] ==> link.pod.State() == old(link.pod.State())
  {
    ex := [];
    var i := 0;
    while i < |commands|
      invariant 0 <= i == |ex| <= |commands| && !Failed(ex) && link.log == old(link.log) + ex
      invariant forall k | 0 <= k < |ex| :: IsFlashCommand(ex[k].req) && ex[k].req == commands[k] && Outcome(ex[k]).Ok?
      invariant link.pod.State() == old(link.pod.State()).(mem := link.pod.mem[..])
      invariant ex == [] ==> link.pod.State() == old(link.pod.State())
    {
      ghost var p := link.pod.State();
      var res, e := link.Command(commands[i]);
      FlashKeepsRest(p, e, link.pod.State());
      ex := ex + [e];
      if res.Err? {
        assert Outcome(ex[i]).Err?;
        return false, ex;
      }
      i := i + 1;
    }
    return !ownFailure, ex;
  }

  lemma FlashKeepsRest(p: Part, e: Exchange, q: Part)
    requires IsFlashCommand(e.req) && PodStep(p, e, q)
    ensures q == p.(mem := q.mem)
  {
  }

  /** What Session sends before its cleanup. */
  predicate OrderedWork(t: Phases, nreset: bool) {
    && (if nreset then IsOne(t.hold, Nrst(true)) else t.hold == [])
    && (if Failed(t.hold) then t.start == [] else IsOne(t.start, SpiStart))
    && (t.start == [] || Failed(t.start) ==> t.work == [])
    && (forall i | 0 <= i < |t.work| :: IsFlashCommand(t.work[i].req))
    && t.stop == [] && t.release == []
  }

  /** spi_stop is owed: spi_start went out and was not refused as busy. */
  predicate Owed(t: Phases) {
    t.start != [] && !RefusedBusy(t.start)
  }

  /** Up to fn: hold the reset and start; started says whether spi_stop is owed. */
  method Open(link: Link, nreset: bool) returns (err: SessionError, started: bool, ghost t: Phases, ghost m: Marks)
    requires link.Valid()
    modifies link, link.pod, link.pod.mem
    ensures OrderedWork(t, nreset) && Ran(old(link.pod.State()), t, m) && m.released == m.worked == link.pod.State()
    ensures t.work == [] && link.pod.mem[..] == old(link.pod.mem[..]) && link.log == old(link.log) + t.All()
    ensures started <==> Owed(t)
    ensures err.Nil? <==> !Failed(t.hold) && !Failed(t.start)
    ensures err.Nil? ==> t.start != []
    ensures err.HoldFailed? <==> Failed(t.hold)
    ensures err.StartFailed? <==> Failed(t.start)
    ensures err.Nil? || err.HoldFailed? || err.StartFailed?
  {
    ghost var p := link.pod.State();
    t, m := Phases([], [], [], [], []), Marks(p, p, p, p, p);
    started := false;
    if nreset {
      var res, e := link.Command(Nrst(true));
      p := link.pod.State();
      t, m := t.(hold := [e]), Marks(p, p, p, p, p);
      if res.Err? {
        return HoldFailed, false, t, m;
      }
    }
    started := true;
    var res, e := link.Command(SpiStart);
    p := link.pod.State();
    t, m := t.(start := [e]), Marks(m.held, p, p, p, p);
    if res.Err? {
      if IsSpiBusy(res.error) {
        started := false;
      }
      return StartFailed, started, t, m;
    }
    return Nil, true, t, m;
  }

  /** What a phase adds to a log that ends with the phases before it. */
  lemma WorkLogged(log: seq<Exchange>, t: Phases, ex: seq<Exchange>)
    requires t.work == [] && t.stop == [] && t.release == []
    ensures log + t.All() + ex == log + t.(work := ex).All()
  {
    assert t.(work := ex).All() == t.All() + ex;
  }

  lemma CleanupLogged(log: seq<Exchange>, before: Phases, t: Phases)
    requires before.stop == [] && before.release == [] && t == before.(stop := t.stop, release := t.release)
    ensures log + before.All() + t.stop + t.release == log + t.All()
  {
    assert t.All() == before.All() + t.stop + t.release;
  }

  /** fn has sent its flash commands. */
  lemma Worked(p: Part, t: Phases, nreset: bool, m: Marks, ex: seq<Exchange>, q: Part)
    requires OrderedWork(t, nreset) && Ran(p, t, m) && t.start != [] && !Failed(t.start) && t.work == []
    requires forall i | 0 <= i < |ex| :: IsFlashCommand(ex[i].req)
    requires q == m.worked.(mem := q.mem) && (ex == [] ==> q == m.worked)
    ensures OrderedWork(t.(work := ex), nreset) && Ran(p, t.(work := ex), Marks(m.held, m.started, q, q, q))
  {
  }

  lemma Stopped(p: Part, t: Phases, nreset: bool, m: Marks, e: Exchange, q: Part)
    requires OrderedWork(t, nreset) && Ran(p, t, m) && e.req == SpiStop && PodStep(m.worked, e, q)
    ensures Ran(p, t.(stop := [e]), m.(stopped := q, released := q))
  {
  }

  lemma Released(p: Part, t: Phases, m: Marks, e: Exchange, q: Part)
    requires Ran(p, t, m) && t.release == [] && PodStep(m.released, e, q)
    ensures Ran(p, t.(release := [e]), m.(released := q))
  {
  }

  lemma Closed(t: Phases, nreset: bool, stop: seq<Exchange>, release: seq<Exchange>)
    requires OrderedWork(t, nreset)
    requires if Owed(t) then IsOne(stop, SpiStop) else stop == []
    requires if nreset then IsOne(release, Nrst(false)) else release == []
    ensures Ordered(t.(stop := stop, release := release), nreset)
  {
  }

  /** The deferred cleanup, over the connection that works; cleaned says whether it succeeded. */
  method Close(link: Link, nreset: bool, started: bool, ghost p: Part, ghost before: Phases, ghost marks: Marks)
    returns (cleaned: bool, ghost t: Phases, ghost m: Marks)
    requires link.Valid() && OrderedWork(before, nreset) && Ran(p, before, marks) && marks.released == link.pod.State()
    requires started <==> Owed(before)
    modifies link, link.pod, link.pod.mem
    ensures Ordered(t, nreset) && Ran(p, t, m) && m.released == link.pod.State()
    ensures m.held == marks.held && m.started == marks.started && m.worked == marks.worked
    ensures t == before.(stop := t.stop, release := t.release) && link.log == old(link.log) + t.stop + t.release
    ensures cleaned <==> !Failed(t.stop) && !Failed(t.release)
    ensures forall e | e in t.stop + t.release :: !e.fate.Unsent?
  {
    t, m, cleaned := before, marks, true;
    if started {
      var res, e := link.Cleanup(SpiStop);
      Stopped(p, t, nreset, m, e, link.pod.State());
      t, m := t.(stop := [e]), m.(stopped := link.pod.State(), released := link.pod.State());
      cleaned := res.Ok?;
    }
    if nreset {
      var res, e := link.Cleanup(Nrst(false));
      Released(p, t, m, e, link.pod.State());
      t, m := t.(release := [e]), m.(released := link.pod.State());
      cleaned := cleaned && res.Ok?;
    }
    Closed(before, nreset, t.stop, t.release);
  }

  /**
    Session with any flash commands as fn. The deferred cleanup runs on every path, and its failure is reported only
    when all else succeeded.
  */
  method Session(link: Link, nreset: bool, commands: seq<Request>, ownFailure: bool)
    returns (err: SessionError, ghost t: Phases, ghost m: Marks)
    requires link.Valid() && forall i | 0 <= i < |commands| :: IsFlashCommand(commands[i])
    modifies link, link.pod, link.pod.mem
    ensures Ordered(t, nreset) && Ran(old(link.pod.State()), t, m) && m.released == link.pod.State()
    ensures err.Nil? <==>
              !Failed(t.hold) && !Failed(t.start) && !Failed(t.work) && !Failed(t.stop) && !Failed(t.release)
                && !ownFailure
    ensures err.HoldFailed? <==> Failed(t.hold)
    ensures err.StartFailed? <==> Failed(t.start)
    ensures err.WorkFailed? <==> !Failed(t.hold) && !Failed(t.start) && (Failed(t.work) || ownFailure)
    ensures |t.work| <= |commands| && forall i | 0 <= i < |t.work| :: t.work[i].req == commands[i]
    ensures !Failed(t.hold) && !Failed(t.start) && !Failed(t.work) ==> |t.work| == |commands|
    ensures forall i | 0 <= i < |t.work| - 1 :: Outcome(t.work[i]).Ok?
    ensures link.log == old(link.log) + t.All()
    ensures forall e | e in t.stop + t.release :: !e.fate.Unsent?
  {
    ghost var p := link.pod.State();
    var started;
    err, started, t, m := Open(link, nreset);
    if err.Nil? {
      var ok, ex := Work(link, commands, ownFailure);
      WorkLogged(old(link.log), t, ex);
      Worked(p, t, nreset, m, ex, link.pod.State());
      t, m := t.(work := ex), Marks(m.held, m.started, link.pod.State(), link.pod.State(), link.pod.State());
      err := if ok then Nil else WorkFailed;
    }
    ghost var before := t;
    var cleaned;
    cleaned, t, m := Close(link, nreset, started, p, t, m);
    CleanupLogged(old(link.log), before, t);
    if err.Nil? && !cleaned {
      err := CleanupFailed;
    }
  }
}
