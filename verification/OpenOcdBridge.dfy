/**
  runBridge as a step system. Five threads share it: main, the acceptor, the waiter on cmd.Wait and the
  two byte pumps; OpenOCD and the pod are the environment. A run is any sequence of steps each enabled
  when it happens, so a theorem about runs is one about every interleaving.
*/
module OpenOcdBridge {
  import opened Outcomes

  /** cmd.Wait's result: 0 is nil, anything else an error. */
  type ExitCode = int

  datatype Verdict =
    | Success
    | AcceptFailed
    | ExitedBeforeConnecting(code: ExitCode)
    | PodDropped(readErr: bool)
    | TargetUnreachable(code: ExitCode)
    | OpenOcdFailed(code: ExitCode)

  /** Where main stands in runBridge. */
  datatype Main =
    | Select                          // the select on acceptCh and waitCh
    | WaitAfterAcceptError            // about to call cmd.Wait after a failed accept
    | SecondWait                      // inside that call, with the waiter in its own
    | DrainAccept(code: ExitCode)     // OpenOCD exited first: the listener is closed, acceptCh drained
    | AwaitExit                       // both pumps started, blocked on waitCh
    | RecordExit(code: ExitCode)      // openocdExited.Store(true) comes next
    | CloseOpenOcd(code: ExitCode)
    | ClosePod(code: ExitCode)
    | Join(code: ExitCode)            // wg.Wait
    | Decide(code: ExitCode)
    | Returned(verdict: Verdict)

  datatype Accept = Accepting | Accepted | AcceptError

  /** The pod-to-OpenOCD pump: its copy ends, it reads openocdExited, it may record a dropped pod. */
  datatype FromPod = Idle | Copying | CopyEnded(err: bool) | SawRunning(err: bool) | Finished

  datatype ToPod = NotStarted | Pumping | PumpDone

  datatype Step =
    // the environment
    | OpenOcdConnects
    | OpenOcdExits(code: ExitCode)
    | StderrMarker
    | PodCloses
    | Forward
    // the acceptor and the waiter
    | AcceptReturns(ok: bool)
    | ProcessReaped
    | WaitReturns
    // main
    | TakeAccept
    | TakeExit
    | SecondWaitStarts
    | SecondWaitReturns
    | DrainReturns
    | StoreExited
    | CloseOpenOcdConn
    | ClosePodConn
    | JoinReturns
    | ReturnVerdict
    // the pumps
    | ToPodEnds
    | FromPodEnds(err: bool)
    | LoadExited
    | StoreDropped

  /** The accept goroutine and its channel. */
  datatype Acceptor = Acceptor(result: Accept, taken: bool)

  /**
    OpenOCD, and the wait goroutine's channel. matched is the scanner's finding on OpenOCD's stderr. reaped:
    cmd.ProcessState is set, and a later cmd.Wait returns at once. The context's watcher hands out one result,
    and a cmd.Wait that is under way cannot return without it: the waiter's takes it when it fills waitCh,
    main's when mainTook.
  */
  datatype Child = Child(connected: bool, matched: bool, exited: Option<ExitCode>, reaped: bool,
                         waitCh: Option<ExitCode>, waitTaken: bool, mainTook: bool)

  /** The two pumps and what the pod-to-OpenOCD pump recorded; a recorded drop also kills OpenOCD. */
  datatype Pumps = Pumps(toPod: ToPod, fromPod: FromPod, podDropped: bool, podReadErr: bool)

  /** The listener and the two connections. */
  datatype Ends = Ends(listening: bool, connOpen: bool, podOpen: bool)

  datatype State = State(main: Main, openocdExited: bool, acceptor: Acceptor, child: Child, pumps: Pumps, ends: Ends)

  /** Right after cmd.Start: the acceptor and the waiter run, main is at its select. */
  const INIT := State(Select, false, Acceptor(Accepting, false), Child(false, false, None, false, None, false, false),
                      Pumps(NotStarted, Idle, false, false), Ends(true, false, true))

  /** Steps the bridge takes itself; the others are OpenOCD's, the pod's and the traffic between them. */
  predicate IsOwn(step: Step) {
    !(step.OpenOcdConnects? || step.OpenOcdExits? || step.StderrMarker? || step.PodCloses? || step.Forward?)
  }

  predicate Enabled(s: State, step: Step) {
    var fromPod := s.pumps.fromPod;
    match step
    case OpenOcdConnects => s.child.exited.None? && s.ends.listening && !s.child.connected
    case OpenOcdExits(_) => s.child.exited.None?
    case StderrMarker => s.child.exited.None?
    case PodCloses => s.ends.podOpen
    case Forward => fromPod.Copying? && s.ends.connOpen && s.ends.podOpen
    // Accept returns OpenOCD's connection; it fails on its own, or for sure once the listener is closed.
    case AcceptReturns(ok) => s.acceptor.result.Accepting? && (ok ==> s.child.connected && s.ends.listening)
    case ProcessReaped => s.child.exited.Some? && !s.child.reaped
    case WaitReturns => s.child.reaped && s.child.waitCh.None? && !s.child.mainTook
    case TakeAccept => s.main.Select? && !s.acceptor.result.Accepting? && !s.acceptor.taken
    case TakeExit => (s.main.Select? || s.main.AwaitExit?) && s.child.waitCh.Some? && !s.child.waitTaken
    case SecondWaitStarts => s.main.WaitAfterAcceptError?
    case SecondWaitReturns => s.main.SecondWait? && s.child.reaped && s.child.waitCh.None?
    case DrainReturns => s.main.DrainAccept? && !s.acceptor.result.Accepting? && !s.acceptor.taken
    case StoreExited => s.main.RecordExit?
    case CloseOpenOcdConn => s.main.CloseOpenOcd?
    case ClosePodConn => s.main.ClosePod?
    case JoinReturns => s.main.Join? && s.pumps.toPod.PumpDone? && fromPod.Finished?
    case ReturnVerdict => s.main.Decide?
    // A copy may end at any time: end of stream, a bad frame, a failed write.
    case ToPodEnds => s.pumps.toPod.Pumping?
    case FromPodEnds(_) => fromPod.Copying?
    case LoadExited => fromPod.CopyEnded?
    case StoreDropped => fromPod.SawRunning?
  }

  /** The end of runBridge. */
  function VerdictOf(s: State, code: ExitCode): Verdict {
    if s.pumps.podDropped then PodDropped(s.pumps.podReadErr)
    else if code != 0 then (if s.child.matched then TargetUnreachable(code) else OpenOcdFailed(code))
    else Success
  }

  function MainAfter(s: State, step: Step): Main
    requires Enabled(s, step)
  {
    match step
    case TakeAccept => if s.acceptor.result.AcceptError? then WaitAfterAcceptError else AwaitExit
    case TakeExit => if s.main.Select? then DrainAccept(s.child.waitCh.value) else RecordExit(s.child.waitCh.value)
    case SecondWaitStarts => if s.child.reaped then Returned(AcceptFailed) else SecondWait
    case SecondWaitReturns => Returned(AcceptFailed)
    case DrainReturns => Returned(ExitedBeforeConnecting(s.main.code))
    case StoreExited => CloseOpenOcd(s.main.code)
    case CloseOpenOcdConn => ClosePod(s.main.code)
    case ClosePodConn => Join(s.main.code)
    case JoinReturns => Decide(s.main.code)
    case ReturnVerdict => Returned(VerdictOf(s, s.main.code))
    case _ => s.main
  }

  function AcceptorAfter(a: Acceptor, step: Step): Acceptor {
    match step
    case AcceptReturns(ok) => a.(result := if ok then Accepted else AcceptError)
    case TakeAccept => a.(taken := true)
    case DrainReturns => a.(taken := true)
    case _ => a
  }

  function ChildAfter(c: Child, step: Step): Child {
    match step
    case OpenOcdConnects => c.(connected := true)
    case OpenOcdExits(code) => c.(exited := Some(code))
    case StderrMarker => c.(matched := true)
    case ProcessReaped => c.(reaped := true)
    case WaitReturns => c.(waitCh := c.exited)
    case SecondWaitReturns => c.(mainTook := true)
    case TakeExit => c.(waitTaken := true)
    case _ => c
  }

  function PumpsAfter(s: State, step: Step): Pumps
    requires Enabled(s, step)
  {
    var p := s.pumps;
    match step
    case TakeAccept => if s.acceptor.result.Accepted? then p.(toPod := Pumping, fromPod := Copying) else p
    case ToPodEnds => p.(toPod := PumpDone)
    case FromPodEnds(err) => p.(fromPod := CopyEnded(err))
    case LoadExited => p.(fromPod := if s.openocdExited then Finished else SawRunning(p.fromPod.err))
    case StoreDropped => Pumps(p.toPod, Finished, true, p.fromPod.err)
    case _ => p
  }

  /** The deferred closes run with every return. */
  function EndsAfter(s: State, step: Step): Ends {
    var e := s.ends;
    match step
    case PodCloses => e.(podOpen := false)
    case AcceptReturns(ok) => e.(connOpen := ok)
    case TakeExit => if s.main.Select? then e.(listening := false) else e
    case SecondWaitStarts => if s.child.reaped then e.(listening := false) else e
    case SecondWaitReturns => e.(listening := false)
    case CloseOpenOcdConn => e.(connOpen := false)
    case ClosePodConn => e.(podOpen := false)
    case ReturnVerdict => e.(listening := false)
    case _ => e
  }

  function After(s: State, step: Step): State
    requires Enabled(s, step)
  {
    State(MainAfter(s, step), s.openocdExited || step.StoreExited?, AcceptorAfter(s.acceptor, step),
          ChildAfter(s.child, step), PumpsAfter(s, step), EndsAfter(s, step))
  }

  /** The state after a run, or None when some step was not enabled. */
  function Exec(steps: seq<Step>): Option<State> {
    if steps == [] then Some(INIT)
    else
      var before := Exec(steps[..|steps| - 1]);
      var step := steps[|steps| - 1];
      if before.Some? && Enabled(before.value, step) then Some(After(before.value, step)) else None
  }

  // ── invariants of every run ──

  /** Induction over runs: a fact about trace and state that one step keeps holds after every run. */
  lemma {:induction false} Always(steps: seq<Step>, inv: (seq<Step>, State) -> bool)
    requires inv([], INIT)
    requires forall h, s, step :: inv(h, s) && Enabled(s, step) ==> inv(h + [step], After(s, step))
    requires Exec(steps).Some?
    ensures inv(steps, Exec(steps).value)
  {
    if steps != [] {
      var front, step := steps[..|steps| - 1], steps[|steps| - 1];
      Always(front, inv);
      assert steps == front + [step];
    }
  }

  /** The steps the trace must hold for the flags to be what they are. */
  ghost predicate Traced(h: seq<Step>, s: State) {
    && (s.acceptor.result.Accepted? <==> AcceptReturns(true) in h)
    && (s.acceptor.result.AcceptError? <==> AcceptReturns(false) in h)
    && (s.child.matched <==> StderrMarker in h) && (s.openocdExited <==> StoreExited in h)
    && (forall c :: s.child.exited == Some(c) <==> OpenOcdExits(c) in h)
  }

  lemma TracedStep(h: seq<Step>, s: State, step: Step)
    requires Traced(h, s) && Enabled(s, step)
    ensures Traced(h + [step], After(s, step))
  {
  }

  /** What ties main's place to the channels: the codes it holds are OpenOCD's, and each result is taken once. */
  ghost predicate Coherent(s: State) {
    && (s.child.waitCh.Some? ==> s.child.waitCh == s.child.exited)
    && (s.main.Select? ==> !s.acceptor.taken && !s.child.waitTaken)
    && (s.main.AwaitExit? ==> !s.child.waitTaken)
    && (s.main.DrainAccept? ==> !s.acceptor.taken && s.child.exited == Some(s.main.code))
    && (Exited(s.main) ==> s.child.exited == Some(s.main.code))
    && (s.main.WaitAfterAcceptError? || s.main.SecondWait? ==> s.acceptor.result.AcceptError?)
    && (s.child.reaped ==> s.child.exited.Some?) && (s.child.waitCh.Some? ==> s.child.reaped)
  }

  lemma CoherentStep(s: State, step: Step)
    requires Coherent(s) && Enabled(s, step)
    ensures Coherent(After(s, step))
  {
  }

  /** The pumps run exactly on the bridging path. */
  ghost predicate PumpsStarted(s: State) {
    && (s.main.AwaitExit? || Exited(s.main) ==>
          s.acceptor.result.Accepted? && !s.pumps.toPod.NotStarted? && !s.pumps.fromPod.Idle?)
    && (s.main.Select? || s.main.WaitAfterAcceptError? || s.main.SecondWait? || s.main.DrainAccept? ==>
          s.pumps == Pumps(NotStarted, Idle, false, false))
    && (s.pumps.podDropped ==> s.pumps.fromPod.Finished?)
  }

  lemma PumpsStartedStep(s: State, step: Step)
    requires PumpsStarted(s) && Enabled(s, step)
    ensures PumpsStarted(After(s, step))
  {
  }

  // ── what a run's trace says about its verdict ──

  /** main took OpenOCD's connection. */
  predicate Bridged(h: seq<Step>) {
    TakeAccept in h && AcceptReturns(true) in h
  }

  /** The pump read openocdExited before main had stored it ... */
  predicate LoadedBeforeStore(h: seq<Step>) {
    exists i | 0 <= i < |h| :: h[i] == LoadExited && StoreExited !in h[..i]
  }

  /** ... or after. */
  predicate LoadedAfterStore(h: seq<Step>) {
    exists i | 0 <= i < |h| :: h[i] == LoadExited && StoreExited in h[..i]
  }

  /** What must have happened in a run that returned v. */
  predicate Explains(h: seq<Step>, v: Verdict) {
    match v
    case Success => Bridged(h) && LoadedAfterStore(h) && OpenOcdExits(0) in h
    case AcceptFailed => TakeAccept in h && AcceptReturns(false) in h
    case ExitedBeforeConnecting(code) => TakeAccept !in h && OpenOcdExits(code) in h
    case PodDropped(readErr) => Bridged(h) && LoadedBeforeStore(h) && FromPodEnds(readErr) in h
    case TargetUnreachable(code) =>
      Bridged(h) && LoadedAfterStore(h) && code != 0 && OpenOcdExits(code) in h && StderrMarker in h
    case OpenOcdFailed(code) =>
      Bridged(h) && LoadedAfterStore(h) && code != 0 && OpenOcdExits(code) in h && StderrMarker !in h
  }

  predicate Exited(m: Main) {
    m.RecordExit? || m.CloseOpenOcd? || m.ClosePod? || m.Join? || m.Decide?
  }

  lemma LoadAppended(h: seq<Step>, step: Step)
    ensures LoadedBeforeStore(h + [step]) <==> LoadedBeforeStore(h) || (step.LoadExited? && StoreExited !in h)
    ensures LoadedAfterStore(h + [step]) <==> LoadedAfterStore(h) || (step.LoadExited? && StoreExited in h)
  {
    var t := h + [step];
    assert t[..|h|] == h && t[|h|] == step;
    forall i | 0 <= i < |h| ensures t[i] == h[i] && t[..i] == h[..i] {}
  }

  /** The pump reads openocdExited once; what it read decides whether the pod counts as dropped. */
  ghost predicate Loads(h: seq<Step>, s: State) {
    var p := s.pumps;
    && (p.podDropped || p.fromPod.SawRunning? <==> LoadedBeforeStore(h))
    && (p.fromPod.Finished? && !p.podDropped <==> LoadedAfterStore(h))
    && (p.podDropped ==> p.fromPod.Finished?)
  }

  lemma LoadsStep(h: seq<Step>, s: State, step: Step)
    requires Traced(h, s) && PumpsStarted(s) && Loads(h, s) && Enabled(s, step)
    ensures Loads(h + [step], After(s, step))
  {
    LoadAppended(h, step);
  }

  ghost predicate CopyErrors(h: seq<Step>, s: State) {
    var p := s.pumps;
    && (p.fromPod.Idle? || p.fromPod.Copying? ==> forall e :: FromPodEnds(e) !in h)
    && (p.fromPod.CopyEnded? || p.fromPod.SawRunning? ==> forall e :: FromPodEnds(e) in h <==> e == p.fromPod.err)
    && (p.podDropped ==> p.fromPod.Finished? && forall e :: FromPodEnds(e) in h <==> e == p.podReadErr)
  }

  lemma CopyErrorsStep(h: seq<Step>, s: State, step: Step)
    requires PumpsStarted(s) && CopyErrors(h, s) && Enabled(s, step)
    ensures CopyErrors(h + [step], After(s, step))
  {
  }

  /** main's place tells which branch of the select it took, and a verdict is explained by the trace. */
  ghost predicate Path(h: seq<Step>, s: State) {
    && (s.main.Select? || s.main.DrainAccept? ==> TakeAccept !in h)
    && (s.main.WaitAfterAcceptError? || s.main.SecondWait? || s.main.AwaitExit? || Exited(s.main) ==> TakeAccept in h)
    && (s.main.Decide? ==> s.pumps.fromPod.Finished?)
    && (!s.pumps.fromPod.Idle? ==> TakeAccept in h && s.acceptor.result.Accepted?)
  }

  ghost predicate Concluded(h: seq<Step>, s: State) {
    s.main.Returned? ==>
      Explains(h, s.main.verdict) && s.child.exited.Some? && !s.acceptor.result.Accepting?
      && (s.pumps.fromPod.Idle? || s.pumps.fromPod.Finished?)
  }

  lemma VerdictExplained(h: seq<Step>, s: State)
    requires Traced(h, s) && Coherent(s) && PumpsStarted(s) && Loads(h, s) && CopyErrors(h, s) && Path(h, s)
    requires s.main.Decide?
    ensures Explains(h, VerdictOf(s, s.main.code))
  {
  }

  lemma PathStep(h: seq<Step>, s: State, step: Step)
    requires Path(h, s) && Enabled(s, step)
    ensures Path(h + [step], After(s, step))
  {
  }

  lemma StillConcluded(h: seq<Step>, s: State, step: Step)
    requires Traced(h, s) && Loads(h, s) && CopyErrors(h, s) && Concluded(h, s) && Enabled(s, step) && s.main.Returned?
    ensures Concluded(h + [step], After(s, step))
  {
    LoadAppended(h, step);
  }

  /** The returns before the bridge was set up: the accept failed, or OpenOCD exited first. */
  lemma ReturnsBefore(h: seq<Step>, s: State, step: Step)
    requires Traced(h, s) && Coherent(s) && PumpsStarted(s) && Path(h, s)
    requires !s.main.Returned? && !step.ReturnVerdict? && Enabled(s, step)
    ensures Concluded(h + [step], After(s, step))
  {
  }

  lemma ConcludedStep(h: seq<Step>, s: State, step: Step)
    requires Traced(h, s) && Coherent(s) && PumpsStarted(s) && Loads(h, s) && CopyErrors(h, s) && Path(h, s)
    requires Concluded(h, s) && Enabled(s, step)
    ensures Concluded(h + [step], After(s, step))
  {
    if s.main.Returned? {
      StillConcluded(h, s, step);
    } else if step.ReturnVerdict? {
      LoadAppended(h, step);
      VerdictExplained(h, s);
    } else {
      ReturnsBefore(h, s, step);
    }
  }

  // ── the theorems ──

  ghost predicate Invariant(h: seq<Step>, s: State) {
    && Traced(h, s) && Coherent(s) && PumpsStarted(s) && Loads(h, s) && CopyErrors(h, s) && Path(h, s)
    && Concluded(h, s) && EndsKnown(h, s) && WaitRace(h, s)
  }

  /** main called cmd.Wait while the waiter was still inside its own, before OpenOCD was reaped. */
  predicate TwoWaits(h: seq<Step>) {
    exists i | 0 <= i < |h| :: h[i] == SecondWaitStarts && ProcessReaped !in h[..i]
  }

  /** Of two waits under way, which one got the watcher's only result. */
  ghost predicate WaitRace(h: seq<Step>, s: State) {
    && (s.child.reaped <==> ProcessReaped in h) && (s.child.waitCh.Some? <==> WaitReturns in h)
    && (s.child.mainTook ==> s.child.waitCh.None? && s.main.Returned?)
    && (s.main.SecondWait? || s.child.mainTook <==> TwoWaits(h))
  }

  lemma WaitRaceStep(h: seq<Step>, s: State, step: Step)
    requires Coherent(s) && WaitRace(h, s) && Enabled(s, step)
    ensures WaitRace(h + [step], After(s, step))
  {
    TwoWaitsAppended(h, step);
  }

  lemma TwoWaitsAppended(h: seq<Step>, step: Step)
    ensures TwoWaits(h + [step]) <==> TwoWaits(h) || (step.SecondWaitStarts? && ProcessReaped !in h)
  {
    var t := h + [step];
    assert t[..|h|] == h && t[|h|] == step;
    forall i | 0 <= i < |h| ensures t[i] == h[i] && t[..i] == h[..i] {}
  }

  /** Which connections main has closed, by its place; an accepted connection main never took stays open. */
  ghost predicate EndsKnown(h: seq<Step>, s: State) {
    && (s.ends.connOpen ==> s.acceptor.result.Accepted?)
    && (s.main.ClosePod? || s.main.Join? || s.main.Decide? ==> !s.ends.connOpen)
    && (s.main.Join? || s.main.Decide? ==> !s.ends.podOpen)
    && (s.main.DrainAccept? ==> !s.ends.listening)
    && (s.main.Select? || s.main.DrainAccept? ==> (s.ends.connOpen <==> s.acceptor.result.Accepted?))
    && (s.main.Returned? ==>
          !s.ends.listening && (s.ends.connOpen <==> TakeAccept !in h && AcceptReturns(true) in h))
  }

  lemma EndsKnownStep(h: seq<Step>, s: State, step: Step)
    requires Traced(h, s) && Coherent(s) && PumpsStarted(s) && Path(h, s) && Concluded(h, s) && EndsKnown(h, s)
    requires Enabled(s, step)
    ensures EndsKnown(h + [step], After(s, step))
  {
  }

  lemma InvariantStep(h: seq<Step>, s: State, step: Step)
    requires Invariant(h, s) && Enabled(s, step)
    ensures Invariant(h + [step], After(s, step))
  {
    TracedStep(h, s, step);
    CoherentStep(s, step);
    PumpsStartedStep(s, step);
    LoadsStep(h, s, step);
    CopyErrorsStep(h, s, step);
    PathStep(h, s, step);
    ConcludedStep(h, s, step);
    EndsKnownStep(h, s, step);
    WaitRaceStep(h, s, step);
  }

  lemma InvariantAlways(steps: seq<Step>)
    requires Exec(steps).Some?
    ensures Invariant(steps, Exec(steps).value)
  {
    forall h, s, step | Invariant(h, s) && Enabled(s, step) ensures Invariant(h + [step], After(s, step)) {
      InvariantStep(h, s, step);
    }
    Always(steps, Invariant);
  }

  /** Two verdicts explained by one run agree: the explanations exclude each other. */
  lemma ExplanationsExclude(h: seq<Step>, s: State, v: Verdict)
    requires Invariant(h, s) && s.main.Returned? && Explains(h, v)
    ensures v == s.main.verdict
  {
  }

  /**
    The verdict of every run, exactly. In particular runBridge returns nil if and only if it took OpenOCD's
    connection, OpenOCD exited 0, and the pump from the pod read openocdExited after main had stored it.
  */
  lemma VerdictExact(steps: seq<Step>, s: State, v: Verdict)
    requires Exec(steps) == Some(s) && s.main.Returned?
    ensures s.main.verdict == v <==> Explains(steps, v)
  {
    InvariantAlways(steps);
    if Explains(steps, v) {
      ExplanationsExclude(steps, s, v);
    }
  }

  /** A pump that found OpenOCD running makes the verdict an error, whatever OpenOCD's exit code. */
  lemma DroppedPodNeverSucceeds(steps: seq<Step>, s: State)
    requires Exec(steps) == Some(s) && s.main.Returned?
    ensures LoadedBeforeStore(steps) <==> s.main.verdict.PodDropped?
  {
    InvariantAlways(steps);
    if LoadedBeforeStore(steps) {
      ExplanationsExclude(steps, s, PodDropped(s.pumps.podReadErr));
    }
  }

  /** OpenOCD's connection is left open by exactly the runs whose select took the exit although Accept had succeeded. */
  lemma LeakedConnection(steps: seq<Step>, s: State)
    requires Exec(steps) == Some(s) && s.main.Returned?
    ensures s.ends.connOpen <==> TakeAccept !in steps && AcceptReturns(true) in steps
    ensures !s.ends.listening && (Bridged(steps) ==> !s.ends.connOpen)
  {
    InvariantAlways(steps);
  }

  /** How far main's place says the shutdown has got. */
  ghost predicate Shutdown(h: seq<Step>, s: State) {
    && (s.pumps.toPod.PumpDone? <==> ToPodEnds in h)
    && (s.main.Decide? ==> s.pumps.toPod.PumpDone? && JoinReturns in h)
    && (CloseOpenOcdConn in h ==> StoreExited in h) && (StoreExited in h ==> TakeExit in h && s.child.exited.Some?)
    && (ClosePodConn in h ==> CloseOpenOcdConn in h) && (JoinReturns in h ==> ClosePodConn in h && ToPodEnds in h)
    && (s.main.CloseOpenOcd? ==> StoreExited in h) && (s.main.ClosePod? ==> CloseOpenOcdConn in h)
    && (s.main.Join? ==> ClosePodConn in h) && (s.main.RecordExit? ==> TakeExit in h)
    && (ClosePodConn in h ==> !s.ends.podOpen)
    && (s.main.Returned? && TakeAccept in h && s.acceptor.result.Accepted? ==>
          s.pumps.toPod.PumpDone? && s.pumps.fromPod.Finished? && JoinReturns in h)
  }

  lemma ShutdownStep(h: seq<Step>, s: State, step: Step)
    requires Traced(h, s) && Coherent(s) && PumpsStarted(s) && Path(h, s) && Concluded(h, s) && Shutdown(h, s)
    requires Enabled(s, step)
    ensures Shutdown(h + [step], After(s, step))
  {
  }

  lemma ShutdownAlways(steps: seq<Step>)
    requires Exec(steps).Some?
    ensures Traced(steps, Exec(steps).value) && Shutdown(steps, Exec(steps).value)
    ensures EndsKnown(steps, Exec(steps).value)
  {
    var inv := (h: seq<Step>, s: State) => Invariant(h, s) && Shutdown(h, s);
    forall h, s, step | inv(h, s) && Enabled(s, step) ensures inv(h + [step], After(s, step)) {
      InvariantStep(h, s, step);
      ShutdownStep(h, s, step);
    }
    Always(steps, inv);
  }

  /**
    A bridge that was set up returns only when both copies have ended, OpenOCD has exited and main has recorded it,
    and both connections are closed.
  */
  lemma ReturnsJoined(steps: seq<Step>, s: State)
    requires Exec(steps) == Some(s) && s.main.Returned? && Bridged(steps)
    ensures exists err :: FromPodEnds(err) in steps
    ensures exists code :: OpenOcdExits(code) in steps
    ensures ToPodEnds in steps && s.pumps.toPod.PumpDone? && s.pumps.fromPod.Finished? && StoreExited in steps
    ensures !s.ends.connOpen && !s.ends.podOpen && !s.ends.listening
  {
    ShutdownAlways(steps);
    EndedBefore(steps, s);
    assert OpenOcdExits(s.child.exited.value) in steps;
  }

  lemma EndedBefore(steps: seq<Step>, s: State)
    requires Exec(steps) == Some(s)
    ensures s.pumps.fromPod.Finished? ==> exists err :: FromPodEnds(err) in steps
  {
    var inv := (h: seq<Step>, s: State) =>
      s.pumps.fromPod.CopyEnded? || s.pumps.fromPod.SawRunning? || s.pumps.fromPod.Finished? ==>
        exists err :: FromPodEnds(err) in h;
    forall h, s, step | inv(h, s) && Enabled(s, step) ensures inv(h + [step], After(s, step)) {
      if step.FromPodEnds? {
        assert FromPodEnds(step.err) in h + [step];
      } else if exists err :: FromPodEnds(err) in h {
        var err :| FromPodEnds(err) in h;
        assert FromPodEnds(err) in h + [step];
      }
    }
    Always(steps, inv);
  }

  /**
    main closes nothing while OpenOCD runs: first the exit is recorded, then OpenOCD's connection goes, then the
    pod's.
  */
  lemma ClosesInOrder(steps: seq<Step>)
    requires Exec(steps).Some?
    ensures CloseOpenOcdConn in steps ==> StoreExited in steps && exists code :: OpenOcdExits(code) in steps
    ensures ClosePodConn in steps ==> CloseOpenOcdConn in steps
    ensures JoinReturns in steps ==> ClosePodConn in steps && ToPodEnds in steps
  {
    ShutdownAlways(steps);
    var s := Exec(steps).value;
    if s.child.exited.Some? {
      assert OpenOcdExits(s.child.exited.value) in steps;
    }
  }

  // ── progress ──

  function MainRank(m: Main): nat {
    match m
    case Select => 7
    case AwaitExit => 6
    case RecordExit(_) => 5
    case CloseOpenOcd(_) => 4
    case ClosePod(_) => 3
    case Join(_) => 2
    case Decide(_) => 1
    case WaitAfterAcceptError => 2
    case SecondWait => 1
    case DrainAccept(_) => 1
    case Returned(_) => 0
  }

  function PumpRank(p: Pumps): nat {
    (if p.toPod.PumpDone? then 0 else 1)
    + (match p.fromPod
       case Idle => 3
       case Copying => 3
       case CopyEnded(_) => 2
       case SawRunning(_) => 1
       case Finished => 0)
  }

  /** How many steps of its own the bridge can still take. */
  function Remaining(s: State): nat {
    MainRank(s.main) + PumpRank(s.pumps)
    + (if s.acceptor.result.Accepting? then 1 else 0)
    + (if s.child.reaped then 0 else 1) + (if s.child.waitCh.None? then 1 else 0)
  }

  lemma OwnStepCounts(s: State, step: Step)
    requires Coherent(s) && PumpsStarted(s) && Enabled(s, step) && IsOwn(step)
    ensures Remaining(After(s, step)) < Remaining(s)
  {
  }

  lemma OtherStepKeeps(s: State, step: Step)
    requires Coherent(s) && PumpsStarted(s) && Enabled(s, step) && !IsOwn(step)
    ensures Remaining(After(s, step)) == Remaining(s)
  {
  }

  lemma StepRemaining(h: seq<Step>, s: State, step: Step)
    requires Invariant(h, s) && Enabled(s, step)
    ensures IsOwn(step) ==> Remaining(After(s, step)) < Remaining(s)
    ensures !IsOwn(step) ==> Remaining(After(s, step)) == Remaining(s)
  {
    if IsOwn(step) {
      OwnStepCounts(s, step);
    } else {
      OtherStepKeeps(s, step);
    }
  }

  function OwnSteps(steps: seq<Step>): nat {
    if steps == [] then 0
    else OwnSteps(steps[..|steps| - 1]) + (if IsOwn(steps[|steps| - 1]) then 1 else 0)
  }

  /** Whatever OpenOCD and the pod do, the bridge takes at most 14 steps of its own in any run. */
  lemma {:induction false} OwnStepsBounded(steps: seq<Step>)
    requires Exec(steps).Some?
    ensures OwnSteps(steps) + Remaining(Exec(steps).value) <= 14
  {
    if steps != [] {
      var front := steps[..|steps| - 1];
      OwnStepsBounded(front);
      InvariantAlways(front);
      StepRemaining(front, Exec(front).value, steps[|steps| - 1]);
    }
  }

  /** Two waits were under way and the waiter's got the result: main's has nothing to wait for. */
  predicate LostResult(h: seq<Step>) {
    TwoWaits(h) && WaitReturns in h
  }

  /** The step the bridge can take, unless main's wait has lost the result. */
  function NextOwn(s: State): Step {
    if s.acceptor.result.Accepting? then AcceptReturns(false)
    else if !s.child.reaped then ProcessReaped
    else if s.child.waitCh.None? then WaitReturns
    else
      match s.main
      case Select => TakeAccept
      case WaitAfterAcceptError => SecondWaitStarts
      case DrainAccept(_) => DrainReturns
      case AwaitExit => TakeExit
      case RecordExit(_) => StoreExited
      case CloseOpenOcd(_) => CloseOpenOcdConn
      case ClosePod(_) => ClosePodConn
      case Decide(_) => ReturnVerdict
      case _ =>
        if s.pumps.toPod.Pumping? then ToPodEnds
        else
          match s.pumps.fromPod
          case Copying => FromPodEnds(false)
          case CopyEnded(_) => LoadExited
          case SawRunning(_) => StoreDropped
          case _ => JoinReturns
  }

  lemma NextOwnEnabled(h: seq<Step>, s: State)
    requires Invariant(h, s) && s.child.exited.Some? && !s.main.Returned? && !LostResult(h)
    ensures IsOwn(NextOwn(s)) && Enabled(s, NextOwn(s))
  {
  }

  lemma LostMeansStuck(h: seq<Step>, s: State, step: Step)
    requires Invariant(h, s) && LostResult(h)
    ensures s.main.SecondWait? && !(IsOwn(step) && Enabled(s, step))
  {
  }

  /**
    Once OpenOCD has exited and until the bridge has returned, some step of its own is enabled exactly unless
    the accept failed, main called cmd.Wait before OpenOCD was reaped, and the waiter's cmd.Wait got the result.
  */
  lemma StuckIff(steps: seq<Step>, s: State)
    requires Exec(steps) == Some(s) && s.child.exited.Some? && !s.main.Returned?
    ensures (exists step :: IsOwn(step) && Enabled(s, step)) <==> !LostResult(steps)
    ensures LostResult(steps) ==> TakeAccept in steps && AcceptReturns(false) in steps
  {
    InvariantAlways(steps);
    if LostResult(steps) {
      forall step ensures !(IsOwn(step) && Enabled(s, step)) {
        LostMeansStuck(steps, s, step);
      }
    } else {
      NextOwnEnabled(steps, s);
    }
  }

  /** Then runBridge never returns, whatever happens next. */
  lemma LostResultHangs(steps: seq<Step>, more: seq<Step>, s: State)
    requires LostResult(steps) && Exec(steps + more) == Some(s)
    ensures s.main.SecondWait?
  {
    var all := steps + more;
    var i :| 0 <= i < |steps| && steps[i] == SecondWaitStarts && ProcessReaped !in steps[..i];
    assert all[i] == SecondWaitStarts && all[..i] == steps[..i];
    assert LostResult(all);
    InvariantAlways(all);
  }

  /**
    After both connections are closed nothing but the bridge's own steps can happen: every step counts down to the
    return.
  */
  lemma ClosedMeansOwnSteps(steps: seq<Step>, s: State, step: Step)
    requires Exec(steps) == Some(s) && (s.main.Join? || s.main.Decide?) && Enabled(s, step)
    ensures IsOwn(step) && Remaining(After(s, step)) < Remaining(s)
  {
    InvariantAlways(steps);
    StepRemaining(steps, s, step);
  }

  // ── the copy's end is not what decides ──

  /** The copy from the pod ended before main stored openocdExited. */
  predicate CopyEndedBeforeStore(h: seq<Step>) {
    exists i | 0 <= i < |h| :: h[i].FromPodEnds? && StoreExited !in h[..i]
  }

  lemma Extend(h: seq<Step>, s: State, step: Step) returns (h': seq<Step>, s': State)
    requires Exec(h) == Some(s) && Enabled(s, step)
    ensures h' == h + [step] && s' == After(s, step) && Exec(h') == Some(s')
  {
    h', s' := h + [step], After(s, step);
    assert h'[..|h|] == h;
  }

  lemma Connected() returns (h: seq<Step>, s: State)
    ensures Exec(h) == Some(s) && StoreExited !in h
    ensures s == INIT.(child := Child(true, false, None, false, None, false, false),
              acceptor := Acceptor(Accepted, false),
                       ends := Ends(true, true, true))
  {
    h, s := Extend([], INIT, OpenOcdConnects);
    h, s := Extend(h, s, AcceptReturns(true));
  }

  lemma CopyEndsEarly() returns (h: seq<Step>, s: State)
    ensures Exec(h) == Some(s) && StoreExited !in h && h != [] && h[|h| - 1] == FromPodEnds(true)
    ensures s == State(AwaitExit, false, Acceptor(Accepted, true), Child(true, false, None, false, None, false, false),
                       Pumps(Pumping, CopyEnded(true), false, false), Ends(true, true, true))
  {
    h, s := Connected();
    h, s := Extend(h, s, TakeAccept);
    h, s := Extend(h, s, FromPodEnds(true));
  }

  lemma ExitStored(h0: seq<Step>, s0: State) returns (h: seq<Step>, s: State)
    requires Exec(h0) == Some(s0)
    requires s0 == State(AwaitExit, false, Acceptor(Accepted, true),
               Child(true, false, None, false, None, false, false),
                         Pumps(Pumping, CopyEnded(true), false, false), Ends(true, true, true))
    ensures Exec(h) == Some(s) && h0 <= h
    ensures s == State(CloseOpenOcd(0), true, Acceptor(Accepted, true),
              Child(true, false, Some(0), true, Some(0), true, false),
                       Pumps(Pumping, CopyEnded(true), false, false), Ends(true, true, true))
  {
    h, s := Extend(h0, s0, OpenOcdExits(0));
    h, s := Extend(h, s, ProcessReaped);
    h, s := Extend(h, s, WaitReturns);
    h, s := Extend(h, s, TakeExit);
    h, s := Extend(h, s, StoreExited);
  }

  lemma LoadAfterStore(h0: seq<Step>, s0: State) returns (h: seq<Step>, s: State)
    requires Exec(h0) == Some(s0)
    requires s0 == State(AwaitExit, false, Acceptor(Accepted, true),
               Child(true, false, None, false, None, false, false),
                         Pumps(Pumping, CopyEnded(true), false, false), Ends(true, true, true))
    ensures Exec(h) == Some(s) && h0 <= h
    ensures s.main == CloseOpenOcd(0) && s.pumps == Pumps(PumpDone, Finished, false, false)
  {
    h, s := ExitStored(h0, s0);
    h, s := Extend(h, s, LoadExited);
    h, s := Extend(h, s, ToPodEnds);
  }

  /**
    A run can return nil although the copy from the pod ended before main stored openocdExited: the pump
    had not read the flag yet. So the end of the copy does not decide the verdict; the read of the flag does.
  */
  lemma EarlyEndCanSucceed() returns (h: seq<Step>, s: State)
    ensures Exec(h) == Some(s) && s.main == Returned(Success) && CopyEndedBeforeStore(h)
  {
    h, s := CopyEndsEarly();
    var early := h;
    h, s := LoadAfterStore(h, s);
    h, s := Extend(h, s, CloseOpenOcdConn);
    h, s := Extend(h, s, ClosePodConn);
    h, s := Extend(h, s, JoinReturns);
    h, s := Extend(h, s, ReturnVerdict);
    var i := |early| - 1;
    assert h[i] == FromPodEnds(true) && h[..i] == early[..i];
  }

  /** ... and such runs happen: OpenOCD connects and exits, with any status, and the select takes the exit. */
  lemma LeakHappens(code: int) returns (h: seq<Step>, s: State)
    ensures Exec(h) == Some(s) && s.main.Returned? && s.ends.connOpen
  {
    h, s := Connected();
    h, s := Extend(h, s, OpenOcdExits(code));
    h, s := Extend(h, s, ProcessReaped);
    h, s := Extend(h, s, WaitReturns);
    h, s := Extend(h, s, TakeExit);
    h, s := Extend(h, s, DrainReturns);
  }

  lemma BothWait() returns (h: seq<Step>, s: State)
    ensures Exec(h) == Some(s) && TwoWaits(h)
    ensures s == INIT.(main := SecondWait, acceptor := Acceptor(AcceptError, true))
  {
    h, s := Extend([], INIT, AcceptReturns(false));
    h, s := Extend(h, s, TakeAccept);
    TwoWaitsAppended(h, SecondWaitStarts);
    h, s := Extend(h, s, SecondWaitStarts);
  }

  /**
    A run that hangs: the accept fails while OpenOCD still runs, main waits for it too, OpenOCD exits with any status,
    and the waiter is served.
  */
  lemma HangHappens(code: int) returns (h: seq<Step>, s: State)
    ensures Exec(h) == Some(s) && s.child.exited.Some? && LostResult(h)
  {
    h, s := BothWait();
    TwoWaitsAppended(h, OpenOcdExits(code));
    h, s := Extend(h, s, OpenOcdExits(code));
    TwoWaitsAppended(h, ProcessReaped);
    h, s := Extend(h, s, ProcessReaped);
    TwoWaitsAppended(h, WaitReturns);
    h, s := Extend(h, s, WaitReturns);
  }
}
