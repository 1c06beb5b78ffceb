/**
  A Commander to the pod with everything that can go wrong on the way: refusals, lost requests, lost
  replies, false replies. It stands for a tcpclient.Session: an I/O failure breaks it for good.
*/
module SpiLink {
  import opened Bytes
  import opened Outcomes
  import opened NorPod

  /** What became of one command. */
  datatype Fate =
    | Delivered(reply: Reply)    // the pod acted and its own reply arrived
    | Rejected(message: string)  // the pod refused without acting
    | Dropped                    // an I/O failure; the request never reaches the pod
    | Pending                    // an I/O failure; the pod takes it after the spi_stop or the release, if ever
    | ReplyLost                  // the pod acted, then an I/O failure
    | Forged(reply: Reply)       // the pod acted, but another reply arrived
    | Unsent                     // the session was broken already

  /** ownConn: sent on a connection of its own (Client.Command) rather than on the session. */
  datatype Exchange = Exchange(req: Request, fate: Fate, ownConn: bool)

  function Acts(e: Exchange): bool {
    e.fate.Delivered? || e.fate.ReplyLost? || e.fate.Forged?
  }

  /** The fates that break a session. */
  predicate IoFailed(fate: Fate) {
    fate.Dropped? || fate.Pending? || fate.ReplyLost?
  }

  const IO_ERROR := "i/o timeout"

  /** What Command returns. An error reply is an error with the pod's message. */
  function Outcome(e: Exchange): Result<Reply> {
    match e.fate
    case Delivered(r) => if r.Refused? then Err(r.message) else Ok(r)
    case Forged(r) => if r.Refused? then Err(r.message) else Ok(r)
    case Rejected(m) => Err(m)
    case Dropped => Err(IO_ERROR)
    case Pending => Err(IO_ERROR)
    case ReplyLost => Err(IO_ERROR)
    case Unsent => Err("connection unusable after an earlier error")
  }

  /** What one exchange does to the pod: it acts exactly when the fate says so, and a delivered reply is its own. */
  ghost predicate PodStep(p: Part, e: Exchange, q: Part) {
    && q == (if Acts(e) then After(p, e.req) else p)
    && (e.fate.Delivered? ==> e.fate.reply == Answer(p, e.req))
  }

  /** A run of exchanges with the pod's states: ps[i] is its state before the i-th. */
  ghost predicate Trace(ps: seq<Part>, ex: seq<Exchange>) {
    |ps| == |ex| + 1 && forall i | 0 <= i < |ex| :: StepAt(ps, ex, i)
  }

  ghost predicate StepAt(ps: seq<Part>, ex: seq<Exchange>, i: nat) {
    i < |ex| && |ps| == |ex| + 1 && PodStep(ps[i], ex[i], ps[i + 1])
  }

  lemma TraceExtend(ps: seq<Part>, ex: seq<Exchange>, e: Exchange, q: Part)
    requires Trace(ps, ex) && PodStep(ps[|ex|], e, q)
    ensures Trace(ps + [q], ex + [e])
  {
    var ps', ex' := ps + [q], ex + [e];
    forall i | 0 <= i < |ex'| ensures StepAt(ps', ex', i) {
      if i < |ex| {
        assert StepAt(ps, ex, i);
      }
    }
  }

  predicate NoForgery(ex: seq<Exchange>) {
    forall i | 0 <= i < |ex| :: !ex[i].fate.Forged?
  }

  predicate AllOk(ex: seq<Exchange>) {
    forall i | 0 <= i < |ex| :: Outcome(ex[i]).Ok?
  }

  /** A command that succeeded on an honest pod was answered by the pod. */
  lemma OkIsDelivered(e: Exchange)
    requires Outcome(e).Ok? && !e.fate.Forged?
    ensures e.fate.Delivered? && !e.fate.reply.Refused? && Outcome(e) == Ok(e.fate.reply)
  {
  }

  class Link {
    const pod: FakePod
    var broken: bool
    /** Every command sent and what became of it. */
    ghost var log: seq<Exchange>

    ghost predicate Valid() {
      pod.Valid()
    }

    constructor (pod: FakePod)
      requires pod.Valid()
      ensures Valid() && !broken && log == [] && this.pod == pod
    {
      this.pod, broken, log := pod, false, [];
    }

    /** The pod side of one command: any fate. */
    method Transmit(req: Request) returns (fate: Fate)
      requires Valid()
      modifies pod, pod.mem
      ensures !fate.Unsent?
      ensures forall own :: PodStep(old(pod.State()), Exchange(req, fate, own), pod.State())
    {
      if {
        case true =>
          var reply := pod.Command(req);
          fate := Delivered(reply);
        case true =>
          var message: string := *;
          fate := Rejected(message);
        case true =>
          fate := Dropped;
        case true =>
          fate := Pending;
        case true =>
          var _ := pod.Command(req);
          fate := ReplyLost;
        case true =>
          var _ := pod.Command(req);
          var reply: Reply := *;
          fate := Forged(reply);
      }
    }

    /** Session.Command. */
    method Command(req: Request) returns (res: Result<Reply>, ghost e: Exchange)
      requires Valid()
      modifies `broken, `log, pod, pod.mem
      ensures log == old(log) + [e]
      ensures e.req == req && !e.ownConn && res == Outcome(e) && PodStep(old(pod.State()), e, pod.State())
      ensures e.fate.Unsent? <==> old(broken)
      ensures broken <==> old(broken) || IoFailed(e.fate)
    {
      var fate: Fate;
      if broken {
        fate := Unsent;
      } else {
        fate := Transmit(req);
        broken := IoFailed(fate);
      }
      e := Exchange(req, fate, false);
      log := log + [e];
      res := Outcome(Exchange(req, fate, false));
    }

    /** cleanupCommander.Command: the session while it is healthy, a connection of its own once it is not. */
    method Cleanup(req: Request) returns (res: Result<Reply>, ghost e: Exchange)
      requires Valid()
      modifies `broken, `log, pod, pod.mem
      ensures log == old(log) + [e]
      ensures e.req == req && (e.ownConn <==> old(broken)) && res == Outcome(e)
      ensures PodStep(old(pod.State()), e, pod.State())
      ensures !e.fate.Unsent?
      ensures broken <==> old(broken) || IoFailed(e.fate)
    {
      if broken {
        var fate := Transmit(req);
        e := Exchange(req, fate, true);
        log := log + [e];
        res := Outcome(Exchange(req, fate, true));
      } else {
        res, e := Command(req);
      }
    }
  }
}
