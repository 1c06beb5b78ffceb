/**
  How the client reaches a pod over the LAN (internal/tcpclient/tls.go): TLS on 8443 first, plaintext
  8080 for a pod without it, certificates pinned on first use.
*/
module LanTls {
  import opened Outcomes
  import opened Text
  import TicketCache

  /** An address as net.SplitHostPort sees it; NoPort is one it rejects. */
  datatype Addr = HostPort(host: string, port: string) | NoPort(text: string)

  const PLAIN_PORT := "8080"
  const TLS_PORT := "8443"

  /** TLSDefault is resolved to DefaultTLSMode by the caller of the plan. */
  datatype Mode = Auto | On | Off

  /** The address of the TLS service, and the key of the pod's pin. */
  function TlsAddr(a: Addr): Addr {
    match a
    case NoPort(text) => HostPort(text, TLS_PORT)
    case HostPort(host, port) => if port == PLAIN_PORT then HostPort(host, TLS_PORT) else a
  }

  datatype Plan = Plan(tlsAddr: Option<Addr>, plainAddr: Option<Addr>, fallback: bool)

  /** usb: the hosts on the pod's USB network adapter. */
  function PlanDial(a: Addr, mode: Mode, usb: set<string>): Plan {
    match a
    case NoPort(_) => Plan(None, Some(a), false)
    case HostPort(host, port) =>
      if mode == Off then Plan(None, Some(a), false)
      else if port == TLS_PORT then Plan(Some(a), None, false)
      else if mode == On && port == PLAIN_PORT then Plan(Some(HostPort(host, TLS_PORT)), None, false)
      else if mode == On then Plan(Some(a), None, false)
      else if port != PLAIN_PORT || host in usb then Plan(None, Some(a), false)
      else Plan(Some(HostPort(host, TLS_PORT)), Some(a), true)
  }

  datatype Tcp = Connects | Refused | Fails

  /**
    What one dial meets: whether each read of the pin store works, what the two ports do, the fingerprint of
    the certificate presented (None: the handshake fails before), whether a new pin can be saved, whether a CA
    file, when one is set, accepts the certificate, and whether the handshake completes once the certificate
    has been checked. The check comes before the server has proved that it holds the certificate's key.
  */
  datatype Net = Net(reads1: bool, reads2: bool, reads3: bool, tls: Tcp, plain: Tcp, cert: Option<string>, saves: bool,
                     caAccepts: bool, completes: bool)

  /**
    pins: the fingerprints of known_pods.json. noTls: the addresses that refused 8443 in this process. caFile:
    TLSCAFile is set.
  */
  datatype State = State(pins: map<Addr, string>, noTls: set<Addr>, caFile: bool)

  datatype Outcome =
    | Plain(addr: Addr)
    | Tls(addr: Addr, cert: string)
    | PinMismatch(pinned: string, got: string)
    | Failed

  /** pinned: an unreadable store counts as no pin. */
  predicate IsPinned(s: State, key: Addr, loads: bool) {
    loads && key in s.pins
  }

  // ── one dial ──

  /** noTLS lets the dial go straight to plaintext. */
  predicate SkipsTls(s: State, p: Plan, net: Net) {
    p.fallback && p.plainAddr.Some? && p.tlsAddr.Some? && p.plainAddr.value in s.noTls
      && !IsPinned(s, p.tlsAddr.value, net.reads1)
  }

  /** The quick probe of a pod without a pin. */
  predicate Probes(s: State, p: Plan, net: Net) {
    p.fallback && p.tlsAddr.Some? && !IsPinned(s, p.tlsAddr.value, net.reads2)
  }

  /** The dialer itself takes no address without a port. */
  predicate CanDial(a: Option<Addr>) {
    a.Some? && a.value.HostPort?
  }

  function PlainOutcome(p: Plan, net: Net): Outcome {
    if CanDial(p.plainAddr) && net.plain.Connects? then Plain(p.plainAddr.value) else Failed
  }

  /** checkPin. */
  function PinCheck(s: State, key: Addr, got: string, net: Net): Outcome {
    if !net.reads3 then Failed
    else if key in s.pins then (if EqualFold(s.pins[key], got) then Tls(key, got) else PinMismatch(s.pins[key], got))
    else if net.saves then Tls(key, got) else Failed
  }

  /** The certificate's check, inside the handshake. */
  function CertCheck(s: State, addr: Addr, net: Net): Outcome
    requires net.cert.Some?
  {
    if s.caFile then (if net.caAccepts then Tls(addr, net.cert.value) else Failed)
    else PinCheck(s, TlsAddr(addr), net.cert.value, net)
  }

  function Handshake(s: State, addr: Addr, net: Net): Outcome {
    if net.cert.None? then Failed
    else
      var checked := CertCheck(s, addr, net);
      if checked.Tls? && !net.completes then Failed else checked
  }

  function DialOutcome(s: State, a: Addr, mode: Mode, usb: set<string>, net: Net): Outcome {
    var p := PlanDial(a, mode, usb);
    if p.tlsAddr.None? || SkipsTls(s, p, net) then PlainOutcome(p, net)
    else if net.tls.Connects? then Handshake(s, p.tlsAddr.value, net)
    else if Probes(s, p, net) then PlainOutcome(p, net)
    else Failed
  }

  /**
    The pins after a handshake, completed or not: the first certificate of an unknown pod is recorded, nothing else
    changes.
  */
  function HandshakePins(s: State, addr: Addr, net: Net): map<Addr, string> {
    var key := TlsAddr(addr);
    if net.cert.Some? && !s.caFile && net.reads3 && key !in s.pins && net.saves then s.pins[key := net.cert.value]
    else s.pins
  }

  function DialState(s: State, a: Addr, mode: Mode, usb: set<string>, net: Net): State {
    var p := PlanDial(a, mode, usb);
    if p.tlsAddr.None? || SkipsTls(s, p, net) then s
    else if net.tls.Connects? then s.(pins := HandshakePins(s, p.tlsAddr.value, net))
    else if Probes(s, p, net) && net.tls.Refused? && p.plainAddr.Some? then s.(noTls := s.noTls + {p.plainAddr.value})
    else s
  }

  // ── what one dial guarantees ──

  /** host:8080 off the USB link, in auto mode: the case the fallback exists for. */
  predicate FallbackAddr(a: Addr, usb: set<string>) {
    a.HostPort? && a.port == PLAIN_PORT && a.host !in usb
  }

  /**
    A dial of a pinned pod ends in plaintext exactly when the pin store could not be read where it matters:
    at the check of the noTLS note, or at the check before the probe, and then TLS did not answer.
    With a readable store there is no silent downgrade, whatever noTLS remembers.
  */
  lemma DowngradeIff(s: State, a: Addr, usb: set<string>, net: Net)
    requires FallbackAddr(a, usb) && TlsAddr(a) in s.pins
    ensures DialOutcome(s, a, Auto, usb, net).Plain?
      <==> net.plain.Connects? && ((a in s.noTls && !net.reads1) || (!net.reads2 && !net.tls.Connects?))
  {
  }

  /** The store was readable throughout the dial. */
  predicate Readable(net: Net) {
    net.reads1 && net.reads2 && net.reads3
  }

  lemma PlainMeansUnpinned(s: State, a: Addr, usb: set<string>, net: Net)
    requires FallbackAddr(a, usb) && Readable(net) && DialOutcome(s, a, Auto, usb, net).Plain?
    ensures TlsAddr(a) !in s.pins
  {
  }

  /** Every TLS connection without a CA file presented the certificate that is then stored for its address. */
  lemma TlsMeansPinned(s: State, a: Addr, mode: Mode, usb: set<string>, net: Net)
    requires !s.caFile && DialOutcome(s, a, mode, usb, net).Tls?
    ensures var out, after := DialOutcome(s, a, mode, usb, net), DialState(s, a, mode, usb, net);
            TlsAddr(a) in after.pins && EqualFold(after.pins[TlsAddr(a)], out.cert)
  {
  }

  /** The dial gets as far as a handshake. */
  predicate Shakes(s: State, a: Addr, mode: Mode, usb: set<string>, net: Net) {
    var p := PlanDial(a, mode, usb);
    p.tlsAddr.Some? && !SkipsTls(s, p, net) && net.tls.Connects?
  }

  /** The pod presents a certificate that can be recorded, and the handshake then breaks off. */
  predicate BreaksOff(s: State, a: Addr, mode: Mode, usb: set<string>, net: Net) {
    Shakes(s, a, mode, usb, net) && net.cert.Some? && !s.caFile && net.reads3 && net.saves && !net.completes
  }

  /**
    A dial changes no pin and removes none; it adds at most its own address's, on its first TLS connection or
    when the handshake breaks off after the certificate was recorded.
  */
  lemma DialKeepsPins(s: State, a: Addr, mode: Mode, usb: set<string>, net: Net)
    ensures var out, after := DialOutcome(s, a, mode, usb, net), DialState(s, a, mode, usb, net);
            && (forall k | k in s.pins :: k in after.pins && after.pins[k] == s.pins[k])
            && (forall k | k in after.pins && k !in s.pins ::
                  && k == TlsAddr(a) && !s.caFile
                  && (out == Tls(k, after.pins[k])
                      || (out == Failed && BreaksOff(s, a, mode, usb, net) && net.cert == Some(after.pins[k]))))
  {
  }

  /** With TLS required no dial ends in plaintext, whatever the address, the store, the noTLS memo and the network. */
  lemma TlsOnIsNeverPlain(s: State, a: Addr, usb: set<string>, net: Net)
    ensures !DialOutcome(s, a, On, usb, net).Plain?
  {
  }

  /**
    A dial ends in plaintext only on the port it was given, and there exactly when the plan had nothing else to try or
    could fall back.
  */
  lemma PlainIff(s: State, a: Addr, mode: Mode, usb: set<string>, net: Net)
    ensures DialOutcome(s, a, mode, usb, net) == Plain(a) <==>
              && a.HostPort? && net.plain.Connects?
              && (|| mode == Off
                  || (mode == Auto && a.port != TLS_PORT && (a.port != PLAIN_PORT || a.host in usb))
                  || (mode == Auto && FallbackAddr(a, usb)
                      && (|| (a in s.noTls && !IsPinned(s, TlsAddr(a), net.reads1))
                          || (!net.tls.Connects? && !IsPinned(s, TlsAddr(a), net.reads2)))))
    ensures DialOutcome(s, a, mode, usb, net).Plain? ==> DialOutcome(s, a, mode, usb, net) == Plain(a)
  {
  }

  /**
    A dial ends in TLS with a certificate exactly when the mode and the address ask for TLS, its port answers, that
    certificate is presented and accepted, by the CA file or by the pin, and the handshake completes.
  */
  lemma TlsIff(s: State, a: Addr, mode: Mode, usb: set<string>, net: Net, key: Addr, cert: string)
    ensures DialOutcome(s, a, mode, usb, net) == Tls(key, cert) <==>
              && a.HostPort? && key == HostPort(a.host, if a.port == PLAIN_PORT then TLS_PORT else a.port)
              && (|| mode == On
                  || (mode == Auto && a.port == TLS_PORT)
                  || (mode == Auto && FallbackAddr(a, usb) && !(a in s.noTls && !(net.reads1 && key in s.pins))))
              && net.tls.Connects? && net.cert == Some(cert) && net.completes
              && (if s.caFile then net.caAccepts
                  else net.reads3 && if key in s.pins then EqualFold(s.pins[key], cert) else net.saves)
  {
  }

  /** A dial gets as far as a handshake exactly when the mode and the address ask for TLS and its port answers. */
  lemma ShakesIff(s: State, a: Addr, mode: Mode, usb: set<string>, net: Net)
    ensures Shakes(s, a, mode, usb, net) <==>
              && a.HostPort? && net.tls.Connects?
              && (|| mode == On
                  || (mode == Auto && a.port == TLS_PORT)
                  || (mode == Auto && FallbackAddr(a, usb) && !(a in s.noTls && !IsPinned(s, TlsAddr(a), net.reads1))))
  {
  }

  /** It is refused for its certificate exactly when another one is pinned and the store can be read to see it. */
  lemma MismatchIff(s: State, a: Addr, mode: Mode, usb: set<string>, net: Net, pinned: string, got: string)
    ensures DialOutcome(s, a, mode, usb, net) == PinMismatch(pinned, got) <==>
              && Shakes(s, a, mode, usb, net) && !s.caFile && net.reads3 && net.cert == Some(got)
              && TlsAddr(a) in s.pins && s.pins[TlsAddr(a)] == pinned && !EqualFold(pinned, got)
  {
    ShakesIff(s, a, mode, usb, net);
  }

  /**
    What it remembers: the pod as one without TLS exactly when the quick probe of an unpinned pod is refused, and a
    pin exactly when an unknown pod presents a certificate in a handshake without a CA file and it can be recorded.
  */
  lemma RemembersIff(s: State, a: Addr, mode: Mode, usb: set<string>, net: Net)
    ensures var after := DialState(s, a, mode, usb, net);
            && after.caFile == s.caFile
            && after.noTls ==
               (if mode == Auto && FallbackAddr(a, usb) && !IsPinned(s, TlsAddr(a), net.reads2) && net.tls.Refused?
                then s.noTls + {a} else s.noTls)
            && after.pins ==
               (if Shakes(s, a, mode, usb, net) && !s.caFile && net.reads3 && net.saves && net.cert.Some?
                   && TlsAddr(a) !in s.pins
                then s.pins[TlsAddr(a) := net.cert.value] else s.pins)
  {
    ShakesIff(s, a, mode, usb, net);
  }

  // ── whole runs ──

  datatype Op =
    | Dial(addr: Addr, mode: Mode, net: Net)
    | SetPin(addr: Addr, sha: string, loads: bool, saves: bool)
    | DeletePin(addr: Addr, loads: bool, saves: bool)

  function After(s: State, usb: set<string>, op: Op): State {
    match op
    case Dial(a, mode, net) => DialState(s, a, mode, usb, net)
    case SetPin(a, sha, loads, saves) => if loads && saves then s.(pins := s.pins[TlsAddr(a) := Lower(sha)]) else s
    case DeletePin(a, loads, saves) => if loads && saves then s.(pins := s.pins - {TlsAddr(a)}) else s
  }

  function Run(s: State, usb: set<string>, ops: seq<Op>): State {
    if ops == [] then s else After(Run(s, usb, ops[..|ops| - 1]), usb, ops[|ops| - 1])
  }

  /** No SetPin or DeletePin for this key. */
  predicate LeavesPin(ops: seq<Op>, key: Addr) {
    forall i | 0 <= i < |ops| && !ops[i].Dial? :: TlsAddr(ops[i].addr) != key
  }

  /** Only SetPin and DeletePin ever change or remove a pin. */
  lemma {:induction false} PinStays(s: State, usb: set<string>, ops: seq<Op>, key: Addr)
    requires key in s.pins && LeavesPin(ops, key)
    ensures var t := Run(s, usb, ops); key in t.pins && t.pins[key] == s.pins[key] && t.caFile == s.caFile
  {
    if ops != [] {
      var front, op := ops[..|ops| - 1], ops[|ops| - 1];
      PinStays(s, usb, front, key);
      if op.Dial? {
        DialKeepsPins(Run(s, usb, front), op.addr, op.mode, usb, op.net);
      }
    }
  }

  /**
    While a pod's pin is left alone, every auto dial to it with a readable store, after any run of dials and
    other pins' changes, is never plaintext, and is TLS only with the pinned certificate.
  */
  lemma PinnedPodStaysOnTls(s: State, usb: set<string>, ops: seq<Op>, a: Addr, net: Net)
    requires FallbackAddr(a, usb) && TlsAddr(a) in s.pins && LeavesPin(ops, TlsAddr(a)) && Readable(net)
    ensures var out := DialOutcome(Run(s, usb, ops), a, Auto, usb, net);
            !out.Plain? && (!s.caFile && out.Tls? ==> EqualFold(s.pins[TlsAddr(a)], out.cert))
  {
    PinStays(s, usb, ops, TlsAddr(a));
    var t := Run(s, usb, ops);
    if DialOutcome(t, a, Auto, usb, net).Plain? {
      PlainMeansUnpinned(t, a, usb, net);
    }
  }

  /**
    Trust on first use binds: after a pod's first TLS connection every later one, of any mode, presents the same
    certificate until its pin is changed.
  */
  lemma FirstUseBinds(s: State, usb: set<string>, first: Addr, m: Mode, net: Net, ops: seq<Op>, a: Addr, mode: Mode,
                      later: Net)
    requires !s.caFile && TlsAddr(first) !in s.pins && DialOutcome(s, first, m, usb, net).Tls?
    requires TlsAddr(a) == TlsAddr(first) && LeavesPin(ops, TlsAddr(a))
    requires DialOutcome(Run(DialState(s, first, m, usb, net), usb, ops), a, mode, usb, later).Tls?
    ensures EqualFold(DialOutcome(Run(DialState(s, first, m, usb, net), usb, ops), a, mode, usb, later).cert,
                      DialOutcome(s, first, m, usb, net).cert)
  {
    var s1 := DialState(s, first, m, usb, net);
    TlsMeansPinned(s, first, m, usb, net);
    PinStays(s1, usb, ops, TlsAddr(a));
    var t := Run(s1, usb, ops);
    TlsMeansPinned(t, a, mode, usb, later);
    DialKeepsPins(t, a, mode, usb, later);
  }

  /**
    The certificate a user of the client has reason to expect from a pod: the one of its first TLS connection
    since it was last forgotten, unless another was set. It looks at calls and outcomes, never at the store.
  */
  function Expected(usb: set<string>, ops: seq<Op>, key: Addr): Option<string> {
    if ops == [] then None
    else
      var front, op := ops[..|ops| - 1], ops[|ops| - 1];
      var before := Expected(usb, front, key);
      match op
      case SetPin(a, sha, loads, saves) => if loads && saves && TlsAddr(a) == key then Some(Lower(sha)) else before
      case DeletePin(a, loads, saves) => if loads && saves && TlsAddr(a) == key then None else before
      case Dial(a, mode, net) =>
        var out := DialOutcome(Run(NewStore(), usb, front), a, mode, usb, net);
        if before.None? && out.Tls? && out.addr == key then Some(out.cert) else before
  }

  function NewStore(): State {
    State(map[], {}, false)
  }

  /**
    The certificate recorded by the first handshake that broke off since the pod was last forgotten, as long as
    no handshake has completed since and none was set. No outcome has shown it to the user.
  */
  function Unseen(usb: set<string>, ops: seq<Op>, key: Addr): Option<string> {
    if ops == [] then None
    else
      var front, op := ops[..|ops| - 1], ops[|ops| - 1];
      var before := Unseen(usb, front, key);
      match op
      case SetPin(a, _, loads, saves) => if loads && saves && TlsAddr(a) == key then None else before
      case DeletePin(a, loads, saves) => if loads && saves && TlsAddr(a) == key then None else before
      case Dial(a, mode, net) =>
        var s := Run(NewStore(), usb, front);
        var out := DialOutcome(s, a, mode, usb, net);
        if out.Tls? && out.addr == key then None
        else if before.None? && Expected(usb, front, key).None? && TlsAddr(a) == key && BreaksOff(s, a, mode, usb, net)
        then net.cert
        else before
  }

  lemma DialPinAt(s: State, a: Addr, mode: Mode, usb: set<string>, net: Net, key: Addr)
    requires !s.caFile
    ensures var out, after := DialOutcome(s, a, mode, usb, net), DialState(s, a, mode, usb, net);
            var brokeOff := TlsAddr(a) == key && BreaksOff(s, a, mode, usb, net);
            && !after.caFile
            && (key in after.pins <==> key in s.pins || (out.Tls? && out.addr == key) || brokeOff)
            && (key in s.pins ==> after.pins[key] == s.pins[key])
            && (key !in s.pins && out.Tls? && out.addr == key ==> after.pins[key] == out.cert)
            && (key !in s.pins && brokeOff ==> net.cert == Some(after.pins[key]))
            && (out.Tls? && out.addr == key ==> EqualFold(after.pins[key], out.cert) && !brokeOff)
  {
  }

  /** What the store has for a key, against what the user expects and what the user has not seen. */
  predicate StoreMatches(s: State, expected: Option<string>, unseen: Option<string>, key: Addr) {
    && !s.caFile
    && (key in s.pins <==> expected.Some? || unseen.Some?) && (expected.None? || unseen.None?)
    && (expected.Some? ==> EqualFold(s.pins[key], expected.value))
    && (unseen.Some? ==> s.pins[key] == unseen.value)
  }

  lemma DialMatches(s: State, a: Addr, mode: Mode, usb: set<string>, net: Net, key: Addr, expected: Option<string>,
                    unseen: Option<string>)
    requires StoreMatches(s, expected, unseen, key)
    ensures var out := DialOutcome(s, a, mode, usb, net);
            var seen := out.Tls? && out.addr == key;
            StoreMatches(DialState(s, a, mode, usb, net),
                         if expected.None? && seen then Some(out.cert) else expected,
                         if seen then None
                         else if unseen.None? && expected.None? && TlsAddr(a) == key && BreaksOff(s, a, mode, usb, net)
                         then net.cert
                         else unseen,
                         key)
  {
    DialPinAt(s, a, mode, usb, net, key);
  }

  /**
    The store after every run of dials and pin changes: a certificate the user expects is in it, and it holds
    one the user does not expect exactly when that certificate came first in a handshake that broke off, and
    no handshake with the pod has completed since.
  */
  lemma {:induction false} StoreIsExpectedOrUnseen(usb: set<string>, ops: seq<Op>, key: Addr)
    ensures StoreMatches(Run(NewStore(), usb, ops), Expected(usb, ops, key), Unseen(usb, ops, key), key)
  {
    if ops != [] {
      var front, op := ops[..|ops| - 1], ops[|ops| - 1];
      StoreIsExpectedOrUnseen(usb, front, key);
      if op.Dial? {
        DialMatches(Run(NewStore(), usb, front), op.addr, op.mode, usb, op.net, key,
                    Expected(usb, front, key), Unseen(usb, front, key));
      }
    }
  }

  /**
    The run that shows it: a stranger answers the first dial with a certificate and hangs up. The dial fails, and the
    genuine pod is refused ever after.
  */
  lemma StrangerIsPinned(a: Addr, usb: set<string>, stranger: Net, genuine: Net)
    requires FallbackAddr(a, usb) && Readable(stranger) && Readable(genuine)
    requires stranger.tls.Connects? && stranger.cert.Some? && stranger.saves && !stranger.completes
    requires genuine.tls.Connects? && genuine.cert.Some? && !EqualFold(stranger.cert.value, genuine.cert.value)
    ensures var s := DialState(NewStore(), a, Auto, usb, stranger);
            && DialOutcome(NewStore(), a, Auto, usb, stranger) == Failed
            && DialOutcome(s, a, Auto, usb, genuine) == PinMismatch(stranger.cert.value, genuine.cert.value)
            && DialState(s, a, Auto, usb, genuine) == s
  {
  }

  /**
    No downgrade in any run: with a readable store an auto dial ends in plaintext only if no certificate is expected
    of the pod.
  */
  lemma NoDowngradeInAnyRun(usb: set<string>, ops: seq<Op>, a: Addr, net: Net)
    requires FallbackAddr(a, usb) && Readable(net)
    ensures DialOutcome(Run(NewStore(), usb, ops), a, Auto, usb, net).Plain? ==>
              Expected(usb, ops, TlsAddr(a)).None? && Unseen(usb, ops, TlsAddr(a)).None?
  {
    var s := Run(NewStore(), usb, ops);
    StoreIsExpectedOrUnseen(usb, ops, TlsAddr(a));
    if DialOutcome(s, a, Auto, usb, net).Plain? {
      PlainMeansUnpinned(s, a, usb, net);
    }
  }

  /**
    In any run, whatever the address, the mode and the network, TLS is with the expected certificate if there is one,
    and else with the unseen one if there is one.
  */
  lemma TlsAsExpectedInAnyRun(usb: set<string>, ops: seq<Op>, a: Addr, mode: Mode, net: Net)
    requires DialOutcome(Run(NewStore(), usb, ops), a, mode, usb, net).Tls?
    ensures var cert := DialOutcome(Run(NewStore(), usb, ops), a, mode, usb, net).cert;
            && (Expected(usb, ops, TlsAddr(a)).Some? ==> EqualFold(Expected(usb, ops, TlsAddr(a)).value, cert))
            && (Unseen(usb, ops, TlsAddr(a)).Some? ==> EqualFold(Unseen(usb, ops, TlsAddr(a)).value, cert))
  {
    var s := Run(NewStore(), usb, ops);
    StoreIsExpectedOrUnseen(usb, ops, TlsAddr(a));
    TlsMeansPinned(s, a, mode, usb, net);
    DialKeepsPins(s, a, mode, usb, net);
  }

  // ── the code ──

  /** The ticket cache after a pin change got as far as forgetSessions, or did not. */
  function Forgotten(t: TicketCache.State, forgets: bool, removes: bool): TicketCache.State {
    if forgets then TicketCache.After(t, TicketCache.Forget(removes)) else t
  }

  /** A Client with the process-wide pin store, noTLS memo and ticket cache it works on. */
  class LanClient {
    var pins: map<Addr, string>
    var noTls: set<Addr>
    var lastTls: bool
    const caFile: bool
    const usb: set<string>
    const tickets: TicketCache.FileSessionCache

    function Contents(): State
      reads this
    {
      State(pins, noTls, caFile)
    }

    constructor (caFile: bool, usb: set<string>)
      ensures Contents() == State(map[], {}, caFile) && this.usb == usb && fresh(tickets)
    {
      this.caFile, this.usb := caFile, usb;
      pins, noTls, lastTls := map[], {}, false;
      tickets := new TicketCache.FileSessionCache();
    }

    /** checkPin: no pin yet records this certificate; a pin must match. */
    method CheckPin(addr: Addr, got: string, net: Net) returns (out: Outcome)
      modifies `pins
      ensures out == PinCheck(old(Contents()), TlsAddr(addr), got, net)
      ensures pins == if net.reads3 && TlsAddr(addr) !in old(pins) && net.saves
                      then old(pins)[TlsAddr(addr) := got] else old(pins)
    {
      if !net.reads3 {
        return Failed;
      }
      var key := TlsAddr(addr);
      if key in pins {
        return if EqualFold(pins[key], got) then Tls(key, got) else PinMismatch(pins[key], got);
      }
      if !net.saves {
        return Failed;
      }
      pins := pins[key := got];
      return Tls(key, got);
    }

    /** The certificate is checked, and recorded, while the handshake is still under way. */
    method HandshakeOn(addr: Addr, net: Net) returns (out: Outcome)
      modifies `pins, `lastTls
      ensures out == Handshake(old(Contents()), addr, net)
      ensures pins == HandshakePins(old(Contents()), addr, net)
      ensures lastTls == (out.Tls? || old(lastTls)) && !out.Plain?
    {
      if net.cert.None? {
        return Failed;
      }
      if caFile {
        out := if net.caAccepts then Tls(addr, net.cert.value) else Failed;
      } else {
        out := CheckPin(addr, net.cert.value, net);
      }
      if out.Tls? {
        if !net.completes {
          return Failed;
        }
        lastTls := true;
      }
    }

    method DialPlain(p: Plan, net: Net) returns (out: Outcome)
      modifies `lastTls
      ensures out == PlainOutcome(p, net) && !lastTls
    {
      lastTls := false;
      return if CanDial(p.plainAddr) && net.plain.Connects? then Plain(p.plainAddr.value) else Failed;
    }

    method Dial(a: Addr, mode: Mode, net: Net) returns (out: Outcome)
      modifies `pins, `noTls, `lastTls
      ensures out == DialOutcome(old(Contents()), a, mode, usb, net)
      ensures Contents() == DialState(old(Contents()), a, mode, usb, net)
      ensures (out.Tls? ==> lastTls) && (out.Plain? ==> !lastTls)
    {
      var p := PlanDial(a, mode, usb);
      var tlsAddr := p.tlsAddr;
      if p.fallback && p.plainAddr.value in noTls && !IsPinned(Contents(), tlsAddr.value, net.reads1) {
        tlsAddr := None;
      }
      if tlsAddr.None? {
        out := DialPlain(p, net);
        return;
      }
      if p.fallback && !IsPinned(Contents(), tlsAddr.value, net.reads2) {
        if !net.tls.Connects? {
          if net.tls.Refused? {
            noTls := noTls + {p.plainAddr.value};
          }
          out := DialPlain(p, net);
          return;
        }
        out := HandshakeOn(tlsAddr.value, net);
        return;
      }
      if !net.tls.Connects? {
        return Failed;
      }
      out := HandshakeOn(tlsAddr.value, net);
    }

    /**
      Records a fingerprint. The tickets in memory go as soon as the store has been read, even if the new pin
      is then not saved; those in the file go when the file can be removed.
    */
    method SetPinFingerprint(a: Addr, sha: string, loads: bool, saves: bool, removes: bool) returns (ok: bool)
      modifies `pins, tickets
      ensures ok == (loads && saves)
      ensures Contents() == After(old(Contents()), usb, SetPin(a, sha, loads, saves))
      ensures forall now ::
                tickets.Contents(now) == Forgotten(old(tickets.Contents(now)), loads, removes)
    {
      if !loads {
        return false;
      }
      tickets.Forget(removes);
      if saves {
        pins := pins[TlsAddr(a) := Lower(sha)];
      }
      return saves;
    }

    /** Whether there was a pin; without one nothing changes, tickets included. */
    method DeletePinOf(a: Addr, loads: bool, saves: bool, removes: bool) returns (res: Result<bool>)
      modifies `pins, tickets
      ensures loads && saves ==> res == Ok(TlsAddr(a) in old(pins))
      ensures !loads || (TlsAddr(a) in old(pins) && !saves) ==> res.Err?
      ensures Contents() == After(old(Contents()), usb, DeletePin(a, loads, saves))
      ensures forall now ::
                tickets.Contents(now) ==
                Forgotten(old(tickets.Contents(now)), loads && TlsAddr(a) in old(pins), removes)
    {
      if !loads {
        return Err("the pin store cannot be read");
      }
      if TlsAddr(a) !in pins {
        assert pins - {TlsAddr(a)} == pins;
        return Ok(false);
      }
      tickets.Forget(removes);
      if !saves {
        return Err("the pin store cannot be written");
      }
      pins := pins - {TlsAddr(a)};
      return Ok(true);
    }
  }
}
