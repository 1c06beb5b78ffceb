/**
  Pins and session tickets together (internal/tcpclient/tls.go, tls_sessions.go): one run of dials, pin
  changes and ticket calls. A pin change forgets every saved session, so no connection resumes one that was
  made under another pin.
*/
module LanTickets {
  import opened Outcomes
  import LanTls
  import TicketCache

  datatype World = World(lan: LanTls.State, tickets: TicketCache.State)

  /** removes: whether the ticket file can be removed, when a pin changes. crypto/tls makes the ticket calls. */
  datatype Op = Lan(op: LanTls.Op, removes: bool) | Tickets(call: TicketCache.Op)

  /** The pin changes that get as far as forgetSessions: the store was read, and for a removal had the pin. */
  predicate Forgets(s: LanTls.State, op: LanTls.Op) {
    match op
    case Dial(_, _, _) => false
    case SetPin(_, _, loads, _) => loads
    case DeletePin(a, loads, _) => loads && LanTls.TlsAddr(a) in s.pins
  }

  function After(w: World, usb: set<string>, op: Op): World {
    match op
    case Lan(op, removes) =>
      World(LanTls.After(w.lan, usb, op), LanTls.Forgotten(w.tickets, Forgets(w.lan, op), removes))
    case Tickets(call) => w.(tickets := TicketCache.After(w.tickets, call))
  }

  function Start(now: int): World {
    World(LanTls.NewStore(), TicketCache.Start(now))
  }

  function Run(now: int, usb: set<string>, ops: seq<Op>): World {
    if ops == [] then Start(now) else After(Run(now, usb, ops[..|ops| - 1]), usb, ops[|ops| - 1])
  }

  /** The calls one step makes on the ticket cache. */
  function CallsOf(w: World, op: Op): seq<TicketCache.Op> {
    match op
    case Lan(op, removes) => if Forgets(w.lan, op) then [TicketCache.Forget(removes)] else []
    case Tickets(call) => [call]
  }

  function Calls(now: int, usb: set<string>, ops: seq<Op>): seq<TicketCache.Op> {
    if ops == [] then []
    else
      var front := ops[..|ops| - 1];
      Calls(now, usb, front) + CallsOf(Run(now, usb, front), ops[|ops| - 1])
  }

  lemma TicketRunExtend(now: int, calls: seq<TicketCache.Op>, more: seq<TicketCache.Op>)
    requires |more| <= 1
    ensures TicketCache.Run(TicketCache.Start(now), calls + more)
         == if more == [] then TicketCache.Run(TicketCache.Start(now), calls)
            else TicketCache.After(TicketCache.Run(TicketCache.Start(now), calls), more[0])
  {
    if more == [] {
      assert calls + more == calls;
    } else {
      assert (calls + more)[..|calls|] == calls;
    }
  }

  /** The ticket cache sees its own calls and the forgetting of the pin changes, and nothing else. */
  lemma {:induction false} TicketsFollowCalls(now: int, usb: set<string>, ops: seq<Op>)
    ensures Run(now, usb, ops).tickets == TicketCache.Run(TicketCache.Start(now), Calls(now, usb, ops))
  {
    if ops != [] {
      var front := ops[..|ops| - 1];
      TicketsFollowCalls(now, usb, front);
      TicketRunExtend(now, Calls(now, usb, front), CallsOf(Run(now, usb, front), ops[|ops| - 1]));
    }
  }

  lemma WholeRun(ops: seq<Op>)
    ensures ops[..|ops|] == ops
  {
  }

  /** The step that made the k-th ticket call. */
  lemma {:induction false} StepOfCall(now: int, usb: set<string>, ops: seq<Op>, n: nat, k: nat) returns (m: nat)
    requires n <= |ops| && |Calls(now, usb, ops[..n])| <= k < |Calls(now, usb, ops)|
    ensures n <= m < |ops| && CallsOf(Run(now, usb, ops[..m]), ops[m]) == [Calls(now, usb, ops)[k]]
    decreases |ops|
  {
    var last := |ops| - 1;
    var front := ops[..last];
    WholeRun(ops);
    if k >= |Calls(now, usb, front)| {
      m := last;
    } else {
      assert front[..n] == ops[..n];
      m := StepOfCall(now, usb, front, n, k);
      assert front[..m] == ops[..m];
    }
  }

  lemma {:induction false} CallsPrefix(now: int, usb: set<string>, ops: seq<Op>, n: nat)
    requires n <= |ops|
    ensures Calls(now, usb, ops[..n]) <= Calls(now, usb, ops)
    decreases |ops|
  {
    if n == |ops| {
      assert ops[..n] == ops;
    } else {
      var front := ops[..|ops| - 1];
      assert front[..n] == ops[..n];
      CallsPrefix(now, usb, front, n);
    }
  }

  /** A pin change at step j is a Forget among the ticket calls, right before those of the later steps. */
  lemma ForgetOfChange(now: int, usb: set<string>, ops: seq<Op>, j: nat) returns (at: nat)
    requires j < |ops| && ops[j].Lan? && Forgets(Run(now, usb, ops[..j]).lan, ops[j].op)
    ensures at < |Calls(now, usb, ops)| && Calls(now, usb, ops)[at].Forget? && at + 1 == |Calls(now, usb, ops[..j + 1])|
  {
    at := |Calls(now, usb, ops[..j])|;
    assert ops[..j + 1][..j] == ops[..j];
    var calls := Calls(now, usb, ops[..j + 1]);
    assert calls[at] == TicketCache.Forget(ops[j].removes);
    CallsPrefix(now, usb, ops, j + 1);
  }

  /** Step m puts this ticket under this key. */
  predicate Puts(ops: seq<Op>, m: nat, key: TicketCache.Key, ticket: TicketCache.Ticket) {
    m < |ops| && ops[m].Tickets? && ops[m].call.Put? && ops[m].call.key == key && ops[m].call.ticket == ticket
  }

  lemma PutOfCall(now: int, usb: set<string>, ops: seq<Op>, n: nat, k: nat, key: TicketCache.Key,
                  ticket: TicketCache.Ticket)
    requires n <= |ops| && |Calls(now, usb, ops[..n])| <= k < |Calls(now, usb, ops)|
    requires var c := Calls(now, usb, ops)[k]; c.Put? && c.key == key && c.ticket == ticket
    ensures exists m :: n <= m && Puts(ops, m, key, ticket)
  {
    var m := StepOfCall(now, usb, ops, n, k);
    assert CallsOf(Run(now, usb, ops[..m]), ops[m])[0] == Calls(now, usb, ops)[k];
    assert Puts(ops, m, key, ticket);
  }

  /**
    In every run in which the file calls succeed, a ticket that a Get returns after a pin change was put after
    it: no connection resumes a session from before.
  */
  lemma NoTicketSurvivesPinChange(now: int, usb: set<string>, ops: seq<Op>, j: nat, key: TicketCache.Key,
                                  disk: TicketCache.Disk)
    requires TicketCache.CleanRun(now, Calls(now, usb, ops))
    requires j < |ops| && ops[j].Lan? && Forgets(Run(now, usb, ops[..j]).lan, ops[j].op)
    ensures var got := TicketCache.Lookup(Run(now, usb, ops).tickets, key, disk);
            got.Some? ==> exists m :: j < m && Puts(ops, m, key, got.value)
  {
    var calls := Calls(now, usb, ops);
    var at := ForgetOfChange(now, usb, ops, j);
    TicketsFollowCalls(now, usb, ops);
    LookupAfterForget(now, calls, at, key, disk);
    var got := TicketCache.Lookup(Run(now, usb, ops).tickets, key, disk);
    if got.Some? {
      var k :| at < k < |calls| && calls[k].Put? && calls[k].key == key && calls[k].ticket == got.value;
      PutOfCall(now, usb, ops, j + 1, k, key, got.value);
    }
  }

  lemma LookupAfterForget(now: int, calls: seq<TicketCache.Op>, at: nat, key: TicketCache.Key, disk: TicketCache.Disk)
    requires TicketCache.CleanRun(now, calls) && at < |calls| && calls[at].Forget?
    ensures var got := TicketCache.Lookup(TicketCache.Run(TicketCache.Start(now), calls), key, disk);
            got.Some? ==>
              exists k | at < k < |calls| ::
                calls[k].Put? && calls[k].key == key && calls[k].ticket == got.value
  {
    TicketCache.NoTicketSurvivesForget(now, calls, at, key, disk);
  }
}
