/**
  The TLS session tickets of tcpclient: a small memory cache over a file of saved tickets
  (fileSessionCache). Seen from outside it must behave as one map that may lose entries.
*/
module TicketCache {
  import opened Outcomes
  import opened Sequences

  type Key = string

  /** A resumable session (ticket and session state). */
  datatype Ticket = Ticket(id: nat)

  /** Seconds; ALTCP_MBEDTLS_SESSION_TICKET_TIMEOUT_SECONDS. */
  const TICKET_LIFETIME: int := 3600

  /** A line of tls_sessions.json; saved is None when its time does not parse. */
  datatype Saved = Saved(ticket: Ticket, saved: Option<int>)

  predicate Expired(s: Saved, now: int) {
    s.saved.None? || now - s.saved.value > TICKET_LIFETIME
  }

  /** mem holds None for a key whose nil was stored while it was absent, as the LRU cache does. */
  datatype State = State(mem: map<Key, Option<Ticket>>, file: map<Key, Saved>, now: int)

  /**
    How the file system behaves during one call. nilMap: load returns a nil map, as the path cannot be resolved or the
    file holds null.
  */
  datatype Disk = Disk(loads: bool, nilMap: bool, saves: bool, decodes: bool)

  datatype Op =
    | Get(key: Key, disk: Disk)
    | Put(key: Key, ticket: Ticket, serialises: bool, disk: Disk)
    | PutNil(key: Key, disk: Disk)
    | Forget(removes: bool)       // forgetSessions, called when a pin changes
    | Evict(key: Key)             // the LRU cache makes room
    | Wait(seconds: nat)

  function Load(file: map<Key, Saved>, disk: Disk): map<Key, Saved> {
    if disk.loads && !disk.nilMap then file else map[]
  }

  /** save drops what has expired before it writes. */
  function Purge(m: map<Key, Saved>, now: int): map<Key, Saved> {
    map k | k in m && !Expired(m[k], now) :: m[k]
  }

  /** The file's answer to Get, when memory has none. */
  function FromFile(s: State, key: Key, disk: Disk): Option<Ticket> {
    var m := Load(s.file, disk);
    if key in m && !Expired(m[key], s.now) && disk.decodes then Some(m[key].ticket) else None
  }

  /** What Get returns; a nil session counts as a miss, as crypto/tls takes it. */
  function Lookup(s: State, key: Key, disk: Disk): Option<Ticket> {
    if key in s.mem then s.mem[key] else FromFile(s, key, disk)
  }

  /** Writing a ticket into the nil map ends the process. */
  predicate Crashes(op: Op) {
    op.Put? && op.serialises && op.disk.nilMap
  }

  /** After a crash the next process goes on with the file and an empty memory. */
  function After(s: State, op: Op): State {
    match op
    case Get(key, disk) =>
      if key !in s.mem && FromFile(s, key, disk).Some? then s.(mem := s.mem[key := FromFile(s, key, disk)]) else s
    case Put(key, ticket, serialises, disk) =>
      var t := s.(mem := s.mem[key := Some(ticket)]);
      if Crashes(op) then State(map[], s.file, s.now)
      else if serialises && disk.saves then
        t.(file := Purge(Load(s.file, disk)[key := Saved(ticket, Some(s.now))], s.now))
      else t
    case PutNil(key, disk) =>
      var t := s.(mem := if key in s.mem then s.mem - {key} else s.mem[key := None]);
      if key in Load(s.file, disk) && disk.saves then t.(file := Purge(Load(s.file, disk) - {key}, s.now)) else t
    case Forget(removes) => State(map[], if removes then map[] else s.file, s.now)
    case Evict(key) => s.(mem := s.mem - {key})
    case Wait(seconds) => s.(now := s.now + seconds)
  }

  function Run(s: State, ops: seq<Op>): State {
    if ops == [] then s else After(Run(s, ops[..|ops| - 1]), ops[|ops| - 1])
  }

  /**
    When Get returns a ticket: memory has it, or memory has nothing for the key, the file can be read, and its line
    for the key is that ticket's, decodes, and was saved no more than an hour ago.
  */
  lemma LookupIff(s: State, key: Key, disk: Disk, t: Ticket)
    ensures Lookup(s, key, disk) == Some(t) <==>
              if key in s.mem then s.mem[key] == Some(t)
              else
                && disk.loads && !disk.nilMap && disk.decodes && key in s.file && s.file[key].ticket == t
                && s.file[key].saved.Some? && s.now - s.file[key].saved.value <= 3600
  {
  }

  /** A Get changes nothing but that what it found in the file is then in memory, whatever becomes of the file. */
  lemma GetRemembers(s: State, key: Key, disk: Disk, other: Key, later: Disk)
    ensures var t := After(s, Get(key, disk));
            && t.file == s.file && t.now == s.now
            && (Lookup(s, key, disk).Some? ==> Lookup(t, key, later) == Lookup(s, key, disk))
            && (other != key || Lookup(s, key, disk).None? ==> Lookup(t, other, later) == Lookup(s, other, later))
  {
  }

  /** What a rewrite of the file keeps: the lines of the last hour, as they were. */
  lemma PurgeIff(m: map<Key, Saved>, now: int, key: Key)
    ensures key in Purge(m, now) <==> key in m && m[key].saved.Some? && now - m[key].saved.value <= 3600
    ensures key in Purge(m, now) ==> Purge(m, now)[key] == m[key]
  {
  }

  // ── the map it stands for ──

  /** The ticket of the last Put of a key, unless a nil Put or a Forget came after it. */
  function LastPut(ops: seq<Op>, key: Key): Option<Ticket> {
    if ops == [] then None
    else
      match ops[|ops| - 1]
      case Put(k, t, _, _) => if k == key then Some(t) else LastPut(ops[..|ops| - 1], key)
      case PutNil(k, _) => if k == key then None else LastPut(ops[..|ops| - 1], key)
      case Forget(_) => None
      case _ => LastPut(ops[..|ops| - 1], key)
  }

  predicate MemCurrent(s: State, ops: seq<Op>) {
    forall k | k in s.mem && s.mem[k].Some? :: LastPut(ops, k) == s.mem[k]
  }

  predicate FileCurrent(s: State, ops: seq<Op>) {
    forall k | k in s.file && !Expired(s.file[k], s.now) :: LastPut(ops, k) == Some(s.file[k].ticket)
  }

  /** Both levels hold only what the map holds; expired lines of the file do not count. */
  predicate Refines(s: State, ops: seq<Op>) {
    MemCurrent(s, ops) && FileCurrent(s, ops)
  }

  /** A line of the file that a later Get could still return. */
  predicate Stale(s: State, key: Key) {
    key in s.file && !Expired(s.file[key], s.now)
  }

  /** The calls after which the file cannot give back something older. */
  predicate Clean(s: State, op: Op) {
    match op
    case Put(key, ticket, serialises, disk) =>
      (serialises && !disk.nilMap && disk.saves) || !Stale(s, key) || s.file[key].ticket == ticket
    case PutNil(key, disk) => (disk.loads && !disk.nilMap && disk.saves) || !Stale(s, key)
    case Forget(removes) => removes || forall k | k in s.file :: Expired(s.file[k], s.now)
    case _ => true
  }

  lemma LastPutStep(ops: seq<Op>, op: Op, key: Key)
    ensures LastPut(ops + [op], key)
      == match op
         case Put(k, t, _, _) => if k == key then Some(t) else LastPut(ops, key)
         case PutNil(k, _) => if k == key then None else LastPut(ops, key)
         case Forget(_) => None
         case _ => LastPut(ops, key)
  {
    assert (ops + [op])[..|ops|] == ops;
  }

  lemma MemStep(s: State, ops: seq<Op>, op: Op)
    requires Refines(s, ops)
    ensures MemCurrent(After(s, op), ops + [op])
  {
    forall k | k in After(s, op).mem && After(s, op).mem[k].Some?
      ensures LastPut(ops + [op], k) == After(s, op).mem[k]
    {
      LastPutStep(ops, op, k);
    }
  }

  lemma FileStep(s: State, ops: seq<Op>, op: Op)
    requires Refines(s, ops) && Clean(s, op)
    ensures FileCurrent(After(s, op), ops + [op])
  {
    forall k | k in After(s, op).file && !Expired(After(s, op).file[k], After(s, op).now)
      ensures LastPut(ops + [op], k) == Some(After(s, op).file[k].ticket)
    {
      LastPutStep(ops, op, k);
    }
  }

  /**
    Every call keeps the two levels in step with the map, except exactly these: a Put whose ticket does not
    serialise or is not saved while the file has another live one for the key, a nil Put whose file entry
    cannot be read or rewritten, and a Forget whose file cannot be removed.
  */
  lemma StepRefinesIff(s: State, ops: seq<Op>, op: Op)
    requires Refines(s, ops)
    ensures Refines(After(s, op), ops + [op]) <==> Clean(s, op)
  {
    MemStep(s, ops, op);
    if Clean(s, op) {
      FileStep(s, ops, op);
    } else {
      match op {
        case Put(key, _, _, _) =>
          LastPutStep(ops, op, key);
        case PutNil(key, _) =>
          LastPutStep(ops, op, key);
        case Forget(_) =>
          var k :| k in s.file && !Expired(s.file[k], s.now);
          LastPutStep(ops, op, k);
      }
    }
  }

  // ── what a Get shows ──

  ghost predicate CleanFrom(s: State, ops: seq<Op>) {
    forall i | 0 <= i < |ops| :: Clean(Run(s, ops[..i]), ops[i])
  }

  lemma CleanFromFront(s: State, ops: seq<Op>)
    requires ops != [] && CleanFrom(s, ops)
    ensures CleanFrom(s, ops[..|ops| - 1]) && Clean(Run(s, ops[..|ops| - 1]), ops[|ops| - 1])
  {
    var front := ops[..|ops| - 1];
    forall i | 0 <= i < |front| ensures Clean(Run(s, front[..i]), front[i]) {
      assert front[..i] == ops[..i] && front[i] == ops[i];
    }
    assert Clean(Run(s, ops[..|ops| - 1]), ops[|ops| - 1]);
  }

  lemma RefinesNext(s: State, ops: seq<Op>, op: Op)
    requires Refines(s, ops) && Clean(s, op)
    ensures Refines(After(s, op), ops + [op])
  {
    StepRefinesIff(s, ops, op);
  }

  lemma {:induction false} RunRefinesFrom(s: State, ops: seq<Op>, rest: seq<Op>)
    requires Refines(s, ops) && CleanFrom(s, rest)
    ensures Refines(Run(s, rest), ops + rest)
  {
    if rest == [] {
      assert ops + rest == ops;
    } else {
      var front, op := rest[..|rest| - 1], rest[|rest| - 1];
      CleanFromFront(s, rest);
      RunRefinesFrom(s, ops, front);
      RefinesNext(Run(s, front), ops + front, op);
      Assoc(ops, front, [op]);
      assert rest == front + [op];
    }
  }

  /** No Get, after any further calls of that kind, returns what the map does not hold. */
  ghost predicate Truthful(s: State, ops: seq<Op>) {
    forall rest, key, disk | CleanFrom(s, rest) ::
      Lookup(Run(s, rest), key, disk).Some? ==> Lookup(Run(s, rest), key, disk) == LastPut(ops + rest, key)
  }

  lemma RefinesIsTruthful(s: State, ops: seq<Op>)
    requires Refines(s, ops)
    ensures Truthful(s, ops)
  {
    forall rest, key, disk | CleanFrom(s, rest) && Lookup(Run(s, rest), key, disk).Some?
      ensures Lookup(Run(s, rest), key, disk) == LastPut(ops + rest, key)
    {
      RunRefinesFrom(s, ops, rest);
    }
  }

  /** A live line of the file that the map does not hold comes back once memory has dropped the key. */
  lemma StaleComesBack(s: State, ops: seq<Op>, key: Key)
    requires Stale(s, key) && LastPut(ops, key) != Some(s.file[key].ticket)
    ensures var rest, disk := [Evict(key)], Disk(true, false, true, true);
            && CleanFrom(s, rest)
            && Lookup(Run(s, rest), key, disk) == Some(s.file[key].ticket)
            && Lookup(Run(s, rest), key, disk) != LastPut(ops + rest, key)
  {
    var rest := [Evict(key)];
    assert rest[..0] == [];
    LastPutStep(ops, Evict(key), key);
  }

  /** The key whose line a call that is not clean leaves in the file against the map. */
  lemma LeavesStale(s: State, ops: seq<Op>, op: Op) returns (key: Key)
    requires Refines(s, ops) && !Clean(s, op)
    ensures Stale(After(s, op), key) && LastPut(ops + [op], key) != Some(After(s, op).file[key].ticket)
  {
    match op {
      case Put(k, _, _, _) => key := k;
      case PutNil(k, _) => key := k;
      case Forget(_) => key :| key in s.file && !Expired(s.file[key], s.now);
    }
    LastPutStep(ops, op, key);
  }

  /**
    A call keeps every later Get truthful, whatever clean calls come in between, exactly when it is clean. After
    one that is not, an eviction is enough for a Get to return a ticket that was replaced, removed or forgotten.
  */
  lemma TruthfulIff(s: State, ops: seq<Op>, op: Op)
    requires Refines(s, ops)
    ensures Truthful(After(s, op), ops + [op]) <==> Clean(s, op)
  {
    if Clean(s, op) {
      StepRefinesIff(s, ops, op);
      RefinesIsTruthful(After(s, op), ops + [op]);
    } else {
      var key := LeavesStale(s, ops, op);
      StaleComesBack(After(s, op), ops + [op], key);
    }
  }

  /** A new cache over an empty file. Later processes go on with the file and an empty memory, as after evictions. */
  function Start(now: int): State {
    State(map[], map[], now)
  }

  ghost predicate CleanRun(now: int, ops: seq<Op>) {
    CleanFrom(Start(now), ops)
  }

  lemma RunRefines(now: int, ops: seq<Op>)
    requires CleanRun(now, ops)
    ensures Refines(Run(Start(now), ops), ops)
  {
    RunRefinesFrom(Start(now), [], ops);
    assert [] + ops == ops;
  }

  /**
    In every clean run a Get misses or returns the ticket of the last Put of its key, with no nil Put or Forget since.
  */
  lemma GetIsLastPut(now: int, ops: seq<Op>, key: Key, disk: Disk)
    requires CleanRun(now, ops)
    ensures var got := Lookup(Run(Start(now), ops), key, disk); got.Some? ==> got == LastPut(ops, key)
  {
    RunRefines(now, ops);
  }

  /** The file system works, and every ticket serialises. */
  predicate Works(op: Op) {
    match op
    case Get(_, disk) => disk == WORKING
    case Put(_, _, serialises, disk) => serialises && disk == WORKING
    case PutNil(_, disk) => disk == WORKING
    case Forget(removes) => removes
    case _ => true
  }

  const WORKING := Disk(true, false, true, true)

  function Clock(now: int, ops: seq<Op>): int {
    if ops == [] then now
    else Clock(now, ops[..|ops| - 1]) + if ops[|ops| - 1].Wait? then ops[|ops| - 1].seconds else 0
  }

  /** When the last Put of a key was, unless a nil Put or a Forget came after it. */
  function LastPutAt(now: int, ops: seq<Op>, key: Key): int {
    if ops == [] then now
    else
      var front, op := ops[..|ops| - 1], ops[|ops| - 1];
      if op.Put? && op.key == key then Clock(now, front) else LastPutAt(now, front, key)
  }

  /** What the two levels have of the last Put of a key. */
  predicate Keeps(s: State, put: Option<Ticket>, at: int, key: Key) {
    put.Some? ==>
      && at <= s.now
      && (key in s.mem ==> s.mem[key] == put)
      && (key in s.file ==> s.file[key] == Saved(put.value, Some(at)))
      && (s.now - at <= TICKET_LIFETIME ==> key in s.file)
  }

  lemma KeepsStep(s: State, op: Op, put: Option<Ticket>, at: int, key: Key)
    requires Works(op) && Keeps(s, put, at, key)
    ensures var stored := op.Put? && op.key == key;
            var gone := op.Forget? || (op.PutNil? && op.key == key);
            Keeps(After(s, op), if stored then Some(op.ticket) else if gone then None else put,
                  if stored then s.now else at, key)
  {
  }

  lemma {:induction false} KeepsAlways(now: int, ops: seq<Op>, key: Key)
    requires forall i | 0 <= i < |ops| :: Works(ops[i])
    ensures var s := Run(Start(now), ops);
            Keeps(s, LastPut(ops, key), LastPutAt(now, ops, key), key) && s.now == Clock(now, ops)
  {
    if ops != [] {
      var front, op := ops[..|ops| - 1], ops[|ops| - 1];
      KeepsAlways(now, front, key);
      KeepsStep(Run(Start(now), front), op, LastPut(front, key), LastPutAt(now, front, key), key);
      LastPutStep(front, op, key);
      assert ops == front + [op];
    }
  }

  /**
    With a file system that works, a Get within an hour of the last Put of its key returns that ticket, whatever
    memory has dropped and however often processes have changed in between.
  */
  lemma FreshTicketIsFound(now: int, ops: seq<Op>, key: Key)
    requires forall i | 0 <= i < |ops| :: Works(ops[i])
    requires LastPut(ops, key).Some? && Clock(now, ops) - LastPutAt(now, ops, key) <= 3600
    ensures Lookup(Run(Start(now), ops), key, WORKING) == LastPut(ops, key)
  {
    KeepsAlways(now, ops, key);
  }

  /** So a ticket a Get returns was stored after the last Forget: changing a pin leaves no ticket to resume from. */
  lemma NoTicketSurvivesForget(now: int, ops: seq<Op>, j: nat, key: Key, disk: Disk)
    requires CleanRun(now, ops) && j < |ops| && ops[j].Forget?
    ensures var got := Lookup(Run(Start(now), ops), key, disk);
            got.Some? ==> exists m | j < m < |ops| :: ops[m].Put? && ops[m].key == key && ops[m].ticket == got.value
  {
    GetIsLastPut(now, ops, key, disk);
    LastPutIsLater(ops, j, key);
  }

  /**
    A run that shows it: a ticket is stored, the file cannot be removed when the pin changes, and the ticket is
    offered all the same.
  */
  lemma TicketOutlivesForget(now: int, key: Key, ticket: Ticket)
    ensures var disk := Disk(true, false, true, true);
            var ops := [Put(key, ticket, true, disk), Forget(false)];
            Lookup(Run(Start(now), ops), key, disk) == Some(ticket) && LastPut(ops, key) == None
  {
    var disk := Disk(true, false, true, true);
    var put := Put(key, ticket, true, disk);
    assert [put, Forget(false)][..1] == [put] && [put][..0] == [];
    assert Run(Start(now), [put]).file == map[key := Saved(ticket, Some(now))];
  }

  lemma {:induction false} LastPutIsLater(ops: seq<Op>, j: nat, key: Key)
    requires j < |ops| && ops[j].Forget?
    ensures LastPut(ops, key).Some? ==>
              exists m | j < m < |ops| :: ops[m].Put? && ops[m].key == key && ops[m].ticket == LastPut(ops, key).value
  {
    var last := |ops| - 1;
    if j < last && !(ops[last].Put? && ops[last].key == key) {
      LastPutIsLater(ops[..last], j, key);
    }
  }

  // ── the code ──

  /** fileSessionCache; file is the content of tls_sessions.json. */
  class FileSessionCache {
    var mem: map<Key, Option<Ticket>>
    var file: map<Key, Saved>

    ghost function Contents(now: int): State
      reads this
    {
      State(mem, file, now)
    }

    constructor ()
      ensures mem == map[] && file == map[]
    {
      mem, file := map[], map[];
    }

    /** save: expired entries go one by one, then the rest is written. */
    method Save(m: map<Key, Saved>, now: int, saves: bool)
      modifies `file
      ensures file == if saves then Purge(m, now) else old(file)
    {
      var left, keys := m, m.Keys;
      while keys != {}
        invariant keys <= left.Keys
        invariant forall k :: k in left <==> k in m && (k in keys || !Expired(m[k], now))
        invariant forall k | k in left :: left[k] == m[k]
        decreases |keys|
      {
        var k :| k in keys;
        if Expired(left[k], now) {
          left := left - {k};
        }
        keys := keys - {k};
      }
      if saves {
        assert left == Purge(m, now);
        file := left;
      }
    }

    method Get(key: Key, now: int, disk: Disk) returns (ticket: Option<Ticket>)
      modifies `mem
      ensures ticket == Lookup(old(Contents(now)), key, disk)
      ensures Contents(now) == After(old(Contents(now)), Op.Get(key, disk))
    {
      if key in mem {
        return mem[key];
      }
      var m := Load(file, disk);
      if key !in m || Expired(m[key], now) || !disk.decodes {
        return None;
      }
      mem := mem[key := Some(m[key].ticket)];
      return Some(m[key].ticket);
    }

    /**
      A crash leaves the next process an empty memory. It happens exactly when a ticket that serialises meets a nil
      map.
    */
    method Put(key: Key, cs: Option<Ticket>, serialises: bool, now: int, disk: Disk) returns (crashed: bool)
      modifies this
      ensures Contents(now) == After(old(Contents(now)),
                if cs.Some? then Op.Put(key, cs.value, serialises, disk) else PutNil(key, disk))
      ensures crashed <==> cs.Some? && serialises && disk.nilMap
    {
      crashed := false;
      if cs.None? && key in mem {
        mem := mem - {key};
      } else {
        mem := mem[key := cs];
      }
      var m := Load(file, disk);
      if cs.None? {
        if key !in m {
          return;
        }
        Save(m - {key}, now, disk.saves);
        return;
      }
      if !serialises {
        return;
      }
      if disk.nilMap {
        mem := map[];
        return true;
      }
      Save(m[key := Saved(cs.value, Some(now))], now, disk.saves);
    }

    /** forgetSessions. */
    method Forget(removes: bool)
      modifies this
      ensures forall now :: Contents(now) == After(old(Contents(now)), Op.Forget(removes))
    {
      mem := map[];
      if removes {
        file := map[];
      }
    }
  }
}
