/**
  The one-shot client of the pod's JSON API (internal/tcpclient/client.go): reassembling a sample array
  from its packets, and dialing again until a budget is spent.
*/
module PodClient {
  import opened Bytes
  import opened Outcomes
  import opened Sequences
  import Base64Url

  // ── samples ──

  type Samples = seq<int>

  predicate AllUint16(xs: Samples) {
    forall i | 0 <= i < |xs| :: 0 <= xs[i] < 0x1_0000
  }

  /** The pod's encoding: two bytes a sample, low byte first. */
  function ToBytes(xs: Samples): (r: Data)
    ensures |r| == 2 * |xs|
  {
    if xs == [] then [] else [Low(xs[0]), High(xs[0])] + ToBytes(xs[1..])
  }

  /** The samples in an even number of bytes. */
  function FromBytes(raw: Data): (r: Samples)
    requires |raw| % 2 == 0
    ensures |r| == |raw| / 2 && AllUint16(r)
    ensures forall i | 0 <= i < |r| :: r[i] == Uint16(raw[2 * i], raw[2 * i + 1])
  {
    if raw == [] then [] else [Uint16(raw[0], raw[1])] + FromBytes(raw[2..])
  }

  lemma {:induction false} FromToBytes(xs: Samples)
    requires AllUint16(xs)
    ensures FromBytes(ToBytes(xs)) == xs
  {
    if xs != [] {
      Uint16RoundTrip(xs[0]);
      FromToBytes(xs[1..]);
      assert ToBytes(xs)[2..] == ToBytes(xs[1..]);
    }
  }

  lemma {:induction false} ToFromBytes(raw: Data)
    requires |raw| % 2 == 0
    ensures ToBytes(FromBytes(raw)) == raw
  {
    if raw != [] {
      Uint16Injective(raw[0], raw[1]);
      ToFromBytes(raw[2..]);
      var xs := FromBytes(raw);
      assert xs[1..] == FromBytes(raw[2..]);
      assert raw == [raw[0], raw[1]] + raw[2..];
    }
  }

  /** decodeB64Samples. */
  function Decoded(text: string): Result<Samples> {
    var raw := Base64Url.Decode(text);
    if raw.Err? then Err(raw.error)
    else if |raw.value| % 2 != 0 then Err("odd byte count in b64 samples")
    else Ok(FromBytes(raw.value))
  }

  /** A text decodes to samples exactly when it decodes to their bytes. */
  lemma DecodedIff(text: string, xs: Samples)
    ensures Decoded(text) == Ok(xs) <==> AllUint16(xs) && Base64Url.Decode(text) == Ok(ToBytes(xs))
  {
    var raw := Base64Url.Decode(text);
    if AllUint16(xs) {
      FromToBytes(xs);
    }
    if raw.Ok? && |raw.value| % 2 == 0 {
      ToFromBytes(raw.value);
    }
  }

  datatype Status = StatusOk | StatusChunk | StatusError | StatusOther

  /** The data field: JSON null counts as absent; NotInts is anything but a list of integers. */
  datatype Field = NoData | Ints(xs: Samples) | NotInts

  /** A reply line. Garbled is one that does not parse. */
  datatype Packet = Packet(status: Status, b64: Option<string>, data: Field, more: bool) | Garbled

  predicate Carries(p: Packet) {
    p.Packet? && (p.status.StatusOk? || p.status.StatusChunk?)
  }

  /** The samples one packet adds; b64 wins over data. */
  function Adds(p: Packet): Result<Samples>
    requires Carries(p)
  {
    if p.b64.Some? then Decoded(p.b64.value)
    else
      match p.data
      case NoData => Ok([])
      case Ints(xs) => Ok(xs)
      case NotInts => Err("parse sample data")
  }

  predicate Good(p: Packet) {
    Carries(p) && Adds(p).Ok?
  }

  function Part(p: Packet): Samples {
    if Good(p) then Adds(p).value else []
  }

  /**
    A packet is good exactly when its status is ok or chunk and its samples can be read: those of b64, if it is there,
    an even number of bytes of base64url; else those of a data field that is absent or a list of integers.
  */
  lemma GoodIff(p: Packet, xs: Samples)
    ensures Good(p) && Part(p) == xs <==>
              && p.Packet? && (p.status.StatusOk? || p.status.StatusChunk?)
              && if p.b64.Some? then AllUint16(xs) && Base64Url.Decode(p.b64.value) == Ok(ToBytes(xs))
                 else p.data == Ints(xs) || (p.data.NoData? && xs == [])
  {
    if p.Packet? && p.b64.Some? {
      DecodedIff(p.b64.value, xs);
    }
  }

  /** What the first n packets add, in order. */
  function Joined(ps: seq<Packet>, n: nat): Samples
    requires n <= |ps|
  {
    if n == 0 then [] else Joined(ps, n - 1) + Part(ps[n - 1])
  }

  /** The packets up to the first that says there is no more, all good. */
  predicate Complete(ps: seq<Packet>, n: nat) {
    && n < |ps| && !(ps[n].Packet? && ps[n].more)
    && (forall i | 0 <= i <= n :: Good(ps[i]))
    && forall i | 0 <= i < n :: ps[i].more
  }

  /** The first packet that does not carry samples, before the array has ended: an error, or what is not a reply. */
  predicate Refuses(ps: seq<Packet>, n: nat)
    requires n < |ps|
  {
    && (ps[n].Garbled? || ps[n].status.StatusError? || ps[n].status.StatusOther?)
    && forall i | 0 <= i < n :: ps[i].Packet? && ps[i].more
  }

  /** A packet that is not good, or the end of the connection, before one that ends the array: nothing is complete. */
  lemma NoneComplete(ps: seq<Packet>, i: nat)
    requires i <= |ps| && (forall k | 0 <= k < i :: Good(ps[k]) && ps[k].more) && (i < |ps| ==> !Good(ps[i]))
    ensures forall n: nat :: !Complete(ps, n)
  {
  }

  lemma OnlyComplete(ps: seq<Packet>, i: nat)
    requires i < |ps| && (forall k | 0 <= k < i :: Good(ps[k]) && ps[k].more) && Good(ps[i]) && !ps[i].more
    ensures Complete(ps, i) && forall n: nat | Complete(ps, n) :: n == i
  {
  }

  /** How the pod may send one part of an array. */
  datatype Style = B64(padding: string) | Decimal

  predicate ValidStyle(style: Style) {
    style.B64? ==> forall i | 0 <= i < |style.padding| :: style.padding[i] == '='
  }

  function Sent(part: Samples, style: Style, last: bool): Packet {
    var status := if last then StatusOk else StatusChunk;
    match style
    case B64(padding) => Packet(status, Some(Base64Url.Encode(ToBytes(part)) + padding), NoData, !last)
    case Decimal => Packet(status, None, if part == [] then NoData else Ints(part), !last)
  }

  lemma SentAdds(part: Samples, style: Style, last: bool)
    requires AllUint16(part) && ValidStyle(style)
    ensures Good(Sent(part, style, last)) && Adds(Sent(part, style, last)) == Ok(part)
  {
    if style.B64? {
      Base64Url.RoundTrip(ToBytes(part), style.padding);
      DecodedIff(Base64Url.Encode(ToBytes(part)) + style.padding, part);
    }
  }

  /** ps are the packets of the parts, in any mix of styles, and perhaps more after the last. */
  predicate SentAs(parts: seq<Samples>, styles: seq<Style>, ps: seq<Packet>) {
    && 0 < |parts| == |styles| <= |ps|
    && forall i | 0 <= i < |parts| ::
         AllUint16(parts[i]) && ValidStyle(styles[i]) && ps[i] == Sent(parts[i], styles[i], i == |parts| - 1)
  }

  lemma SentParts(parts: seq<Samples>, styles: seq<Style>, ps: seq<Packet>, i: nat)
    requires SentAs(parts, styles, ps) && i < |parts|
    ensures Good(ps[i]) && Part(ps[i]) == parts[i] && ps[i].more == (i < |parts| - 1)
  {
    SentAdds(parts[i], styles[i], i == |parts| - 1);
  }

  lemma {:induction false} SameParts(ps: seq<Packet>, parts: seq<Samples>, n: nat)
    requires n <= |parts| <= |ps| && forall i | 0 <= i < n :: Part(ps[i]) == parts[i]
    ensures Joined(ps, n) == Flatten(parts[..n])
  {
    if n > 0 {
      SameParts(ps, parts, n - 1);
      assert parts[..n][..n - 1] == parts[..n - 1];
    }
  }

  /** An array split over any number of packets, mixing base64url and decimal, is complete and joins to itself. */
  lemma PartsComplete(parts: seq<Samples>, styles: seq<Style>, ps: seq<Packet>)
    requires SentAs(parts, styles, ps)
    ensures Complete(ps, |parts| - 1) && Joined(ps, |parts|) == Flatten(parts)
  {
    forall i | 0 <= i < |parts| ensures Good(ps[i]) && Part(ps[i]) == parts[i] && ps[i].more == (i < |parts| - 1) {
      SentParts(parts, styles, ps, i);
    }
    SameParts(ps, parts, |parts|);
    assert parts[..|parts|] == parts;
  }

  // ── the code ──

  /** decodeB64Samples, filling the slice. */
  method DecodeB64Samples(text: string) returns (res: Result<Samples>)
    ensures res == Decoded(text)
  {
    var raw := Base64Url.Decode(text);
    if raw.Err? {
      return Err(raw.error);
    }
    if |raw.value| % 2 != 0 {
      return Err("odd byte count in b64 samples");
    }
    var out := new int[|raw.value| / 2];
    var i := 0;
    while i < out.Length
      invariant 0 <= i <= out.Length
      invariant forall k | 0 <= k < i :: out[k] == Uint16(raw.value[2 * k], raw.value[2 * k + 1])
    {
      out[i] := Uint16(raw.value[2 * i], raw.value[2 * i + 1]);
      i := i + 1;
    }
    assert out[..] == FromBytes(raw.value);
    res := Ok(out[..]);
  }

  /** The samples of one reply line. */
  method Take(p: Packet) returns (res: Result<Samples>)
    ensures res.Ok? <==> Good(p)
    ensures res.Ok? ==> res.value == Part(p)
  {
    if !Carries(p) {
      return Err(if p.Garbled? then "parse response"
                 else if p.status.StatusError? then "pod error"
                 else "unexpected response status");
    }
    if p.b64.Some? {
      res := DecodeB64Samples(p.b64.value);
    } else if p.data.Ints? {
      res := Ok(p.data.xs);
    } else if p.data.NotInts? {
      res := Err("parse sample data");
    } else {
      res := Ok([]);
    }
  }

  /**
    Samples over the reply lines ps, after which the connection closes. It succeeds exactly when some packet
    ends the array and all up to it are good, and returns what they add, in order; never a part of it.
  */
  method ReadSamples(ps: seq<Packet>) returns (res: Result<Samples>)
    ensures forall n: nat | Complete(ps, n) :: res == Ok(Joined(ps, n + 1))
    ensures res.Ok? ==> exists n: nat :: Complete(ps, n)
    ensures forall n: nat | n < |ps| && Refuses(ps, n) :: res.Err?
  {
    var out: Samples := [];
    var i := 0;
    while i < |ps|
      invariant i <= |ps| && out == Joined(ps, i)
      invariant forall k | 0 <= k < i :: Good(ps[k]) && ps[k].more
    {
      var chunk := Take(ps[i]);
      if chunk.Err? {
        NoneComplete(ps, i);
        return Err(chunk.error);
      }
      out := out + chunk.value;
      if !ps[i].more {
        OnlyComplete(ps, i);
        return Ok(out);
      }
      i := i + 1;
    }
    NoneComplete(ps, i);
    return Err("pod closed connection without a complete response");
  }

  // ── dialing ──

  /** One attempt: when it began and ended, and whether it connected. */
  datatype Attempt = Attempt(begin: int, end: int, connected: bool)

  predicate Follows(before: Attempt, next: Attempt, deadline: int, backoff: nat) {
    before.end + backoff <= next.begin && before.end + backoff < deadline && !before.connected
  }

  /**
    At least one backoff apart, and each but the first with a backoff to spare before the deadline when the one before
    failed.
  */
  predicate Spaced(ts: seq<Attempt>, deadline: int, backoff: nat) {
    forall i | 0 <= i < |ts| - 1 :: Follows(ts[i], ts[i + 1], deadline, backoff)
  }

  lemma {:induction false} SpacedTakesTime(ts: seq<Attempt>, deadline: int, backoff: nat)
    requires ts != [] && Spaced(ts, deadline, backoff) && forall i | 0 <= i < |ts| :: ts[i].begin <= ts[i].end
    ensures ts[0].begin + (|ts| - 1) * backoff <= ts[|ts| - 1].begin
    ensures |ts| == 1 || ts[0].begin + (|ts| - 1) * backoff < deadline
  {
    if |ts| > 1 {
      var front := ts[..|ts| - 1];
      forall i | 0 <= i < |front| - 1 ensures Follows(front[i], front[i + 1], deadline, backoff) {
        assert Follows(ts[i], ts[i + 1], deadline, backoff);
      }
      SpacedTakesTime(front, deadline, backoff);
      assert Follows(ts[|ts| - 2], ts[|ts| - 1], deadline, backoff);
      assert (|ts| - 1) * backoff == (|front| - 1) * backoff + backoff;
    }
  }

  /** The pause after a failed attempt is over. */
  predicate Waited(before: Attempt, clock: int, deadline: int, backoff: nat) {
    before.end + backoff <= clock && before.end + backoff < deadline && !before.connected
  }

  lemma SpacedExtend(ts: seq<Attempt>, next: Attempt, deadline: int, backoff: nat)
    requires Spaced(ts, deadline, backoff) && (ts != [] ==> Follows(ts[|ts| - 1], next, deadline, backoff))
    ensures Spaced(ts + [next], deadline, backoff)
  {
    var more := ts + [next];
    forall i | 0 <= i < |more| - 1 ensures Follows(more[i], more[i + 1], deadline, backoff) {
      if i < |ts| - 1 {
        assert Follows(ts[i], ts[i + 1], deadline, backoff);
      }
    }
  }

  /**
    dialWithRetry from time now. Only the last attempt can have connected; it gives up only when the caller
    has, or when another backoff would reach the deadline; and the budget bounds the number of attempts.
  */
  method DialWithRetry(now: int, total: nat, perAttempt: nat, backoff: nat)
    returns (ok: bool, cancelled: bool, ts: seq<Attempt>)
    requires backoff > 0
    ensures ts != [] && ts[0].begin == now && Spaced(ts, now + total, backoff)
    ensures forall i | 0 <= i < |ts| :: ts[i].begin <= ts[i].end <= ts[i].begin + perAttempt
    ensures ok == ts[|ts| - 1].connected && (ok ==> !cancelled)
    ensures !ok ==> cancelled || ts[|ts| - 1].end + backoff >= now + total
    ensures |ts| == 1 || (|ts| - 1) * backoff < total
  {
    var deadline := now + total;
    var clock := now;
    ts := [];
    while true
      invariant if ts == [] then clock == now else ts[0].begin == now && Waited(ts[|ts| - 1], clock, deadline, backoff)
      invariant forall i | 0 <= i < |ts| :: ts[i].begin <= ts[i].end <= ts[i].begin + perAttempt
      invariant Spaced(ts, deadline, backoff)
      decreases if ts == [] then total + 1 else deadline - ts[|ts| - 1].end
    {
      var took :| 0 <= took <= perAttempt;
      var connected: bool := *;
      cancelled := *;
      var attempt := Attempt(clock, clock + took, connected);
      SpacedExtend(ts, attempt, deadline, backoff);
      ts, clock := ts + [attempt], attempt.end;
      SpacedTakesTime(ts, deadline, backoff);
      if connected {
        return true, false, ts;
      }
      if cancelled || clock + backoff >= deadline {
        return false, cancelled, ts;
      }
      cancelled := *;
      if cancelled {
        return false, true, ts;
      }
      var slept :| 0 <= slept;
      clock := clock + backoff + slept;
    }
  }
}
