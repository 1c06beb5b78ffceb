/**
  The two byte pumps between OpenOCD and the pod. OpenOCD's cmsis_dap_tcp frames carry an 8-byte
  header (signature, length, type, reserved), the pod's frames a 2-byte length; the packets are the same.
*/
module DapFraming {
  import opened Bytes
  import opened Sequences

  /** "DAP" and a zero byte: the signature as a little-endian 32-bit value. */
  predicate Signed(s: Data)
    requires |s| >= 4
  {
    s[0] == 0x44 && s[1] == 0x41 && s[2] == 0x50 && s[3] == 0
  }

  const TCP_HEADER_LEN: nat := 8
  const PKT_RESPONSE: byte := 0x02
  const MAX_PACKET: nat := 1024

  /** One CMSIS-DAP packet with the two header bytes only OpenOCD's framing has. */
  datatype Packet = Packet(kind: byte, reserved: byte, payload: Data)

  predicate Fits(p: Packet) {
    |p.payload| <= MAX_PACKET
  }

  predicate AllFit(ps: seq<Packet>) {
    forall i | 0 <= i < |ps| :: Fits(ps[i])
  }

  /** Each packet as a device-to-host response, the way the pod's frames are read. */
  predicate AllResponses(ps: seq<Packet>) {
    forall i | 0 <= i < |ps| :: ps[i].kind == PKT_RESPONSE && ps[i].reserved == 0
  }

  datatype Side = Pod | OpenOcd

  function HeaderLen(side: Side): nat {
    if side.Pod? then 2 else TCP_HEADER_LEN
  }

  /** The bytes of one frame. The pod's frame has no room for the kind and reserved bytes. */
  function Frame(side: Side, p: Packet): (f: Data)
    ensures |f| == HeaderLen(side) + |p.payload|
  {
    var n := |p.payload|;
    if side.Pod? then [Low(n), High(n)] + p.payload
    else [0x44, 0x41, 0x50, 0, Low(n), High(n), p.kind, p.reserved] + p.payload
  }

  function Framer(side: Side): Packet -> Data {
    (p: Packet) => Frame(side, p)
  }

  /** The stream of some packets' frames. */
  function Frames(side: Side, ps: seq<Packet>): Data {
    Flatten(Each(Framer(side), ps))
  }

  lemma FramesFront(side: Side, p: Packet, ps: seq<Packet>)
    ensures Frames(side, [p] + ps) == Frame(side, p) + Frames(side, ps)
  {
    EachOfSum(Framer(side), [p], ps);
    assert Each(Framer(side), [p]) == [Frame(side, p)];
    FlattenFront(Frame(side, p), Each(Framer(side), ps));
  }

  lemma FramesMonotone(side: Side, ps: seq<Packet>, more: seq<Packet>)
    ensures Frames(side, ps) <= Frames(side, ps + more)
  {
    EachOfSum(Framer(side), ps, more);
    FlattenMonotone(Each(Framer(side), ps), Each(Framer(side), more));
  }

  /** A complete frame stands at the front of s. */
  ghost predicate StartsWithFrame(side: Side, s: Data) {
    exists p: Packet :: Fits(p) && Frame(side, p) <= s
  }

  // ── reading: what the pumps take from a stream ──

  /** Why reading stopped at the front of a stream. */
  datatype Stop = EndOfStream | Truncated | BadSignature | TooLong

  /** The length field of a complete header. */
  function LengthField(side: Side, s: Data): nat
    requires |s| >= HeaderLen(side)
  {
    if side.Pod? then Uint16(s[0], s[1]) else Uint16(s[4], s[5])
  }

  datatype Head = Whole(packet: Packet, size: nat) | Stopped(why: Stop)

  /** What io.ReadFull reports when the stream ends k bytes into the part it was to read. */
  function ShortOf(k: nat): Stop {
    if k == 0 then EndOfStream else Truncated
  }

  /**
    The checks a pump makes on the front of its stream, in the pumps' order. A stream that ends right after a
    header counts as ended, not as truncated, as header and payload are read separately.
  */
  function ReadHead(side: Side, s: Data): (h: Head)
    ensures h.Whole? ==> 0 < h.size <= |s|
  {
    if |s| < HeaderLen(side) then Stopped(ShortOf(|s|))
    else if side.OpenOcd? && !Signed(s) then Stopped(BadSignature)
    else
      var n := LengthField(side, s);
      if n > MAX_PACKET then Stopped(TooLong)
      else if |s| < HeaderLen(side) + n then Stopped(ShortOf(|s| - HeaderLen(side)))
      else
        var payload := s[HeaderLen(side)..HeaderLen(side) + n];
        var packet := if side.Pod? then Packet(PKT_RESPONSE, 0, payload) else Packet(s[6], s[7], payload);
        Whole(packet, HeaderLen(side) + n)
  }

  /** All packets a pump reads from s before it stops. */
  function Packets(side: Side, s: Data): seq<Packet>
    decreases |s|
  {
    var h := ReadHead(side, s);
    if h.Stopped? then [] else [h.packet] + Packets(side, s[h.size..])
  }

  /** Why it stops. */
  function StopReason(side: Side, s: Data): Stop
    decreases |s|
  {
    var h := ReadHead(side, s);
    if h.Stopped? then h.why else StopReason(side, s[h.size..])
  }

  /** What a pump has not taken when it stops. */
  function Unread(side: Side, s: Data): Data
    decreases |s|
  {
    var h := ReadHead(side, s);
    if h.Stopped? then s else Unread(side, s[h.size..])
  }

  /** A header that the pump goes on from: signed, on OpenOCD's side, and with a length within the limit. */
  predicate GoodHeader(side: Side, s: Data) {
    && |s| >= HeaderLen(side)
    && (side.OpenOcd? ==> s[0] == 0x44 && s[1] == 0x41 && s[2] == 0x50 && s[3] == 0 && Uint16(s[4], s[5]) <= 1024)
    && (side.Pod? ==> Uint16(s[0], s[1]) <= 1024)
  }

  /**
    Why a pump stops, told by what it has not taken: nothing or a header without its payload is the end of the
    stream, part of a header or of a payload a truncation; and a whole header can be unsigned or too long.
  */
  lemma {:induction false} StopIff(side: Side, s: Data)
    ensures var rest, why := Unread(side, s), StopReason(side, s);
            && (why == EndOfStream <==> rest == [] || (|rest| == HeaderLen(side) && GoodHeader(side, rest)))
            && (why == BadSignature <==>
                  && side.OpenOcd? && |rest| >= 8
                  && !(rest[0] == 0x44 && rest[1] == 0x41 && rest[2] == 0x50 && rest[3] == 0))
            && (why == TooLong <==> |rest| >= HeaderLen(side) && why != BadSignature && !GoodHeader(side, rest))
    decreases |s|
  {
    var h := ReadHead(side, s);
    if h.Whole? {
      StopIff(side, s[h.size..]);
    }
  }

  /** It is what follows the frames of the packets read. */
  lemma {:induction false} UnreadFollows(side: Side, s: Data)
    ensures s == Frames(side, Packets(side, s)) + Unread(side, s)
    decreases |s|
  {
    var h := ReadHead(side, s);
    if h.Whole? {
      var rest := s[h.size..];
      UnreadFollows(side, rest);
      FrameOfHead(side, s);
      FramesFront(side, h.packet, Packets(side, rest));
      Assoc(Frame(side, h.packet), Frames(side, Packets(side, rest)), Unread(side, rest));
    } else {
      assert Frames(side, []) == [];
    }
  }

  function Other(side: Side): Side {
    if side.Pod? then OpenOcd else Pod
  }

  /** What pumping s from one side to the other writes. */
  function Translate(source: Side, s: Data): Data {
    Frames(Other(source), Packets(source, s))
  }

  // ── reading inverts framing ──

  /** A frame at the front of s: what its header bytes and payload are there. */
  lemma FrontIs(s: Data, f: Data, m: nat)
    requires f <= s && m <= |f|
    ensures s[..m] == f[..m] && s[m..|f|] == f[m..]
    ensures forall i | 0 <= i < m :: s[i] == f[i]
  {
    assert s[..|f|] == f;
  }

  lemma PodFrameIsRead(s: Data, p: Packet)
    requires p.kind == PKT_RESPONSE && p.reserved == 0 && Fits(p) && Frame(Pod, p) <= s
    ensures ReadHead(Pod, s) == Whole(p, 2 + |p.payload|)
  {
    FrontIs(s, Frame(Pod, p), 2);
    Uint16RoundTrip(|p.payload|);
    assert Frame(Pod, p)[2..] == p.payload;
  }

  lemma OpenOcdFrameIsRead(s: Data, p: Packet)
    requires Fits(p) && Frame(OpenOcd, p) <= s
    ensures ReadHead(OpenOcd, s) == Whole(p, TCP_HEADER_LEN + |p.payload|)
  {
    FrontIs(s, Frame(OpenOcd, p), 8);
    Uint16RoundTrip(|p.payload|);
    assert Frame(OpenOcd, p)[8..] == p.payload;
  }

  /** ReadHead finds p at the front of s exactly when p's frame is there (the pod's packets read as responses). */
  lemma ReadHeadExact(side: Side, s: Data, p: Packet)
    requires side.Pod? ==> p.kind == PKT_RESPONSE && p.reserved == 0
    ensures ReadHead(side, s) == Whole(p, HeaderLen(side) + |p.payload|) <==> Fits(p) && Frame(side, p) <= s
  {
    if Fits(p) && Frame(side, p) <= s {
      if side.Pod? {
        PodFrameIsRead(s, p);
      } else {
        OpenOcdFrameIsRead(s, p);
      }
    }
    if ReadHead(side, s) == Whole(p, HeaderLen(side) + |p.payload|) {
      FrameOfHead(side, s);
    }
  }

  lemma PodHeader(s: Data)
    requires |s| >= 2
    ensures s[..2] == [Low(Uint16(s[0], s[1])), High(Uint16(s[0], s[1]))]
  {
    Uint16Injective(s[0], s[1]);
  }

  lemma OpenOcdHeader(s: Data)
    requires |s| >= TCP_HEADER_LEN && Signed(s)
    ensures s[..8] == [0x44, 0x41, 0x50, 0, Low(Uint16(s[4], s[5])), High(Uint16(s[4], s[5])), s[6], s[7]]
  {
    Uint16Injective(s[4], s[5]);
  }

  lemma Glue(s: Data, m: nat, n: nat)
    requires m <= n <= |s|
    ensures s[..n] == s[..m] + s[m..n]
  {
  }

  lemma PodFrameOfHead(s: Data, n: nat)
    requires |s| >= 2 + n && n == Uint16(s[0], s[1])
    ensures Frame(Pod, Packet(PKT_RESPONSE, 0, s[2..2 + n])) == s[..2 + n]
  {
    Glue(s, 2, 2 + n);
    PodHeader(s);
  }

  lemma OpenOcdFrameOfHead(s: Data, n: nat)
    requires |s| >= TCP_HEADER_LEN + n && Signed(s) && n == Uint16(s[4], s[5])
    ensures Frame(OpenOcd, Packet(s[6], s[7], s[8..8 + n])) == s[..8 + n]
  {
    Glue(s, 8, 8 + n);
    OpenOcdHeader(s);
  }

  lemma FrameOfHead(side: Side, s: Data)
    requires ReadHead(side, s).Whole?
    ensures var h := ReadHead(side, s); Fits(h.packet) && Frame(side, h.packet) == s[..h.size]
  {
    if side.Pod? {
      PodFrameOfHead(s, LengthField(side, s));
    } else {
      OpenOcdFrameOfHead(s, LengthField(side, s));
    }
  }

  /** ReadHead stops exactly at streams that do not start with a complete frame. */
  lemma StopsExactly(side: Side, s: Data)
    ensures ReadHead(side, s).Whole? <==> StartsWithFrame(side, s)
  {
    if ReadHead(side, s).Whole? {
      FrameOfHead(side, s);
      assert Frame(side, ReadHead(side, s).packet) <= s;
    }
    forall p | Fits(p) && Frame(side, p) <= s ensures ReadHead(side, s).Whole? {
      var q := if side.Pod? then Packet(PKT_RESPONSE, 0, p.payload) else p;
      assert Frame(side, q) == Frame(side, p);
      ReadHeadExact(side, s, q);
    }
  }

  lemma FirstFrame(side: Side, p: Packet, t: Data)
    requires Fits(p) && (side.Pod? ==> p.kind == PKT_RESPONSE && p.reserved == 0)
    ensures Packets(side, Frame(side, p) + t) == [p] + Packets(side, t)
  {
    var s := Frame(side, p) + t;
    ReadHeadExact(side, s, p);
    assert s[|Frame(side, p)|..] == t;
  }

  lemma SplitAgain(s: Data, n: nat, taken: Data)
    requires n <= |s| && taken <= s[n..]
    ensures s[..n] + taken <= s && s[|s[..n] + taken|..] == s[n..][|taken|..]
  {
    assert s == s[..n] + s[n..];
    assert s[n..] == taken + s[n..][|taken|..];
  }

  /** ps are well formed and framed at the front of s, and no complete frame follows. */
  ghost predicate MaximalPrefix(side: Side, s: Data, ps: seq<Packet>) {
    && AllFit(ps) && (side.Pod? ==> AllResponses(ps))
    && Frames(side, ps) <= s
    && !StartsWithFrame(side, s[|Frames(side, ps)|..])
  }

  lemma OneMorePacket(side: Side, s: Data, p: Packet, size: nat, ps: seq<Packet>)
    requires size <= |s| && Fits(p) && (side.Pod? ==> p.kind == PKT_RESPONSE && p.reserved == 0)
    requires Frame(side, p) == s[..size] && MaximalPrefix(side, s[size..], ps)
    ensures MaximalPrefix(side, s, [p] + ps)
  {
    FramesFront(side, p, ps);
    SplitAgain(s, size, Frames(side, ps));
  }

  /**
    What a pump reads is well formed and is exactly a prefix of the stream; what it leaves starts with no complete
    frame.
  */
  lemma {:induction false} ReadsMaximalPrefix(side: Side, s: Data)
    ensures MaximalPrefix(side, s, Packets(side, s))
    decreases |s|
  {
    StopsExactly(side, s);
    var h := ReadHead(side, s);
    if h.Stopped? {
      assert s[0..] == s;
    } else {
      FrameOfHead(side, s);
      ReadsMaximalPrefix(side, s[h.size..]);
      OneMorePacket(side, s, h.packet, h.size, Packets(side, s[h.size..]));
    }
  }

  /**
    ... and that reading is the only one: any other split of the stream into frames and a remainder that starts with
    none has the same packets.
  */
  lemma {:induction false} ReadingIsUnique(side: Side, ps: seq<Packet>, rest: Data)
    requires AllFit(ps) && (side.Pod? ==> AllResponses(ps))
    requires !StartsWithFrame(side, rest)
    ensures Packets(side, Frames(side, ps) + rest) == ps
    decreases |ps|
  {
    if ps == [] {
      assert Frames(side, ps) + rest == rest;
      StopsExactly(side, rest);
    } else {
      var p, tail := ps[0], ps[1..];
      assert ps == [p] + tail;
      FramesFront(side, p, tail);
      Assoc(Frame(side, p), Frames(side, tail), rest);
      ReadingIsUnique(side, tail, rest);
      FirstFrame(side, p, Frames(side, tail) + rest);
    }
  }

  lemma NoFrameInNothing(side: Side)
    ensures !StartsWithFrame(side, [])
  {
    StopsExactly(side, []);
  }

  lemma Longer(s: Data, more: Data, n: nat)
    requires n <= |s|
    ensures s[..n] <= s + more && (s + more)[n..] == s[n..] + more
  {
  }

  lemma SameHead(side: Side, s: Data, more: Data)
    requires ReadHead(side, s).Whole?
    ensures ReadHead(side, s + more) == ReadHead(side, s)
    ensures (s + more)[ReadHead(side, s).size..] == s[ReadHead(side, s).size..] + more
  {
    var h := ReadHead(side, s);
    FrameOfHead(side, s);
    Longer(s, more, h.size);
    ReadHeadExact(side, s + more, h.packet);
  }

  lemma SameFirstPacket(side: Side, s: Data, t: Data, p: Packet, size: nat)
    requires 0 < size <= |s| && size <= |t| && ReadHead(side, s) == Whole(p, size) == ReadHead(side, t)
    requires Packets(side, s[size..]) <= Packets(side, t[size..])
    ensures Packets(side, s) <= Packets(side, t)
  {
  }

  /** More input never changes what was read: packets and output only grow. */
  lemma {:induction false} MoreInputExtends(side: Side, s: Data, more: Data)
    ensures Packets(side, s) <= Packets(side, s + more)
    decreases |s|
  {
    var h := ReadHead(side, s);
    if h.Whole? {
      SameHead(side, s, more);
      MoreInputExtends(side, s[h.size..], more);
      SameFirstPacket(side, s, s + more, h.packet, h.size);
    }
  }

  lemma OutputMonotone(source: Side, s: Data, more: Data)
    ensures Translate(source, s) <= Translate(source, s + more)
  {
    MoreInputExtends(source, s, more);
    var ps, qs := Packets(source, s), Packets(source, s + more);
    assert qs == ps + qs[|ps|..];
    FramesMonotone(Other(source), ps, qs[|ps|..]);
  }

  // ── the two pumps undo each other ──

  /** Pod frames to OpenOCD and back: exactly the complete frames the pod sent. */
  lemma PodThereAndBack(s: Data)
    ensures Translate(OpenOcd, Translate(Pod, s)) == Frames(Pod, Packets(Pod, s))
    ensures Translate(OpenOcd, Translate(Pod, s)) == s
      <==> exists ps :: AllFit(ps) && AllResponses(ps) && Frames(Pod, ps) == s
  {
    var ps := Packets(Pod, s);
    ReadsMaximalPrefix(Pod, s);
    NoFrameInNothing(OpenOcd);
    assert Frames(OpenOcd, ps) + [] == Translate(Pod, s);
    ReadingIsUnique(OpenOcd, ps, []);
    forall qs | AllFit(qs) && AllResponses(qs) && Frames(Pod, qs) == s
      ensures qs == ps
    {
      NoFrameInNothing(Pod);
      assert Frames(Pod, qs) + [] == s;
      ReadingIsUnique(Pod, qs, []);
    }
  }

  /** What the pod's frame cannot carry: the packet as it comes back from a trip through the pod's framing. */
  function AsResponse(p: Packet): Packet {
    Packet(PKT_RESPONSE, 0, p.payload)
  }

  function AsResponses(ps: seq<Packet>): seq<Packet> {
    seq(|ps|, i requires 0 <= i < |ps| => AsResponse(ps[i]))
  }

  lemma PodFramesForgetKind(ps: seq<Packet>)
    ensures Frames(Pod, AsResponses(ps)) == Frames(Pod, ps)
  {
    assert Each(Framer(Pod), AsResponses(ps)) == Each(Framer(Pod), ps);
  }

  /** OpenOCD frames to the pod and back: the same payloads in the same order, as responses. */
  lemma OpenOcdThereAndBack(s: Data)
    ensures Translate(Pod, Translate(OpenOcd, s)) == Frames(OpenOcd, AsResponses(Packets(OpenOcd, s)))
  {
    var ps := AsResponses(Packets(OpenOcd, s));
    ReadsMaximalPrefix(OpenOcd, s);
    PodFramesForgetKind(Packets(OpenOcd, s));
    NoFrameInNothing(Pod);
    assert Frames(Pod, ps) + [] == Translate(OpenOcd, s);
    ReadingIsUnique(Pod, ps, []);
  }

  // ── the pumps ──

  /**
    An io.Reader over the bytes that arrive before the stream ends, or fails; each Read returns as much as it likes.
  */
  class Source {
    const data: Data
    const fails: bool
    var pos: nat

    ghost predicate Valid()
      reads this
    {
      pos <= |data|
    }

    ghost function Rest(): Data
      reads this
      requires Valid()
    {
      data[pos..]
    }

    constructor (data: Data, fails: bool)
      ensures Valid() && this.data == data && this.fails == fails && pos == 0
    {
      this.data, this.fails, pos := data, fails, 0;
    }

    /** At least one byte unless the stream is over. */
    method Read(max: nat) returns (chunk: Data)
      requires Valid() && max > 0
      modifies this
      ensures Valid() && |chunk| <= max && old(Rest()) == chunk + Rest()
      ensures chunk == [] <==> old(pos) == |data|
    {
      var n: nat :| n <= max && pos + n <= |data| && (n == 0 <==> pos == |data|);
      chunk := data[pos..pos + n];
      pos := pos + n;
    }
  }

  /** An io.Writer; a failed write may have written part of its bytes. */
  class Sink {
    var got: Data
    /** Whether a write has failed. */
    ghost var failed: bool

    constructor ()
      ensures got == [] && !failed
    {
      got, failed := [], false;
    }

    method Write(bytes: Data) returns (ok: bool)
      modifies this
      ensures ok ==> got == old(got) + bytes
      ensures !ok ==> exists k | 0 <= k <= |bytes| :: got == old(got) + bytes[..k]
      ensures failed <==> old(failed) || !ok
    {
      ok := *;
      failed := failed || !ok;
      if ok {
        got := got + bytes;
      } else {
        var k :| 0 <= k <= |bytes|;
        got := got + bytes[..k];
      }
    }
  }

  method Fill(buf: array<byte>, ghost from: nat, at: nat, chunk: Data)
    requires from <= at && at + |chunk| <= buf.Length
    modifies buf
    ensures buf[..from] == old(buf[..from]) && buf[from..at + |chunk|] == old(buf[from..at]) + chunk
  {
    forall i | 0 <= i < |chunk| {
      buf[at + i] := chunk[i];
    }
    assert buf[from..at] == old(buf[from..at]);
    assert buf[at..at + |chunk|] == chunk;
    assert buf[from..at + |chunk|] == buf[from..at] + buf[at..at + |chunk|];
  }

  /** Full, or why not: nothing came before the end, something did, or reading failed. */
  datatype ReadEnd = Full | AtEnd | MidWay | Broke

  function ReadEndOf(available: nat, wanted: nat, fails: bool): ReadEnd {
    if available >= wanted then Full else if fails then Broke else if available == 0 then AtEnd else MidWay
  }

  /**
    io.ReadFull: buf filled from src over any number of reads, or everything there was and io.EOF, io.ErrUnexpectedEOF
    or the read's own error.
  */
  method ReadFull(src: Source, buf: array<byte>, from: nat) returns (end: ReadEnd)
    requires src.Valid() && from <= buf.Length
    modifies src, buf
    ensures src.Valid() && end == ReadEndOf(|old(src.Rest())|, buf.Length - from, src.fails)
    ensures end.Full? <==> |old(src.Rest())| >= buf.Length - from
    ensures end.Broke? <==> !end.Full? && src.fails
    ensures end.AtEnd? <==> !end.Full? && !src.fails && old(src.Rest()) == []
    ensures buf[..from] == old(buf[..from])
    ensures end.Full? ==> old(src.Rest()) == buf[from..] + src.Rest()
  {
    var at := from;
    ghost var total, got := src.Rest(), [];
    while at < buf.Length
      invariant from <= at <= buf.Length && src.Valid()
      invariant buf[..from] == old(buf[..from])
      invariant buf[from..at] == got && total == got + src.Rest()
    {
      var chunk := src.Read(buf.Length - at);
      if chunk == [] {
        return if src.fails then Broke else if at == from then AtEnd else MidWay;
      }
      Assoc(got, chunk, src.Rest());
      Fill(buf, from, at, chunk);
      at, got := at + |chunk|, got + chunk;
    }
    return Full;
  }

  datatype PumpError = ReadStopped(why: Stop) | ReadFailed | WriteFailed

  /** The error of a pump whose stream stops for a reason and then fails, or does not. */
  function PumpEnd(why: Stop, fails: bool): PumpError {
    if fails && (why.EndOfStream? || why.Truncated?) then ReadFailed else ReadStopped(why)
  }

  /** A reader's own failure is reported exactly when the pump was in the middle of reading for more. */
  lemma PumpEndIff(why: Stop, fails: bool)
    ensures PumpEnd(why, fails) == ReadFailed <==> fails && why != BadSignature && why != TooLong
    ensures PumpEnd(why, fails) != ReadFailed ==> PumpEnd(why, fails) == ReadStopped(why)
  {
  }

  /** What a pump promises: all of its stream translated, unless the writer failed, and then a part of it. */
  ghost predicate Pumped(base: Data, translated: Data, got: Data, err: PumpError, end: PumpError) {
    if err.WriteFailed? then base <= got <= base + translated else got == base + translated && err == end
  }

  /** One frame translated: its bytes go out first, then the translation of what is left. */
  lemma TranslateFront(source: Side, s: Data)
    requires ReadHead(source, s).Whole?
    ensures var h := ReadHead(source, s);
            Translate(source, s) == Frame(Other(source), h.packet) + Translate(source, s[h.size..])
  {
    var h := ReadHead(source, s);
    FramesFront(Other(source), h.packet, Packets(source, s[h.size..]));
  }

  /** A header and its payload at the front of s are a packet read. */
  lemma WholeFrame(source: Side, s: Data, header: Data, payload: Data, rest: Data)
    requires s == header + payload + rest
    requires |header| == HeaderLen(source) && |payload| == LengthField(source, header) <= MAX_PACKET
    requires source.OpenOcd? ==> Signed(header)
    ensures ReadHead(source, s).Whole? && ReadHead(source, s).packet.payload == payload
    ensures s[ReadHead(source, s).size..] == rest
  {
    assert forall i | 0 <= i < |header| :: s[i] == header[i];
    assert s[HeaderLen(source)..HeaderLen(source) + |payload|] == payload;
  }

  /** A header at the front of s decides where reading stops, unless the payload is there too. */
  lemma HeaderOnly(source: Side, s: Data, header: Data)
    requires header <= s && |header| == HeaderLen(source)
    ensures source.OpenOcd? ==> (Signed(s) <==> Signed(header))
    ensures LengthField(source, s) == LengthField(source, header)
  {
    assert forall i | 0 <= i < |header| :: s[i] == header[i];
  }

  /** What one round of a pump took off its stream: a frame to write, or the reason to stop. */
  datatype Taken = Forward(frame: Data) | Halt(err: PumpError)

  /** Taking a frame leaves a shorter stream s' whose translation is the rest of the translation of s. */
  ghost predicate Took(source: Side, s: Data, s': Data, taken: Taken, fails: bool) {
    match taken
    case Forward(frame) =>
      |s'| < |s| && Translate(source, s) == frame + Translate(source, s')
        && StopReason(source, s) == StopReason(source, s')
    case Halt(err) => Translate(source, s) == [] && err == PumpEnd(StopReason(source, s), fails)
  }

  /** What a pump returns when a read came up short. */
  function ErrorOf(end: ReadEnd): PumpError
    requires !end.Full?
  {
    match end
    case AtEnd => ReadStopped(EndOfStream)
    case MidWay => ReadStopped(Truncated)
    case Broke => ReadFailed
  }

  lemma Halted(source: Side, s: Data, s': Data, why: Stop, fails: bool)
    requires ReadHead(source, s) == Stopped(why)
    ensures Took(source, s, s', Halt(PumpEnd(why, fails)), fails)
  {
  }

  lemma Forwarded(source: Side, s: Data, header: Data, payload: Data, rest: Data, frame: Data, fails: bool)
    requires s == header + payload + rest
    requires |header| == HeaderLen(source) && |payload| == LengthField(source, header) <= MAX_PACKET
    requires source.OpenOcd? ==> Signed(header)
    requires forall p: Packet | p.payload == payload && (source.Pod? ==> p.kind == PKT_RESPONSE && p.reserved == 0)
               :: frame == Frame(Other(source), p)
    ensures Took(source, s, rest, Forward(frame), fails)
  {
    WholeFrame(source, s, header, payload, rest);
    TranslateFront(source, s);
  }

  lemma ForwardedToPod(s: Data, header: Data, payload: Data, rest: Data, fails: bool)
    requires s == header + payload + rest && |header| == TCP_HEADER_LEN && Signed(header)
    requires |payload| == Uint16(header[4], header[5]) <= MAX_PACKET
    ensures Took(OpenOcd, s, rest, Forward([Low(|payload|), High(|payload|)] + payload), fails)
  {
    Forwarded(OpenOcd, s, header, payload, rest, [Low(|payload|), High(|payload|)] + payload, fails);
  }

  lemma ForwardedToOpenOcd(s: Data, header: Data, payload: Data, rest: Data, fails: bool)
    requires s == header + payload + rest && |header| == 2 && |payload| == Uint16(header[0], header[1]) <= MAX_PACKET
    ensures Took(Pod, s, rest,
                 Forward([0x44, 0x41, 0x50, 0, Low(|payload|), High(|payload|), PKT_RESPONSE, 0] + payload), fails)
  {
    Forwarded(Pod, s, header, payload, rest,
      [0x44, 0x41, 0x50, 0, Low(|payload|), High(|payload|), PKT_RESPONSE, 0] + payload, fails);
  }

  method TakeFromOpenOcd(src: Source, hdr: array<byte>) returns (taken: Taken)
    requires src.Valid() && hdr.Length == TCP_HEADER_LEN
    modifies src, hdr
    ensures src.Valid() && Took(OpenOcd, old(src.Rest()), src.Rest(), taken, src.fails)
  {
    ghost var s := src.Rest();
    var end := ReadFull(src, hdr, 0);
    if !end.Full? {
      Halted(OpenOcd, s, src.Rest(), ShortOf(|s|), src.fails);
      return Halt(ErrorOf(end));
    }
    ghost var header := hdr[..];
    HeaderOnly(OpenOcd, s, header);
    if !Signed(hdr[..]) {
      Halted(OpenOcd, s, src.Rest(), BadSignature, src.fails);
      return Halt(ReadStopped(BadSignature));
    }
    var n := Uint16(hdr[4], hdr[5]);
    if n > MAX_PACKET {
      Halted(OpenOcd, s, src.Rest(), TooLong, src.fails);
      return Halt(ReadStopped(TooLong));
    }
    var frame := new byte[2 + n];
    frame[0], frame[1] := Low(n), High(n);
    assert frame[..2] == [Low(n), High(n)];
    end := ReadFull(src, frame, 2);
    if !end.Full? {
      Halted(OpenOcd, s, src.Rest(), ShortOf(|s| - TCP_HEADER_LEN), src.fails);
      return Halt(ErrorOf(end));
    }
    assert frame[..] == frame[..2] + frame[2..];
    ForwardedToPod(s, header, frame[2..], src.Rest(), src.fails);
    return Forward(frame[..]);
  }

  method TakeFromPod(src: Source, lenHdr: array<byte>) returns (taken: Taken)
    requires src.Valid() && lenHdr.Length == 2
    modifies src, lenHdr
    ensures src.Valid() && Took(Pod, old(src.Rest()), src.Rest(), taken, src.fails)
  {
    ghost var s := src.Rest();
    var end := ReadFull(src, lenHdr, 0);
    if !end.Full? {
      Halted(Pod, s, src.Rest(), ShortOf(|s|), src.fails);
      return Halt(ErrorOf(end));
    }
    ghost var header := lenHdr[..];
    HeaderOnly(Pod, s, header);
    var n := Uint16(lenHdr[0], lenHdr[1]);
    if n > MAX_PACKET {
      Halted(Pod, s, src.Rest(), TooLong, src.fails);
      return Halt(ReadStopped(TooLong));
    }
    var out := new byte[TCP_HEADER_LEN + n];
    out[0], out[1], out[2], out[3] := 0x44, 0x41, 0x50, 0;
    out[4], out[5] := Low(n), High(n);
    out[6], out[7] := PKT_RESPONSE, 0;
    assert out[..TCP_HEADER_LEN] == [0x44, 0x41, 0x50, 0, Low(n), High(n), PKT_RESPONSE, 0];
    end := ReadFull(src, out, TCP_HEADER_LEN);
    if !end.Full? {
      Halted(Pod, s, src.Rest(), ShortOf(|s| - 2), src.fails);
      return Halt(ErrorOf(end));
    }
    assert out[..] == out[..TCP_HEADER_LEN] + out[TCP_HEADER_LEN..];
    ForwardedToOpenOcd(s, header, out[TCP_HEADER_LEN..], src.Rest(), src.fails);
    return Forward(out[..]);
  }

  lemma Conserved(base: Data, got: Data, frame: Data, later: Data)
    requires base <= got
    ensures base <= got + frame && (got + frame) + later == got + (frame + later)
    ensures forall k | 0 <= k <= |frame| :: base <= got + frame[..k] <= got + (frame + later)
  {
    forall k | 0 <= k <= |frame| ensures base <= got + frame[..k] <= got + (frame + later) {
      assert got + (frame + later) == (got + frame[..k]) + (frame[k..] + later);
    }
  }

  /** copyOpenOCDToPod. */
  method CopyOpenOcdToPod(dst: Sink, src: Source) returns (err: PumpError)
    requires src.Valid()
    modifies dst, src
    ensures Pumped(old(dst.got), Translate(OpenOcd, old(src.Rest())), dst.got, err,
                   PumpEnd(StopReason(OpenOcd, old(src.Rest())), src.fails))
    ensures !old(dst.failed) ==> (err.WriteFailed? <==> dst.failed)
  {
    ghost var total := dst.got + Translate(OpenOcd, src.Rest());
    var hdr := new byte[TCP_HEADER_LEN];
    while true
      invariant src.Valid() && fresh(hdr)
      invariant old(dst.got) <= dst.got && dst.got + Translate(OpenOcd, src.Rest()) == total
      invariant StopReason(OpenOcd, old(src.Rest())) == StopReason(OpenOcd, src.Rest()) && dst.failed == old(dst.failed)
      decreases |src.Rest()|
    {
      ghost var got := dst.got;
      var taken := TakeFromOpenOcd(src, hdr);
      if taken.Halt? {
        return taken.err;
      }
      var ok := dst.Write(taken.frame);
      Conserved(old(dst.got), got, taken.frame, Translate(OpenOcd, src.Rest()));
      if !ok {
        return WriteFailed;
      }
    }
  }

  /** copyPodToOpenOCD. */
  method CopyPodToOpenOcd(dst: Sink, src: Source) returns (err: PumpError)
    requires src.Valid()
    modifies dst, src
    ensures Pumped(old(dst.got), Translate(Pod, old(src.Rest())), dst.got, err,
                   PumpEnd(StopReason(Pod, old(src.Rest())), src.fails))
    ensures !old(dst.failed) ==> (err.WriteFailed? <==> dst.failed)
  {
    ghost var total := dst.got + Translate(Pod, src.Rest());
    var lenHdr := new byte[2];
    while true
      invariant src.Valid() && fresh(lenHdr)
      invariant old(dst.got) <= dst.got && dst.got + Translate(Pod, src.Rest()) == total
      invariant StopReason(Pod, old(src.Rest())) == StopReason(Pod, src.Rest()) && dst.failed == old(dst.failed)
      decreases |src.Rest()|
    {
      ghost var got := dst.got;
      var taken := TakeFromPod(src, lenHdr);
      if taken.Halt? {
        return taken.err;
      }
      var ok := dst.Write(taken.frame);
      Conserved(old(dst.got), got, taken.frame, Translate(Pod, src.Rest()));
      if !ok {
        return WriteFailed;
      }
    }
  }
}
