/**
  The pod's SPI commands over a NOR part (internal/spiflash/spiflashtest/fake.go): erase sets whole
  4 KB sectors to 0xFF, write can only clear bits, and flash commands need a session.
*/
module NorPod {
  import opened Bytes
  import opened Outcomes
  import Base64Url

  const MAX_WRITE: nat := 768
  const MAX_READ: nat := 1024
  const MAX_ERASE: nat := 0x10_0000
  const ADDR_SPACE: nat := 0x100_0000
  const SECTOR: nat := 0x1000

  /** addr &^ 0xFFF. */
  function Down(addr: int): int {
    addr / SECTOR * SECTOR
  }

  /** (addr + 0xFFF) &^ 0xFFF. */
  function Up(addr: int): int {
    Down(addr + SECTOR - 1)
  }

  datatype Request =
    | Nrst(hold: bool)
    | SpiStart
    | SpiStop
    | FlashId
    | FlashRead(addr: int, n: int)
    | FlashErase(addr: int, n: int)
    | ChipErase
    | FlashWrite(addr: int, text: string, verify: bool)

  predicate IsFlashCommand(r: Request) {
    !(r.Nrst? || r.SpiStart? || r.SpiStop?)
  }

  datatype Reply =
    | Refused(message: string)
    | Done
    | IdReply(present: bool, size: int)
    | ReadReply(text: string)
    | EraseReply(addr: int, len: int)
    | WriteReply(len: int, verified: bool)

  /**
    The pod's state. busy: another client owns the SPI engine. present and size are what the part's ID
    says; size is 0 for an unknown part.
  */
  datatype Part = Part(mem: Data, armed: bool, nrst: bool, busy: bool, present: bool, size: nat)

  predicate InPart(mem: Data, addr: int, n: int) {
    0 <= addr && 0 <= n && addr + n <= |mem|
  }

  /** mem with [s, e) erased. */
  function EraseRange(mem: Data, s: int, e: int): Data {
    seq(|mem|, i requires 0 <= i < |mem| => if s <= i < e then 0xFF else mem[i])
  }

  /** mem with d programmed at addr: every bit of d that is 0 clears the bit there. */
  function Program(mem: Data, addr: int, d: Data): Data {
    seq(|mem|, i requires 0 <= i < |mem| => if addr <= i < addr + |d| then And(mem[i], d[i - addr]) else mem[i])
  }

  const BUSY_MESSAGE := "spi busy: send spi_stop first"
  const WRITE_USAGE := "data must be 1..768 bytes of base64url"

  /** The bytes a write request carries, if the pod takes it. */
  function WriteData(mem: Data, r: Request): Result<Data>
    requires r.FlashWrite?
  {
    if '+' in r.text || '/' in r.text || '=' in r.text then Err(WRITE_USAGE)
    else
      var d := Base64Url.Decode(r.text);
      if d.Err? || |d.value| == 0 || |d.value| > MAX_WRITE then Err(WRITE_USAGE)
      else if !InPart(mem, r.addr, |d.value|) then Err("out of range")
      else d
  }

  /** The part's memory after a flash command that the pod takes. */
  function MemAfter(mem: Data, r: Request): Data {
    match r
    case FlashErase(addr, n) =>
      if 1 <= n <= MAX_ERASE && InPart(mem, addr, n) then EraseRange(mem, Down(addr), Up(addr + n)) else mem
    case ChipErase => EraseRange(mem, 0, |mem|)
    case FlashWrite(addr, _, _) =>
      var d := WriteData(mem, r);
      if d.Ok? then Program(mem, addr, d.value) else mem
    case _ => mem
  }

  function After(p: Part, r: Request): Part {
    match r
    case Nrst(hold) => p.(nrst := hold)
    case SpiStart => if p.busy || p.armed then p else p.(armed := true)
    case SpiStop => p.(armed := false)
    case _ => if p.armed then p.(mem := MemAfter(p.mem, r)) else p
  }

  function FlashAnswer(p: Part, r: Request): Reply {
    match r
    case FlashId => IdReply(p.present, p.size)
    case FlashRead(addr, n) =>
      if n < 1 || n > MAX_READ then Refused("read needs addr and len 1..1024")
      else if !InPart(p.mem, addr, n) then Refused("out of range")
      else ReadReply(Base64Url.Encode(p.mem[addr..addr + n]))
    case FlashErase(addr, n) =>
      if n < 1 || n > MAX_ERASE then Refused("erase needs addr and len 1..1048576")
      else if !InPart(p.mem, addr, n) then Refused("out of range")
      else EraseReply(Down(addr), Up(addr + n) - Down(addr))
    case FlashWrite(addr, _, verify) =>
      var d := WriteData(p.mem, r);
      if d.Err? then Refused(d.error)
      else if verify && Program(p.mem, addr, d.value)[addr..addr + |d.value|] != d.value then Refused("verify failed")
      else WriteReply(|d.value|, verify)
    case _ => Done
  }

  function Answer(p: Part, r: Request): Reply {
    match r
    case Nrst(_) => Done
    case SpiStart => if p.busy || p.armed then Refused(BUSY_MESSAGE) else Done
    case SpiStop => Done
    case _ => if !p.armed then Refused("no SPI session: send spi_start first") else FlashAnswer(p, r)
  }

  lemma SectorBounds(addr: int)
    ensures Down(addr) <= addr < Down(addr) + SECTOR && Down(addr) % SECTOR == 0
    ensures addr <= Up(addr) < addr + SECTOR && Up(addr) % SECTOR == 0
  {
  }

  lemma DownOfMultiple(addr: int)
    requires addr % SECTOR == 0
    ensures Down(addr) == addr && Up(addr) == addr
  {
  }

  /** Up to a multiple of the sector size that bounds the address. */
  lemma UpWithin(addr: int, size: int)
    requires addr <= size && size % SECTOR == 0
    ensures Up(addr) <= size
  {
  }

  // ── what an accepted flash command did ──

  lemma EraseTaken(p: Part, addr: int, n: int)
    requires !Answer(p, FlashErase(addr, n)).Refused?
    ensures InPart(p.mem, addr, n)
    ensures Answer(p, FlashErase(addr, n)) == EraseReply(Down(addr), Up(addr + n) - Down(addr))
    ensures After(p, FlashErase(addr, n)) == p.(mem := EraseRange(p.mem, Down(addr), Up(addr + n)))
  {
  }

  lemma ReadTaken(p: Part, addr: int, n: int)
    requires !Answer(p, FlashRead(addr, n)).Refused?
    ensures InPart(p.mem, addr, n)
    ensures Answer(p, FlashRead(addr, n)) == ReadReply(Base64Url.Encode(p.mem[addr..addr + n]))
    ensures After(p, FlashRead(addr, n)) == p
  {
  }

  lemma EncodedData(mem: Data, addr: int, d: Data, verify: bool)
    requires 0 < |d| <= MAX_WRITE && InPart(mem, addr, |d|)
    ensures WriteData(mem, FlashWrite(addr, Base64Url.Encode(d), verify)) == Ok(d)
  {
    Base64Url.EncodeDigits(d);
    Base64Url.RoundTripUnpadded(d);
  }

  /** A chunk encoded as the client does is taken as these bytes, unless it does not fit or fails its read-back. */
  lemma WriteTaken(p: Part, addr: int, d: Data, verify: bool)
    requires 0 < |d| <= MAX_WRITE
    requires var r := FlashWrite(addr, Base64Url.Encode(d), verify); !Answer(p, r).Refused?
    ensures var r := FlashWrite(addr, Base64Url.Encode(d), verify);
            InPart(p.mem, addr, |d|) && Answer(p, r) == WriteReply(|d|, verify)
            && After(p, r) == p.(mem := Program(p.mem, addr, d))
            && (verify ==> Program(p.mem, addr, d)[addr..addr + |d|] == d)
  {
    Base64Url.EncodeDigits(d);
    Base64Url.RoundTripUnpadded(d);
  }

  /** A chunk that was not taken either changed nothing or was programmed all the same (the read-back failed). */
  lemma WriteEffect(p: Part, addr: int, d: Data, verify: bool)
    requires 0 < |d| <= MAX_WRITE
    ensures var q := After(p, FlashWrite(addr, Base64Url.Encode(d), verify));
            q == p || (InPart(p.mem, addr, |d|) && q == p.(mem := Program(p.mem, addr, d)))
  {
    Base64Url.EncodeDigits(d);
    Base64Url.RoundTripUnpadded(d);
  }

  class FakePod {
    const mem: array<byte>
    var armed: bool
    var nrst: bool
    const busy: bool
    const present: bool
    const size: nat

    /** A part of whole sectors. */
    ghost predicate Valid() {
      mem.Length % SECTOR == 0
    }

    ghost function State(): Part
      reads this, mem
    {
      Part(mem[..], armed, nrst, busy, present, size)
    }

    /** The 16 MB part of the tests, full of 0x5A. */
    constructor (busy: bool, present: bool, size: nat)
      ensures Valid() && State() == Part(seq(ADDR_SPACE, _ => 0x5A), false, false, busy, present, size)
      ensures fresh(mem)
    {
      this.busy, this.present, this.size := busy, present, size;
      mem := new byte[ADDR_SPACE](_ => 0x5A);
      armed, nrst := false, false;
      new;
      assert mem[..] == seq(ADDR_SPACE, _ => 0x5A);
    }

    method EraseSectors(s: nat, e: nat)
      requires s <= e <= mem.Length
      modifies mem
      ensures mem[..] == EraseRange(old(mem[..]), s, e)
    {
      var i := s;
      while i < e
        invariant s <= i <= e
        invariant mem[..] == EraseRange(old(mem[..]), s, i)
      {
        mem[i] := 0xFF;
        i := i + 1;
      }
    }

    method ProgramBytes(addr: nat, d: Data)
      requires addr + |d| <= mem.Length
      modifies mem
      ensures mem[..] == Program(old(mem[..]), addr, d)
    {
      var i := 0;
      while i < |d|
        invariant 0 <= i <= |d|
        invariant mem[..] == Program(old(mem[..]), addr, d[..i])
      {
        mem[addr + i] := And(mem[addr + i], d[i]);
        i := i + 1;
      }
      assert d[..i] == d;
    }

    method FlashEraseCommand(addr: int, n: int) returns (reply: Reply)
      requires Valid() && armed
      modifies mem
      ensures State() == After(old(State()), FlashErase(addr, n)) && reply == Answer(old(State()), FlashErase(addr, n))
    {
      if n < 1 || n > MAX_ERASE {
        return Refused("erase needs addr and len 1..1048576");
      }
      if addr < 0 || addr + n > mem.Length {
        return Refused("out of range");
      }
      SectorBounds(addr);
      SectorBounds(addr + n);
      UpWithin(addr + n, mem.Length);
      EraseSectors(Down(addr), Up(addr + n));
      reply := EraseReply(Down(addr), Up(addr + n) - Down(addr));
    }

    method FlashWriteCommand(addr: int, text: string, verify: bool) returns (reply: Reply)
      requires Valid() && armed
      modifies mem
      ensures State() == After(old(State()), FlashWrite(addr, text, verify))
      ensures reply == Answer(old(State()), FlashWrite(addr, text, verify))
    {
      var d := WriteData(mem[..], FlashWrite(addr, text, verify));
      if d.Err? {
        return Refused(d.error);
      }
      ProgramBytes(addr, d.value);
      if verify && mem[addr..addr + |d.value|] != d.value {
        return Refused("verify failed");
      }
      reply := WriteReply(|d.value|, verify);
    }

    method FlashCommand(r: Request) returns (reply: Reply)
      requires Valid() && armed && (r.FlashId? || r.FlashRead? || r.FlashErase? || r.ChipErase? || r.FlashWrite?)
      modifies mem
      ensures State() == After(old(State()), r) && reply == Answer(old(State()), r)
    {
      match r {
        case FlashId =>
          reply := IdReply(present, size);
        case FlashRead(addr, n) =>
          if n < 1 || n > MAX_READ {
            return Refused("read needs addr and len 1..1024");
          }
          if addr < 0 || addr + n > mem.Length {
            return Refused("out of range");
          }
          reply := ReadReply(Base64Url.Encode(mem[addr..addr + n]));
        case FlashErase(addr, n) =>
          reply := FlashEraseCommand(addr, n);
        case ChipErase =>
          EraseSectors(0, mem.Length);
          reply := Done;
        case FlashWrite(addr, text, verify) =>
          reply := FlashWriteCommand(addr, text, verify);
      }
    }

    /** FakePod.Command. */
    method Command(r: Request) returns (reply: Reply)
      requires Valid()
      modifies this, mem
      ensures State() == After(old(State()), r) && reply == Answer(old(State()), r)
    {
      match r {
        case Nrst(hold) =>
          nrst := hold;
          reply := Done;
        case SpiStart =>
          if busy || armed {
            return Refused(BUSY_MESSAGE);
          }
          armed := true;
          reply := Done;
        case SpiStop =>
          armed := false;
          reply := Done;
        case _ =>
          if !armed {
            return Refused("no SPI session: send spi_start first");
          }
          reply := FlashCommand(r);
      }
    }
  }
}
