/** Bytes, the little-endian fields the wire formats use, and the one bit operation a NOR part performs. */
module Bytes {
  type byte = x: int | 0 <= x < 256

  /** A byte string, as Go's []byte. */
  type Data = seq<byte>

  /** A digest in lower-case hex. */
  type Digest = string

  /** SHA-256, of which only what a theorem says is assumed. */
  type Sha = Data -> Digest

  function Min(a: int, b: int): int {
    if a <= b then a else b
  }

  function Low(n: int): byte {
    n % 256
  }

  function High(n: int): byte {
    n / 256 % 256
  }

  /** The unsigned 16-bit value stored low byte first. */
  function Uint16(lo: byte, hi: byte): (n: int)
    ensures 0 <= n < 0x1_0000
  {
    lo + 256 * hi
  }

  lemma Uint16RoundTrip(n: int)
    requires 0 <= n < 0x1_0000
    ensures Uint16(Low(n), High(n)) == n
  {
  }

  lemma Uint16Injective(lo: byte, hi: byte)
    ensures Low(Uint16(lo, hi)) == lo && High(Uint16(lo, hi)) == hi
  {
  }

  /** Bitwise and, bit by bit from the lowest. */
  function AndBits(a: nat, b: nat): (r: nat)
    ensures r <= a && r <= b
  {
    if a == 0 || b == 0 then 0 else 2 * AndBits(a / 2, b / 2) + if a % 2 == 1 && b % 2 == 1 then 1 else 0
  }

  /** Bitwise and of two bytes: what programming a NOR cell does to it. */
  function And(a: byte, b: byte): byte {
    AndBits(a, b)
  }

  predicate AllOnes(n: nat) {
    n == 0 || (n % 2 == 1 && AllOnes(n / 2))
  }

  lemma {:induction false} AndOnes(ones: nat, b: nat)
    requires AllOnes(ones) && b <= ones
    ensures AndBits(ones, b) == b
  {
    if b != 0 {
      AndOnes(ones / 2, b / 2);
    }
  }

  /** An erased byte takes any value: programming b over 0xFF leaves b. */
  lemma AndErased(b: byte)
    ensures And(0xFF, b) == b
  {
    assert AllOnes(3) && AllOnes(15) && AllOnes(63);
    AndOnes(0xFF, b);
  }
}
