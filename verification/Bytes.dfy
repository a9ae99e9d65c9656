/** Octets, 32-bit words, and the big- and little-endian spelling of numbers. */
module Bytes {

  newtype Byte = x: int | 0 <= x < 256

  newtype u32 = x: int | 0 <= x < 0x1_0000_0000

  /** `to_be_bytes` of a 32-bit word. */
  function Be32(n: int): (b: seq<Byte>)
    requires 0 <= n < 0x1_0000_0000
    ensures |b| == 4
  {
    [(n / 0x100_0000) as Byte, (n / 0x1_0000 % 256) as Byte, (n / 256 % 256) as Byte, (n % 256) as Byte]
  }

  function FromBe32(b: seq<Byte>): (n: int)
    requires |b| == 4
    ensures 0 <= n < 0x1_0000_0000
  {
    ((b[0] as int * 256 + b[1] as int) * 256 + b[2] as int) * 256 + b[3] as int
  }

  lemma Be32RoundTrip(n: int)
    requires 0 <= n < 0x1_0000_0000
    ensures FromBe32(Be32(n)) == n
  {
    assert n / 256 / 256 == n / 0x1_0000 && n / 0x1_0000 / 256 == n / 0x100_0000;
  }

  /** `to_le_bytes` of a 16-bit word. */
  function Le16(n: int): (b: seq<Byte>)
    requires 0 <= n < 0x1_0000
    ensures |b| == 2
  {
    [(n % 256) as Byte, (n / 256) as Byte]
  }

  function FromLe16(low: Byte, high: Byte): (n: int)
    ensures 0 <= n < 0x1_0000
  {
    low as int + 256 * high as int
  }

  lemma Le16RoundTrip(n: int)
    requires 0 <= n < 0x1_0000
    ensures FromLe16(Le16(n)[0], Le16(n)[1]) == n
  {
  }
}
