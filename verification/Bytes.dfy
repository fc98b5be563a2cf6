// Octets and the little-endian 32-bit words of the CUPTI frame header.
module Bytes {

  type byte = b: int | 0 <= b < 256

  const U32 := 0x1_0000_0000

  /** The four bytes of a u32, least significant first. */
  function ToLE32(x: nat): (s: seq<byte>)
    requires x < U32
    ensures |s| == 4
  {
    [x % 0x100, (x / 0x100) % 0x100, (x / 0x1_0000) % 0x100, x / 0x100_0000]
  }

  /** `u32::from_le_bytes`. */
  function FromLE32(s: seq<byte>): (x: nat)
    requires |s| == 4
    ensures x < U32
  {
    s[0] as int + 0x100 * s[1] as int + 0x1_0000 * s[2] as int + 0x100_0000 * s[3] as int
  }

  lemma LE32RoundTrip(x: nat)
    requires x < U32
    ensures FromLE32(ToLE32(x)) == x
  {
    assert x == x % 0x100 + 0x100 * (x / 0x100);
    assert x / 0x100 == (x / 0x100) % 0x100 + 0x100 * ((x / 0x100) / 0x100);
    assert (x / 0x100) / 0x100 == x / 0x1_0000;
    assert x / 0x1_0000 == (x / 0x1_0000) % 0x100 + 0x100 * ((x / 0x1_0000) / 0x100);
    assert (x / 0x1_0000) / 0x100 == x / 0x100_0000;
  }
}
