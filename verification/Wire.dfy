/** Byte strings on the wire, shared by the codec modules. */
module Wire {

  type Byte = b: int | 0 <= b < 256
  type Bytes = seq<Byte>

  // ---------- big-endian integers ----------

  function Uint16(high: int, low: int): int {
    high * 256 + low
  }

  function Uint32(a: int, b: int, c: int, d: int): int {
    Uint16(a, b) * 0x1_0000 + Uint16(c, d)
  }

  function Encoded16(n: nat): (r: Bytes)
    requires n < 0x1_0000
    ensures |r| == 2
  {
    [n / 256, n % 256]
  }

  function Encoded32(n: nat): (r: Bytes)
    requires n < 0x1_0000_0000
    ensures |r| == 4
  {
    Encoded16(n / 0x1_0000) + Encoded16(n % 0x1_0000)
  }

  lemma Encoded16Exact(n: nat, b: Bytes)
    requires n < 0x1_0000 && |b| == 2
    ensures Encoded16(n) == b <==> Uint16(b[0], b[1]) == n
  {
  }

  lemma Encoded32Exact(n: nat, b: Bytes)
    requires n < 0x1_0000_0000 && |b| == 4
    ensures Encoded32(n) == b <==> Uint32(b[0], b[1], b[2], b[3]) == n
  {
    Encoded16Exact(n / 0x1_0000, b[..2]);
    Encoded16Exact(n % 0x1_0000, b[2..]);
    assert b == b[..2] + b[2..];
    assert Encoded32(n)[..2] == Encoded16(n / 0x1_0000) && Encoded32(n)[2..] == Encoded16(n % 0x1_0000);
  }
}
