/** Bytes as numbers. */
module Bytes {
  type Byte = b: int | 0 <= b < 256

  function Pow256(n: nat): (r: nat)
    ensures r > 0
  {
    if n == 0 then 1 else 256 * Pow256(n - 1)
  }

  /** The quotients and the bytes of a number made of four bytes, the lowest last. */
  lemma FourBytes(b0: Byte, b1: Byte, b2: Byte, b3: Byte)
    ensures var v: nat := 256 * (256 * (256 * b0 + b1) + b2) + b3;
      && v < 0x1_0000_0000 && v % 256 == b3 && v / 256 % 256 == b2 && v / 0x1_0000 % 256 == b1 && v / 0x100_0000 == b0
  {
    var c: nat := 256 * b0 + b1;
    var a: nat := 256 * c + b2;
    var v: nat := 256 * a + b3;
    LastByte(b0, b1);
    LastByte(c, b2);
    LastByte(a, b3);
    assert v / 0x1_0000 == v / 256 / 256 && v / 0x100_0000 == v / 256 / 256 / 256;
  }

  lemma LastByte(a: nat, b: Byte)
    ensures (256 * a + b) / 256 == a && (256 * a + b) % 256 == b
  {
  }
}
