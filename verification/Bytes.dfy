/** Bytes, lengths and the integer encodings used on the wires of the system. */
module Bytes {
  type byte = b: int | 0 <= b < 256
  type uint16 = x: int | 0 <= x < 0x1_0000
  type uint32 = x: int | 0 <= x < 0x1_0000_0000

  function Min(a: nat, b: nat): nat { if a < b then a else b }

  /** Little-endian encoding of the low 16 bits of a length. */
  function LE16(x: nat): (r: seq<byte>)
    ensures |r| == 2
  {
    [x % 256, x / 256 % 256]
  }

  function FromLE16(b: seq<byte>): (r: uint16)
    requires |b| == 2
  {
    (b[0] as int) + 256 * (b[1] as int)
  }

  lemma LE16Truncates(x: nat)
    ensures FromLE16(LE16(x)) == x % 0x1_0000
  {
    var q, r := x / 256, x % 256;
    assert x % 0x1_0000 == q % 256 * 256 + r by {
      assert x == q / 256 * 0x1_0000 + (q % 256 * 256 + r);
    }
  }

  function LE32(x: uint32): (r: seq<byte>)
    ensures |r| == 4
  {
    [x % 256, x / 256 % 256, x / 65536 % 256, x / 16777216]
  }

  function FromLE32(b: seq<byte>): (r: uint32)
    requires |b| == 4
  {
    (b[0] as int) + 256 * (b[1] as int) + 65536 * (b[2] as int) + 16777216 * (b[3] as int)
  }

  lemma LE32RoundTrip(x: uint32)
    ensures FromLE32(LE32(x)) == x
  {
    var q := x / 256;
    var r := q / 256;
    assert x / 65536 == r && x / 16777216 == r / 256;
    assert x == q * 256 + x % 256 && q == r * 256 + q % 256 && r == r / 256 * 256 + r % 256;
  }

  /** 256 to the power n: how many values n bytes can hold. */
  function Pow256(n: nat): (r: nat)
    ensures r > 0
  {
    if n == 0 then 1 else 256 * Pow256(n - 1)
  }

  /** Big-endian encoding of x on n bytes. */
  function ToBE(x: nat, n: nat): (r: seq<byte>)
    ensures |r| == n
  {
    if n == 0 then [] else ToBE(x / 256, n - 1) + [x % 256]
  }

  function FromBE(b: seq<byte>): (r: nat)
  {
    if b == [] then 0 else 256 * FromBE(b[..|b| - 1]) + (b[|b| - 1] as int)
  }

  lemma {:induction false} FromToBE(x: nat, n: nat)
    requires x < Pow256(n)
    ensures FromBE(ToBE(x, n)) == x
  {
    if n > 0 {
      FromToBE(x / 256, n - 1);
      assert ToBE(x, n)[..n - 1] == ToBE(x / 256, n - 1);
    }
  }

  lemma {:induction false} ToFromBE(b: seq<byte>)
    ensures FromBE(b) < Pow256(|b|)
    ensures ToBE(FromBE(b), |b|) == b
  {
    if b != [] {
      var n := |b| - 1;
      ToFromBE(b[..n]);
      assert FromBE(b) / 256 == FromBE(b[..n]) && FromBE(b) % 256 == b[n];
      assert b[..n] + [b[n]] == b;
    }
  }
}
