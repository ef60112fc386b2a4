/** Bytes and little-endian integers. */
module Bytes {
  import opened Division

  type Byte = b: int | 0 <= b < 256

  function Pow256(k: nat): (p: nat)
    ensures p > 0
  {
    if k == 0 then 1 else 256 * Pow256(k - 1)
  }

  /** The k low bytes of n, least significant first. */
  function ToLe(n: nat, k: nat): (bytes: seq<Byte>)
    ensures |bytes| == k
    decreases k, n
  {
    if k == 0 then [] else [n % 256] + ToLe(n / 256, k - 1)
  }

  function FromLe(bytes: seq<Byte>): nat
    decreases |bytes|
  {
    if bytes == [] then 0 else bytes[0] + 256 * FromLe(bytes[1..])
  }

  lemma {:induction false} LeRoundTrip(n: nat, k: nat)
    requires n < Pow256(k)
    ensures FromLe(ToLe(n, k)) == n
    decreases k
  {
    if k > 0 {
      LeRoundTrip(n / 256, k - 1);
      assert ToLe(n, k)[1..] == ToLe(n / 256, k - 1);
    }
  }

  /** Byte i is digit i of the number to the base of 256. */
  lemma {:induction false} LeDigit(n: nat, k: nat, i: nat)
    requires i < k
    ensures ToLe(n, k)[i] == n / Pow256(i) % 256
    decreases k
  {
    if i > 0 {
      LeDigit(n / 256, k - 1, i - 1);
      DivTwice(n, Pow256(i - 1));
    }
  }

  lemma DivTwice(n: nat, p: nat)
    requires p > 0
    ensures n / 256 / p == n / (256 * p)
  {
    var q, low := n / 256, n % 256;
    var a, b := q / p, q % p;
    assert q == p * a + b && n == 256 * q + low;
    assert 256 * q == (256 * p) * a + 256 * b;
    assert 256 * b + low < 256 * p;
    DivUnique(n, 256 * p, a, 256 * b + low);
  }

  function Quad(b0: int, b1: int, b2: int, b3: int): int {
    b0 + 0x100 * b1 + 0x1_0000 * b2 + 0x100_0000 * b3
  }

  /** Four bytes read as a number, least significant first. */
  lemma FourBytes(bytes: seq<Byte>)
    requires |bytes| == 4
    ensures FromLe(bytes) == Quad(bytes[0], bytes[1], bytes[2], bytes[3])
  {
    assert FromLe(bytes[1..][1..][1..][1..]) == 0;
    assert FromLe(bytes[1..][1..][1..]) == Quad(bytes[3], 0, 0, 0);
    assert FromLe(bytes[1..][1..]) == Quad(bytes[2], bytes[3], 0, 0);
    assert FromLe(bytes[1..]) == Quad(bytes[1], bytes[2], bytes[3], 0);
  }

  const TWO_TO_16 := 0x1_0000
  const TWO_TO_32 := 0x1_0000_0000
  const TWO_TO_64 := 0x1_0000_0000_0000_0000

  lemma PowersOf256()
    ensures Pow256(4) == TWO_TO_32 && Pow256(8) == TWO_TO_64
  {
    assert Pow256(2) == TWO_TO_16;
    assert Pow256(4) == TWO_TO_32;
    assert Pow256(6) == TWO_TO_16 * TWO_TO_32;
  }
}
