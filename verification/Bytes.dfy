/** Bytes, exclusive or, and numbers in network order. */
module Bytes {
  import opened Machine

  type byte = x: int | 0 <= x < 0x100

  type bytes = seq<byte>

  function TwoTo(k: nat): (r: nat)
    ensures r > 0
  {
    if k == 0 then 1 else 2 * TwoTo(k - 1)
  }

  /** The exclusive or of two numbers of k bits. */
  function XorBits(k: nat, a: nat, b: nat): (r: nat)
    requires a < TwoTo(k) && b < TwoTo(k)
    ensures r < TwoTo(k)
  {
    if k == 0 then 0 else 2 * XorBits(k - 1, a / 2, b / 2) + (if a % 2 == b % 2 then 0 else 1)
  }

  lemma {:induction false} XorBitsTwice(k: nat, a: nat, b: nat)
    requires a < TwoTo(k) && b < TwoTo(k)
    ensures XorBits(k, XorBits(k, a, b), b) == a
  {
    if k > 0 {
      var half := XorBits(k - 1, a / 2, b / 2);
      var r := XorBits(k, a, b);
      assert r / 2 == half;
      XorBitsTwice(k - 1, a / 2, b / 2);
    }
  }

  /** The bit of a number at a position. */
  function Bit(x: nat, i: nat): nat {
    if i == 0 then x % 2 else Bit(x / 2, i - 1)
  }

  /** Each bit is set exactly if the two bits differ. */
  lemma {:induction false} XorBitsAt(k: nat, a: nat, b: nat, i: nat)
    requires a < TwoTo(k) && b < TwoTo(k) && i < k
    ensures Bit(XorBits(k, a, b), i) == if Bit(a, i) == Bit(b, i) then 0 else 1
  {
    var r := XorBits(k, a, b);
    assert r / 2 == XorBits(k - 1, a / 2, b / 2);
    if i > 0 {
      XorBitsAt(k - 1, a / 2, b / 2, i - 1);
    }
  }

  /** Of two bytes, too. */
  lemma XorAt(a: byte, b: byte, i: nat)
    requires i < 8
    ensures Bit(Xor(a, b), i) == if Bit(a, i) == Bit(b, i) then 0 else 1
  {
    EightBits();
    XorBitsAt(8, a, b, i);
  }

  function Xor(a: byte, b: byte): byte {
    assert TwoTo(8) == 256 by { EightBits(); }
    XorBits(8, a, b)
  }

  lemma EightBits()
    ensures TwoTo(8) == 256
  {
    assert TwoTo(4) == 16;
    assert TwoTo(6) == 64;
  }

  lemma XorTwice(a: byte, b: byte)
    ensures Xor(Xor(a, b), b) == a
  {
    EightBits();
    XorBitsTwice(8, a, b);
  }

  /** The four bytes of a number, highest first. */
  function ToNet(n: u32): (r: bytes)
    ensures |r| == 4
    ensures n as int == 0x100_0000 * (r[0] as int) + 0x1_0000 * (r[1] as int) + 0x100 * (r[2] as int) + r[3] as int
  {
    var high, low := n / 0x1_0000, n % 0x1_0000;
    [high / 0x100, high % 0x100, low / 0x100, low % 0x100]
  }

  function FromNet(b: bytes): u32
    requires |b| == 4
  {
    (b[0] as int) * 0x100_0000 + (b[1] as int) * 0x1_0000 + (b[2] as int) * 0x100 + b[3] as int
  }

  lemma NetRoundTrip(n: u32)
    ensures FromNet(ToNet(n)) == n
  {
    var high, low := n / 0x1_0000, n % 0x1_0000;
    assert FromNet(ToNet(n)) == high * 0x1_0000 + low;
  }
}
