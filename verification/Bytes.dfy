// Bytes, the XOR that every stream cipher layer is made of, and the big-endian
// integers of the cell header.
module Bytes {

  type byte = n: nat | n < 256

  type TextTest = seq<byte> -> bool  // is this UTF-8?

  // ----- exclusive or -----

  // Bitwise exclusive or of two naturals, lowest bit first. (Working on the
  // bits of integers keeps bit-vector conversions out of every other proof.)
  function XorBits(a: nat, b: nat): (r: nat)
    decreases a + b
  {
    if a == 0 && b == 0 then 0
    else (if a % 2 == b % 2 then 0 else 1) + 2 * XorBits(a / 2, b / 2)
  }

  lemma {:induction false} XorBitsStep(a: nat, b: nat)
    ensures XorBits(a, b) % 2 == if a % 2 == b % 2 then 0 else 1
    ensures XorBits(a, b) / 2 == XorBits(a / 2, b / 2)
  {
  }

  function Pow2(n: nat): (r: nat)
    ensures r > 0
  {
    if n == 0 then 1 else 2 * Pow2(n - 1)
  }

  lemma {:induction false} XorBitsBound(a: nat, b: nat, width: nat)
    requires a < Pow2(width) && b < Pow2(width)
    ensures XorBits(a, b) < Pow2(width)
  {
    if width > 0 {
      XorBitsBound(a / 2, b / 2, width - 1);
    }
  }

  lemma {:induction false} XorBitsCommutes(a: nat, b: nat)
    ensures XorBits(a, b) == XorBits(b, a)
    decreases a + b
  {
    if a != 0 || b != 0 {
      XorBitsCommutes(a / 2, b / 2);
    }
  }

  lemma {:induction false} XorBitsAssociates(a: nat, b: nat, c: nat)
    ensures XorBits(XorBits(a, b), c) == XorBits(a, XorBits(b, c))
    decreases a + b + c
  {
    if a != 0 || b != 0 || c != 0 {
      XorBitsAssociates(a / 2, b / 2, c / 2);
      var ab, bc := XorBits(a, b), XorBits(b, c);
      XorBitsStep(a, b);
      XorBitsStep(b, c);
      XorBitsStep(ab, c);
      XorBitsStep(a, bc);
      assert XorBits(ab, c) / 2 == XorBits(a, bc) / 2;
      assert XorBits(ab, c) % 2 == XorBits(a, bc) % 2;
    }
  }

  lemma {:induction false} XorBitsSelf(a: nat)
    ensures XorBits(a, a) == 0 && XorBits(a, 0) == a
  {
    if a != 0 {
      XorBitsSelf(a / 2);
    }
  }

  function Xor(a: byte, b: byte): byte
  {
    assert Pow2(8) == 256;
    XorBitsBound(a, b, 8);
    XorBits(a, b)
  }

  lemma {:induction false} XorLaws(a: byte, b: byte, c: byte)
    ensures Xor(a, b) == Xor(b, a)
    ensures Xor(Xor(a, b), c) == Xor(a, Xor(b, c))
    ensures Xor(a, 0) == a == Xor(0, a)
    ensures Xor(a, a) == 0
  {
    XorBitsCommutes(a, b);
    XorBitsCommutes(a, 0);
    XorBitsAssociates(a, b, c);
    XorBitsSelf(a);
  }

  // Two copies of the same keystream byte cancel.
  lemma {:induction false} XorCancels(a: byte, k: byte)
    ensures Xor(Xor(a, k), k) == a
  {
    XorLaws(a, k, k);
    XorLaws(k, 0, 0);
  }

  // ----- big-endian integers -----

  function Be16(n: nat): (r: seq<byte>)
    requires n < 0x1_0000
    ensures |r| == 2
  {
    [n / 256, n % 256]
  }

  function FromBe16(b: seq<byte>): (n: nat)
    requires |b| == 2
    ensures n < 0x1_0000 && Be16(n) == b
  {
    (b[0] as nat) * 256 + (b[1] as nat)
  }

  function Be32(n: nat): (r: seq<byte>)
    requires n < 0x1_0000_0000
    ensures |r| == 4
  {
    Be16(n / 0x1_0000) + Be16(n % 0x1_0000)
  }

  function FromBe32(b: seq<byte>): (n: nat)
    requires |b| == 4
    ensures n < 0x1_0000_0000 && Be32(n) == b
  {
    assert b == b[..2] + b[2..];
    FromBe16(b[..2]) * 0x1_0000 + FromBe16(b[2..])
  }

  lemma {:induction false} BigEndianRoundTrips(n: nat)
    ensures n < 0x1_0000 ==> FromBe16(Be16(n)) == n
    ensures n < 0x1_0000_0000 ==> FromBe32(Be32(n)) == n
  {
  }

  // ----- fixed-width fields -----

  // A field of known width splits off the front of a concatenation in one way only.
  lemma {:induction false} FieldsSplitUniquely(a: seq<byte>, b: seq<byte>, c: seq<byte>, d: seq<byte>)
    requires |a| == |c|
    requires a + b == c + d
    ensures a == c && b == d
  {
    assert (a + b)[..|a|] == a && (c + d)[..|c|] == c;
    assert (a + b)[|a|..] == b && (c + d)[|c|..] == d;
  }
}
