/**
 * Byte-level helpers shared by the telegram decoders: the unsigned byte of the
 * C# sources, the big-endian 16-bit reading `(hi << 8) + lo`, the `(sbyte)` cast
 * and the XOR fold used for the telegram checksum.
 */
module Bytes {

  /** A C# `byte`. */
  type Byte = bv8

  /** The big-endian unsigned 16-bit value `(hi << 8) + lo` (also `(hi << 8) | lo`). */
  function U16(hi: Byte, lo: Byte): (n: nat)
    ensures n < 0x1_0000
    ensures n / 256 == hi as int && n % 256 == lo as int
  {
    hi as int * 256 + lo as int
  }

  lemma U16Injective(h1: Byte, l1: Byte, h2: Byte, l2: Byte)
    requires U16(h1, l1) == U16(h2, l2)
    ensures h1 == h2 && l1 == l2
  {
    assert h1 as int == U16(h1, l1) / 256 == h2 as int;
    assert l1 as int == U16(h1, l1) % 256 == l2 as int;
  }

  /** The C# cast `(sbyte)b`: the two's-complement reading of a byte. */
  function Signed(b: Byte): (v: int)
    ensures -128 <= v < 128
    ensures (v - b as int) % 256 == 0
    ensures v >= 0 <==> b < 0x80
  {
    if b < 0x80 then b as int else b as int - 256
  }

  /** The two's-complement reading is the only value in [-128, 127] congruent to the byte. */
  lemma SignedUnique(b: Byte, v: int)
    requires -128 <= v < 128 && (v - b as int) % 256 == 0
    ensures v == Signed(b)
  {
    var d := v - Signed(b);
    assert d % 256 == 0 by {
      assert (v - b as int) % 256 == 0 && (Signed(b) - b as int) % 256 == 0;
      assert d == (v - b as int) - (Signed(b) - b as int);
    }
    assert -256 < d < 256;
  }

  /**
   * `acc ^ s[0] ^ ... ^ s[|s|-1]`: the value of the accumulator after a
   * `foreach` loop that XORs every byte of `s` into it, one at a time.
   */
  function XorFold(acc: Byte, s: seq<Byte>): Byte
    decreases |s|
  {
    if s == [] then acc else XorFold(acc, s[..|s| - 1]) ^ s[|s| - 1]
  }

  /** Replacing one byte `s[i]` by `v` XORs the fold with `s[i] ^ v`. */
  lemma {:induction false} XorFoldUpdate(acc: Byte, s: seq<Byte>, i: nat, v: Byte)
    requires i < |s|
    ensures XorFold(acc, s[i := v]) == XorFold(acc, s) ^ s[i] ^ v
    decreases |s|
  {
    var t := s[i := v];
    var n := |s| - 1;
    if i == n {
      assert t[..n] == s[..n];
    } else {
      assert t[..n] == s[..n][i := v];
      XorFoldUpdate(acc, s[..n], i, v);
    }
  }

  /** Folding a concatenation folds the second part from where the first stopped. */
  lemma {:induction false} XorFoldAppend(acc: Byte, a: seq<Byte>, b: seq<Byte>)
    ensures XorFold(acc, a + b) == XorFold(XorFold(acc, a), b)
    decreases |b|
  {
    if b == [] {
      assert a + b == a;
    } else {
      var n := |b| - 1;
      assert (a + b)[..|a + b| - 1] == a + b[..n];
      XorFoldAppend(acc, a, b[..n]);
    }
  }
}
