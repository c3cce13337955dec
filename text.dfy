/**
 * The string formatting the C# sources rely on: `int.ToString()` in decimal,
 * the `d2` format (at least two digits), the `X2` format (two upper-case hex
 * digits) and `bool.ToString()`.
 */
module Text {
  import opened Bytes

  predicate IsDigit(c: char) {
    '0' <= c <= '9'
  }

  predicate AllDigits(s: string) {
    forall i :: 0 <= i < |s| ==> IsDigit(s[i])
  }

  function DigitChar(d: nat): (c: char)
    requires d < 10
    ensures IsDigit(c) && c as int - '0' as int == d
  {
    "0123456789"[d]
  }

  /** The number a string of decimal digits denotes (the partner of Decimal). */
  function DigitsValue(s: string): nat
    requires AllDigits(s)
    decreases |s|
  {
    if s == [] then 0
    else DigitsValue(s[..|s| - 1]) * 10 + (s[|s| - 1] as int - '0' as int)
  }

  /** `n.ToString()` for a non-negative integer: its decimal digits, no leading zero. */
  function Decimal(n: nat): (s: string)
    ensures |s| >= 1 && AllDigits(s)
    ensures DigitsValue(s) == n
    ensures s[0] == '0' ==> n == 0
    ensures n < 10 <==> |s| == 1
    ensures n < 100 ==> |s| <= 2
    decreases n
  {
    if n < 10 then [DigitChar(n)]
    else
      var prefix := Decimal(n / 10);
      var s := prefix + [DigitChar(n % 10)];
      assert s[..|s| - 1] == prefix;
      s
  }

  /** The `d2` format: the decimal digits, left-padded with '0' to at least two. */
  function Decimal2(n: nat): (s: string)
    ensures |s| >= 2 && AllDigits(s)
    ensures DigitsValue(s) == n
    ensures n >= 10 ==> s == Decimal(n)
    ensures n < 100 ==> |s| == 2
  {
    var d := Decimal(n);
    if |d| < 2 then
      var s := "0" + d;
      assert s[..|s| - 1] == "0";
      s
    else d
  }

  /** `bool.ToString()` in C#. */
  function BoolString(b: bool): string {
    if b then "True" else "False"
  }

  function HexDigit(d: nat): (c: char)
    requires d < 16
  {
    "0123456789ABCDEF"[d]
  }

  /** The value of an upper-case hex digit (the partner of HexDigit). */
  function HexValue(c: char): (d: nat)
    ensures d < 16
  {
    if '0' <= c <= '9' then c as int - '0' as int
    else if 'A' <= c <= 'F' then c as int - 'A' as int + 10
    else 0
  }

  lemma HexDigitValue(d: nat)
    requires d < 16
    ensures HexValue(HexDigit(d)) == d
  {
  }

  /** The `{0:X2}` format of one byte: two upper-case hex digits, high nibble first. */
  function Hex2(b: Byte): (s: string)
    ensures |s| == 2
  {
    [HexDigit(b as int / 16), HexDigit(b as int % 16)]
  }

  /** The concatenation of `"{0:X2} "` for every byte, in order. */
  function HexDump(bs: seq<Byte>): (s: string)
    ensures |s| == 3 * |bs|
    decreases |bs|
  {
    if bs == [] then "" else Hex2(bs[0]) + " " + HexDump(bs[1..])
  }

  /** Reads back the bytes of a HexDump, three characters per byte. */
  function UnHexDump(s: string): (bs: seq<Byte>)
    decreases |s|
  {
    if |s| < 3 then []
    else [(HexValue(s[0]) * 16 + HexValue(s[1])) as bv8] + UnHexDump(s[3..])
  }

  /** Entry `i` of a HexDump is byte `bs[i]`'s two digits and a space. */
  lemma {:induction false} HexDumpAt(bs: seq<Byte>, i: nat)
    requires i < |bs|
    ensures HexDump(bs)[3 * i .. 3 * i + 3] == Hex2(bs[i]) + " "
    decreases |bs|
  {
    var rest := HexDump(bs[1..]);
    assert HexDump(bs) == Hex2(bs[0]) + " " + rest;
    if i > 0 {
      HexDumpAt(bs[1..], i - 1);
      assert HexDump(bs)[3 * i .. 3 * i + 3] == rest[3 * (i - 1) .. 3 * (i - 1) + 3];
    }
  }

  /** The hex rendering loses nothing: the bytes can be read back from it. */
  lemma {:induction false} HexDumpRoundTrip(bs: seq<Byte>)
    ensures UnHexDump(HexDump(bs)) == bs
    decreases |bs|
  {
    if bs != [] {
      var s := HexDump(bs);
      var b := bs[0];
      HexDigitValue(b as int / 16);
      HexDigitValue(b as int % 16);
      assert s[0] == HexDigit(b as int / 16) && s[1] == HexDigit(b as int % 16);
      assert (HexValue(s[0]) * 16 + HexValue(s[1])) as bv8 == b;
      assert s[3..] == HexDump(bs[1..]);
      HexDumpRoundTrip(bs[1..]);
    }
  }

  /** Appending a byte appends its two digits and a space. */
  lemma {:induction false} HexDumpAppend(bs: seq<Byte>, b: Byte)
    ensures HexDump(bs + [b]) == HexDump(bs) + Hex2(b) + " "
    decreases |bs|
  {
    if bs == [] {
      assert [b][1..] == [];
    } else {
      assert (bs + [b])[1..] == bs[1..] + [b];
      HexDumpAppend(bs[1..], b);
    }
  }

  lemma HexDumpInjective(a: seq<Byte>, b: seq<Byte>)
    requires HexDump(a) == HexDump(b)
    ensures a == b
  {
    HexDumpRoundTrip(a);
    HexDumpRoundTrip(b);
  }

  /** Helper for the renderings: the first and the last part of a three-part concatenation. */
  lemma Affixes(head: string, middle: string, tail: string)
    ensures (head + middle + tail)[..|head|] == head
    ensures (head + middle + tail)[|head + middle + tail| - |tail|..] == tail
  {
  }

  /** Helper for the renderings: the parts of a four-part concatenation, read back by position. */
  lemma Parts(head: string, a: string, sep: string, b: string)
    ensures var s := head + a + sep + b;
      && s[|head|..|head| + |a|] == a
      && s[|head| + |a|..|head| + |a| + |sep|] == sep
      && s[|head| + |a| + |sep|..] == b
  {
    var s := head + a + sep + b;
    assert s[|head|..|head| + |a|] == a;
    assert s[|head| + |a|..|head| + |a| + |sep|] == sep;
  }
}
