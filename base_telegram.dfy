/**
 * The generic telegram of the RS485 bus: start pair, source, destination,
 * length, PDU, checksum and end tag, decoded from raw bytes by the
 * `BaseTelegram(byte[])` constructor.
 *
 * Wire layout as this version reads it:
 *   raw[0..2)        start pair
 *   raw[2]           source
 *   raw[3]           destination
 *   raw[4]           PDU length `len` (at most 32)
 *   raw[5..5+len)    PDU
 *   raw[5+len]       checksum: XOR of `len` and every PDU byte
 *   raw[6+len]       end tag 0x0D (only logged when absent or wrong)
 */
module Telegrams {
  import opened Bytes
  import opened Wrappers
  import Text

  const MaxDataLen: Byte := 32
  const EndTelegram: Byte := 0x0D
  const PosSrc := 2
  const PosDes := 3
  const PosLen := 4

  /** The properties of a constructed BaseTelegram; all are get-only. */
  datatype Telegram = Telegram(
    start: seq<Byte>,
    source: Byte,
    destination: Byte,
    pdu: seq<Byte>,
    checksum: Byte,
    raw: seq<Byte>,
    isValid: bool)

  /** The exceptions the constructor can end in. */
  datatype Error =
    | InvalidArgument(message: string)  // ArgumentException thrown by the decoders themselves
    | CopyTooShort                      // ArgumentException of Array.Copy: source shorter than the copy
    | IndexOutOfRange                   // IndexOutOfRangeException of an array read

  /** The checksum the constructor computes: the length byte XOR every PDU byte. */
  function ComputedChecksum(len: Byte, pdu: seq<Byte>): Byte {
    XorFold(len, pdu)
  }

  /**
   * The constructor `BaseTelegram(byte[] rawData)`. There is no explicit
   * short-input check: a too short input fails in `Array.Copy` or in an
   * array read, in the order the constructor performs them.
   */
  function Parse(raw: seq<Byte>): (r: Result<Telegram, Error>)
    ensures r.Success? <==>
      |raw| > PosLen && raw[PosLen] <= MaxDataLen && |raw| >= PosLen + 2 + raw[PosLen] as int
    ensures r == Failure(InvalidArgument("Invalid data len")) <==>
      |raw| > PosLen && raw[PosLen] > MaxDataLen
    ensures r.Success? ==>
      r.value.raw == raw && |r.value.start| == 2 && |r.value.pdu| == raw[PosLen] as int
  {
    if |raw| < 2 then Failure(CopyTooShort)
    else if |raw| <= PosLen then Failure(IndexOutOfRange)
    else
      var dataLen := raw[PosLen];
      if dataLen > MaxDataLen then Failure(InvalidArgument("Invalid data len"))
      else if |raw| < PosLen + 1 + dataLen as int then Failure(CopyTooShort)
      else if |raw| <= PosLen + dataLen as int + 1 then Failure(IndexOutOfRange)
      else
        var pdu := raw[PosLen + 1 .. PosLen + 1 + dataLen as int];
        var checksum := raw[PosLen + dataLen as int + 1];
        Success(Telegram(raw[..2], raw[PosSrc], raw[PosDes], pdu, checksum, raw,
                         ComputedChecksum(dataLen, pdu) == checksum))
  }

  /**
   * Where each field of a constructed telegram sits in its raw bytes, and
   * what makes it valid.
   */
  lemma ParseLayout(raw: seq<Byte>)
    requires Parse(raw).Success?
    ensures var t := Parse(raw).value;
      && raw == t.start + [t.source, t.destination, raw[PosLen]] + t.pdu + [t.checksum]
                + raw[PosLen + 2 + |t.pdu|..]
      && (t.isValid <==> t.checksum == ComputedChecksum(raw[PosLen], t.pdu))
  {
    var t := Parse(raw).value;
    assert raw == t.start + [t.source, t.destination, raw[PosLen]] + t.pdu + [t.checksum]
                  + raw[PosLen + 2 + |t.pdu|..];
  }

  /** A telegram that the constructor produces from its own raw bytes. */
  predicate WellFormed(t: Telegram) {
    Parse(t.raw) == Success(t)
  }

  /** Every telegram built from bytes comes out of the byte-array constructor. */
  type BaseTelegram = t: Telegram | WellFormed(t)
    witness ZeroTelegram(0)

  /** The telegram of a frame with an all-zero PDU of `n` bytes. */
  function ZeroTelegram(n: nat): (t: Telegram)
    requires n <= 32
    ensures WellFormed(t) && |t.pdu| == n
  {
    var pdu: seq<Byte> := seq(n, _ => 0);
    ParseFrame([0xB6, 0x6B], 0, 0, pdu);
    Parse(Frame([0xB6, 0x6B], 0, 0, pdu)).value
  }

  /** The diagnostic the end-tag check logs; it never aborts construction. */
  datatype EndTagCheck = EndTagPresent | EndTagWrong | EndTagMissing

  function EndTag(raw: seq<Byte>, dataLen: Byte): EndTagCheck {
    var pos := 5 + 1 + dataLen as int;
    if pos >= |raw| then EndTagMissing
    else if raw[pos] != EndTelegram then EndTagWrong
    else EndTagPresent
  }

  /** The wire form of a frame with the given fields, a correct checksum and the end tag. */
  function Frame(start: seq<Byte>, source: Byte, destination: Byte, pdu: seq<Byte>): seq<Byte>
    requires |start| == 2 && |pdu| <= 32
  {
    var len := LengthByte(|pdu|);
    start + [source, destination, len] + pdu + [ComputedChecksum(len, pdu), EndTelegram]
  }

  /** The length byte of a PDU of `n` bytes. */
  function LengthByte(n: nat): (b: Byte)
    requires n <= 32
    ensures b as int == n
  {
    n as bv8
  }

  /** A frame built from fields decodes to those fields, valid, with its end tag. */
  lemma ParseFrame(start: seq<Byte>, source: Byte, destination: Byte, pdu: seq<Byte>)
    requires |start| == 2 && |pdu| <= 32
    ensures var raw := Frame(start, source, destination, pdu);
      && Parse(raw) == Success(Telegram(start, source, destination, pdu,
                                         ComputedChecksum(LengthByte(|pdu|), pdu), raw, true))
      && EndTag(raw, LengthByte(|pdu|)) == EndTagPresent
  {
    var len := LengthByte(|pdu|);
    var raw := Frame(start, source, destination, pdu);
    assert raw[..2] == start;
    assert raw[PosLen + 1 .. PosLen + 1 + |pdu|] == pdu;
    assert raw[PosLen + |pdu| + 1] == ComputedChecksum(len, pdu);
  }

  /** The end tag byte is never checked: it can be wrong or missing without changing the telegram. */
  lemma EndTagIgnored(raw: seq<Byte>, raw': seq<Byte>)
    requires Parse(raw).Success?
    requires |raw'| >= PosLen + 2 + raw[PosLen] as int
    requires raw'[..PosLen + 2 + raw[PosLen] as int] == raw[..PosLen + 2 + raw[PosLen] as int]
    ensures Parse(raw').Success?
    ensures Parse(raw') == Success(Parse(raw).value.(raw := raw'))
  {
    var n := PosLen + 2 + raw[PosLen] as int;
    assert raw'[PosLen] == raw[..n][PosLen] == raw[PosLen];
    assert raw'[..2] == raw[..n][..2] == raw[..2];
    assert raw'[PosSrc] == raw[..n][PosSrc] == raw[PosSrc];
    assert raw'[PosDes] == raw[..n][PosDes] == raw[PosDes];
    assert raw'[PosLen + 1 .. n - 1] == raw[..n][PosLen + 1 .. n - 1] == raw[PosLen + 1 .. n - 1];
    assert raw'[n - 1] == raw[..n][n - 1] == raw[n - 1];
  }

  /**
   * Replacing PDU byte `i` changes the decoded PDU there, keeps the other
   * fields, and re-decides validity against the unchanged checksum.
   */
  lemma ByteChange(raw: seq<Byte>, i: nat, v: Byte)
    requires Parse(raw).Success?
    requires i < raw[PosLen] as int
    ensures var t, r' := Parse(raw).value, Parse(raw[PosLen + 1 + i := v]);
      && r'.Success?
      && r'.value.pdu == t.pdu[i := v]
      && r'.value.checksum == t.checksum
      && r'.value.start == t.start
      && r'.value.source == t.source
      && r'.value.destination == t.destination
      && t.pdu[i] == raw[PosLen + 1 + i]
      && (r'.value.isValid <==> t.checksum == ComputedChecksum(raw[PosLen], t.pdu[i := v]))
  {
    var raw' := raw[PosLen + 1 + i := v];
    var n := raw[PosLen] as int;
    assert raw'[PosLen + 1 .. PosLen + 1 + n] == raw[PosLen + 1 .. PosLen + 1 + n][i := v];
    assert raw'[..2] == raw[..2];
  }

  /**
   * Changing one PDU byte of a valid frame to a different value leaves the
   * frame constructible but no longer valid: a single-byte error is detected.
   */
  lemma SingleByteChangeDetected(raw: seq<Byte>, i: nat, v: Byte)
    requires Parse(raw).Success? && Parse(raw).value.isValid
    requires i < raw[PosLen] as int && v != raw[PosLen + 1 + i]
    ensures Parse(raw[PosLen + 1 + i := v]).Success?
    ensures !Parse(raw[PosLen + 1 + i := v]).value.isValid
  {
    ParseLayout(raw);
    ByteChange(raw, i, v);
    XorFoldUpdate(raw[PosLen], Parse(raw).value.pdu, i, v);
  }

  /** The copy constructor `BaseTelegram(BaseTelegram c) : this(c.Raw)`. */
  function Copy(c: Telegram): (r: Result<Telegram, Error>)
    ensures forall raw | Parse(raw) == Success(c) :: r == Success(c)
  {
    Parse(c.raw)
  }

  /** Re-parsing the raw bytes of a constructed telegram gives back every field. */
  lemma CopyIsIdentity(raw: seq<Byte>)
    requires Parse(raw).Success?
    ensures Copy(Parse(raw).value) == Parse(raw)
    ensures WellFormed(Parse(raw).value)
  {
  }

  /**
   * What every typed telegram constructor does: `base(t)` re-parses the
   * telegram through the copy constructor (which cannot fail on a
   * constructed telegram), then a PDU of any length but
   * `size` throws an ArgumentException with `message`.
   */
  function Specialize(t: BaseTelegram, size: nat, message: string): (r: Result<BaseTelegram, Error>)
    ensures r.Success? <==> |t.pdu| == size
    ensures r.Success? ==> r.value == t
    ensures r.Failure? ==> r.error == InvalidArgument(message)
  {
    CopyIsIdentity(t.raw);
    var copy: BaseTelegram := Copy(t).value;
    if |t.pdu| != size then Failure(InvalidArgument(message)) else Success(copy)
  }

  /** PDU byte `i` of a constructed telegram is raw byte `5 + i`. */
  lemma PduAt(t: BaseTelegram, i: nat)
    requires i < |t.pdu|
    ensures t.pdu[i] == t.raw[PosLen + 1 + i]
  {
    ParseLayout(t.raw);
    assert t.raw[PosLen + 1 + i] == (t.start + [t.source, t.destination, t.raw[PosLen]] + t.pdu)[PosLen + 1 + i];
  }

  /** `ToString`: every raw byte as two upper-case hex digits and a space. */
  function ToString(t: Telegram): (s: string)
    ensures |s| == 3 * |t.raw|
    ensures Text.UnHexDump(s) == t.raw
  {
    Text.HexDumpRoundTrip(t.raw);
    Text.HexDump(t.raw)
  }

  /**
   * The `foreach` loop of the constructor that XORs every PDU byte into
   * `calcCheck`, starting from the length byte.
   */
  method CalcChecksum(dataLen: Byte, pdu: seq<Byte>) returns (calcCheck: Byte)
    ensures calcCheck == ComputedChecksum(dataLen, pdu)
  {
    calcCheck := dataLen;
    var i := 0;
    while i < |pdu|
      invariant 0 <= i <= |pdu|
      invariant calcCheck == XorFold(dataLen, pdu[..i])
    {
      assert pdu[..i + 1][..i] == pdu[..i];
      calcCheck := calcCheck ^ pdu[i];
      i := i + 1;
    }
    assert pdu[..i] == pdu;
  }

  /** The `StringBuilder` loop of `ToString`, appending `"{0:X2} "` per raw byte. */
  method RenderHex(raw: seq<Byte>) returns (hex: string)
    ensures hex == Text.HexDump(raw)
  {
    hex := "";
    var i := 0;
    while i < |raw|
      invariant 0 <= i <= |raw|
      invariant hex == Text.HexDump(raw[..i])
    {
      Text.HexDumpAppend(raw[..i], raw[i]);
      assert raw[..i + 1] == raw[..i] + [raw[i]];
      hex := hex + Text.Hex2(raw[i]) + " ";
      i := i + 1;
    }
    assert raw[..i] == raw;
  }

  // Frames of tests/BaseTelegramTest.cs. Those tests target a newer
  // BaseTelegram; the lemmas below state what this version does with them.

  const TestFrame: seq<Byte> :=
    [0xB6, 0x6B, 0xAA, 0xDA, 0x0A, 0x02, 0x00, 0x04, 0x00, 0x00, 0x13, 0x00, 0x00, 0x02, 0x01, 0x1C, 0x0D]

  const TestPdu: seq<Byte> := [0x02, 0x00, 0x04, 0x00, 0x00, 0x13, 0x00, 0x00, 0x02, 0x01]

  /** The checksum of the test frame's PDU, one fold step at a time. */
  lemma TestPduChecksum()
    ensures ComputedChecksum(0x0A, TestPdu) == 0x1C
  {
    var p := TestPdu;
    assert XorFold(0x0A, p[..0]) == 0x0A;
    assert XorFold(0x0A, p[..1]) == 0x08 by { assert p[..1][..0] == p[..0]; }
    assert XorFold(0x0A, p[..2]) == 0x08 by { assert p[..2][..1] == p[..1]; }
    assert XorFold(0x0A, p[..3]) == 0x0C by { assert p[..3][..2] == p[..2]; }
    assert XorFold(0x0A, p[..4]) == 0x0C by { assert p[..4][..3] == p[..3]; }
    assert XorFold(0x0A, p[..5]) == 0x0C by { assert p[..5][..4] == p[..4]; }
    assert XorFold(0x0A, p[..6]) == 0x1F by { assert p[..6][..5] == p[..5]; }
    assert XorFold(0x0A, p[..7]) == 0x1F by { assert p[..7][..6] == p[..6]; }
    assert XorFold(0x0A, p[..8]) == 0x1F by { assert p[..8][..7] == p[..7]; }
    assert XorFold(0x0A, p[..9]) == 0x1D by { assert p[..9][..8] == p[..8]; }
    assert XorFold(0x0A, p[..10]) == 0x1C by { assert p[..10][..9] == p[..9]; }
    assert p[..10] == p;
  }

  /**
   * The valid test frame decodes with a matching checksum. Byte 2 is the
   * source and byte 3 the destination here, the reverse of what the newer
   * version's test expects (Destination 0xAA, Source 0xDA).
   */
  lemma TestFrameDecodes()
    ensures Parse(TestFrame).Success?
    ensures Parse(TestFrame).value.isValid
    ensures Parse(TestFrame).value.source == 0xAA && Parse(TestFrame).value.destination == 0xDA
    ensures Parse(TestFrame).value.pdu == TestPdu
    ensures Parse(TestFrame).value.checksum == 0x1C
    ensures EndTag(TestFrame, 0x0A) == EndTagPresent
  {
    assert TestFrame[5..15] == TestPdu;
    TestPduChecksum();
  }

  /** The frame with PDU byte 1 changed to 0x10 still decodes, but is not valid. */
  lemma WrongChecksumFrame()
    ensures var raw: seq<Byte> :=
      [0xB6, 0x6B, 0xAA, 0xDA, 0x0A, 0x02, 0x10, 0x04, 0x00, 0x00, 0x13, 0x00, 0x00, 0x02, 0x01, 0x1C, 0x0D];
      Parse(raw).Success? && !Parse(raw).value.isValid
  {
    TestFrameDecodes();
    SingleByteChangeDetected(TestFrame, 1, 0x10);
    assert TestFrame[6 := 0x10] ==
      [0xB6, 0x6B, 0xAA, 0xDA, 0x0A, 0x02, 0x10, 0x04, 0x00, 0x00, 0x13, 0x00, 0x00, 0x02, 0x01, 0x1C, 0x0D];
  }

  /** A three-byte frame fails reading the destination, not with a "too short" message. */
  lemma TooShortFrame()
    ensures Parse([0xB6, 0x6B, 0xAA]) == Failure(IndexOutOfRange)
  {
  }

  /** Length byte 0x21 (33) is over the maximum. */
  lemma InvalidLengthFrame()
    ensures Parse([0xB6, 0x6B, 0xAA, 0xDA, 0x21, 0x02, 0x00, 0x04, 0x00, 0x00, 0x13,
                   0x00, 0x00, 0x02, 0x01, 0x1C, 0x0D])
            == Failure(InvalidArgument("Invalid data len"))
  {
  }

  /** Without its end tag the test frame is still constructed, and still valid. */
  lemma MissingEndTagFrame()
    ensures Parse(TestFrame[..16]).Success?
    ensures Parse(TestFrame[..16]).value.isValid
    ensures EndTag(TestFrame[..16], 0x0A) == EndTagMissing
  {
    TestFrameDecodes();
    EndTagIgnored(TestFrame, TestFrame[..16]);
  }
}
