/**
 * The GSM status telegram of src/Telegrams/GSMStatus.cs: a BaseTelegram with
 * a PDU of exactly fourteen bytes, carrying the time of day.
 */
module Gsm {
  import opened Bytes
  import opened Wrappers
  import Telegrams
  import Text
  import Ecu

  const RawDataLen := 14
  const PosHour := 4
  const PosMinute := 5

  const SizeMessage := "Unexpected size"

  /** A constructed GSMStatus object. */
  type GsmStatus = t: Telegrams.BaseTelegram | |t.pdu| == RawDataLen
    witness Telegrams.ZeroTelegram(RawDataLen)

  /** The constructor `GSMStatus(BaseTelegram t)`: only the PDU length is checked. */
  function Decode(t: Telegrams.BaseTelegram): (r: Result<GsmStatus, Telegrams.Error>)
    ensures r.Success? <==> |t.pdu| == RawDataLen
    ensures r.Success? ==> r.value == t
    ensures r.Failure? ==> r.error == Telegrams.InvalidArgument(SizeMessage)
  {
    var s :- Telegrams.Specialize(t, RawDataLen, SizeMessage);
    Success(s)
  }

  function Hour(s: GsmStatus): Byte {
    s.pdu[PosHour]
  }

  function Minutes(s: GsmStatus): Byte {
    s.pdu[PosMinute]
  }

  /** Where the getters read in the raw frame; source and destination play no part. */
  lemma FrameOffsets(s: GsmStatus)
    ensures Hour(s) == s.raw[9] && Minutes(s) == s.raw[10]
  {
    Telegrams.PduAt(s, PosHour);
    Telegrams.PduAt(s, PosMinute);
  }

  /** `$"GSM Status: Time {Hour:d2}:{Minutes:d2}"`. */
  function ToString(s: GsmStatus): (str: string)
    ensures |str| >= 22 && str[..17] == "GSM Status: Time "
  {
    var head := "GSM Status: Time ";
    var str := head + Text.Decimal2(Hour(s) as int) + ":" + Text.Decimal2(Minutes(s) as int);
    assert str[..17] == head;
    str
  }

  /**
   * For a time that fits two digits per part, the rendering is exactly
   * "GSM Status: Time HH:MM" and both numbers can be read back from it.
   */
  lemma TimeReadBack(s: GsmStatus)
    requires Hour(s) < 100 && Minutes(s) < 100
    ensures var str := ToString(s);
      && |str| == 22
      && str[19] == ':'
      && Text.AllDigits(str[17..19]) && Text.DigitsValue(str[17..19]) == Hour(s) as int
      && Text.AllDigits(str[20..22]) && Text.DigitsValue(str[20..22]) == Minutes(s) as int
  {
    var h, m := Text.Decimal2(Hour(s) as int), Text.Decimal2(Minutes(s) as int);
    assert ToString(s) == "GSM Status: Time " + h + ":" + m;
    TimeFields(h, m);
  }

  /** Where the two-digit parts sit in the rendering. */
  lemma TimeFields(h: string, m: string)
    requires |h| == 2 && |m| == 2
    ensures var str := "GSM Status: Time " + h + ":" + m;
      |str| == 22 && str[17..19] == h && str[19] == ':' && str[20..22] == m
  {
    Text.Parts("GSM Status: Time ", h, ":", m);
  }

  /** The GSM frame of tests/ECUStatusTest.cs:25. */
  const TestFrame: seq<Byte> :=
    [0xC5, 0x5C, 0xBA, 0xAA, 0x0E, 0x48, 0x00, 0x00, 0x00, 0x16, 0x19, 0x00, 0x00, 0x01, 0x02,
     0x00, 0x00, 0x00, 0x40, 0x0A, 0x0D]

  const TestPdu: seq<Byte> :=
    [0x48, 0x00, 0x00, 0x00, 0x16, 0x19, 0x00, 0x00, 0x01, 0x02, 0x00, 0x00, 0x00, 0x40]

  lemma TestFrameParses()
    ensures Telegrams.Parse(TestFrame).Success?
    ensures Telegrams.Parse(TestFrame).value.pdu == TestPdu
    ensures Telegrams.WellFormed(Telegrams.Parse(TestFrame).value)
  {
    assert TestFrame[5..19] == TestPdu;
    Telegrams.CopyIsIdentity(TestFrame);
  }

  /**
   * That frame is a GSM status at 22:25 (0x16, 0x19); the ECU decoder refuses
   * it, as tests/ECUStatusTest.cs:28 expects.
   */
  lemma TestFrameValues()
    ensures Telegrams.Parse(TestFrame).Success?
    ensures Telegrams.WellFormed(Telegrams.Parse(TestFrame).value)
    ensures var t := Telegrams.Parse(TestFrame).value;
      && Decode(t).Success?
      && Hour(Decode(t).value) == 0x16 && Minutes(Decode(t).value) == 0x19
      && Ecu.Decode(t) == Failure(Telegrams.InvalidArgument(Ecu.SizeMessage))
  {
    TestFrameParses();
  }

  /** The rendering of 22:25, piece by piece. */
  lemma TestFrameString()
    ensures Telegrams.Parse(TestFrame).Success?
    ensures Telegrams.WellFormed(Telegrams.Parse(TestFrame).value)
    ensures var t := Telegrams.Parse(TestFrame).value;
      Decode(t).Success? && ToString(Decode(t).value) == "GSM Status: Time " + "22" + ":" + "25"
  {
    TestFrameValues();
    var s := Decode(Telegrams.Parse(TestFrame).value).value;
    var h, m: Byte := 0x16, 0x19;
    assert Text.Decimal2(h as int) == "22" by {
      assert h as int == 22;
      assert Text.Decimal(2) == "2";
      assert Text.Decimal(22) == Text.Decimal(2) + "2";
    }
    assert Text.Decimal2(m as int) == "25" by {
      assert m as int == 25;
      assert Text.Decimal(2) == "2";
      assert Text.Decimal(25) == Text.Decimal(2) + "5";
    }
    assert Hour(s) == h && Minutes(s) == m;
  }
}
