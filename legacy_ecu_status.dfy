/**
 * The older ECU status telegram of ECUStatus.cs: the constructor checks the
 * PDU length and computes every field once, from the same offsets the
 * getters of the current version read.
 */
module LegacyEcu {
  import opened Bytes
  import opened Wrappers
  import Telegrams
  import Text
  import Ecu

  /** The object: its telegram and the get-only fields set by the constructor. */
  datatype EcuStatus = EcuStatus(
    telegram: Telegrams.BaseTelegram,
    mode: Byte,
    current: nat,
    speed: nat,
    temperature: Byte,
    parking: bool)

  /** The constructor `ECUStatus(BaseTelegram t)`. */
  function Decode(t: Telegrams.BaseTelegram): (r: Result<EcuStatus, Telegrams.Error>)
    ensures r.Success? <==> |t.pdu| == 10
    ensures r.Success? ==> r.value.telegram == t && U16Fields(r.value)
    ensures r.Failure? ==> r.error == Telegrams.InvalidArgument("Unexpected size")
  {
    var base :- Telegrams.Specialize(t, 10, "Unexpected size");
    var pdu := base.pdu;
    Success(EcuStatus(base, pdu[0], U16(pdu[1], pdu[2]), U16(pdu[3], pdu[4]), pdu[5], pdu[8] == 2))
  }

  /** Current and speed fit the `UInt16` fields they are stored in. */
  predicate U16Fields(e: EcuStatus) {
    e.current < 0x1_0000 && e.speed < 0x1_0000
  }

  function ToString(e: EcuStatus): string {
    Ecu.Format(e.mode, e.current, e.speed, e.temperature, e.parking)
  }

  /**
   * Both versions accept exactly the ten-byte PDUs, with the same message
   * otherwise, and on every accepted telegram the fields computed by this
   * constructor equal the getters of the current version, down to `ToString`.
   */
  lemma AgreesWithCurrent(t: Telegrams.BaseTelegram)
    ensures Decode(t).Success? <==> Ecu.Decode(t).Success?
    ensures Decode(t).Failure? ==> Decode(t).error == Ecu.Decode(t).error
    ensures Decode(t).Success? ==>
      var e, s := Decode(t).value, Ecu.Decode(t).value;
      && e.mode == Ecu.Mode(s)
      && e.current == Ecu.Current(s)
      && e.speed == Ecu.Speed(s)
      && e.temperature == Ecu.Temperature(s)
      && e.parking == Ecu.Parking(s)
      && ToString(e) == Ecu.ToString(s)
  {
  }

  /** The fields of the frame of tests/ECUStatusTest.cs:11 and their rendering. */
  lemma TestFrameString()
    ensures Telegrams.Parse(Telegrams.TestFrame).Success?
    ensures Telegrams.WellFormed(Telegrams.Parse(Telegrams.TestFrame).value)
    ensures var r := Decode(Telegrams.Parse(Telegrams.TestFrame).value);
      && r.Success?
      && r.value.mode == 2 && r.value.current == 4 && r.value.speed == 0
      && r.value.temperature == 0x13 && r.value.parking
      && ToString(r.value) ==
         "ECU Status: Mode " + "2" + ", " + "4" + "mA, " + "0" + "km/h, " + "19" + "°C, Parking: " + "True"
  {
    Ecu.TestFrameValues();
    var s := Ecu.Decode(Telegrams.Parse(Telegrams.TestFrame).value).value;
    AgreesWithCurrent(s);
    FormatExample();
  }

  /** The rendering of the test frame's fields, piece by piece. */
  lemma FormatExample()
    ensures Ecu.Format(2, 4, 0, 0x13, true) ==
      "ECU Status: Mode " + "2" + ", " + "4" + "mA, " + "0" + "km/h, " + "19" + "°C, Parking: " + "True"
  {
    var t: Byte := 0x13;
    assert Text.Decimal(t as int) == "19" by {
      assert t as int == 19;
      assert Text.Decimal(1) == "1";
      assert Text.Decimal(19) == Text.Decimal(1) + "9";
    }
    assert Text.Decimal(2) == "2" && Text.Decimal(4) == "4" && Text.Decimal(0) == "0";
  }
}
