/**
 * The ECU status telegram of src/Telegrams/ECUStatus.cs: a BaseTelegram with
 * a PDU of exactly ten bytes, read through getters at fixed PDU offsets.
 */
module Ecu {
  import opened Bytes
  import opened Wrappers
  import Telegrams
  import Text

  const RawDataLen := 10
  const PosMode := 0
  const PosCurrentH := 1
  const PosCurrentL := 2
  const PosSpeedH := 3
  const PosSpeedL := 4
  const PosTemp := 5
  const PosParking := 8

  const ParkingOn: Byte := 2
  const ParkingOff: Byte := 1

  const SizeMessage := "Unexpected size"

  /** A constructed ECUStatus object. */
  type EcuStatus = t: Telegrams.BaseTelegram | |t.pdu| == RawDataLen
    witness Telegrams.ZeroTelegram(RawDataLen)

  /** The constructor `ECUStatus(BaseTelegram t)`. */
  function Decode(t: Telegrams.BaseTelegram): (r: Result<EcuStatus, Telegrams.Error>)
    ensures r.Success? <==> |t.pdu| == RawDataLen
    ensures r.Success? ==> r.value == t
    ensures r.Failure? ==> r.error == Telegrams.InvalidArgument(SizeMessage)
  {
    var s :- Telegrams.Specialize(t, RawDataLen, SizeMessage);
    Success(s)
  }

  function Mode(s: EcuStatus): Byte {
    s.pdu[PosMode]
  }

  /** `(UInt16)((PDU[1] << 8) + PDU[2])`, in mA. */
  function Current(s: EcuStatus): (n: nat)
    ensures n < 0x1_0000
    ensures n / 256 == s.pdu[PosCurrentH] as int && n % 256 == s.pdu[PosCurrentL] as int
  {
    U16(s.pdu[PosCurrentH], s.pdu[PosCurrentL])
  }

  /** `(UInt16)((PDU[3] << 8) + PDU[4])`, in km/h. */
  function Speed(s: EcuStatus): (n: nat)
    ensures n < 0x1_0000
    ensures n / 256 == s.pdu[PosSpeedH] as int && n % 256 == s.pdu[PosSpeedL] as int
  {
    U16(s.pdu[PosSpeedH], s.pdu[PosSpeedL])
  }

  function Temperature(s: EcuStatus): Byte {
    s.pdu[PosTemp]
  }

  /** Only PARKING_ON counts: PARKING_OFF and every other value read as not parking. */
  function Parking(s: EcuStatus): bool {
    s.pdu[PosParking] == ParkingOn
  }

  /** Where each getter reads in the raw frame; source and destination play no part. */
  lemma FrameOffsets(s: EcuStatus)
    ensures Mode(s) == s.raw[5]
    ensures Current(s) == U16(s.raw[6], s.raw[7])
    ensures Speed(s) == U16(s.raw[8], s.raw[9])
    ensures Temperature(s) == s.raw[10]
    ensures Parking(s) <==> s.raw[13] == 2
    ensures s.raw[13] == ParkingOff ==> !Parking(s)
  {
    Telegrams.PduAt(s, PosMode);
    Telegrams.PduAt(s, PosCurrentH);
    Telegrams.PduAt(s, PosCurrentL);
    Telegrams.PduAt(s, PosSpeedH);
    Telegrams.PduAt(s, PosSpeedL);
    Telegrams.PduAt(s, PosTemp);
    Telegrams.PduAt(s, PosParking);
  }

  /** The interpolated string `$"ECU Status: Mode {Mode}, {Current}mA, ..."` of `ToString`. */
  function Format(mode: Byte, current: nat, speed: nat, temperature: Byte, parking: bool): (str: string)
    ensures |str| >= 17 && str[..17] == "ECU Status: Mode "
    ensures |str| >= |Text.BoolString(parking)| && str[|str| - |Text.BoolString(parking)|..] == Text.BoolString(parking)
  {
    var head, tail := "ECU Status: Mode ", Text.BoolString(parking);
    var middle := Text.Decimal(mode as int) + ", " + Text.Decimal(current) + "mA, "
                  + Text.Decimal(speed) + "km/h, " + Text.Decimal(temperature as int) + "°C, Parking: ";
    Text.Affixes(head, middle, tail);
    head + middle + tail
  }

  function ToString(s: EcuStatus): string {
    Format(Mode(s), Current(s), Speed(s), Temperature(s), Parking(s))
  }

  /** The rendering tells a parking ECU from one that is not. */
  lemma ToStringShowsParking(s1: EcuStatus, s2: EcuStatus)
    requires Parking(s1) != Parking(s2)
    ensures ToString(s1) != ToString(s2)
  {
    var a, b := ToString(s1), ToString(s2);
    if Parking(s1) {
      assert a[|a| - 4..] == "True" && b[|b| - 5..] == "False";
      assert a[|a| - 1] == 'e' == b[|b| - 1];
      assert a[|a| - 2] == 'u' && b[|b| - 2] == 's';
    } else {
      assert a[|a| - 5..] == "False" && b[|b| - 4..] == "True";
      assert a[|a| - 2] == 's' && b[|b| - 2] == 'u';
    }
  }

  /** The values the ECU test expects of the frame of tests/ECUStatusTest.cs:11. */
  lemma TestFrameValues()
    ensures Telegrams.Parse(Telegrams.TestFrame).Success?
    ensures Telegrams.WellFormed(Telegrams.Parse(Telegrams.TestFrame).value)
    ensures var r := Decode(Telegrams.Parse(Telegrams.TestFrame).value);
      && r.Success?
      && Mode(r.value) == 2 && Current(r.value) == 4 && Speed(r.value) == 0
      && Temperature(r.value) == 0x13 && Parking(r.value)
  {
    Telegrams.TestFrameDecodes();
    Telegrams.CopyIsIdentity(Telegrams.TestFrame);
  }
}
