/**
 * The older battery status telegram of BatteryStatus.cs: the same ten-byte
 * PDU, but an unsigned temperature, a charge scaled down by ten from 100 on,
 * the cycle counter at PDU bytes 6 and 7, and `Charging` decided by a switch.
 */
module LegacyBattery {
  import opened Bytes
  import opened Wrappers
  import Telegrams
  import Battery

  const TelegramSize := 10
  const PosVoltage := 0
  const PosSoc := 1
  const PosTemp := 2
  const PosCharge := 3
  const PosCycleH := 6
  const PosCycleL := 7
  const PosCharging := 9

  /** A constructed (older) BatteryStatus object. */
  type BatteryStatus = t: Telegrams.BaseTelegram | |t.pdu| == TelegramSize
    witness Telegrams.ZeroTelegram(TelegramSize)

  /** The constructor, with the same size check and message as the current version. */
  function Decode(t: Telegrams.BaseTelegram): (r: Result<BatteryStatus, Telegrams.Error>)
    ensures r.Success? <==> |t.pdu| == TelegramSize
    ensures r.Success? ==> r.value == t
    ensures r.Failure? ==> r.error == Telegrams.InvalidArgument(Battery.SizeMessage(|t.pdu|))
  {
    var s :- Telegrams.Specialize(t, TelegramSize, Battery.SizeMessage(|t.pdu|));
    Success(s)
  }

  function Voltage(s: BatteryStatus): Byte {
    s.pdu[PosVoltage]
  }

  function SoC(s: BatteryStatus): Byte {
    s.pdu[PosSoc]
  }

  /** The temperature byte, read unsigned. */
  function Temperature(s: BatteryStatus): Byte {
    s.pdu[PosTemp]
  }

  /**
   * The `double` getter `Charge` in tenths of an amp: a byte below 100 is
   * whole amps, from 100 on it is already tenths (`val /= 10.0`).
   */
  function ChargeTenths(s: BatteryStatus): (c: nat)
    ensures var b := s.pdu[PosCharge] as real; c as real == 10.0 * (if b >= 100.0 then b / 10.0 else b)
    ensures c < 1000 && (s.pdu[PosCharge] < 100 ==> c % 10 == 0)
  {
    var val := s.pdu[PosCharge] as int;
    if val >= 100 then val else val * 10
  }

  /** `(UInt16)((PDU[6] << 8) + PDU[7])`. */
  function Cycles(s: BatteryStatus): (n: nat)
    ensures n < 0x1_0000
    ensures n / 256 == s.pdu[PosCycleH] as int && n % 256 == s.pdu[PosCycleL] as int
  {
    U16(s.pdu[PosCycleH], s.pdu[PosCycleL])
  }

  /** The `switch` of `Charging`: 0 is false, 1 is true, anything else is logged and false. */
  function IsCharging(s: BatteryStatus): (c: bool)
    ensures c <==> s.pdu[PosCharging] == 1
  {
    match s.pdu[PosCharging]
    case 0 => false
    case 1 => true
    case _ => false
  }

  /** Where each getter reads in the raw frame: the PDU starts at raw byte 5. */
  lemma FrameOffsets(s: BatteryStatus)
    ensures Voltage(s) == s.raw[5] && SoC(s) == s.raw[6] && Temperature(s) == s.raw[7]
    ensures ChargeTenths(s) == (if s.raw[8] >= 100 then s.raw[8] as int else 10 * s.raw[8] as int)
    ensures Cycles(s) == U16(s.raw[11], s.raw[12])
    ensures IsCharging(s) <==> s.raw[14] == 1
  {
    Telegrams.PduAt(s, PosVoltage);
    Telegrams.PduAt(s, PosSoc);
    Telegrams.PduAt(s, PosTemp);
    Telegrams.PduAt(s, PosCharge);
    Telegrams.PduAt(s, PosCycleH);
    Telegrams.PduAt(s, PosCycleL);
    Telegrams.PduAt(s, PosCharging);
  }

  /** Both versions accept and refuse the same telegrams, with the same message. */
  lemma DecodeLikeCurrent(t: Telegrams.BaseTelegram)
    ensures Decode(t).Success? <==> Battery.Decode(t).Success?
    ensures Decode(t).Failure? ==> Decode(t).error == Battery.Decode(t).error
  {
  }

  /**
   * Where the two versions agree on a ten-byte PDU: voltage, state of charge
   * and charging; the temperature below 128 degrees; the charge below 100 A.
   */
  lemma AgreesWithCurrent(s: Battery.BatteryStatus)
    ensures Decode(s).Success?
    ensures var prior := Decode(s).value;
      && Voltage(prior) == Battery.Voltage(s)
      && SoC(prior) == Battery.SoC(s)
      && (IsCharging(prior) <==> Battery.IsCharging(s))
      && (Temperature(prior) < 0x80 ==> Temperature(prior) as int == Battery.Temperature(s))
      && (s.pdu[PosCharge] < 100 ==> ChargeTenths(prior) == 10 * Battery.Charge(s))
  {
    SignedUnique(s.pdu[PosTemp], Battery.Temperature(s));
    SignedUnique(s.pdu[PosCharge], Battery.Charge(s));
  }

  /**
   * The two versions read the cycle counter at different offsets: on the
   * frame of tests/BatteryStatusTest.cs:11 the current one gives 35, this one 11.
   */
  lemma CycleOffsetsDiffer()
    ensures Telegrams.Parse(Battery.TestFrame).Success?
    ensures Telegrams.WellFormed(Telegrams.Parse(Battery.TestFrame).value)
    ensures var t := Telegrams.Parse(Battery.TestFrame).value;
      && Decode(t).Success? && Battery.Decode(t).Success?
      && Cycles(Decode(t).value) == 11
      && Battery.Cycles(Battery.Decode(t).value) == 35
  {
    Battery.TestFrameParses();
  }

  /** The scaling makes 10 A and a raw 100 (10.0 A) indistinguishable. */
  lemma ChargeScalingOverlaps(s1: BatteryStatus, s2: BatteryStatus)
    requires s1.pdu[PosCharge] == 10 && s2.pdu[PosCharge] == 100
    ensures ChargeTenths(s1) == ChargeTenths(s2) == 100
  {
  }
}
