/**
 * The battery status telegram of src/Telegrams/BatteryStatus.cs: a
 * BaseTelegram with a PDU of exactly ten bytes, read through getters at
 * fixed PDU offsets.
 */
module Battery {
  import opened Bytes
  import opened Wrappers
  import Telegrams
  import Text

  const TelegramSize := 10
  const PosVoltage := 0
  const PosSoc := 1
  const PosTemp := 2
  const PosCharge := 3
  const PosCycleH := 4
  const PosCycleL := 5
  const PosVBreaker := 8
  const PosCharging := 9

  /**
   * The `BatteryActivity` enum. The getter casts the byte without checking
   * it, so a value with no name is kept as `UnnamedActivity`.
   */
  datatype BatteryActivity = Charging | Discharging | UnnamedActivity(code: Byte)

  function ActivityCode(a: BatteryActivity): Byte {
    match a
    case Charging => 0x01
    case Discharging => 0x04
    case UnnamedActivity(code) => code
  }

  /** The cast `(BatteryActivity)b`: it keeps the byte, naming it when it can. */
  function ActivityOf(b: Byte): (a: BatteryActivity)
    ensures ActivityCode(a) == b
    ensures a.UnnamedActivity? <==> b != 0x01 && b != 0x04
  {
    if b == 0x01 then Charging
    else if b == 0x04 then Discharging
    else UnnamedActivity(b)
  }

  /** The `VBreakerStatus` enum, with the unnamed values kept as well. */
  datatype VBreakerStatus =
    | Ok
    | BmsStoppedCharge
    | HighCurrentCharge
    | HighCurrentDischarge
    | UnnamedVBreaker(code: Byte)

  function VBreakerCode(v: VBreakerStatus): Byte {
    match v
    case Ok => 0
    case BmsStoppedCharge => 1
    case HighCurrentCharge => 2
    case HighCurrentDischarge => 4
    case UnnamedVBreaker(code) => code
  }

  /** The cast `(VBreakerStatus)b`. */
  function VBreakerOf(b: Byte): (v: VBreakerStatus)
    ensures VBreakerCode(v) == b
    ensures v.UnnamedVBreaker? <==> b != 0 && b != 1 && b != 2 && b != 4
  {
    if b == 0 then Ok
    else if b == 1 then BmsStoppedCharge
    else if b == 2 then HighCurrentCharge
    else if b == 4 then HighCurrentDischarge
    else UnnamedVBreaker(b)
  }

  /** Neither cast loses information: different bytes give different values. */
  lemma CastsInjective(b1: Byte, b2: Byte)
    requires b1 != b2
    ensures ActivityOf(b1) != ActivityOf(b2)
    ensures VBreakerOf(b1) != VBreakerOf(b2)
  {
  }

  /** A constructed BatteryStatus object. */
  type BatteryStatus = t: Telegrams.BaseTelegram | |t.pdu| == TelegramSize
    witness Telegrams.ZeroTelegram(TelegramSize)

  /** The error text of the constructor for a PDU of `n` bytes. */
  function SizeMessage(n: nat): string {
    "Unexpected size of " + Text.Decimal(n)
  }

  /** The constructor `BatteryStatus(BaseTelegram t)`. */
  function Decode(t: Telegrams.BaseTelegram): (r: Result<BatteryStatus, Telegrams.Error>)
    ensures r.Success? <==> |t.pdu| == TelegramSize
    ensures r.Success? ==> r.value == t
    ensures r.Failure? ==> r.error == Telegrams.InvalidArgument(SizeMessage(|t.pdu|))
  {
    var s :- Telegrams.Specialize(t, TelegramSize, SizeMessage(|t.pdu|));
    Success(s)
  }

  function Voltage(s: BatteryStatus): Byte {
    s.pdu[PosVoltage]
  }

  function SoC(s: BatteryStatus): Byte {
    s.pdu[PosSoc]
  }

  /** `(sbyte)PDU[2]`: the signed reading of the temperature byte. */
  function Temperature(s: BatteryStatus): (v: int)
    ensures -128 <= v < 128
    ensures (v - s.pdu[PosTemp] as int) % 256 == 0
  {
    Signed(s.pdu[PosTemp])
  }

  /** `(sbyte)PDU[3]`: the signed charge or discharge current. */
  function Charge(s: BatteryStatus): (v: int)
    ensures -128 <= v < 128
    ensures (v - s.pdu[PosCharge] as int) % 256 == 0
  {
    Signed(s.pdu[PosCharge])
  }

  /** `(ushort)((PDU[4] << 8) | PDU[5])`: big-endian, high byte first. */
  function Cycles(s: BatteryStatus): (n: nat)
    ensures n < 0x1_0000
    ensures n / 256 == s.pdu[PosCycleH] as int && n % 256 == s.pdu[PosCycleL] as int
  {
    U16(s.pdu[PosCycleH], s.pdu[PosCycleL])
  }

  function VBreaker(s: BatteryStatus): (v: VBreakerStatus)
    ensures VBreakerCode(v) == s.pdu[PosVBreaker]
  {
    VBreakerOf(s.pdu[PosVBreaker])
  }

  function Activity(s: BatteryStatus): (a: BatteryActivity)
    ensures ActivityCode(a) == s.pdu[PosCharging]
  {
    ActivityOf(s.pdu[PosCharging])
  }

  /** `Activity == CHARGING`: DISCHARGING and every unnamed value read as not charging. */
  function IsCharging(s: BatteryStatus): (c: bool)
    ensures c <==> s.pdu[PosCharging] == 0x01
  {
    Activity(s) == Charging
  }

  /**
   * Where each getter reads in the raw frame: the PDU starts at raw byte 5,
   * and source and destination play no part.
   */
  lemma FrameOffsets(s: BatteryStatus)
    ensures Voltage(s) == s.raw[5] && SoC(s) == s.raw[6]
    ensures Temperature(s) == Signed(s.raw[7]) && Charge(s) == Signed(s.raw[8])
    ensures Cycles(s) == U16(s.raw[9], s.raw[10])
    ensures VBreaker(s) == VBreakerOf(s.raw[13])
    ensures IsCharging(s) <==> s.raw[14] == 0x01
  {
    Telegrams.PduAt(s, PosVoltage);
    Telegrams.PduAt(s, PosSoc);
    Telegrams.PduAt(s, PosTemp);
    Telegrams.PduAt(s, PosCharge);
    Telegrams.PduAt(s, PosCycleH);
    Telegrams.PduAt(s, PosCycleL);
    Telegrams.PduAt(s, PosVBreaker);
    Telegrams.PduAt(s, PosCharging);
  }

  /** The frame of tests/BatteryStatusTest.cs:11. */
  const TestFrame: seq<Byte> :=
    [0xB6, 0x6B, 0xAA, 0x5A, 0x0A, 0x4D, 0x48, 0x17, 0x00, 0x00, 0x23, 0x00, 0x0B, 0x00, 0x00, 0x30, 0x0D]

  const TestPdu: seq<Byte> := [0x4D, 0x48, 0x17, 0x00, 0x00, 0x23, 0x00, 0x0B, 0x00, 0x00]

  lemma TestFrameParses()
    ensures Telegrams.Parse(TestFrame).Success?
    ensures Telegrams.Parse(TestFrame).value.pdu == TestPdu
    ensures Telegrams.WellFormed(Telegrams.Parse(TestFrame).value)
  {
    assert TestFrame[5..15] == TestPdu;
    Telegrams.CopyIsIdentity(TestFrame);
  }

  /** The values tests/BatteryStatusTest.cs:37-45 expect of that frame. */
  lemma TestFrameValues()
    ensures Telegrams.Parse(TestFrame).Success?
    ensures Telegrams.WellFormed(Telegrams.Parse(TestFrame).value)
    ensures var r := Decode(Telegrams.Parse(TestFrame).value);
      && r.Success?
      && Voltage(r.value) == 77 && SoC(r.value) == 72
      && Temperature(r.value) == 23 && Charge(r.value) == 0
      && Cycles(r.value) == 35
      && VBreaker(r.value) == Ok
      && Activity(r.value) == UnnamedActivity(0)
      && !IsCharging(r.value)
  {
    TestFrameParses();
  }

  /** A PDU of eleven bytes is refused with "Unexpected size of 11". */
  lemma ElevenBytesRefused(t: Telegrams.BaseTelegram)
    requires |t.pdu| == 11
    ensures Decode(t) == Failure(Telegrams.InvalidArgument("Unexpected size of 11"))
  {
    assert Text.Decimal(1) == "1";
    assert Text.Decimal(11) == Text.Decimal(1) + "1";
    assert SizeMessage(11) == "Unexpected size of 11";
  }
}
