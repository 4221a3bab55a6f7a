// The IP5306 power-management driver: a probe at start-up decides whether the
// chip answers on I2C, and the battery level and charging state are decoded
// from single register bytes. An I2C register read is a parameter that gives
// the byte, or nothing when the transfer fails; the bus and device handles
// are driver state that is not modelled.
module Power {
  import opened Wrappers

  type Byte = bv8

  /** A register read over I2C: the byte read, or None when the transfer fails. */
  type Bus = Byte -> Option<Byte>

  const ESP_OK := 0

  /** The register addresses the driver reads. */
  const REG_READ0: Byte := 0x70
  const REG_READ2: Byte := 0x78

  /** The battery percentages the level register can give, and −1 for "unknown". */
  const PERCENTS: set<int> := {-1, 0, 25, 50, 75, 100}

  /**
   * The percentage of a level byte: the low nibble is a row of four LEDs,
   * lit from bit 0 upwards; any other pattern reads as 0.
   */
  function LevelPercent(v: Byte): (p: int)
    ensures p in {0, 25, 50, 75, 100}
    ensures p == 100 <==> v & 0x0F == 0x0F
    ensures p == 75 <==> v & 0x0F == 0x07
    ensures p == 50 <==> v & 0x0F == 0x03
    ensures p == 25 <==> v & 0x0F == 0x01
  {
    var level := v & 0x0F;
    if level == 0x0F then 100
    else if level == 0x07 then 75
    else if level == 0x03 then 50
    else if level == 0x01 then 25
    else 0
  }

  /** The number of LEDs among the four the low nibble lights. */
  function LitLeds(v: Byte): nat
  {
    (if v & 0x01 != 0 then 1 else 0) + (if v & 0x02 != 0 then 1 else 0) +
    (if v & 0x04 != 0 then 1 else 0) + (if v & 0x08 != 0 then 1 else 0)
  }

  /** A contiguous run of lit LEDs from the first: 0, 1, 3, 7 or 15 in the low nibble. */
  predicate Contiguous(v: Byte)
  {
    v & 0x0F == 0x00 || v & 0x0F == 0x01 || v & 0x0F == 0x03 || v & 0x0F == 0x07 || v & 0x0F == 0x0F
  }

  /**
   * For a contiguous run each lit LED stands for a quarter of the charge; any
   * other pattern reads as empty. The high nibble plays no part.
   */
  lemma LevelPercentLeds(v: Byte)
    ensures Contiguous(v) ==> LevelPercent(v) == 25 * LitLeds(v)
    ensures !Contiguous(v) ==> LevelPercent(v) == 0
    ensures LevelPercent(v) == LevelPercent(v & 0x0F)
  {
  }

  /** The charge-full flag is bit 3: the chip charges while it is clear. */
  function ChargingBit(v: Byte): (c: bool)
    ensures c <==> (v as int) % 16 < 8
  {
    v & 0x08 == 0
  }

  /** The driver state: whether the probe found the chip. */
  class Ip5306 {
    var available: bool

    constructor()
      ensures !available
    {
      available := false;
    }

    /**
     * power_init: the bus and the device are added, each failure returned as
     * is; then the probe read of READ0 decides availability, and the result
     * is ESP_OK whether or not the chip answered.
     */
    method Init(busErr: int, deviceErr: int, bus: Bus) returns (ret: int)
      modifies this
      ensures busErr != ESP_OK ==> ret == busErr && available == old(available)
      ensures busErr == ESP_OK && deviceErr != ESP_OK ==> ret == deviceErr && available == old(available)
      ensures busErr == ESP_OK && deviceErr == ESP_OK ==> ret == ESP_OK && (available <==> bus(REG_READ0).Some?)
    {
      if busErr != ESP_OK {
        return busErr;
      }
      if deviceErr != ESP_OK {
        return deviceErr;
      }
      var probe := bus(REG_READ0);
      if probe.Some? {
        available := true;
      } else {
        available := false;
      }
      ret := ESP_OK;
    }

    /** power_get_battery_percent: −1 without the chip or on a failed read of READ2. */
    function BatteryPercent(bus: Bus): (p: int)
      reads this
      ensures p in PERCENTS
      ensures p == -1 <==> !available || bus(REG_READ2).None?
      ensures p != -1 ==> p == LevelPercent(bus(REG_READ2).value)
    {
      if !available then -1
      else match bus(REG_READ2)
        case None => -1
        case Some(v) => LevelPercent(v)
    }

    /** power_is_charging: false without the chip or on a failed read of READ0. */
    function IsCharging(bus: Bus): (c: bool)
      reads this
      ensures c <==> available && bus(REG_READ0).Some? && (bus(REG_READ0).value as int) % 16 < 8
    {
      if !available then false
      else match bus(REG_READ0)
        case None => false
        case Some(v) => ChargingBit(v)
    }

    /**
     * Without the chip no register is read: any two buses give the same
     * answers. With it, only READ2 decides the percentage and only READ0 the
     * charging state.
     */
    lemma ReadsOnly(bus1: Bus, bus2: Bus)
      ensures !available ==> BatteryPercent(bus1) == BatteryPercent(bus2) == -1
      ensures !available ==> !IsCharging(bus1) && !IsCharging(bus2)
      ensures bus1(REG_READ2) == bus2(REG_READ2) ==> BatteryPercent(bus1) == BatteryPercent(bus2)
      ensures bus1(REG_READ0) == bus2(REG_READ0) ==> IsCharging(bus1) == IsCharging(bus2)
    {
    }
  }
}
