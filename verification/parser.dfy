/**
 * Decoders for the player's slice of the car-telemetry (ID 6) and
 * car-status (ID 7) packets, and the rule that merges decoded records into
 * the value shown on screen.
 */
module Parser {
  import opened Bytes
  import opened Wrappers
  import opened Packet

  type TyreTemps = s: seq<byte> | |s| == 4 witness [0, 0, 0, 0]
  type TyrePressures = s: seq<uint32> | |s| == 4 witness [0, 0, 0, 0]

  /**
   * Values decoded for display. Speed is a float32 that only ever holds a
   * uint16 km/h value, so it is kept as that integer; the other float32
   * fields are kept as raw bit patterns. Tyres are in the order FL, FR, RL, RR.
   */
  datatype TelemetryData = TelemetryData(
    speed: uint16,
    throttle: uint32,
    brake: uint32,
    gear: int8,
    engineRpm: uint16,
    drs: byte,
    engineTemp: uint16,
    tyreTemp: TyreTemps,
    tyrePressure: TyrePressures,
    fuelLevel: uint32,
    ersStoreEnergy: uint32,
    ersDeployMode: byte)

  /** The zero value of the Go struct. */
  const ZeroTelemetry := TelemetryData(0, 0, 0, 0, 0, 0, 0, [0, 0, 0, 0], [0, 0, 0, 0], 0, 0, 0)

  /** Stride of one car's entry in the car-telemetry array. */
  const CarTelemetrySize: nat := 60
  /** Stride of one car's entry in the car-status array. */
  const CarStatusSize: nat := 58

  /**
   * Reads the player's car-telemetry entry. The field offsets are reached by
   * stepping over each field of the entry in order, skipped fields included.
   */
  function ParseCarTelemetryPacket(data: seq<byte>, playerCarIndex: byte): (r: Option<TelemetryData>)
    ensures r.None? <==>
      |data| < HeaderSize || data[6] != CarTelemetryPacketId
      || HeaderSize + CarTelemetrySize * playerCarIndex + CarTelemetrySize > |data|
    ensures r.Some? ==>
      var base := HeaderSize + CarTelemetrySize * playerCarIndex;
      var td := r.value;
      && td.speed == U16At(data, base)
      && td.throttle == U32At(data, base + 2)
      && td.brake == U32At(data, base + 10)
      && td.gear == Int8FromByte(data[base + 15])
      && td.engineRpm == U16At(data, base + 16)
      && td.drs == data[base + 18]
      && td.tyreTemp == data[base + 30..base + 34]
      && td.engineTemp == U16At(data, base + 38)
      && (forall i :: 0 <= i < 4 ==> td.tyrePressure[i] == U32At(data, base + 40 + 4 * i))
      && td.fuelLevel == 0 && td.ersStoreEnergy == 0 && td.ersDeployMode == 0
  {
    if |data| < HeaderSize || data[6] != CarTelemetryPacketId then None
    else
      var offset := HeaderSize + playerCarIndex as int * CarTelemetrySize;
      if offset + CarTelemetrySize > |data| then None
      else
        var speed := U16At(data, offset);
        var offset := offset + 2;
        var throttle := U32At(data, offset);
        var offset := offset + 4 + 4;          // throttle, then steer (skipped)
        var brake := U32At(data, offset);
        var offset := offset + 4 + 1;          // brake, then clutch (skipped)
        var gear := Int8FromByte(data[offset]);
        var offset := offset + 1;
        var rpm := U16At(data, offset);
        var offset := offset + 2;
        var drs := data[offset];
        var offset := offset + 1 + 1 + 2 + 8;  // drs, rev-lights percent and bits, brake temperatures
        var tyreTemp := data[offset..offset + 4];
        var offset := offset + 4 + 4;          // surface temperatures, then inner temperatures (skipped)
        var engineTemp := U16At(data, offset);
        var offset := offset + 2;
        var pressure := seq(4, i requires 0 <= i < 4 => U32At(data, offset + 4 * i));
        Some(TelemetryData(speed, throttle, brake, gear, rpm, drs, engineTemp,
                           tyreTemp, pressure, 0, 0, 0))
  }

  /**
   * Reads the player's car-status entry; only fuel, DRS-allowed, ERS energy
   * and ERS deploy mode are kept.
   */
  function ParseCarStatusPacket(data: seq<byte>, playerCarIndex: byte): (r: Option<TelemetryData>)
    ensures r.None? <==>
      |data| < HeaderSize || data[6] != CarStatusPacketId
      || HeaderSize + CarStatusSize * playerCarIndex + CarStatusSize > |data|
    ensures r.Some? ==>
      var base := HeaderSize + CarStatusSize * playerCarIndex;
      var td := r.value;
      && td.fuelLevel == U32At(data, base + 5)
      && td.drs == data[base + 22]
      && td.ersStoreEnergy == U32At(data, base + 37)
      && td.ersDeployMode == data[base + 41]
      && td == ZeroTelemetry.(fuelLevel := td.fuelLevel, drs := td.drs,
                              ersStoreEnergy := td.ersStoreEnergy, ersDeployMode := td.ersDeployMode)
  {
    if |data| < HeaderSize || data[6] != CarStatusPacketId then None
    else
      var offset := HeaderSize + playerCarIndex as int * CarStatusSize;
      if offset + CarStatusSize > |data| then None
      else
        var offset := offset + 5;              // traction control, ABS, fuel mix, brake bias, pit limiter
        var fuel := U32At(data, offset);
        var offset := offset + 4 + 4 + 4 + 2 + 2 + 1;  // fuel, capacity, laps left, max/idle RPM, max gears
        var drs := data[offset];
        var offset := offset + 1 + 2 + 1 + 1 + 1 + 1;  // drs, activation distance, compounds, tyre age, FIA flags
        var offset := offset + 4 + 4;          // ICE and MGU-K power (skipped)
        var ers := U32At(data, offset);
        var offset := offset + 4;
        var deploy := data[offset];
        Some(ZeroTelemetry.(fuelLevel := fuel, drs := drs, ersStoreEnergy := ers, ersDeployMode := deploy))
  }

  /**
   * Everything ParseCarTelemetryPacket reads of the player's entry lies in
   * its first 56 bytes: two packets that agree on the packet ID, both hold
   * the entry, and agree on that window decode alike.
   */
  lemma CarTelemetryReadsOnlyWindow(d1: seq<byte>, d2: seq<byte>, playerCarIndex: byte)
    requires |d1| >= HeaderSize && |d2| >= HeaderSize && d1[6] == d2[6]
    requires var base := HeaderSize + CarTelemetrySize * playerCarIndex;
      base + CarTelemetrySize <= |d1| && base + CarTelemetrySize <= |d2|
      && d1[base..base + 56] == d2[base..base + 56]
    ensures ParseCarTelemetryPacket(d1, playerCarIndex) == ParseCarTelemetryPacket(d2, playerCarIndex)
  {
    var base := HeaderSize + CarTelemetrySize * playerCarIndex;
    if d1[6] == CarTelemetryPacketId {
      TelemetryWindowReadsAgree(d1, d2, base);
      var t1 := ParseCarTelemetryPacket(d1, playerCarIndex).value;
      var t2 := ParseCarTelemetryPacket(d2, playerCarIndex).value;
      assert t1.tyrePressure == t2.tyrePressure;
    }
  }

  /** Every field read of a car-telemetry entry gives the same value on equal windows. */
  lemma TelemetryWindowReadsAgree(d1: seq<byte>, d2: seq<byte>, base: nat)
    requires base + 56 <= |d1| && base + 56 <= |d2|
    requires d1[base..base + 56] == d2[base..base + 56]
    ensures U16At(d1, base) == U16At(d2, base)
    ensures U32At(d1, base + 2) == U32At(d2, base + 2)
    ensures U32At(d1, base + 10) == U32At(d2, base + 10)
    ensures d1[base + 15] == d2[base + 15]
    ensures U16At(d1, base + 16) == U16At(d2, base + 16)
    ensures d1[base + 18] == d2[base + 18]
    ensures d1[base + 30..base + 34] == d2[base + 30..base + 34]
    ensures U16At(d1, base + 38) == U16At(d2, base + 38)
    ensures forall i :: 0 <= i < 4 ==> U32At(d1, base + 40 + 4 * i) == U32At(d2, base + 40 + 4 * i)
  {
    WindowU16(d1, d2, base, 0);
    WindowU32(d1, d2, base, 2);
    WindowU32(d1, d2, base, 10);
    WindowByte(d1, d2, base, 15);
    WindowU16(d1, d2, base, 16);
    WindowByte(d1, d2, base, 18);
    WindowSlice(d1, d2, base, 30, 4);
    WindowU16(d1, d2, base, 38);
    forall i | 0 <= i < 4
      ensures U32At(d1, base + 40 + 4 * i) == U32At(d2, base + 40 + 4 * i)
    {
      WindowU32(d1, d2, base, 40 + 4 * i);
    }
  }

  lemma WindowByte(d1: seq<byte>, d2: seq<byte>, base: nat, k: nat)
    requires base + 56 <= |d1| && base + 56 <= |d2| && k < 56
    requires d1[base..base + 56] == d2[base..base + 56]
    ensures d1[base + k] == d2[base + k]
  {
    assert d1[base + k] == d1[base..base + 56][k];
  }

  lemma WindowU16(d1: seq<byte>, d2: seq<byte>, base: nat, k: nat)
    requires base + 56 <= |d1| && base + 56 <= |d2| && k + 2 <= 56
    requires d1[base..base + 56] == d2[base..base + 56]
    ensures U16At(d1, base + k) == U16At(d2, base + k)
  {
    WindowByte(d1, d2, base, k);
    WindowByte(d1, d2, base, k + 1);
  }

  lemma WindowU32(d1: seq<byte>, d2: seq<byte>, base: nat, k: nat)
    requires base + 56 <= |d1| && base + 56 <= |d2| && k + 4 <= 56
    requires d1[base..base + 56] == d2[base..base + 56]
    ensures U32At(d1, base + k) == U32At(d2, base + k)
  {
    WindowSlice(d1, d2, base, k, 4);
  }

  /** Equal windows agree on every sub-window. */
  lemma WindowSlice(d1: seq<byte>, d2: seq<byte>, base: nat, k: nat, n: nat)
    requires base + 56 <= |d1| && base + 56 <= |d2| && k + n <= 56
    requires d1[base..base + 56] == d2[base..base + 56]
    ensures d1[base + k..base + k + n] == d2[base + k..base + k + n]
  {
    var w1, w2 := d1[base..base + 56], d2[base..base + 56];
    var s1, s2 := d1[base + k..base + k + n], d2[base + k..base + k + n];
    forall i | 0 <= i < n ensures s1[i] == s2[i] {
      assert s1[i] == w1[k + i] && s2[i] == w2[k + i];
    }
  }

  /** Go's float32 `x > 0` on the raw bits: positive, non-zero and not NaN. */
  predicate Float32Positive(bits: uint32)
  {
    1 <= bits <= 0x7F80_0000
  }

  function SignBit(bits: uint32): nat { bits / 0x8000_0000 }
  function ExponentField(bits: uint32): nat { (bits / 0x80_0000) % 0x100 }
  function MantissaField(bits: uint32): nat { bits % 0x80_0000 }

  /** Float32Positive agrees with the IEEE-754 reading of the bit fields. */
  lemma Float32PositiveIsIeee(bits: uint32)
    ensures Float32Positive(bits) <==>
      SignBit(bits) == 0
      && !(ExponentField(bits) == 0 && MantissaField(bits) == 0)
      && !(ExponentField(bits) == 0xFF && MantissaField(bits) != 0)
  {
    if bits < 0x8000_0000 {
      var e := bits / 0x80_0000;
      assert e < 0x100;
      assert ExponentField(bits) == e;
      assert bits == e * 0x80_0000 + MantissaField(bits);
      if e == 0xFF {
        assert MantissaField(bits) == bits - 0x7F80_0000;
      }
    } else {
      assert SignBit(bits) >= 1;
    }
  }

  /**
   * Merges a decoded record into the displayed one. With no base the new
   * record (or a zero record) is the result; otherwise each group of fields
   * is taken from the new record only when the new record's guard holds.
   */
  function MergeTelemetryData(base: Option<TelemetryData>, update: Option<TelemetryData>): (r: TelemetryData)
    ensures base.None? && update.None? ==> r == ZeroTelemetry
    ensures base.None? && update.Some? ==> r == update.value
    ensures base.Some? && update.None? ==> r == base.value
    ensures base.Some? && update.Some? ==>
      var b, n := base.value, update.value;
      && (r.speed, r.throttle, r.brake, r.gear, r.engineRpm)
         == (if n.speed > 0 then (n.speed, n.throttle, n.brake, n.gear, n.engineRpm)
             else (b.speed, b.throttle, b.brake, b.gear, b.engineRpm))
      && r.engineTemp == (if n.engineTemp > 0 then n.engineTemp else b.engineTemp)
      && r.tyreTemp == (if exists i :: 0 <= i < 4 && n.tyreTemp[i] > 0 then n.tyreTemp else b.tyreTemp)
      && (r.fuelLevel, r.ersStoreEnergy, r.drs)
         == (if Float32Positive(n.fuelLevel) then (n.fuelLevel, n.ersStoreEnergy, n.drs)
             else (b.fuelLevel, b.ersStoreEnergy, b.drs))
      && r.tyrePressure == b.tyrePressure
      && r.ersDeployMode == b.ersDeployMode
  {
    match (base, update)
    case (None, None) => ZeroTelemetry
    case (None, Some(n)) => n
    case (Some(b), None) => b
    case (Some(b), Some(n)) =>
      var b := if n.speed > 0
        then b.(speed := n.speed, throttle := n.throttle, brake := n.brake,
                gear := n.gear, engineRpm := n.engineRpm)
        else b;
      var b := if n.engineTemp > 0 then b.(engineTemp := n.engineTemp) else b;
      var b := if n.tyreTemp[0] > 0 || n.tyreTemp[1] > 0 || n.tyreTemp[2] > 0 || n.tyreTemp[3] > 0
        then b.(tyreTemp := n.tyreTemp)
        else b;
      var b := if Float32Positive(n.fuelLevel)
        then b.(fuelLevel := n.fuelLevel, ersStoreEnergy := n.ersStoreEnergy, drs := n.drs)
        else b;
      b
  }

  /** Merging the same record twice has the effect of merging it once. */
  lemma MergeIdempotent(base: Option<TelemetryData>, update: TelemetryData)
    ensures var once := MergeTelemetryData(base, Some(update));
      MergeTelemetryData(Some(once), Some(update)) == once
  {
  }

  /** A decoded car-telemetry record never alters the fuel, ERS or DRS shown. */
  lemma MergeTelemetryKeepsStatus(base: TelemetryData, data: seq<byte>, playerCarIndex: byte)
    requires ParseCarTelemetryPacket(data, playerCarIndex).Some?
    ensures var r := MergeTelemetryData(Some(base), ParseCarTelemetryPacket(data, playerCarIndex));
      r.fuelLevel == base.fuelLevel && r.ersStoreEnergy == base.ersStoreEnergy
      && r.drs == base.drs && r.ersDeployMode == base.ersDeployMode
  {
  }

  /**
   * A decoded car-status record alters at most fuel, ERS energy and DRS, and
   * never the ERS deploy mode it carries.
   */
  lemma MergeStatusKeepsTelemetry(base: TelemetryData, data: seq<byte>, playerCarIndex: byte)
    requires ParseCarStatusPacket(data, playerCarIndex).Some?
    ensures var r := MergeTelemetryData(Some(base), ParseCarStatusPacket(data, playerCarIndex));
      r == base.(fuelLevel := r.fuelLevel, ersStoreEnergy := r.ersStoreEnergy, drs := r.drs)
  {
  }
}
