/** Decoders for what the driver reads out of registers: bit fields packed
    into one byte, and little-endian 16-bit pairs. Each decoder is written as
    the driver's C expression (masks, shifts, ors) over `Bits`, and its
    contract states the value it stands for. */
module Codec {
  import opened Bits

  /** `data & 0x0F`: the low four bits, which hold the operating mode in
      OPR_MODE and the four self-test results in ST_RESULT. */
  function LowNibble(b: Byte): (m: nat)
    ensures m < 16 && m == b % 16
    ensures m == BitAnd(b, 0x0F)
  {
    MaskedIsBitAnd(b, 0, 4);
    BitAndLowMask(b, 4);
    AndShiftRight(b, 0, 4, 0);
    AndShift(b, 0, 4, 0)
  }

  /** `data & 0x03`: the power mode in the low two bits of PWR_MODE. */
  function PowerField(b: Byte): (p: nat)
    ensures p < 4 && p == b % 4
    ensures p == BitAnd(b, 0x03)
  {
    MaskedIsBitAnd(b, 0, 2);
    BitAndLowMask(b, 2);
    AndShiftRight(b, 0, 2, 0);
    AndShift(b, 0, 2, 0)
  }

  /** `(data & 0x80) >> 7`: the CLK_SEL bit of SYS_TRIGGER. */
  function ClockSourceField(b: Byte): (s: nat)
    ensures s < 2 && s == Bit(b, 7)
    ensures s == 1 <==> b >= 128
  {
    AndShiftRight(b, 7, 1, 7);
    AndShift(b, 7, 1, 7)
  }

  /** The gravity and linear-acceleration divisor: one LSB per milli-g when
      UNIT_SEL bit 0 is set, 100 LSB per m/s^2 otherwise. */
  function UnitFactor(unitSel: Byte): (f: nat)
    ensures f == 1 || f == 100
    ensures f == 1 <==> unitSel % 2 == 1
  {
    if Bit(unitSel, 0) == 1 then 1 else 100
  }

  // ---------------------------------------------------------------------
  // Calibration status (CALIB_STAT)

  /** The four calibration states, each 0 (uncalibrated) .. 3 (calibrated). */
  datatype CalStatus = CalStatus(sys: nat, gyr: nat, acc: nat, mag: nat)

  predicate ValidStatus(s: CalStatus)
  {
    s.sys < 4 && s.gyr < 4 && s.acc < 4 && s.mag < 4
  }

  /** CALIB_STAT split as `(d & 0xC0) >> 6`, `(d & 0x30) >> 4`,
      `(d & 0x0C) >> 2` and `d & 0x03`. */
  function DecodeCalStatus(b: Byte): (s: CalStatus)
    ensures ValidStatus(s)
    ensures s.sys == b / 64 && s.gyr == b / 16 % 4 && s.acc == b / 4 % 4 && s.mag == b % 4
  {
    AndShiftRight(b, 6, 2, 6);
    AndShiftRight(b, 4, 2, 4);
    AndShiftRight(b, 2, 2, 2);
    AndShiftRight(b, 0, 2, 0);
    CalStatus(AndShift(b, 6, 2, 6), AndShift(b, 4, 2, 4), AndShift(b, 2, 2, 2), AndShift(b, 0, 2, 0))
  }

  /** `s << 6 | g << 4 | a << 2 | m`, the byte the four states came from. */
  function PackCalStatus(s: CalStatus): nat
  {
    BitOr(BitOr(BitOr(Shl(s.sys, 6), Shl(s.gyr, 4)), Shl(s.acc, 2)), s.mag)
  }

  /** For two-bit states the or of the shifted states is their weighted sum. */
  lemma PackCalStatusSum(s: CalStatus)
    requires ValidStatus(s)
    ensures PackCalStatus(s) == 64 * s.sys + 16 * s.gyr + 4 * s.acc + s.mag
  {
    assert Pow2(2) == 4 && Pow2(4) == 16 && Pow2(6) == 64;
    OrStack(s.sys, s.gyr, 2, 4);
    var y := s.gyr + Shl(s.sys, 2);
    ShlShl(y, 2, 2);
    OrStack(y, s.acc, 2, 2);
    var z := s.acc + Shl(y, 2);
    OrBelow(z, s.mag, 2);
  }

  /** Decoding CALIB_STAT and re-packing the states gives the byte back. */
  lemma CalStatusRepack(b: Byte)
    ensures PackCalStatus(DecodeCalStatus(b)) == b
  {
    var s := DecodeCalStatus(b);
    PackCalStatusSum(s);
    MixedRadix(b, 4, 4);
    MixedRadix(b, 16, 4);
  }

  /** Packing four two-bit states and decoding the byte gives them back. */
  lemma CalStatusUnpack(s: CalStatus)
    requires ValidStatus(s)
    ensures PackCalStatus(s) < 256
    ensures DecodeCalStatus(PackCalStatus(s)) == s
  {
    PackCalStatusSum(s);
    var b := 64 * s.sys + 16 * s.gyr + 4 * s.acc + s.mag;
    var quarter, sixteenth := 16 * s.sys + 4 * s.gyr + s.acc, 4 * s.sys + s.gyr;
    DivModUnique(b, 4, quarter, s.mag);
    DivModUnique(quarter, 4, sixteenth, s.acc);
    DivModUnique(b, 16, sixteenth, 4 * s.acc + s.mag);
    DivModUnique(sixteenth, 4, s.sys, s.gyr);
    DivModUnique(b, 64, s.sys, 16 * s.gyr + 4 * s.acc + s.mag);
    assert b / 64 == s.sys && b / 16 % 4 == s.gyr && b / 4 % 4 == s.acc && b % 4 == s.mag;
  }

  // ---------------------------------------------------------------------
  // Little-endian 16-bit pairs

  /** C's conversion of an int to `int16_t`, two's complement wrap-around:
      the one value in range that is congruent to x modulo 2^16. */
  function ToInt16(x: int): (v: int)
    ensures -32768 <= v < 32768
    ensures (x - v) % 65536 == 0
  {
    var u := x % 65536;
    if u >= 32768 then u - 65536 else u
  }

  /** `((int16_t)hi << 8) | lo` stored into an int16_t: the signed value of
      the register pair, low byte first. */
  function Int16LE(lo: Byte, hi: Byte): (v: int)
    ensures -32768 <= v < 32768
    ensures v == lo + 256 * hi - (if hi >= 128 then 65536 else 0)
  {
    OrBelow(hi, lo, 8);
    ToInt16(BitOr(Shl(hi, 8), lo))
  }

  /** The register pair, low byte first, that holds a signed 16-bit value. */
  function Int16Bytes(v: int): (p: seq<Byte>)
    requires -32768 <= v < 32768
    ensures |p| == 2 && Int16LE(p[0], p[1]) == v
  {
    var u := v % 65536;
    [u % 256, u / 256]
  }

  lemma Int16RoundTrip(lo: Byte, hi: Byte)
    ensures Int16Bytes(Int16LE(lo, hi)) == [lo, hi]
  {
    var u := lo + 256 * hi;
    assert Int16LE(lo, hi) % 65536 == u;
    DivModUnique(u, 256, hi, lo);
  }

  /** `data[0] + data[1] * 256` with unsigned bytes: the pair read as an
      unsigned value, as the earlier driver does. */
  function Uint16LE(lo: Byte, hi: Byte): (v: nat)
    ensures v < 65536 && v % 256 == lo && v / 256 == hi
  {
    DivModUnique(lo + hi * 256, 256, hi, lo);
    lo + hi * 256
  }

  /** The signed value of bytes 2k and 2k+1. */
  function Word(d: seq<Byte>, k: nat): int
    requires 2 * k + 1 < |d|
  {
    Int16LE(d[2 * k], d[2 * k + 1])
  }

  /** A three-axis sample or offset, as signed 16-bit values. */
  datatype Axes = Axes(x: int, y: int, z: int)

  /** A quaternion sample, as signed 16-bit values. */
  datatype Quad = Quad(w: int, x: int, y: int, z: int)

  predicate IsInt16(v: int)
  {
    -32768 <= v < 32768
  }

  predicate AxesInt16(a: Axes)
  {
    IsInt16(a.x) && IsInt16(a.y) && IsInt16(a.z)
  }

  /** Words k, k+1 and k+2 as the x, y and z of one sample. */
  function AxesAt(d: seq<Byte>, k: nat): (a: Axes)
    requires 2 * k + 5 < |d|
    ensures AxesInt16(a)
    ensures AxesBytes(a) == d[2 * k .. 2 * k + 6]
  {
    Int16RoundTrip(d[2 * k], d[2 * k + 1]);
    Int16RoundTrip(d[2 * k + 2], d[2 * k + 3]);
    Int16RoundTrip(d[2 * k + 4], d[2 * k + 5]);
    Axes(Word(d, k), Word(d, k + 1), Word(d, k + 2))
  }

  function AxesBytes(a: Axes): (d: seq<Byte>)
    requires AxesInt16(a)
    ensures |d| == 6
  {
    Int16Bytes(a.x) + Int16Bytes(a.y) + Int16Bytes(a.z)
  }

  lemma AxesUnpack(a: Axes)
    requires AxesInt16(a)
    ensures AxesAt(AxesBytes(a), 0) == a
  {
  }

  /** The eight quaternion bytes as w, x, y and z. */
  function QuadAt(d: seq<Byte>): (q: Quad)
    requires |d| >= 8
    ensures IsInt16(q.w) && IsInt16(q.x) && IsInt16(q.y) && IsInt16(q.z)
    ensures QuadBytes(q) == d[..8]
  {
    Int16RoundTrip(d[0], d[1]);
    Int16RoundTrip(d[2], d[3]);
    Int16RoundTrip(d[4], d[5]);
    Int16RoundTrip(d[6], d[7]);
    Quad(Word(d, 0), Word(d, 1), Word(d, 2), Word(d, 3))
  }

  function QuadBytes(q: Quad): (d: seq<Byte>)
    requires IsInt16(q.w) && IsInt16(q.x) && IsInt16(q.y) && IsInt16(q.z)
    ensures |d| == 8
  {
    Int16Bytes(q.w) + Int16Bytes(q.x) + Int16Bytes(q.y) + Int16Bytes(q.z)
  }

  lemma QuadUnpack(q: Quad)
    requires IsInt16(q.w) && IsInt16(q.x) && IsInt16(q.y) && IsInt16(q.z)
    ensures QuadAt(QuadBytes(q)) == q
  {
  }

  /** The calibration offsets and radii, eleven signed 16-bit values held in
      22 consecutive registers from ACC_OFFSET_X_LSB on. */
  datatype Offsets = Offsets(acc: Axes, mag: Axes, gyr: Axes, accRadius: int, magRadius: int)

  predicate OffsetsInt16(o: Offsets)
  {
    AxesInt16(o.acc) && AxesInt16(o.mag) && AxesInt16(o.gyr) && IsInt16(o.accRadius) && IsInt16(o.magRadius)
  }

  /** Bytes 0..21 of the offset block: accelerometer, magnetometer and
      gyroscope offsets, then the two radii, each low byte first. */
  function DecodeOffsets(d: seq<Byte>): (o: Offsets)
    requires |d| >= 22
    ensures OffsetsInt16(o)
  {
    Offsets(AxesAt(d, 0), AxesAt(d, 3), AxesAt(d, 6), Word(d, 9), Word(d, 10))
  }

  function EncodeOffsets(o: Offsets): (d: seq<Byte>)
    requires OffsetsInt16(o)
    ensures |d| == 22
  {
    AxesBytes(o.acc) + AxesBytes(o.mag) + AxesBytes(o.gyr) + Int16Bytes(o.accRadius) + Int16Bytes(o.magRadius)
  }

  /** Decoding the register image and encoding it again gives its first 22 bytes. */
  lemma OffsetsRoundTrip(d: seq<Byte>)
    requires |d| >= 22
    ensures EncodeOffsets(DecodeOffsets(d)) == d[..22]
  {
    var o := DecodeOffsets(d);
    Int16RoundTrip(d[18], d[19]);
    Int16RoundTrip(d[20], d[21]);
    assert EncodeOffsets(o) == d[0..6] + d[6..12] + d[12..18] + d[18..20] + d[20..22];
  }

  /** Encoding eleven signed values and decoding the image gives them back. */
  lemma OffsetsUnpack(o: Offsets)
    requires OffsetsInt16(o)
    ensures DecodeOffsets(EncodeOffsets(o)) == o
  {
    var d := EncodeOffsets(o);
    assert d[0..6] == AxesBytes(o.acc);
    assert d[6..12] == AxesBytes(o.mag);
    assert d[12..18] == AxesBytes(o.gyr);
    AxesUnpack(o.acc);
    AxesUnpack(o.mag);
    AxesUnpack(o.gyr);
  }

  // ---------------------------------------------------------------------
  // Accelerometer configuration (page 1: ACC_Config and ACC_Sleep_Config)

  /** The accelerometer settings: g-range, bandwidth, power mode, sleep mode
      and sleep duration codes. */
  datatype AccConfig = AccConfig(range: nat, bandwidth: nat, powerMode: nat, sleepMode: nat, sleepDuration: nat)

  /** ACC_Config decoded as the driver writes it: `(d & 0x03) >> 2`,
      `(d & 0x1C) >> 4` and `(d & 0xE0) >> 6`. Each mask is shifted past
      its field, so the range is always 0, the bandwidth is bit 4 alone and
      the power mode is bits 6 and 7. */
  function AccConfigAsWritten(c: AccConfig, d: Byte): (r: AccConfig)
    ensures r.range == 0
    ensures r.bandwidth == Bit(d, 4) && r.powerMode == d / 64
    ensures r.sleepMode == c.sleepMode && r.sleepDuration == c.sleepDuration
  {
    LowPairShiftedOut(d);
    MidFieldShifted(d);
    TopFieldShifted(d);
    c.(range := AndShift(d, 0, 2, 2), bandwidth := AndShift(d, 2, 3, 4), powerMode := AndShift(d, 5, 3, 6))
  }

  /** ACC_Sleep_Config decoded as the driver writes it: `(d & 0x03) >> 2`
      and `(d & 0x1C) >> 4`, so the sleep mode is always 0 and the duration
      is bit 4 alone. */
  function SleepConfigAsWritten(c: AccConfig, d: Byte): (r: AccConfig)
    ensures r.sleepMode == 0 && r.sleepDuration == Bit(d, 4)
    ensures r.range == c.range && r.bandwidth == c.bandwidth && r.powerMode == c.powerMode
  {
    LowPairShiftedOut(d);
    MidFieldShifted(d);
    c.(sleepMode := AndShift(d, 0, 2, 2), sleepDuration := AndShift(d, 2, 3, 4))
  }

  /** `(d & 0x03) >> 2` is always 0. */
  lemma LowPairShiftedOut(d: Byte)
    ensures AndShift(d, 0, 2, 2) == 0
  {
    AndShiftRight(d, 0, 2, 2);
    assert Pow2(2) == 4;
  }

  /** `(d & 0x1C) >> 4` is bit 4 of d. */
  lemma MidFieldShifted(d: Byte)
    ensures AndShift(d, 2, 3, 4) == Bit(d, 4)
  {
    AndShiftRight(d, 2, 3, 4);
    assert Pow2(2) == 4 && Pow2(3) == 8 && Pow2(4) == 16;
    MixedRadix(d, 4, 4);
    MixedRadix(d / 4, 4, 2);
    MixedRadix(d, 4, 8);
    assert AndShift(d, 2, 3, 4) == (d / 4) % 8 / 4;
    assert (d / 4) % 8 / 4 == (d / 4) / 4 % 2;
  }

  /** `(d & 0xE0) >> 6` is bits 6 and 7 of d. */
  lemma TopFieldShifted(d: Byte)
    ensures AndShift(d, 5, 3, 6) == d / 64
  {
    AndShiftRight(d, 5, 3, 6);
    assert Pow2(5) == 32 && Pow2(3) == 8 && Pow2(1) == 2;
    MixedRadix(d, 32, 2);
  }

  /** The decoding the masks call for: `d & 0x03`, `(d & 0x1C) >> 2` and
      `(d & 0xE0) >> 5` for ACC_Config. */
  function AccConfigIntended(c: AccConfig, d: Byte): (r: AccConfig)
    ensures r.range == d % 4 && r.bandwidth == d / 4 % 8 && r.powerMode == d / 32
    ensures r.sleepMode == c.sleepMode && r.sleepDuration == c.sleepDuration
  {
    assert Pow2(0) == 1 && Pow2(2) == 4 && Pow2(3) == 8 && Pow2(5) == 32;
    AndShiftRight(d, 0, 2, 0);
    AndShiftRight(d, 2, 3, 2);
    AndShiftRight(d, 5, 3, 5);
    assert d / 32 >= 0;
    c.(range := AndShift(d, 0, 2, 0), bandwidth := AndShift(d, 2, 3, 2), powerMode := AndShift(d, 5, 3, 5))
  }

  /** `d & 0x01` and `(d & 0x1E) >> 1` for ACC_Sleep_Config: sleep mode in
      bit 0, four bits of duration above it. */
  function SleepConfigIntended(c: AccConfig, d: Byte): (r: AccConfig)
    ensures r.sleepMode == d % 2 && r.sleepDuration == d / 2 % 16
    ensures r.range == c.range && r.bandwidth == c.bandwidth && r.powerMode == c.powerMode
  {
    assert Pow2(0) == 1 && Pow2(1) == 2 && Pow2(4) == 16;
    AndShiftRight(d, 0, 1, 0);
    AndShiftRight(d, 1, 4, 1);
    c.(sleepMode := AndShift(d, 0, 1, 0), sleepDuration := AndShift(d, 1, 4, 1))
  }

  /** `range | bandwidth << 2 | powerMode << 5`, the ACC_Config byte. */
  function PackAccConfig(c: AccConfig): nat
  {
    BitOr(BitOr(c.range, Shl(c.bandwidth, 2)), Shl(c.powerMode, 5))
  }

  /** The intended decoding loses nothing: every ACC_Config byte is rebuilt
      from its three fields. */
  lemma AccConfigRoundTrip(c: AccConfig, d: Byte)
    ensures PackAccConfig(AccConfigIntended(c, d)) == d
  {
    var r := AccConfigIntended(c, d);
    AccLowBits(d);
    assert Pow2(5) == 32;
    BitOrDisjoint(d % 32, r.powerMode, 5);
  }

  /** The range and the bandwidth fields rebuild the low five bits. */
  lemma AccLowBits(d: Byte)
    ensures BitOr(d % 4, Shl(d / 4 % 8, 2)) == d % 32
  {
    assert Pow2(2) == 4;
    BitOrDisjoint(d % 4, d / 4 % 8, 2);
    MixedRadix(d, 4, 8);
  }

  /** The as-written decoding loses the range: two ACC_Config bytes that
      differ only in their range bits decode the same. */
  lemma AccRangeLost()
    ensures AccConfigAsWritten(AccConfig(0, 0, 0, 0, 0), 0x0D) == AccConfigAsWritten(AccConfig(0, 0, 0, 0, 0), 0x0C)
    ensures AccConfigIntended(AccConfig(0, 0, 0, 0, 0), 0x0D).range == 1
  {
  }

  /** `sleepMode | sleepDuration << 1`, the five used bits of ACC_Sleep_Config. */
  function PackSleepConfig(c: AccConfig): nat
  {
    BitOr(c.sleepMode, Shl(c.sleepDuration, 1))
  }

  /** The intended sleep decoding keeps all five used bits: re-packing gives
      `d & 0x1F`. */
  lemma SleepConfigRoundTrip(c: AccConfig, d: Byte)
    ensures PackSleepConfig(SleepConfigIntended(c, d)) == BitAnd(d, 0x1F)
  {
    var r := SleepConfigIntended(c, d);
    assert Pow2(1) == 2 && Pow2(5) == 32;
    BitOrDisjoint(r.sleepMode, r.sleepDuration, 1);
    MixedRadix(d, 2, 16);
    BitAndLowMask(d, 5);
  }

  /** The as-written decoding loses the sleep mode: event-driven and
      equidistant sampling decode the same. */
  lemma SleepModeLost()
    ensures SleepConfigAsWritten(AccConfig(0, 0, 0, 0, 0), 0x01) == SleepConfigAsWritten(AccConfig(0, 0, 0, 0, 0), 0x00)
    ensures SleepConfigIntended(AccConfig(0, 0, 0, 0, 0), 0x01).sleepMode == 1
  {
  }
}
