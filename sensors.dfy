/** The sample reads of libbno055.c: `get_acc`, `get_mag`, `get_gyr`,
    `get_eul`, `get_qua`, `get_gra` and `get_lin`. Each selects the first
    data register of its sensor and reads the little-endian signed 16-bit
    values in one burst; the two fused vectors first read UNIT_SEL for the
    divisor. The values are kept as the raw signed counts the driver
    divides: the division itself, in floating point, is not modelled. */
module SensorData {
  import opened Bits
  import opened Registers
  import opened RegisterIO
  import opened Codec

  /** A three-axis read: the address write fails with 1, the six-byte read
      with `readFailure` (2, but 1 in `get_eul`); the sample is kept then. */
  function AxesReadSpec(w: Wire, reg: Byte, readFailure: int, prior: Axes): (r: Run<Axes>)
    requires readFailure == 1 || readFailure == 2
    ensures r.code == 0 || r.code == 1 || r.code == readFailure
    ensures r.wire == QuerySpec(w, reg, 6).wire
    ensures r.code == 0 <==> QuerySpec(w, reg, 6).status == Ok
    ensures r.code != 0 ==> r.value == prior
    ensures r.code == 0 ==>
      |w.replies| >= 2 && w.replies[1].Done? && AxesInt16(r.value) && AxesBytes(r.value) == w.replies[1].data
  {
    var t := QuerySpec(w, reg, 6);
    match t.status
    case WriteFailed => Run(1, prior, t.wire)
    case ReadFailed => Run(readFailure, prior, t.wire)
    case Ok => Run(0, AxesAt(t.data, 0), t.wire)
  }

  method ReadAxes(bus: Bus, reg: Byte, readFailure: int, prior: Axes) returns (rc: int, sample: Axes)
    requires readFailure == 1 || readFailure == 2
    modifies bus
    ensures var r := AxesReadSpec(old(bus.State()), reg, readFailure, prior);
      rc == r.code && sample == r.value && bus.State() == r.wire
  {
    var status, data := bus.Query(reg, 6);
    if status == WriteFailed {
      return 1, prior;
    }
    if status == ReadFailed {
      return readFailure, prior;
    }
    sample := Axes(Int16LE(data[0], data[1]), Int16LE(data[2], data[3]), Int16LE(data[4], data[5]));
    rc := 0;
  }

  /** `get_acc`: ACC_DATA_X_LSB on, one LSB per milli-g. */
  method GetAcc(bus: Bus, prior: Axes) returns (rc: int, sample: Axes)
    modifies bus
    ensures var r := AxesReadSpec(old(bus.State()), ACC_DATA_X_LSB, 2, prior);
      rc == r.code && sample == r.value && bus.State() == r.wire
  {
    rc, sample := ReadAxes(bus, ACC_DATA_X_LSB, 2, prior);
  }

  /** `get_mag`: MAG_DATA_X_LSB on. */
  method GetMag(bus: Bus, prior: Axes) returns (rc: int, sample: Axes)
    modifies bus
    ensures var r := AxesReadSpec(old(bus.State()), MAG_DATA_X_LSB, 2, prior);
      rc == r.code && sample == r.value && bus.State() == r.wire
  {
    rc, sample := ReadAxes(bus, MAG_DATA_X_LSB, 2, prior);
  }

  /** `get_gyr`: GYRO_DATA_X_LSB on, 16 LSB per degree per second. */
  method GetGyr(bus: Bus, prior: Axes) returns (rc: int, sample: Axes)
    modifies bus
    ensures var r := AxesReadSpec(old(bus.State()), GYRO_DATA_X_LSB, 2, prior);
      rc == r.code && sample == r.value && bus.State() == r.wire
  {
    rc, sample := ReadAxes(bus, GYRO_DATA_X_LSB, 2, prior);
  }

  /** `get_eul`: heading, roll and pitch from EULER_H_LSB on, 16 LSB per
      degree; a failed read returns 1, like a failed address write. */
  method GetEul(bus: Bus, prior: Axes) returns (rc: int, sample: Axes)
    modifies bus
    ensures var r := AxesReadSpec(old(bus.State()), EULER_H_LSB, 1, prior);
      rc == r.code && sample == r.value && bus.State() == r.wire
  {
    rc, sample := ReadAxes(bus, EULER_H_LSB, 1, prior);
  }

  /** `get_eul` cannot tell its two failures apart: a device that refuses
      the address write and one that completes it but refuses the read both
      give 1. */
  lemma EulerFailuresAlike()
    ensures var a := AxesReadSpec(Wire([], [Failed]), EULER_H_LSB, 1, Axes(0, 0, 0));
      var b := AxesReadSpec(Wire([], [Done([]), Failed]), EULER_H_LSB, 1, Axes(0, 0, 0));
      a.code == 1 && b.code == 1 && a.wire.trace != b.wire.trace
  {
    var b := AxesReadSpec(Wire([], [Done([]), Failed]), EULER_H_LSB, 1, Axes(0, 0, 0));
    assert b.wire.trace == Select(EULER_H_LSB, 6);
  }

  /** `get_qua`: eight bytes from QUATERNION_W_LSB on as w, x, y, z, 2^14
      LSB per unit. */
  function GetQuaSpec(w: Wire, prior: Quad): (r: Run<Quad>)
    ensures r.code == 0 || r.code == 1 || r.code == 2
    ensures r.wire == QuerySpec(w, QUATERNION_W_LSB, 8).wire
    ensures r.code != 0 ==> r.value == prior
    ensures r.code == 0 ==>
      |w.replies| >= 2 && w.replies[1].Done?
      && IsInt16(r.value.w) && IsInt16(r.value.x) && IsInt16(r.value.y) && IsInt16(r.value.z)
      && QuadBytes(r.value) == w.replies[1].data
  {
    var t := QuerySpec(w, QUATERNION_W_LSB, 8);
    match t.status
    case WriteFailed => Run(1, prior, t.wire)
    case ReadFailed => Run(2, prior, t.wire)
    case Ok => Run(0, QuadAt(t.data), t.wire)
  }

  method GetQua(bus: Bus, prior: Quad) returns (rc: int, sample: Quad)
    modifies bus
    ensures var r := GetQuaSpec(old(bus.State()), prior);
      rc == r.code && sample == r.value && bus.State() == r.wire
  {
    var status, data := bus.Query(QUATERNION_W_LSB, 8);
    if status == WriteFailed {
      return 1, prior;
    }
    if status == ReadFailed {
      return 2, prior;
    }
    sample := Quad(Int16LE(data[0], data[1]), Int16LE(data[2], data[3]),
                   Int16LE(data[4], data[5]), Int16LE(data[6], data[7]));
    rc := 0;
  }

  /** A fused vector as the driver holds it: the raw counts and the divisor
      each is divided by. */
  datatype Scaled = Scaled(raw: Axes, divisor: nat)

  /** `get_gra` and `get_lin`: read UNIT_SEL (failures 1, 2) for the divisor,
      then six bytes from `reg` on (failures 3, 4). */
  function VectorReadSpec(w: Wire, reg: Byte, prior: Scaled): (r: Run<Scaled>)
    ensures r.code in {0, 1, 2, 3, 4}
    ensures r.code != 0 ==> r.value == prior
    ensures r.code == 0 || r.code == 3 || r.code == 4 <==> QuerySpec(w, UNIT_SEL, 1).status == Ok
    ensures r.code == 0 ==>
      |w.replies| >= 4 && w.replies[1].Done? && w.replies[3].Done?
      && r.value.divisor == UnitFactor(w.replies[1].data[0])
      && AxesInt16(r.value.raw) && AxesBytes(r.value.raw) == w.replies[3].data
  {
    var u := QuerySpec(w, UNIT_SEL, 1);
    match u.status
    case WriteFailed => Run(1, prior, u.wire)
    case ReadFailed => Run(2, prior, u.wire)
    case Ok =>
      var t := QuerySpec(u.wire, reg, 6);
      match t.status
      case WriteFailed => Run(3, prior, t.wire)
      case ReadFailed => Run(4, prior, t.wire)
      case Ok => Run(0, Scaled(AxesAt(t.data, 0), UnitFactor(u.data[0])), t.wire)
  }

  method ReadVector(bus: Bus, reg: Byte, prior: Scaled) returns (rc: int, vector: Scaled)
    modifies bus
    ensures var r := VectorReadSpec(old(bus.State()), reg, prior);
      rc == r.code && vector == r.value && bus.State() == r.wire
  {
    var status, unitSel := bus.Query(UNIT_SEL, 1);
    if status == WriteFailed {
      return 1, prior;
    }
    if status == ReadFailed {
      return 2, prior;
    }
    var divisor := UnitFactor(unitSel[0]);
    var data;
    status, data := bus.Query(reg, 6);
    if status == WriteFailed {
      return 3, prior;
    }
    if status == ReadFailed {
      return 4, prior;
    }
    vector := Scaled(Axes(Int16LE(data[0], data[1]), Int16LE(data[2], data[3]), Int16LE(data[4], data[5])), divisor);
    rc := 0;
  }

  /** `get_gra`: the gravity vector from GRAVITY_X_LSB on. */
  method GetGra(bus: Bus, prior: Scaled) returns (rc: int, vector: Scaled)
    modifies bus
    ensures var r := VectorReadSpec(old(bus.State()), GRAVITY_X_LSB, prior);
      rc == r.code && vector == r.value && bus.State() == r.wire
  {
    rc, vector := ReadVector(bus, GRAVITY_X_LSB, prior);
  }

  /** `get_lin`: the linear acceleration from LIN_ACC_X_LSB on. */
  method GetLin(bus: Bus, prior: Scaled) returns (rc: int, vector: Scaled)
    modifies bus
    ensures var r := VectorReadSpec(old(bus.State()), LIN_ACC_X_LSB, prior);
      rc == r.code && vector == r.value && bus.State() == r.wire
  {
    rc, vector := ReadVector(bus, LIN_ACC_X_LSB, prior);
  }

  /** The sample reads store into no register. */
  lemma VectorReadStores(w: Wire, reg: Byte, prior: Scaled, target: Byte)
    ensures Stores(VectorReadSpec(w, reg, prior).wire.trace, target) == Stores(w.trace, target)
  {
    var u := QuerySpec(w, UNIT_SEL, 1);
    QueryStoresNothing(w, UNIT_SEL, 1, target);
    if u.status == Ok {
      QueryStoresNothing(u.wire, reg, 6, target);
    }
  }
}
