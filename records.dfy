/** The structures the driver fills in through an argument: the
    calibration record (`struct bnocal`), the device information record
    (`struct bnoinf`) and the accelerometer configuration (`struct
    bnoaconf`). Each is a class whose fields the driver assigns one by one;
    `Snapshot` reads all of them as one value, which is what the driver
    specifications compute. */
module Records {
  import opened Codec

  /** `struct bnocal`: four calibration levels and the offset registers. */
  class CalRecord {
    var scal: nat
    var gcal: nat
    var acal: nat
    var mcal: nat
    var aoff: Axes
    var moff: Axes
    var goff: Axes
    var accRadius: int
    var magRadius: int

    /** A zero-initialised record, as a C global is. */
    constructor ()
      ensures Status() == CalStatus(0, 0, 0, 0)
      ensures OffsetValues() == Offsets(Axes(0, 0, 0), Axes(0, 0, 0), Axes(0, 0, 0), 0, 0)
    {
      scal, gcal, acal, mcal := 0, 0, 0, 0;
      aoff, moff, goff := Axes(0, 0, 0), Axes(0, 0, 0), Axes(0, 0, 0);
      accRadius, magRadius := 0, 0;
    }

    function Status(): CalStatus
      reads this
    {
      CalStatus(scal, gcal, acal, mcal)
    }

    function OffsetValues(): Offsets
      reads this
    {
      Offsets(aoff, moff, goff, accRadius, magRadius)
    }
  }

  /** The contents of `struct bnoinf`. */
  datatype Info = Info(
    chipId: int, accId: int, magId: int, gyrId: int, swLsb: int, swMsb: int, blRev: int,
    oprMode: int, pwrMode: int, axrConf: int, axrSign: int,
    sysStat: int, selftest: int, sysErr: int, unitSel: int, tempVal: int)

  /** `struct bnoinf`: identity registers, modes, remap and status bytes. */
  class InfoRecord {
    var chipId: int
    var accId: int
    var magId: int
    var gyrId: int
    var swLsb: int
    var swMsb: int
    var blRev: int
    var oprMode: int
    var pwrMode: int
    var axrConf: int
    var axrSign: int
    var sysStat: int
    var selftest: int
    var sysErr: int
    var unitSel: int
    var tempVal: int

    constructor ()
      ensures Snapshot() == Info(0, 0, 0, 0, 0, 0, 0, 0, 0, 0, 0, 0, 0, 0, 0, 0)
    {
      chipId, accId, magId, gyrId, swLsb, swMsb, blRev := 0, 0, 0, 0, 0, 0, 0;
      oprMode, pwrMode, axrConf, axrSign := 0, 0, 0, 0;
      sysStat, selftest, sysErr, unitSel, tempVal := 0, 0, 0, 0, 0;
    }

    function Snapshot(): Info
      reads this
    {
      Info(chipId, accId, magId, gyrId, swLsb, swMsb, blRev, oprMode, pwrMode, axrConf, axrSign,
        sysStat, selftest, sysErr, unitSel, tempVal)
    }
  }

  /** `struct bnoaconf`: the accelerometer configuration fields. */
  class AccConfRecord {
    var range: nat
    var bandwidth: nat
    var powerMode: nat
    var sleepMode: nat
    var sleepDuration: nat

    constructor ()
      ensures Snapshot() == AccConfig(0, 0, 0, 0, 0)
    {
      range, bandwidth, powerMode, sleepMode, sleepDuration := 0, 0, 0, 0, 0;
    }

    function Snapshot(): AccConfig
      reads this
    {
      AccConfig(range, bandwidth, powerMode, sleepMode, sleepDuration)
    }
  }
}
