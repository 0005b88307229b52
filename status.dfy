/** The status and information queries of libbno055.c: `get_calstatus`,
    `get_remap`, `get_inf`, `get_clksrc` and `get_sstat`. Each reads one or
    more page-0 registers and stops at the first transfer that fails. */
module DeviceStatus {
  import opened Bits
  import opened Registers
  import opened RegisterIO
  import opened Codec
  import opened Records
  import opened OperatingMode
  import opened RegisterPages

  /** Read the byte in `reg`: `failWrite` when the address write fails,
      `failRead` when the read does, otherwise 0 and the byte. */
  function ByteRead(w: Wire, reg: Byte, failWrite: int, failRead: int, prior: int): (r: Run<int>)
    ensures var t := QuerySpec(w, reg, 1);
      r.wire == t.wire
      && (t.status == Ok ==> r.code == 0 && r.value == t.data[0])
      && (t.status == WriteFailed ==> r.code == failWrite && r.value == prior)
      && (t.status == ReadFailed ==> r.code == failRead && r.value == prior)
  {
    var t := QuerySpec(w, reg, 1);
    match t.status
    case WriteFailed => Run(failWrite, prior, t.wire)
    case ReadFailed => Run(failRead, prior, t.wire)
    case Ok => Run(0, t.data[0], t.wire)
  }

  method ReadByte(bus: Bus, reg: Byte, failWrite: int, failRead: int, prior: int) returns (rc: int, value: int)
    modifies bus
    ensures var r := ByteRead(old(bus.State()), reg, failWrite, failRead, prior);
      rc == r.code && value == r.value && bus.State() == r.wire
  {
    var status, data := bus.Query(reg, 1);
    if status == WriteFailed {
      return failWrite, prior;
    }
    if status == ReadFailed {
      return failRead, prior;
    }
    return 0, data[0];
  }

  // ---------------------------------------------------------------------
  // get_calstatus

  /** `get_calstatus`: read CALIB_STAT (write failure: 1, read failure: 2)
      and split it into the four two-bit calibration levels, which pack
      back into the byte read. */
  function GetCalStatusSpec(w: Wire, prior: CalStatus): (r: Run<CalStatus>)
    ensures r.code in {0, 1, 2}
    ensures r.code == 1 <==> !SendOk(w)
    ensures r.wire.trace == w.trace + if r.code == 1 then [Write([CALIB_STAT])] else Select(CALIB_STAT, 1)
    ensures r.code == 0 ==>
      |w.replies| >= 2 && w.replies[1].Done? && |w.replies[1].data| == 1
      && ValidStatus(r.value) && PackCalStatus(r.value) == w.replies[1].data[0]
    ensures r.code != 0 ==> r.value == prior
  {
    var t := QuerySpec(w, CALIB_STAT, 1);
    match t.status
    case WriteFailed => Run(1, prior, t.wire)
    case ReadFailed => Run(2, prior, t.wire)
    case Ok =>
      CalStatusRepack(t.data[0]);
      Run(0, DecodeCalStatus(t.data[0]), t.wire)
  }

  method GetCalStatus(bus: Bus, cal: CalRecord) returns (rc: int)
    modifies bus, cal
    ensures var r := GetCalStatusSpec(old(bus.State()), old(cal.Status()));
      rc == r.code && bus.State() == r.wire && cal.Status() == r.value
    ensures cal.OffsetValues() == old(cal.OffsetValues())
  {
    var status, data := bus.Query(CALIB_STAT, 1);
    if status == WriteFailed {
      return 1;
    }
    if status == ReadFailed {
      return 2;
    }
    cal.scal := AndShift(data[0], 6, 2, 6);
    cal.gcal := AndShift(data[0], 4, 2, 4);
    cal.acal := AndShift(data[0], 2, 2, 2);
    cal.mcal := AndShift(data[0], 0, 2, 0);
    return 0;
  }

  // ---------------------------------------------------------------------
  // get_remap

  /** `get_remap`: 'c' reads AXIS_MAP_CONFIG, 's' reads AXIS_MAP_SIGN, and
      any other selector returns 1 without touching the bus. A failed
      address write gives 2, a failed read 3. */
  function GetRemapSpec(w: Wire, selector: char, prior: int): (r: Run<int>)
    ensures r.code in {0, 1, 2, 3}
    ensures r.code == 1 <==> selector != 'c' && selector != 's'
    ensures r.code == 1 ==> r.wire == w && r.value == prior
    ensures r.code == 0 ==>
      var reg := if selector == 'c' then AXIS_MAP_CONFIG else AXIS_MAP_SIGN;
      r.wire.trace == w.trace + Select(reg, 1)
      && |w.replies| >= 2 && w.replies[1].Done? && w.replies[1].data == [r.value]
    ensures r.code != 0 ==> r.value == prior
  {
    if selector == 'c' then ByteRead(w, AXIS_MAP_CONFIG, 2, 3, prior)
    else if selector == 's' then ByteRead(w, AXIS_MAP_SIGN, 2, 3, prior)
    else Run(1, prior, w)
  }

  method GetRemap(bus: Bus, selector: char, prior: int) returns (rc: int, remap: int)
    modifies bus
    ensures var r := GetRemapSpec(old(bus.State()), selector, prior);
      rc == r.code && remap == r.value && bus.State() == r.wire
  {
    var reg: Byte;
    if selector == 'c' {
      reg := AXIS_MAP_CONFIG;
    } else if selector == 's' {
      reg := AXIS_MAP_SIGN;
    } else {
      return 1, prior;
    }
    rc, remap := ReadByte(bus, reg, 2, 3, prior);
  }

  // ---------------------------------------------------------------------
  // get_inf

  /** `get_inf`: read the seven identity registers from CHIP_ID (failures: 1,
      2), then the operating and power modes, the two remap registers and
      the status, self-test, error, unit and temperature registers, storing
      each into the record as it arrives. A failing sub-call returns its
      step number with the sub-call's code above the low byte; the record
      keeps what was stored before the failure. */
  function GetInfSpec(w: Wire, prior: Info): (r: Run<Info>)
    ensures r.code in {0, 1, 2, 7, 8, 10, 11, 12, 13, 14, 15, 16} || InfNested(r.code)
    ensures r.code == 1 || r.code == 2 ==> r.value == prior
  {
    var t := QuerySpec(w, CHIP_ID, 7);
    match t.status
    case WriteFailed => Run(1, prior, t.wire)
    case ReadFailed => Run(2, prior, t.wire)
    case Ok =>
      var d := t.data;
      InfModes(t.wire, prior.(chipId := d[0], accId := d[1], magId := d[2], gyrId := d[3],
                              swLsb := d[4], swMsb := d[5], blRev := d[6]))
  }

  /** The composite codes of `get_inf`: step 3 or 4 (`get_mode`, `get_power`)
      over their write or read failure 1 or 2, and step 5 or 6 (`get_remap`)
      over its write or read failure 2 or 3; the step is in the low byte. */
  predicate InfNested(code: int)
  {
    (code % 256 in {3, 4} && code / 256 in {1, 2}) || (code % 256 in {5, 6} && code / 256 in {2, 3})
  }

  /** Steps 3 and 4 of `get_inf`: `get_mode` and `get_power`. */
  function InfModes(w: Wire, v: Info): (r: Run<Info>)
    ensures r.code in {0, 7, 8, 10, 11, 12, 13, 14, 15, 16} || InfNested(r.code)
  {
    var g := GetModeSpec(w, 0);
    if g.code != 0 then Run(Nest(3, g.code), v, g.wire)
    else
      var p := GetPowerSpec(g.wire, 0);
      if p.code != 0 then Run(Nest(4, p.code), v.(oprMode := g.value), p.wire)
      else InfRemap(p.wire, v.(oprMode := g.value, pwrMode := p.value))
  }

  /** Steps 5 and 6 of `get_inf`: the two `get_remap` calls. */
  function InfRemap(w: Wire, v: Info): (r: Run<Info>)
    ensures r.code in {0, 7, 8, 10, 11, 12, 13, 14, 15, 16} || InfNested(r.code)
  {
    var c := GetRemapSpec(w, 'c', 0);
    if c.code != 0 then Run(Nest(5, c.code), v, c.wire)
    else
      var s := GetRemapSpec(c.wire, 's', 0);
      if s.code != 0 then Run(Nest(6, s.code), v.(axrConf := c.value), s.wire)
      else InfStatus(s.wire, v.(axrConf := c.value, axrSign := s.value))
  }

  /** Steps 7 to 12 of `get_inf`: SYS_STATUS (7, 8), ST_RESULT, of which
      only the low four bits are kept (8, 10), and SYS_ERR (11, 12). A failed
      read of SYS_STATUS and a failed address write of ST_RESULT both
      return 8. */
  function InfStatus(w: Wire, v: Info): (r: Run<Info>)
    ensures r.code in {0, 7, 8, 10, 11, 12, 13, 14, 15, 16}
    ensures var t := QuerySpec(w, SYS_STAT, 1);
      r.code == 8 <==> t.status == ReadFailed || (t.status == Ok && !SendOk(t.wire))
  {
    var a := ByteRead(w, SYS_STAT, 7, 8, v.sysStat);
    if a.code != 0 then Run(a.code, v, a.wire)
    else
      var b := ByteRead(a.wire, SELFTEST_RESULT, 8, 10, 0);
      if b.code != 0 then Run(b.code, v.(sysStat := a.value), b.wire)
      else
        var e := ByteRead(b.wire, SYS_ERR, 11, 12, v.sysErr);
        var v' := v.(sysStat := a.value, selftest := LowNibble(b.value));
        if e.code != 0 then Run(e.code, v', e.wire)
        else InfUnits(e.wire, v'.(sysErr := e.value))
  }

  /** Steps 13 to 16 of `get_inf`: UNIT_SEL (13, 14) and TEMP (15, 16). */
  function InfUnits(w: Wire, v: Info): (r: Run<Info>)
    ensures r.code in {0, 13, 14, 15, 16}
  {
    var u := ByteRead(w, UNIT_SEL, 13, 14, v.unitSel);
    if u.code != 0 then Run(u.code, v, u.wire)
    else
      var t := ByteRead(u.wire, TEMP, 15, 16, v.tempVal);
      Run(t.code, v.(unitSel := u.value, tempVal := t.value), t.wire)
  }

  method GetInf(bus: Bus, info: InfoRecord) returns (rc: int)
    modifies bus, info
    ensures var r := GetInfSpec(old(bus.State()), old(info.Snapshot()));
      rc == r.code && bus.State() == r.wire && info.Snapshot() == r.value
  {
    var status, data := bus.Query(CHIP_ID, 7);
    if status == WriteFailed {
      return 1;
    }
    if status == ReadFailed {
      return 2;
    }
    info.chipId, info.accId, info.magId, info.gyrId := data[0], data[1], data[2], data[3];
    info.swLsb, info.swMsb, info.blRev := data[4], data[5], data[6];
    assert info.Snapshot() == old(info.Snapshot()).(chipId := data[0], accId := data[1],
      magId := data[2], gyrId := data[3], swLsb := data[4], swMsb := data[5], blRev := data[6]);
    rc := ReadInfModes(bus, info);
  }

  /** Steps 3 and 4 of `get_inf`, on the record. */
  method ReadInfModes(bus: Bus, info: InfoRecord) returns (rc: int)
    modifies bus, info
    ensures var r := InfModes(old(bus.State()), old(info.Snapshot()));
      rc == r.code && bus.State() == r.wire && info.Snapshot() == r.value
  {
    var code, value := GetMode(bus, 0);
    if code != 0 {
      return Nest(3, code);
    }
    info.oprMode := value;
    code, value := GetPower(bus, 0);
    if code != 0 {
      return Nest(4, code);
    }
    info.pwrMode := value;
    rc := ReadInfRemap(bus, info);
  }

  /** Steps 5 and 6 of `get_inf`, on the record. */
  method ReadInfRemap(bus: Bus, info: InfoRecord) returns (rc: int)
    modifies bus, info
    ensures var r := InfRemap(old(bus.State()), old(info.Snapshot()));
      rc == r.code && bus.State() == r.wire && info.Snapshot() == r.value
  {
    var code, value := GetRemap(bus, 'c', 0);
    if code != 0 {
      return Nest(5, code);
    }
    info.axrConf := value;
    code, value := GetRemap(bus, 's', 0);
    if code != 0 {
      return Nest(6, code);
    }
    info.axrSign := value;
    rc := ReadInfStatus(bus, info);
  }

  /** Steps 7 to 12 of `get_inf`, on the record. */
  method ReadInfStatus(bus: Bus, info: InfoRecord) returns (rc: int)
    modifies bus, info
    ensures var r := InfStatus(old(bus.State()), old(info.Snapshot()));
      rc == r.code && bus.State() == r.wire && info.Snapshot() == r.value
  {
    var code, value := ReadByte(bus, SYS_STAT, 7, 8, info.sysStat);
    if code != 0 {
      return code;
    }
    info.sysStat := value;
    code, value := ReadByte(bus, SELFTEST_RESULT, 8, 10, 0);
    if code != 0 {
      return code;
    }
    info.selftest := LowNibble(value);
    code, value := ReadByte(bus, SYS_ERR, 11, 12, info.sysErr);
    if code != 0 {
      return code;
    }
    info.sysErr := value;
    rc := ReadInfUnits(bus, info);
  }

  /** Steps 13 to 16 of `get_inf`, on the record. */
  method ReadInfUnits(bus: Bus, info: InfoRecord) returns (rc: int)
    modifies bus, info
    ensures var r := InfUnits(old(bus.State()), old(info.Snapshot()));
      rc == r.code && bus.State() == r.wire && info.Snapshot() == r.value
  {
    var code, value := ReadByte(bus, UNIT_SEL, 13, 14, info.unitSel);
    if code != 0 {
      return code;
    }
    info.unitSel := value;
    code, value := ReadByte(bus, TEMP, 15, 16, info.tempVal);
    if code != 0 {
      return code;
    }
    info.tempVal := value;
    return 0;
  }

  /** The reads of `get_inf`, in order. */
  function InfUnitsPlan(): seq<Op>
  {
    Select(UNIT_SEL, 1) + Select(TEMP, 1)
  }

  function InfStatusPlan(): seq<Op>
  {
    Select(SYS_STAT, 1) + (Select(SELFTEST_RESULT, 1) + (Select(SYS_ERR, 1) + InfUnitsPlan()))
  }

  function InfRemapPlan(): seq<Op>
  {
    Select(AXIS_MAP_CONFIG, 1) + (Select(AXIS_MAP_SIGN, 1) + InfStatusPlan())
  }

  function InfModesPlan(): seq<Op>
  {
    Select(OPR_MODE, 1) + (Select(PWR_MODE, 1) + InfRemapPlan())
  }

  function InfPlan(): seq<Op>
  {
    Select(CHIP_ID, 7) + InfModesPlan()
  }

  lemma InfUnitsSteps(w: Wire, v: Info)
    ensures var r := InfUnits(w, v);
      r.wire.trace == w.trace + Issued(InfUnitsPlan(), w.replies)
      && r.wire.replies == Left(InfUnitsPlan(), w.replies)
      && (r.code == 0 <==> Completes(InfUnitsPlan(), w.replies))
  {
    var t := QuerySpec(w, UNIT_SEL, 1);
    QueryIssued(t.wire, TEMP, 1);
    QueryThen(w, UNIT_SEL, 1, Select(TEMP, 1), QuerySpec(t.wire, TEMP, 1).wire);
  }

  lemma InfStatusSteps(w: Wire, v: Info)
    ensures var r := InfStatus(w, v);
      r.wire.trace == w.trace + Issued(InfStatusPlan(), w.replies)
      && r.wire.replies == Left(InfStatusPlan(), w.replies)
      && (r.code == 0 <==> Completes(InfStatusPlan(), w.replies))
  {
    var a := QuerySpec(w, SYS_STAT, 1);
    var b := QuerySpec(a.wire, SELFTEST_RESULT, 1);
    var e := QuerySpec(b.wire, SYS_ERR, 1);
    var v' := if a.status == Ok && b.status == Ok && e.status == Ok
      then v.(sysStat := a.data[0], selftest := LowNibble(b.data[0]), sysErr := e.data[0]) else v;
    InfUnitsSteps(e.wire, v');
    var afterE := if e.status == Ok then InfUnits(e.wire, v').wire else e.wire;
    QueryThen(b.wire, SYS_ERR, 1, InfUnitsPlan(), InfUnits(e.wire, v').wire);
    var afterB := if b.status == Ok then afterE else b.wire;
    QueryThen(a.wire, SELFTEST_RESULT, 1, Select(SYS_ERR, 1) + InfUnitsPlan(), afterE);
    QueryThen(w, SYS_STAT, 1, Select(SELFTEST_RESULT, 1) + (Select(SYS_ERR, 1) + InfUnitsPlan()), afterB);
  }

  lemma InfRemapSteps(w: Wire, v: Info)
    ensures var r := InfRemap(w, v);
      r.wire.trace == w.trace + Issued(InfRemapPlan(), w.replies)
      && r.wire.replies == Left(InfRemapPlan(), w.replies)
      && (r.code == 0 <==> Completes(InfRemapPlan(), w.replies))
  {
    var c := QuerySpec(w, AXIS_MAP_CONFIG, 1);
    var s := QuerySpec(c.wire, AXIS_MAP_SIGN, 1);
    var v' := if c.status == Ok && s.status == Ok then v.(axrConf := c.data[0], axrSign := s.data[0]) else v;
    InfStatusSteps(s.wire, v');
    var afterS := if s.status == Ok then InfStatus(s.wire, v').wire else s.wire;
    QueryThen(c.wire, AXIS_MAP_SIGN, 1, InfStatusPlan(), InfStatus(s.wire, v').wire);
    QueryThen(w, AXIS_MAP_CONFIG, 1, Select(AXIS_MAP_SIGN, 1) + InfStatusPlan(), afterS);
  }

  lemma InfModesSteps(w: Wire, v: Info)
    ensures var r := InfModes(w, v);
      r.wire.trace == w.trace + Issued(InfModesPlan(), w.replies)
      && r.wire.replies == Left(InfModesPlan(), w.replies)
      && (r.code == 0 <==> Completes(InfModesPlan(), w.replies))
  {
    var g := QuerySpec(w, OPR_MODE, 1);
    var p := QuerySpec(g.wire, PWR_MODE, 1);
    var v' := if g.status == Ok && p.status == Ok
      then v.(oprMode := LowNibble(g.data[0]), pwrMode := PowerField(p.data[0])) else v;
    InfRemapSteps(p.wire, v');
    var afterP := if p.status == Ok then InfRemap(p.wire, v').wire else p.wire;
    QueryThen(g.wire, PWR_MODE, 1, InfRemapPlan(), InfRemap(p.wire, v').wire);
    QueryThen(w, OPR_MODE, 1, Select(PWR_MODE, 1) + InfRemapPlan(), afterP);
  }

  /** `get_inf` issues the planned reads in order and stops at the first
      transfer that fails, issuing nothing after it; it returns 0 exactly
      when every transfer completes. */
  lemma GetInfSteps(w: Wire, prior: Info)
    ensures var r := GetInfSpec(w, prior);
      r.wire.trace == w.trace + Issued(InfPlan(), w.replies)
      && r.wire.replies == Left(InfPlan(), w.replies)
      && (r.code == 0 <==> Completes(InfPlan(), w.replies))
  {
    var t := QuerySpec(w, CHIP_ID, 7);
    var d := t.data;
    var v := if t.status == Ok
      then prior.(chipId := d[0], accId := d[1], magId := d[2], gyrId := d[3], swLsb := d[4], swMsb := d[5], blRev := d[6])
      else prior;
    InfModesSteps(t.wire, v);
    QueryThen(w, CHIP_ID, 7, InfModesPlan(), InfModes(t.wire, v).wire);
  }

  // ---------------------------------------------------------------------
  // What get_inf stores

  /** The seven identity bytes of reply 1, or zeros when it has too few. */
  function IdentityOf(rs: seq<Reply>): (d: seq<Byte>)
    ensures |d| == 7
  {
    if 1 < |rs| && |Payload(rs[1])| >= 7 then Payload(rs[1])[..7] else [0, 0, 0, 0, 0, 0, 0]
  }

  /** Store number k (1 to 10) of `get_inf`, with its bytes from the
      replies: reply 1 holds the identity block and reply 2k - 1 the byte
      of the k-th single-register read (reply 2k - 2 answers its address
      write). The mode keeps its low four bits, the power mode its low two
      and the self-test result its low four. */
  function InfStore(v: Info, rs: seq<Reply>, k: nat): Info
  {
    if k == 1 then
      var d := IdentityOf(rs);
      v.(chipId := d[0], accId := d[1], magId := d[2], gyrId := d[3], swLsb := d[4], swMsb := d[5], blRev := d[6])
    else if k == 2 then v.(oprMode := LowNibble(ByteAt(rs, 3)))
    else if k == 3 then v.(pwrMode := PowerField(ByteAt(rs, 5)))
    else if k == 4 then v.(axrConf := ByteAt(rs, 7))
    else if k == 5 then v.(axrSign := ByteAt(rs, 9))
    else if k == 6 then v.(sysStat := ByteAt(rs, 11))
    else if k == 7 then v.(selftest := LowNibble(ByteAt(rs, 13)))
    else if k == 8 then v.(sysErr := ByteAt(rs, 15))
    else if k == 9 then v.(unitSel := ByteAt(rs, 17))
    else if k == 10 then v.(tempVal := ByteAt(rs, 19))
    else v
  }

  /** The record after the first n stores of `get_inf`. */
  function InfAfter(prior: Info, rs: seq<Reply>, n: nat): Info
  {
    if n == 0 then prior else InfStore(InfAfter(prior, rs, n - 1), rs, n)
  }

  /** How many stores `get_inf` has made when it returns `code`: none
      before a failed identity read, one per completed step before a failed
      sub-call or register read, and all ten on success. Code 8 has made
      the SYS_STATUS store exactly when its read was answered. */
  function InfStored(code: int, rs: seq<Reply>): nat
  {
    if code == 0 then 10
    else if code == 1 || code == 2 then 0
    else if code == 7 then 5
    else if code == 8 then (if Answered(rs, 11) then 6 else 5)
    else if code == 10 then 6
    else if code == 11 || code == 12 then 7
    else if code == 13 || code == 14 then 8
    else if code == 15 || code == 16 then 9
    else if code % 256 == 3 then 1
    else if code % 256 == 4 then 2
    else if code % 256 == 5 then 3
    else 4
  }

  /** A one-byte read that starts at reply k: on success its value is the
      byte of reply k + 1, which answered it, and the replies from k + 2 on
      are left; a failed read means reply k + 1 did not answer. */
  lemma ByteReadAt(w: Wire, reg: Byte, failWrite: int, failRead: int, prior: int, rs: seq<Reply>, k: nat)
    requires k <= |rs| && w.replies == rs[k..]
    ensures var t, r := QuerySpec(w, reg, 1), ByteRead(w, reg, failWrite, failRead, prior);
      (t.status == Ok ==> Answered(rs, k + 1) && r.value == ByteAt(rs, k + 1) && r.wire.replies == rs[k + 2..])
      && (t.status == ReadFailed ==> !Answered(rs, k + 1))
  {
    QueryAt(w, reg, 1, rs, k);
  }

  /** Steps 13 to 16 store the unit selection and then the temperature. */
  lemma InfUnitsValues(w: Wire, prior: Info, rs: seq<Reply>)
    requires 16 <= |rs| && w.replies == rs[16..]
    ensures var r := InfUnits(w, InfAfter(prior, rs, 8));
      r.value == InfAfter(prior, rs, InfStored(r.code, rs))
      && (r.code == 0 ==> AnswersFrom(rs, 16, 2))
  {
    var v := InfAfter(prior, rs, 8);
    ByteReadAt(w, UNIT_SEL, 13, 14, v.unitSel, rs, 16);
    var u := ByteRead(w, UNIT_SEL, 13, 14, v.unitSel);
    if u.code == 0 {
      ByteReadAt(u.wire, TEMP, 15, 16, v.tempVal, rs, 18);
      var t := ByteRead(u.wire, TEMP, 15, 16, v.tempVal);
      assert InfAfter(prior, rs, 9) == v.(unitSel := u.value);
      if t.code == 0 {
        assert InfAfter(prior, rs, 10) == InfAfter(prior, rs, 9).(tempVal := t.value);
        AnswersStep(rs, 18, 1);
        AnswersStep(rs, 16, 2);
      }
    }
  }

  /** Steps 7 to 12 store the system status, the self-test result and the
      system error, then steps 13 to 16 follow. */
  lemma InfStatusValues(w: Wire, prior: Info, rs: seq<Reply>)
    requires 10 <= |rs| && w.replies == rs[10..]
    ensures var r := InfStatus(w, InfAfter(prior, rs, 5));
      r.value == InfAfter(prior, rs, InfStored(r.code, rs))
      && (r.code == 0 ==> AnswersFrom(rs, 10, 5))
  {
    var v := InfAfter(prior, rs, 5);
    ByteReadAt(w, SYS_STAT, 7, 8, v.sysStat, rs, 10);
    var a := ByteRead(w, SYS_STAT, 7, 8, v.sysStat);
    if a.code == 0 {
      assert InfAfter(prior, rs, 6) == v.(sysStat := a.value);
      ByteReadAt(a.wire, SELFTEST_RESULT, 8, 10, 0, rs, 12);
      var b := ByteRead(a.wire, SELFTEST_RESULT, 8, 10, 0);
      if b.code == 0 {
        assert InfAfter(prior, rs, 7) == v.(sysStat := a.value, selftest := LowNibble(b.value));
        ByteReadAt(b.wire, SYS_ERR, 11, 12, v.sysErr, rs, 14);
        var e := ByteRead(b.wire, SYS_ERR, 11, 12, v.sysErr);
        if e.code == 0 {
          assert InfAfter(prior, rs, 8) == v.(sysStat := a.value, selftest := LowNibble(b.value), sysErr := e.value);
          InfUnitsValues(e.wire, prior, rs);
          if InfStatus(w, v).code == 0 {
            AnswersStep(rs, 14, 3);
            AnswersStep(rs, 12, 4);
            AnswersStep(rs, 10, 5);
          }
        }
      }
    }
  }

  /** Steps 5 and 6 store the two remap bytes, then steps 7 to 16 follow. */
  lemma InfRemapValues(w: Wire, prior: Info, rs: seq<Reply>)
    requires 6 <= |rs| && w.replies == rs[6..]
    ensures var r := InfRemap(w, InfAfter(prior, rs, 3));
      r.value == InfAfter(prior, rs, InfStored(r.code, rs))
      && (r.code == 0 ==> AnswersFrom(rs, 6, 7))
  {
    var v := InfAfter(prior, rs, 3);
    ByteReadAt(w, AXIS_MAP_CONFIG, 2, 3, 0, rs, 6);
    var c := GetRemapSpec(w, 'c', 0);
    if c.code == 0 {
      assert InfAfter(prior, rs, 4) == v.(axrConf := c.value);
      ByteReadAt(c.wire, AXIS_MAP_SIGN, 2, 3, 0, rs, 8);
      var s := GetRemapSpec(c.wire, 's', 0);
      if s.code == 0 {
        assert InfAfter(prior, rs, 5) == v.(axrConf := c.value, axrSign := s.value);
        InfStatusValues(s.wire, prior, rs);
        if InfRemap(w, v).code == 0 {
          AnswersStep(rs, 8, 6);
          AnswersStep(rs, 6, 7);
        }
      } else {
        assert Nest(6, s.code) % 256 == 6;
      }
    } else {
      assert Nest(5, c.code) % 256 == 5;
    }
  }

  /** Steps 3 and 4 store the operating and power modes, then steps 5 to
      16 follow. */
  lemma InfModesValues(w: Wire, prior: Info, rs: seq<Reply>)
    requires 2 <= |rs| && w.replies == rs[2..]
    ensures var r := InfModes(w, InfAfter(prior, rs, 1));
      r.value == InfAfter(prior, rs, InfStored(r.code, rs))
      && (r.code == 0 ==> AnswersFrom(rs, 2, 9))
  {
    var v := InfAfter(prior, rs, 1);
    var g := GetModeSpec(w, 0);
    if g.code == 0 {
      assert rs[3] == w.replies[1] && LowNibble(ByteAt(rs, 3)) == g.value;
      assert InfAfter(prior, rs, 2) == v.(oprMode := g.value);
      var p := GetPowerSpec(g.wire, 0);
      if p.code == 0 {
        assert rs[5] == g.wire.replies[1] && PowerField(ByteAt(rs, 5)) == p.value;
        assert InfAfter(prior, rs, 3) == v.(oprMode := g.value, pwrMode := p.value);
        InfRemapValues(p.wire, prior, rs);
        if InfModes(w, v).code == 0 {
          AnswersStep(rs, 4, 8);
          AnswersStep(rs, 2, 9);
        }
      } else {
        assert Nest(4, p.code) % 256 == 4;
      }
    } else {
      assert Nest(3, g.code) % 256 == 3;
    }
  }

  /** What `get_inf` leaves in the record: exactly the first
      `InfStored(code)` of its ten stores, each from its own reply, and
      nothing else changed. So codes 1 and 2 keep the record, a failed
      sub-call keeps the steps before it, and success has every read
      answered. */
  lemma GetInfValues(w: Wire, prior: Info)
    ensures var r := GetInfSpec(w, prior);
      r.value == InfAfter(prior, w.replies, InfStored(r.code, w.replies))
      && (r.code == 0 ==>
            |w.replies| >= 2 && w.replies[1].Done? && |w.replies[1].data| == 7 && AnswersFrom(w.replies, 2, 9))
  {
    var rs := w.replies;
    var t := QuerySpec(w, CHIP_ID, 7);
    if t.status == Ok {
      QueryAt(w, CHIP_ID, 7, rs, 0);
      var d := t.data;
      assert IdentityOf(rs) == d;
      assert InfAfter(prior, rs, 1)
        == prior.(chipId := d[0], accId := d[1], magId := d[2], gyrId := d[3], swLsb := d[4], swMsb := d[5], blRev := d[6]);
      InfModesValues(t.wire, prior, rs);
    }
  }

  /** On success `get_inf` holds the seven identity bytes of reply 1 and the
      bytes of the nine single-register reads: the low four bits of the
      operating mode, the low two of the power mode, the two remap bytes,
      the system status, the low four bits of the self-test result, the
      system error, the unit selection and the temperature. */
  lemma GetInfComplete(w: Wire, prior: Info)
    requires GetInfSpec(w, prior).code == 0
    ensures |w.replies| >= 20 && w.replies[1].Done? && |w.replies[1].data| == 7
    ensures var d, rs := w.replies[1].data, w.replies;
      GetInfSpec(w, prior).value
      == prior.(chipId := d[0], accId := d[1], magId := d[2], gyrId := d[3], swLsb := d[4], swMsb := d[5], blRev := d[6],
                oprMode := LowNibble(ByteAt(rs, 3)), pwrMode := PowerField(ByteAt(rs, 5)),
                axrConf := ByteAt(rs, 7), axrSign := ByteAt(rs, 9), sysStat := ByteAt(rs, 11),
                selftest := LowNibble(ByteAt(rs, 13)), sysErr := ByteAt(rs, 15),
                unitSel := ByteAt(rs, 17), tempVal := ByteAt(rs, 19))
  {
    GetInfValues(w, prior);
    var rs := w.replies;
    assert IdentityOf(rs) == rs[1].data;
    InfAfterAll(prior, rs);
  }

  /** All ten stores of `get_inf`, one after the other. */
  lemma InfAfterAll(prior: Info, rs: seq<Reply>)
    ensures var d := IdentityOf(rs);
      InfAfter(prior, rs, 10)
      == prior.(chipId := d[0], accId := d[1], magId := d[2], gyrId := d[3], swLsb := d[4], swMsb := d[5], blRev := d[6],
                oprMode := LowNibble(ByteAt(rs, 3)), pwrMode := PowerField(ByteAt(rs, 5)),
                axrConf := ByteAt(rs, 7), axrSign := ByteAt(rs, 9), sysStat := ByteAt(rs, 11),
                selftest := LowNibble(ByteAt(rs, 13)), sysErr := ByteAt(rs, 15),
                unitSel := ByteAt(rs, 17), tempVal := ByteAt(rs, 19))
  {
    var v1 := InfAfter(prior, rs, 1);
    var v2 := InfAfter(prior, rs, 2);
    assert v2 == InfStore(v1, rs, 2);
    var v3 := InfAfter(prior, rs, 3);
    assert v3 == InfStore(v2, rs, 3);
    var v4 := InfAfter(prior, rs, 4);
    assert v4 == InfStore(v3, rs, 4);
    var v5 := InfAfter(prior, rs, 5);
    assert v5 == InfStore(v4, rs, 5);
    var v6 := InfAfter(prior, rs, 6);
    assert v6 == InfStore(v5, rs, 6);
    var v7 := InfAfter(prior, rs, 7);
    assert v7 == InfStore(v6, rs, 7);
    var v8 := InfAfter(prior, rs, 8);
    assert v8 == InfStore(v7, rs, 8);
    var v9 := InfAfter(prior, rs, 9);
    assert v9 == InfStore(v8, rs, 9);
    assert InfAfter(prior, rs, 10) == InfStore(v9, rs, 10);
  }

  /** Code 8 of `get_inf` does not tell its two causes apart: a SYS_STATUS
      read that fails and an ST_RESULT address write that fails. */
  lemma InfEightAmbiguous(v: Info)
    ensures InfStatus(Wire([], [Done([]), Failed]), v).code == 8
    ensures InfStatus(Wire([], [Done([]), Done([0]), Failed]), v).code == 8
    ensures Issued(InfStatusPlan(), [Done([]), Failed]) != Issued(InfStatusPlan(), [Done([]), Done([0]), Failed])
  {
    var w1 := Wire([], [Done([]), Failed]);
    var w2 := Wire([], [Done([]), Done([0]), Failed]);
    InfStatusSteps(w1, v);
    InfStatusSteps(w2, v);
    assert |InfStatus(w1, v).wire.trace| == 2;
    assert |InfStatus(w2, v).wire.trace| == 3;
  }

  // ---------------------------------------------------------------------
  // get_clksrc, get_sstat

  /** `get_clksrc`: read SYS_TRIGGER and keep its CLK_SEL bit 7. On either
      failure (1, 2) it asks for page 0 before returning. */
  function GetClockSourceSpec(w: Wire, prior: int): (r: Run<int>)
    ensures r.code in {0, 1, 2}
    ensures r.code == 1 <==> !SendOk(w)
    ensures r.code == 0 ==>
      |w.replies| >= 2 && w.replies[1].Done? && |w.replies[1].data| == 1
      && (r.value == 1 <==> w.replies[1].data[0] >= 128) && (r.value == 0 || r.value == 1)
      && r.wire.trace == w.trace + Select(SYS_TRIGGER, 1)
    ensures r.code != 0 ==> r.value == prior && forall start :: PageAfter(r.wire.trace, start) == 0
  {
    var t := QuerySpec(w, SYS_TRIGGER, 1);
    match t.status
    case WriteFailed => Run(1, prior, SetPageSpec(t.wire, 0).wire)
    case ReadFailed => Run(2, prior, SetPageSpec(t.wire, 0).wire)
    case Ok => Run(0, ClockSourceField(t.data[0]), t.wire)
  }

  method GetClockSource(bus: Bus, prior: int) returns (rc: int, source: int)
    modifies bus
    ensures var r := GetClockSourceSpec(old(bus.State()), prior);
      rc == r.code && source == r.value && bus.State() == r.wire
  {
    var status, data := bus.Query(SYS_TRIGGER, 1);
    if status == WriteFailed {
      var ignored := SetPage0(bus);
      return 1, prior;
    }
    if status == ReadFailed {
      var ignored := SetPage0(bus);
      return 2, prior;
    }
    return 0, ClockSourceField(data[0]);
  }

  /** `get_sstat`: the SYS_STATUS byte (write failure: 1, read failure: 2). */
  function GetSysStatusSpec(w: Wire, prior: int): (r: Run<int>)
    ensures r.code in {0, 1, 2}
    ensures r.code == 1 <==> !SendOk(w)
    ensures r.code == 0 ==>
      |w.replies| >= 2 && w.replies[1].Done? && w.replies[1].data == [r.value]
      && r.wire.trace == w.trace + Select(SYS_STAT, 1)
    ensures r.code != 0 ==> r.value == prior
  {
    ByteRead(w, SYS_STAT, 1, 2, prior)
  }

  method GetSysStatus(bus: Bus, prior: int) returns (rc: int, sstat: int)
    modifies bus
    ensures var r := GetSysStatusSpec(old(bus.State()), prior);
      rc == r.code && sstat == r.value && bus.State() == r.wire
  {
    rc, sstat := ReadByte(bus, SYS_STAT, 1, 2, prior);
  }
}
