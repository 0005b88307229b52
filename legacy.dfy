/** The earlier driver, i2c_bno055.c. It talks to the same registers over
    the same bus, but every failure returns -1, the mode is written directly
    with no pass through CONFIG and no read-back, and offsets are read as
    unsigned pairs. */
module LegacyDriver {
  import opened Bits
  import opened Registers
  import opened RegisterIO
  import opened Codec
  import opened Records
  import DeviceStatus

  // ---------------------------------------------------------------------
  // bno_reset

  /** The write and the pause of `bno_reset`. */
  function ResetPlan(): seq<Op>
  {
    [Write([SYS_TRIGGER, RST_SYS]), Sleep(LEGACY_RESET_MS)]
  }

  /** `bno_reset`: write RST_SYS into SYS_TRIGGER; a short write returns -1,
      otherwise the driver waits 50 ms and returns 0 to its caller. */
  function ResetSpec(w: Wire): (r: Outcome)
    ensures r.code == 0 || r.code == -1
    ensures r.code == 0 <==> SendOk(w)
  {
    var w1 := Send(w, [SYS_TRIGGER, RST_SYS]);
    if !SendOk(w) then Outcome(-1, w1) else Outcome(0, Wait(w1, LEGACY_RESET_MS))
  }

  /** The reset issues its write and, only when the write completes, the
      pause: the plan under the stop-at-first-failure semantics. */
  lemma ResetSteps(w: Wire)
    ensures var r := ResetSpec(w);
      r.wire.trace == w.trace + Issued(ResetPlan(), w.replies)
      && r.wire.replies == Left(ResetPlan(), w.replies)
      && (r.code == 0 <==> Completes(ResetPlan(), w.replies))
  {
    WriteWait([SYS_TRIGGER, RST_SYS], LEGACY_RESET_MS, [], w.replies);
    assert ResetPlan() == ResetPlan() + [];
  }

  method BnoReset(bus: Bus) returns (rc: int)
    modifies bus
    ensures var r := ResetSpec(old(bus.State()));
      rc == r.code && bus.State() == r.wire
  {
    var ok := bus.Transmit([SYS_TRIGGER, RST_SYS]);
    if !ok {
      return -1;
    }
    bus.Pause(LEGACY_RESET_MS);
    return 0;
  }

  // ---------------------------------------------------------------------
  // set_mode

  /** `set_mode`: write `mode` straight into OPR_MODE and wait 30 ms. There
      is no read of the current mode, no pass through CONFIG and no
      read-back; only a short write fails, with -1. */
  function SetModeSpec(w: Wire, mode: Byte): (r: Outcome)
    ensures r.code == 0 || r.code == -1
    ensures r.code == 0 <==> SendOk(w)
    ensures r.wire.replies == Rest(w.replies)
    ensures r.wire.trace == w.trace + if r.code == 0 then [Write([OPR_MODE, mode]), Sleep(LEGACY_MODE_SWITCH_MS)]
      else [Write([OPR_MODE, mode])]
  {
    var w1 := Send(w, [OPR_MODE, mode]);
    if !SendOk(w) then Outcome(-1, w1) else Outcome(0, Wait(w1, LEGACY_MODE_SWITCH_MS))
  }

  method SetMode(bus: Bus, mode: Byte) returns (rc: int)
    modifies bus
    ensures var r := SetModeSpec(old(bus.State()), mode);
      rc == r.code && bus.State() == r.wire
  {
    var ok := bus.Transmit([OPR_MODE, mode]);
    if !ok {
      return -1;
    }
    bus.Pause(LEGACY_MODE_SWITCH_MS);
    return 0;
  }

  /** Whatever the device answers, `set_mode` stores `mode` into OPR_MODE
      and nothing into any other register, reads nothing, and pauses 30 ms
      exactly when the write completes. */
  lemma SetModeDirect(w: Wire, mode: Byte, other: Byte)
    requires other != OPR_MODE
    ensures var r := SetModeSpec(w, mode);
      Stores(r.wire.trace, OPR_MODE) == Stores(w.trace, OPR_MODE) + [[mode]]
      && Stores(r.wire.trace, other) == Stores(w.trace, other)
      && PauseTime(r.wire.trace) == PauseTime(w.trace) + (if r.code == 0 then LEGACY_MODE_SWITCH_MS else 0)
      && forall i :: |w.trace| <= i < |r.wire.trace| ==> !r.wire.trace[i].Read?
  {
    var r := SetModeSpec(w, mode);
    var ops := w.trace + [Write([OPR_MODE, mode])];
    StoresAfterWrite(w.trace, OPR_MODE, mode, OPR_MODE);
    StoresAfterWrite(w.trace, OPR_MODE, mode, other);
    PauseAfter(w.trace, Write([OPR_MODE, mode]));
    if r.code == 0 {
      assert r.wire.trace == ops + [Sleep(LEGACY_MODE_SWITCH_MS)];
      StoresAfterSleep(ops, LEGACY_MODE_SWITCH_MS, OPR_MODE);
      StoresAfterSleep(ops, LEGACY_MODE_SWITCH_MS, other);
      PauseAfter(ops, Sleep(LEGACY_MODE_SWITCH_MS));
    } else {
      assert r.wire.trace == ops;
    }
  }

  // ---------------------------------------------------------------------
  // set_defaults

  /** A byte read into a C `char` where `char` is signed: from 0x80 on it is
      a negative number. */
  function SignedChar(b: Byte): (c: int)
    ensures -128 <= c < 128 && (c - b) % 256 == 0
  {
    if b < 128 then b else b - 256
  }

  /** `data[0] != BNO055_ID` with `data` a `char` buffer: the comparison
      the driver makes, on a compiler whose `char` is unsigned (as on ARM)
      or signed. */
  function IdMatches(b: Byte, signedChar: bool): bool
  {
    (if signedChar then SignedChar(b) else b) == BNO055_ID
  }

  /** Where `char` is unsigned, the comparison is against the byte read. */
  lemma UnsignedIdMatches(b: Byte)
    ensures IdMatches(b, false) <==> b == BNO055_ID
  {
  }

  /** Where `char` is signed, no byte compares equal to BNO055_ID (0xA0). */
  lemma SignedIdNeverMatches(b: Byte)
    ensures !IdMatches(b, true)
  {
    assert SignedChar(b) < 128;
  }

  /** Whether the first CHIP_ID probe completes and reads a value other
      than BNO055_ID: the case in which the driver waits one second. */
  predicate FirstProbeMisses(w: Wire, signedChar: bool)
  {
    var a := QuerySpec(w, CHIP_ID, 1);
    a.status == Ok && !IdMatches(a.data[0], signedChar)
  }

  /** The two CHIP_ID probes of `set_defaults`. A failed transfer in either
      returns -1. After the first, the driver waits one second if the value
      was not BNO055_ID, and probes again in any case; the second value is
      the one that decides. */
  function ProbeSpec(w: Wire, signedChar: bool): (r: Run<Byte>)
    ensures r.code == 0 || r.code == -1
    ensures r.code == 0 ==>
      |w.replies| >= 4 && w.replies[3].Done? && |w.replies[3].data| == 1 && r.value == w.replies[3].data[0]
  {
    var a := QuerySpec(w, CHIP_ID, 1);
    if a.status != Ok then Run(-1, 0, a.wire)
    else
      var w1 := if IdMatches(a.data[0], signedChar) then a.wire else Wait(a.wire, CHIP_ID_RETRY_MS);
      var b := QuerySpec(w1, CHIP_ID, 1);
      if b.status != Ok then Run(-1, 0, b.wire)
      else Run(0, b.data[0], b.wire)
  }

  /** The probes pause for one second exactly when the first probe reads a
      value other than BNO055_ID, and store nothing into any register. */
  lemma ProbeWaits(w: Wire, signedChar: bool, reg: Byte)
    ensures var r := ProbeSpec(w, signedChar);
      PauseTime(r.wire.trace) == PauseTime(w.trace) + (if FirstProbeMisses(w, signedChar) then CHIP_ID_RETRY_MS else 0)
      && Stores(r.wire.trace, reg) == Stores(w.trace, reg)
  {
    var a := QuerySpec(w, CHIP_ID, 1);
    QueryPauses(w, CHIP_ID, 1);
    QueryStoresNothing(w, CHIP_ID, 1, reg);
    if a.status == Ok {
      var miss := !IdMatches(a.data[0], signedChar);
      var w1 := if miss then Wait(a.wire, CHIP_ID_RETRY_MS) else a.wire;
      PauseAfter(a.wire.trace, Sleep(CHIP_ID_RETRY_MS));
      StoresAfterSleep(a.wire.trace, CHIP_ID_RETRY_MS, reg);
      assert PauseTime(w1.trace) == PauseTime(w.trace) + (if miss then CHIP_ID_RETRY_MS else 0);
      assert Stores(w1.trace, reg) == Stores(w.trace, reg);
      QueryPauses(w1, CHIP_ID, 1);
      QueryStoresNothing(w1, CHIP_ID, 1, reg);
      assert ProbeSpec(w, signedChar).wire == QuerySpec(w1, CHIP_ID, 1).wire;
    }
  }

  /** Once the first probe completes, the second is made whatever it read,
      after the one-second wait when it read another value. */
  lemma ProbeTwice(w: Wire, signedChar: bool)
    requires QuerySpec(w, CHIP_ID, 1).status == Ok
    ensures var rest := if FirstProbeMisses(w, signedChar) then [Sleep(CHIP_ID_RETRY_MS)] else [];
      ProbeSpec(w, signedChar).wire.trace
        == w.trace + Select(CHIP_ID, 1) + rest + Issued(Select(CHIP_ID, 1), w.replies[2..])
  {
    var a := QuerySpec(w, CHIP_ID, 1);
    var w1 := if FirstProbeMisses(w, signedChar) then Wait(a.wire, CHIP_ID_RETRY_MS) else a.wire;
    QueryIssued(w1, CHIP_ID, 1);
    assert ProbeSpec(w, signedChar).wire == QuerySpec(w1, CHIP_ID, 1).wire;
  }

  /** What `set_defaults` sends once the chip is found: NDOF into OPR_MODE
      (through `set_mode`, with its 30 ms), POWER_MODE_NORMAL into PWR_MODE
      with a 10 ms pause, then page 0 into PAGE_ID. */
  function ConfigurePlan(): seq<Op>
  {
    [Write([OPR_MODE, NDOF]), Sleep(LEGACY_MODE_SWITCH_MS),
     Write([PWR_MODE, POWER_NORMAL]), Sleep(LEGACY_POWER_MS),
     Write([PAGE_ID, 0])]
  }

  /** The writes of `set_defaults` after the probes: a failed mode write ends
      the program with status -1; a failed power or page write returns -1. */
  function ConfigureSpec(w: Wire): (r: Finish)
    ensures r.ending in {Returned(0), Returned(-1), Exited(-1)}
    ensures r.ending == Exited(-1) <==> !SendOk(w)
  {
    var m := SetModeSpec(w, NDOF);
    if m.code != 0 then Finish(Exited(-1), m.wire)
    else PowerPageSpec(m.wire)
  }

  /** The power and page writes that follow the mode write. */
  function PowerPagePlan(): seq<Op>
  {
    [Write([PWR_MODE, POWER_NORMAL]), Sleep(LEGACY_POWER_MS), Write([PAGE_ID, 0])]
  }

  function PowerPageSpec(w: Wire): (r: Finish)
    ensures r.ending == Returned(0) || r.ending == Returned(-1)
  {
    var p := Send(w, [PWR_MODE, POWER_NORMAL]);
    if !SendOk(w) then Finish(Returned(-1), p)
    else
      var q := Wait(p, LEGACY_POWER_MS);
      var g := Send(q, [PAGE_ID, 0]);
      if !SendOk(q) then Finish(Returned(-1), g)
      else Finish(Returned(0), g)
  }

  lemma PowerPageSteps(w: Wire)
    ensures var r := PowerPageSpec(w);
      r.wire.trace == w.trace + Issued(PowerPagePlan(), w.replies)
      && r.wire.replies == Left(PowerPagePlan(), w.replies)
      && (r.ending == Returned(0) <==> Completes(PowerPagePlan(), w.replies))
  {
    var last := [Write([PAGE_ID, 0])];
    assert PowerPagePlan() == [Write([PWR_MODE, POWER_NORMAL]), Sleep(LEGACY_POWER_MS)] + last;
    WriteWait([PWR_MODE, POWER_NORMAL], LEGACY_POWER_MS, last, w.replies);
    assert last[1..] == [];
    var q := Wait(Send(w, [PWR_MODE, POWER_NORMAL]), LEGACY_POWER_MS);
    WriteWaitThen(w, [PWR_MODE, POWER_NORMAL], LEGACY_POWER_MS, last, Send(q, [PAGE_ID, 0]));
  }

  /** The configuring writes go out in plan order, stop at the first write
      that fails, and return 0 exactly when all three complete. */
  lemma ConfigureSteps(w: Wire)
    ensures var r := ConfigureSpec(w);
      r.wire.trace == w.trace + Issued(ConfigurePlan(), w.replies)
      && r.wire.replies == Left(ConfigurePlan(), w.replies)
      && (r.ending == Returned(0) <==> Completes(ConfigurePlan(), w.replies))
  {
    assert ConfigurePlan() == [Write([OPR_MODE, NDOF]), Sleep(LEGACY_MODE_SWITCH_MS)] + PowerPagePlan();
    WriteWait([OPR_MODE, NDOF], LEGACY_MODE_SWITCH_MS, PowerPagePlan(), w.replies);
    var m := SetModeSpec(w, NDOF);
    PowerPageSteps(m.wire);
    WriteWaitThen(w, [OPR_MODE, NDOF], LEGACY_MODE_SWITCH_MS, PowerPagePlan(), PowerPageSpec(m.wire).wire);
  }

  /** A completed configuration stores NDOF into OPR_MODE, normal power into
      PWR_MODE and page 0 into PAGE_ID, once each, and pauses 40 ms. */
  lemma ConfigureStores()
    ensures Stores(ConfigurePlan(), OPR_MODE) == [[NDOF]]
    ensures Stores(ConfigurePlan(), PWR_MODE) == [[POWER_NORMAL]]
    ensures Stores(ConfigurePlan(), PAGE_ID) == [[0]]
    ensures PauseTime(ConfigurePlan()) == LEGACY_MODE_SWITCH_MS + LEGACY_POWER_MS
  {
    var a := [Write([OPR_MODE, NDOF]), Sleep(LEGACY_MODE_SWITCH_MS)];
    var b := [Write([PWR_MODE, POWER_NORMAL]), Sleep(LEGACY_POWER_MS)];
    var c := [Write([PAGE_ID, 0])];
    assert ConfigurePlan() == a + (b + c);
    PairFacts(OPR_MODE, NDOF, LEGACY_MODE_SWITCH_MS, PWR_MODE);
    PairFacts(OPR_MODE, NDOF, LEGACY_MODE_SWITCH_MS, PAGE_ID);
    PairFacts(PWR_MODE, POWER_NORMAL, LEGACY_POWER_MS, OPR_MODE);
    PairFacts(PWR_MODE, POWER_NORMAL, LEGACY_POWER_MS, PAGE_ID);
    assert [] + c == c;
    StoresAfterWrite([], PAGE_ID, 0, OPR_MODE);
    StoresAfterWrite([], PAGE_ID, 0, PWR_MODE);
    StoresAfterWrite([], PAGE_ID, 0, PAGE_ID);
    PauseAfter([], Write([PAGE_ID, 0]));
    StoresAppend(b, c, OPR_MODE);
    StoresAppend(b, c, PWR_MODE);
    StoresAppend(b, c, PAGE_ID);
    StoresAppend(a, b + c, OPR_MODE);
    StoresAppend(a, b + c, PWR_MODE);
    StoresAppend(a, b + c, PAGE_ID);
    PauseAppend(b, c);
    PauseAppend(a, b + c);
  }

  /** `set_defaults`: probe CHIP_ID twice (a failed transfer returns -1);
      if the second value is not BNO055_ID, end the program with status -1;
      otherwise configure. `signedChar` says how the compiler reads a
      `char`; the driver as built on its target reads it unsigned. */
  function SetDefaultsSpec(w: Wire, signedChar: bool): (r: Finish)
    ensures r.ending in {Returned(0), Returned(-1), Exited(-1)}
    ensures var p := ProbeSpec(w, signedChar);
      p.code == 0 && !IdMatches(p.value, signedChar) ==> r == Finish(Exited(-1), p.wire)
    ensures var p := ProbeSpec(w, signedChar);
      r.ending == Returned(0) ==> p.code == 0 && IdMatches(p.value, signedChar)
  {
    var p := ProbeSpec(w, signedChar);
    if p.code != 0 then Finish(Returned(-1), p.wire)
    else if !IdMatches(p.value, signedChar) then Finish(Exited(-1), p.wire)
    else ConfigureSpec(p.wire)
  }

  method SetDefaults(bus: Bus) returns (e: Ending)
    modifies bus
    ensures var r := SetDefaultsSpec(old(bus.State()), false);
      e == r.ending && bus.State() == r.wire
  {
    var status, data := bus.Query(CHIP_ID, 1);
    if status != Ok {
      return Returned(-1);
    }
    if data[0] != BNO055_ID {
      bus.Pause(CHIP_ID_RETRY_MS);
    }
    status, data := bus.Query(CHIP_ID, 1);
    if status != Ok {
      return Returned(-1);
    }
    if data[0] != BNO055_ID {
      return Exited(-1);
    }
    var rc := SetMode(bus, NDOF);
    if rc != 0 {
      return Exited(-1);
    }
    var ok := bus.Transmit([PWR_MODE, POWER_NORMAL]);
    if !ok {
      return Returned(-1);
    }
    bus.Pause(LEGACY_POWER_MS);
    ok := bus.Transmit([PAGE_ID, 0]);
    if !ok {
      return Returned(-1);
    }
    return Returned(0);
  }

  /** `set_defaults` returns 0 only after the second probe read BNO055_ID,
      and then it has stored NDOF, normal power and page 0, in that order,
      after the probes. */
  lemma SetDefaultsConfigures(w: Wire, reg: Byte)
    requires SetDefaultsSpec(w, false).ending == Returned(0)
    ensures |w.replies| >= 4 && w.replies[3].Done? && w.replies[3].data[0] == BNO055_ID
    ensures var p := ProbeSpec(w, false);
      SetDefaultsSpec(w, false).wire.trace == p.wire.trace + ConfigurePlan()
      && Stores(p.wire.trace, reg) == Stores(w.trace, reg)
  {
    var p := ProbeSpec(w, false);
    ConfigureSteps(p.wire);
    ProbeWaits(w, false, reg);
  }

  /** A device that answers every transfer and reports BNO055_ID twice. */
  function HealthyDevice(): Wire
  {
    Wire([], [Done([]), Done([BNO055_ID]), Done([]), Done([BNO055_ID]), Done([]), Done([]), Done([])])
  }

  /** Built with an unsigned `char`, `set_defaults` configures the healthy
      device and returns 0 without the one-second wait. */
  lemma HealthyDeviceAccepted()
    ensures SetDefaultsSpec(HealthyDevice(), false).ending == Returned(0)
    ensures !FirstProbeMisses(HealthyDevice(), false)
  {
    var w := HealthyDevice();
    var a := QuerySpec(w, CHIP_ID, 1);
    assert a.data == [BNO055_ID];
    var b := QuerySpec(a.wire, CHIP_ID, 1);
    assert b.data == [BNO055_ID];
  }

  /** Built with a signed `char`, `set_defaults` waits a second and then
      ends the program even on the healthy device; whatever the device
      answers, it never returns 0. */
  lemma SignedCharRejects(w: Wire)
    ensures SetDefaultsSpec(w, true).ending != Returned(0)
    ensures FirstProbeMisses(HealthyDevice(), true)
    ensures SetDefaultsSpec(HealthyDevice(), true).ending == Exited(-1)
  {
    var p := ProbeSpec(w, true);
    if p.code == 0 {
      SignedIdNeverMatches(p.value);
    }
    var h := HealthyDevice();
    var a := QuerySpec(h, CHIP_ID, 1);
    assert a.data == [BNO055_ID];
    SignedIdNeverMatches(BNO055_ID);
    var w1 := Wait(a.wire, CHIP_ID_RETRY_MS);
    var b := QuerySpec(w1, CHIP_ID, 1);
    assert b.data == [BNO055_ID];
  }

  // ---------------------------------------------------------------------
  // stat_cal

  /** `stat_cal`: read CALIB_STAT and split it into the four two-bit levels;
      a failed transfer returns -1 before any level is assigned. */
  function StatCalSpec(w: Wire, prior: CalStatus): (r: Run<CalStatus>)
    ensures r.code == 0 || r.code == -1
    ensures r.code == -1 ==> r.value == prior
    ensures r.code == 0 ==>
      |w.replies| >= 2 && w.replies[1].Done? && |w.replies[1].data| == 1
      && ValidStatus(r.value) && PackCalStatus(r.value) == w.replies[1].data[0]
  {
    var t := QuerySpec(w, CALIB_STAT, 1);
    if t.status != Ok then Run(-1, prior, t.wire)
    else
      CalStatusRepack(t.data[0]);
      Run(0, DecodeCalStatus(t.data[0]), t.wire)
  }

  method StatCal(bus: Bus, cal: CalRecord) returns (rc: int)
    modifies bus, cal
    ensures var r := StatCalSpec(old(bus.State()), old(cal.Status()));
      rc == r.code && bus.State() == r.wire && cal.Status() == r.value
    ensures cal.OffsetValues() == old(cal.OffsetValues())
  {
    var status, data := bus.Query(CALIB_STAT, 1);
    if status != Ok {
      return -1;
    }
    cal.scal := AndShift(data[0], 6, 2, 6);
    cal.gcal := AndShift(data[0], 4, 2, 4);
    cal.acal := AndShift(data[0], 2, 2, 2);
    cal.mcal := AndShift(data[0], 0, 2, 0);
    return 0;
  }

  /** Both drivers issue the same query for the calibration levels and
      decode them alike; they differ only in the codes they fail with. */
  lemma StatCalAgrees(w: Wire, prior: CalStatus)
    ensures var a := StatCalSpec(w, prior);
      var b := DeviceStatus.GetCalStatusSpec(w, prior);
      a.wire == b.wire && a.value == b.value && (a.code == 0 <==> b.code == 0)
  {
  }

  // ---------------------------------------------------------------------
  // read_cal

  /** Words k, k+1 and k+2 of `d`, each `d[2j] + d[2j+1] * 256`. */
  function UnsignedAxesAt(d: seq<Byte>, k: nat): (a: Axes)
    requires 2 * k + 5 < |d|
    ensures UnsignedAxes(a)
    ensures UnsignedAxesBytes(a) == d[2 * k .. 2 * k + 6]
  {
    Axes(Uint16LE(d[2 * k], d[2 * k + 1]), Uint16LE(d[2 * k + 2], d[2 * k + 3]), Uint16LE(d[2 * k + 4], d[2 * k + 5]))
  }

  predicate UnsignedAxes(a: Axes)
  {
    0 <= a.x < 65536 && 0 <= a.y < 65536 && 0 <= a.z < 65536
  }

  /** The six bytes, low byte first, of three unsigned 16-bit values. */
  function UnsignedAxesBytes(a: Axes): (d: seq<Byte>)
    requires UnsignedAxes(a)
    ensures |d| == 6
  {
    [a.x % 256, a.x / 256, a.y % 256, a.y / 256, a.z % 256, a.z / 256]
  }

  /** The earlier decoding and the signed one agree on every pair up to
      2^16: they are equal when the high byte is below 0x80, and otherwise
      the unsigned value is 65536 more. */
  lemma UnsignedMatchesSigned(d: seq<Byte>, k: nat)
    requires 2 * k + 5 < |d|
    ensures var u, s := UnsignedAxesAt(d, k), AxesAt(d, k);
      u.x == s.x + (if d[2 * k + 1] >= 128 then 65536 else 0)
      && u.y == s.y + (if d[2 * k + 3] >= 128 then 65536 else 0)
      && u.z == s.z + (if d[2 * k + 5] >= 128 then 65536 else 0)
  {
  }

  /** `read_cal`: 18 bytes from ACC_OFFSET_X_LSB, decoded as nine unsigned
      pairs into the accelerometer, magnetometer and gyroscope offsets. A
      failed transfer returns -1 with nothing assigned; the radii are never
      touched. */
  function ReadCalSpec(w: Wire, prior: Offsets): (r: Run<Offsets>)
    ensures r.code == 0 || r.code == -1
    ensures r.wire == QuerySpec(w, ACC_OFFSET_X_LSB, LEGACY_OFFSET_BYTECOUNT).wire
    ensures r.code == -1 ==> r.value == prior
    ensures r.code == 0 ==>
      |w.replies| >= 2 && w.replies[1].Done? && |w.replies[1].data| == LEGACY_OFFSET_BYTECOUNT
      && r.value.accRadius == prior.accRadius && r.value.magRadius == prior.magRadius
      && UnsignedAxes(r.value.acc) && UnsignedAxes(r.value.mag) && UnsignedAxes(r.value.gyr)
      && UnsignedAxesBytes(r.value.acc) == w.replies[1].data[0..6]
      && UnsignedAxesBytes(r.value.mag) == w.replies[1].data[6..12]
      && UnsignedAxesBytes(r.value.gyr) == w.replies[1].data[12..18]
  {
    var t := QuerySpec(w, ACC_OFFSET_X_LSB, LEGACY_OFFSET_BYTECOUNT);
    if t.status != Ok then Run(-1, prior, t.wire)
    else
      var d := t.data;
      Run(0, prior.(acc := UnsignedAxesAt(d, 0), mag := UnsignedAxesAt(d, 3), gyr := UnsignedAxesAt(d, 6)), t.wire)
  }

  method ReadCal(bus: Bus, cal: CalRecord) returns (rc: int)
    modifies bus, cal
    ensures var r := ReadCalSpec(old(bus.State()), old(cal.OffsetValues()));
      rc == r.code && bus.State() == r.wire && cal.OffsetValues() == r.value
    ensures cal.Status() == old(cal.Status())
  {
    var status, data := bus.Query(ACC_OFFSET_X_LSB, LEGACY_OFFSET_BYTECOUNT);
    if status != Ok {
      return -1;
    }
    cal.aoff := Axes(data[0] as int + data[1] as int * 256, data[2] as int + data[3] as int * 256, data[4] as int + data[5] as int * 256);
    cal.moff := Axes(data[6] as int + data[7] as int * 256, data[8] as int + data[9] as int * 256, data[10] as int + data[11] as int * 256);
    cal.goff := Axes(data[12] as int + data[13] as int * 256, data[14] as int + data[15] as int * 256, data[16] as int + data[17] as int * 256);
    return 0;
  }

  // ---------------------------------------------------------------------
  // read_inf

  /** The single-byte registers `read_inf` reads after the identity block,
      in order. The six reads differ only in the register and in the field
      the byte goes to. */
  function InfRegisters(): seq<Byte>
  {
    [OPR_MODE, SYS_STAT, SELFTEST_RESULT, SYS_ERR, UNIT_SEL, TEMP]
  }

  /** Where `read_inf` puts the byte read from `reg`: the operating mode and
      the self-test results keep only their low four bits. Only the six
      status fields can change, never the identity bytes, the power mode or
      the remap; a register without a field changes nothing. */
  function StoreField(v: Info, reg: Byte, b: Byte): (r: Info)
    ensures r.chipId == v.chipId && r.accId == v.accId && r.magId == v.magId && r.gyrId == v.gyrId
      && r.swLsb == v.swLsb && r.swMsb == v.swMsb && r.blRev == v.blRev
      && r.pwrMode == v.pwrMode && r.axrConf == v.axrConf && r.axrSign == v.axrSign
    ensures reg !in InfRegisters() ==> r == v
    ensures r.oprMode < 16 || r.oprMode == v.oprMode
    ensures r.selftest < 16 || r.selftest == v.selftest
  {
    if reg == OPR_MODE then v.(oprMode := LowNibble(b))
    else if reg == SYS_STAT then v.(sysStat := b)
    else if reg == SELFTEST_RESULT then v.(selftest := LowNibble(b))
    else if reg == SYS_ERR then v.(sysErr := b)
    else if reg == UNIT_SEL then v.(unitSel := b)
    else if reg == TEMP then v.(tempVal := b)
    else v
  }

  /** Read each of `regs` in turn into its field; the first failed transfer
      returns -1, keeping the fields read before it. */
  function ReadFieldsSpec(w: Wire, v: Info, regs: seq<Byte>): (r: Run<Info>)
    ensures r.code == 0 || r.code == -1
    decreases |regs|
  {
    if regs == [] then Run(0, v, w)
    else
      var t := QuerySpec(w, regs[0], 1);
      if t.status != Ok then Run(-1, v, t.wire)
      else ReadFieldsSpec(t.wire, StoreField(v, regs[0], t.data[0]), regs[1..])
  }

  /** One single-byte query per register. */
  function FieldsPlan(regs: seq<Byte>): seq<Op>
    decreases |regs|
  {
    if regs == [] then [] else Select(regs[0], 1) + FieldsPlan(regs[1..])
  }

  /** The field reads stop at the first failed transfer, issuing nothing
      after it, and succeed exactly when every transfer completes. */
  lemma {:induction false} ReadFieldsSteps(w: Wire, v: Info, regs: seq<Byte>)
    ensures var r := ReadFieldsSpec(w, v, regs);
      r.wire.trace == w.trace + Issued(FieldsPlan(regs), w.replies)
      && r.wire.replies == Left(FieldsPlan(regs), w.replies)
      && (r.code == 0 <==> Completes(FieldsPlan(regs), w.replies))
    decreases |regs|
  {
    if regs == [] {
      assert w.trace + [] == w.trace;
    } else {
      var t := QuerySpec(w, regs[0], 1);
      var v' := if t.status == Ok then StoreField(v, regs[0], t.data[0]) else v;
      ReadFieldsSteps(t.wire, v', regs[1..]);
      QueryThen(w, regs[0], 1, FieldsPlan(regs[1..]), ReadFieldsSpec(t.wire, v', regs[1..]).wire);
    }
  }

  /** `read_inf`: the seven identity bytes from CHIP_ID on, then the six
      single-byte registers; any failed transfer returns -1 at once. */
  function ReadInfSpec(w: Wire, prior: Info): (r: Run<Info>)
    ensures r.code == 0 || r.code == -1
  {
    var t := QuerySpec(w, CHIP_ID, INFO_BYTECOUNT);
    if t.status != Ok then Run(-1, prior, t.wire)
    else
      var d := t.data;
      ReadFieldsSpec(t.wire, prior.(chipId := d[0], accId := d[1], magId := d[2], gyrId := d[3],
                                    swLsb := d[4], swMsb := d[5], blRev := d[6]), InfRegisters())
  }

  function ReadInfPlan(): seq<Op>
  {
    Select(CHIP_ID, INFO_BYTECOUNT) + FieldsPlan(InfRegisters())
  }

  /** `read_inf` issues its reads in order and stops at the first failed
      transfer with -1 and no further bus operation; it returns 0 exactly
      when every transfer completes. */
  lemma ReadInfSteps(w: Wire, prior: Info)
    ensures var r := ReadInfSpec(w, prior);
      r.wire.trace == w.trace + Issued(ReadInfPlan(), w.replies)
      && r.wire.replies == Left(ReadInfPlan(), w.replies)
      && (r.code == 0 <==> Completes(ReadInfPlan(), w.replies))
  {
    var t := QuerySpec(w, CHIP_ID, INFO_BYTECOUNT);
    var d := t.data;
    var v := if t.status == Ok
      then prior.(chipId := d[0], accId := d[1], magId := d[2], gyrId := d[3], swLsb := d[4], swMsb := d[5], blRev := d[6])
      else prior;
    ReadFieldsSteps(t.wire, v, InfRegisters());
    QueryThen(w, CHIP_ID, INFO_BYTECOUNT, FieldsPlan(InfRegisters()), ReadFieldsSpec(t.wire, v, InfRegisters()).wire);
  }

  /** The record after storing, for each of `regs` in turn, the byte of
      every second reply from k + 1 on: the replies to the reads when the
      address writes take the ones in between. */
  function FieldsFrom(v: Info, regs: seq<Byte>, rs: seq<Reply>, k: nat): Info
    decreases |regs|
  {
    if regs == [] then v else FieldsFrom(StoreField(v, regs[0], ByteAt(rs, k + 1)), regs[1..], rs, k + 2)
  }

  /** Successful field reads store the bytes of the read replies, in
      order, into their fields. */
  lemma {:induction false} ReadFieldsValues(w: Wire, v: Info, regs: seq<Byte>, rs: seq<Reply>, k: nat)
    requires k <= |rs| && w.replies == rs[k..]
    requires ReadFieldsSpec(w, v, regs).code == 0
    ensures AnswersFrom(rs, k, |regs|)
    ensures ReadFieldsSpec(w, v, regs).value == FieldsFrom(v, regs, rs, k)
    decreases |regs|
  {
    if regs != [] {
      var t := QuerySpec(w, regs[0], 1);
      assert t.status == Ok;
      assert rs[k + 1] == w.replies[1];
      assert t.data[0] == ByteAt(rs, k + 1);
      assert t.wire.replies == rs[k + 2..];
      ReadFieldsValues(t.wire, StoreField(v, regs[0], t.data[0]), regs[1..], rs, k + 2);
      AnswersStep(rs, k, |regs|);
    }
  }

  /** Whether the single-byte query whose address write takes reply k goes
      through: the write completes and the read that follows delivers one
      byte. */
  predicate QueryAnswered(rs: seq<Reply>, k: nat)
  {
    k < |rs| && rs[k].Done? && Answered(rs, k + 1)
  }

  /** How many of `count` single-byte queries, the first taking reply k,
      go through before the first that does not. */
  function FieldsDone(rs: seq<Reply>, k: nat, count: nat): (n: nat)
    ensures n <= count
    decreases count
  {
    if count == 0 || !QueryAnswered(rs, k) then 0 else 1 + FieldsDone(rs, k + 2, count - 1)
  }

  /** Whatever the outcome, the field reads have stored exactly the bytes of
      the queries that went through before the first failure, and nothing
      else; they succeed exactly when every query went through. */
  lemma {:induction false} ReadFieldsReached(w: Wire, v: Info, regs: seq<Byte>, rs: seq<Reply>, k: nat)
    requires k <= |rs| && w.replies == rs[k..]
    ensures var r, n := ReadFieldsSpec(w, v, regs), FieldsDone(rs, k, |regs|);
      r.value == FieldsFrom(v, regs[..n], rs, k) && (r.code == 0 <==> n == |regs|)
    decreases |regs|
  {
    if regs != [] {
      var t := QuerySpec(w, regs[0], 1);
      QueryAnsweredAt(w, regs[0], rs, k);
      if t.status == Ok {
        var n' := FieldsDone(rs, k + 2, |regs| - 1);
        ReadFieldsReached(t.wire, StoreField(v, regs[0], t.data[0]), regs[1..], rs, k + 2);
        assert regs[..1 + n'][1..] == regs[1..][..n'];
      }
    }
  }

  /** Helper: a single-byte query taking reply k succeeds exactly when it
      goes through, and then returns the byte of reply k + 1. */
  lemma QueryAnsweredAt(w: Wire, reg: Byte, rs: seq<Reply>, k: nat)
    requires k <= |rs| && w.replies == rs[k..]
    ensures var t := QuerySpec(w, reg, 1);
      (t.status == Ok <==> QueryAnswered(rs, k))
      && (t.status == Ok ==> t.data[0] == ByteAt(rs, k + 1) && t.wire.replies == rs[k + 2..])
  {
    var t := QuerySpec(w, reg, 1);
    QueryAt(w, reg, 1, rs, k);
    if k < |rs| {
      assert rs[k] == w.replies[0];
    }
  }

  /** What `read_inf` leaves in the record for either outcome: nothing when
      the identity block read fails; otherwise the seven identity bytes
      and the fields of the single-byte reads that went through before the
      first failure, in order. The remap and power fields are never
      touched. */
  lemma ReadInfReached(w: Wire, prior: Info)
    ensures var r, rs := ReadInfSpec(w, prior), w.replies;
      if QuerySpec(w, CHIP_ID, INFO_BYTECOUNT).status != Ok then r.code == -1 && r.value == prior
      else
        var d, n := rs[1].data, FieldsDone(rs, 2, 6);
        |d| == INFO_BYTECOUNT
        && r.value == FieldsFrom(prior.(chipId := d[0], accId := d[1], magId := d[2], gyrId := d[3],
                                        swLsb := d[4], swMsb := d[5], blRev := d[6]), InfRegisters()[..n], rs, 2)
        && (r.code == 0 <==> n == 6)
  {
    var t := QuerySpec(w, CHIP_ID, INFO_BYTECOUNT);
    if t.status == Ok {
      var d := t.data;
      var v := prior.(chipId := d[0], accId := d[1], magId := d[2], gyrId := d[3], swLsb := d[4], swMsb := d[5], blRev := d[6]);
      assert t.wire.replies == w.replies[2..];
      ReadFieldsReached(t.wire, v, InfRegisters(), w.replies, 2);
    }
  }

  /** A successful `read_inf` stores the seven identity bytes, the low four
      bits of the operating mode and of the self-test result, and the system
      status, error, unit selection and temperature bytes, each from its own
      reply; the fields it does not read keep their values. */
  lemma ReadInfValues(w: Wire, prior: Info)
    requires ReadInfSpec(w, prior).code == 0
    ensures |w.replies| >= 2 && w.replies[1].Done? && |w.replies[1].data| == INFO_BYTECOUNT
    ensures AnswersFrom(w.replies, 2, 6)
    ensures var d, rs := w.replies[1].data, w.replies;
      ReadInfSpec(w, prior).value
      == prior.(chipId := d[0], accId := d[1], magId := d[2], gyrId := d[3], swLsb := d[4], swMsb := d[5], blRev := d[6],
                oprMode := LowNibble(ByteAt(rs, 3)), sysStat := ByteAt(rs, 5),
                selftest := LowNibble(ByteAt(rs, 7)), sysErr := ByteAt(rs, 9),
                unitSel := ByteAt(rs, 11), tempVal := ByteAt(rs, 13))
  {
    var t := QuerySpec(w, CHIP_ID, INFO_BYTECOUNT);
    var d := t.data;
    var v := prior.(chipId := d[0], accId := d[1], magId := d[2], gyrId := d[3], swLsb := d[4], swMsb := d[5], blRev := d[6]);
    ReadFieldsValues(t.wire, v, InfRegisters(), w.replies, 2);
    InfFields(v, w.replies);
  }

  /** The six field stores of `read_inf`, one after the other. */
  lemma InfFields(v: Info, rs: seq<Reply>)
    ensures FieldsFrom(v, InfRegisters(), rs, 2)
      == v.(oprMode := LowNibble(ByteAt(rs, 3)), sysStat := ByteAt(rs, 5),
            selftest := LowNibble(ByteAt(rs, 7)), sysErr := ByteAt(rs, 9),
            unitSel := ByteAt(rs, 11), tempVal := ByteAt(rs, 13))
  {
    var v1 := v.(oprMode := LowNibble(ByteAt(rs, 3)));
    var v2 := v1.(sysStat := ByteAt(rs, 5));
    var v3 := v2.(selftest := LowNibble(ByteAt(rs, 7)));
    InfFieldsLate(v3, rs);
    assert FieldsFrom(v2, [SELFTEST_RESULT, SYS_ERR, UNIT_SEL, TEMP], rs, 6) == FieldsFrom(v3, [SYS_ERR, UNIT_SEL, TEMP], rs, 8) by {
      FieldsFromStep(v2, SELFTEST_RESULT, [SYS_ERR, UNIT_SEL, TEMP], rs, 6);
    }
    assert FieldsFrom(v1, [SYS_STAT, SELFTEST_RESULT, SYS_ERR, UNIT_SEL, TEMP], rs, 4)
        == FieldsFrom(v2, [SELFTEST_RESULT, SYS_ERR, UNIT_SEL, TEMP], rs, 6) by {
      FieldsFromStep(v1, SYS_STAT, [SELFTEST_RESULT, SYS_ERR, UNIT_SEL, TEMP], rs, 4);
    }
    assert FieldsFrom(v, InfRegisters(), rs, 2) == FieldsFrom(v1, [SYS_STAT, SELFTEST_RESULT, SYS_ERR, UNIT_SEL, TEMP], rs, 4) by {
      FieldsFromStep(v, OPR_MODE, [SYS_STAT, SELFTEST_RESULT, SYS_ERR, UNIT_SEL, TEMP], rs, 2);
      assert InfRegisters() == [OPR_MODE] + [SYS_STAT, SELFTEST_RESULT, SYS_ERR, UNIT_SEL, TEMP];
    }
  }

  /** Helper: the last three stores of `read_inf`. */
  lemma InfFieldsLate(v: Info, rs: seq<Reply>)
    ensures FieldsFrom(v, [SYS_ERR, UNIT_SEL, TEMP], rs, 8)
      == v.(sysErr := ByteAt(rs, 9), unitSel := ByteAt(rs, 11), tempVal := ByteAt(rs, 13))
  {
    var v4 := v.(sysErr := ByteAt(rs, 9));
    var v5 := v4.(unitSel := ByteAt(rs, 11));
    assert FieldsFrom(v5, [TEMP], rs, 12) == v5.(tempVal := ByteAt(rs, 13)) by {
      FieldsFromStep(v5, TEMP, [], rs, 12);
    }
    assert FieldsFrom(v4, [UNIT_SEL, TEMP], rs, 10) == FieldsFrom(v5, [TEMP], rs, 12) by {
      FieldsFromStep(v4, UNIT_SEL, [TEMP], rs, 10);
    }
    FieldsFromStep(v, SYS_ERR, [UNIT_SEL, TEMP], rs, 8);
  }

  /** Helper: the first store of `FieldsFrom`. */
  lemma FieldsFromStep(v: Info, reg: Byte, regs: seq<Byte>, rs: seq<Reply>, k: nat)
    ensures FieldsFrom(v, [reg] + regs, rs, k) == FieldsFrom(StoreField(v, reg, ByteAt(rs, k + 1)), regs, rs, k + 2)
  {
    assert ([reg] + regs)[1..] == regs;
  }

  method ReadInf(bus: Bus, info: InfoRecord) returns (rc: int)
    modifies bus, info
    ensures var r := ReadInfSpec(old(bus.State()), old(info.Snapshot()));
      rc == r.code && bus.State() == r.wire && info.Snapshot() == r.value
  {
    var status, data := bus.Query(CHIP_ID, INFO_BYTECOUNT);
    if status != Ok {
      return -1;
    }
    info.chipId, info.accId, info.magId, info.gyrId := data[0], data[1], data[2], data[3];
    info.swLsb, info.swMsb, info.blRev := data[4], data[5], data[6];
    assert info.Snapshot() == old(info.Snapshot()).(chipId := data[0], accId := data[1],
      magId := data[2], gyrId := data[3], swLsb := data[4], swMsb := data[5], blRev := data[6]);
    rc := ReadFields(bus, info, InfRegisters());
  }

  /** The six single-byte reads of `read_inf`, one register at a time. */
  method ReadFields(bus: Bus, info: InfoRecord, regs: seq<Byte>) returns (rc: int)
    modifies bus, info
    ensures var r := ReadFieldsSpec(old(bus.State()), old(info.Snapshot()), regs);
      rc == r.code && bus.State() == r.wire && info.Snapshot() == r.value
    decreases |regs|
  {
    if regs == [] {
      return 0;
    }
    var status, data := bus.Query(regs[0], 1);
    if status != Ok {
      return -1;
    }
    StoreByte(info, regs[0], data[0]);
    rc := ReadFields(bus, info, regs[1..]);
  }

  /** `bno_ptr->field = data[0]` for the field that belongs to `reg`. */
  method StoreByte(info: InfoRecord, reg: Byte, b: Byte)
    modifies info
    ensures info.Snapshot() == StoreField(old(info.Snapshot()), reg, b)
  {
    if reg == OPR_MODE {
      info.oprMode := b % 16;
    } else if reg == SYS_STAT {
      info.sysStat := b;
    } else if reg == SELFTEST_RESULT {
      info.selftest := b % 16;
    } else if reg == SYS_ERR {
      info.sysErr := b;
    } else if reg == UNIT_SEL {
      info.unitSel := b;
    } else if reg == TEMP {
      info.tempVal := b;
    }
  }

  // ---------------------------------------------------------------------
  // read_mag

  /** `read_mag`: a stub that returns 0 and leaves its three outputs as
      they were. */
  method ReadMag(prior: (real, real, real)) returns (rc: int, mag: (real, real, real))
    ensures rc == 0 && mag == prior
  {
    return 0, prior;
  }
}
