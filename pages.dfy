/** The two register pages of the BNO055 and the calls that cross them:
    `set_page0`, `set_page1`, `get_acc_conf` (whose registers are on page 1)
    and the register dump `bno_dump`, plus the system reset `bno_reset` of
    libbno055.c. Everything else in the driver expects page 0, so a call
    that selects page 1 has to select page 0 again before it returns. */
module RegisterPages {
  import opened Bits
  import opened Registers
  import opened RegisterIO
  import opened Codec
  import opened Records

  // ---------------------------------------------------------------------
  // set_page0, set_page1

  /** Write `page` into PAGE_ID: 0 if the write completes, 1 if not. Either
      way the page asked for last is `page`, and nothing else is stored. */
  function SetPageSpec(w: Wire, page: Byte): (r: Outcome)
    ensures r.code == 0 <==> SendOk(w)
    ensures r.code == 0 || r.code == 1
    ensures Stores(r.wire.trace, PAGE_ID) == Stores(w.trace, PAGE_ID) + [[page]]
    ensures forall start :: PageAfter(r.wire.trace, start) == page
    ensures forall reg :: reg != PAGE_ID ==> Stores(r.wire.trace, reg) == Stores(w.trace, reg)
    ensures PauseTime(r.wire.trace) == PauseTime(w.trace)
    ensures r.wire.replies == Rest(w.replies)
  {
    var r := Outcome(if SendOk(w) then 0 else 1, Send(w, [PAGE_ID, page]));
    StoresAfterWrite(w.trace, PAGE_ID, page, PAGE_ID);
    PauseAfter(w.trace, Write([PAGE_ID, page]));
    forall reg | reg != PAGE_ID
      ensures Stores(r.wire.trace, reg) == Stores(w.trace, reg)
    {
      StoresAfterWrite(w.trace, PAGE_ID, page, reg);
    }
    r
  }

  method SetPage0(bus: Bus) returns (rc: int)
    modifies bus
    ensures var r := SetPageSpec(old(bus.State()), 0);
      rc == r.code && bus.State() == r.wire
  {
    var ok := bus.Transmit([PAGE_ID, 0]);
    rc := if ok then 0 else 1;
  }

  method SetPage1(bus: Bus) returns (rc: int)
    modifies bus
    ensures var r := SetPageSpec(old(bus.State()), 1);
      rc == r.code && bus.State() == r.wire
  {
    var ok := bus.Transmit([PAGE_ID, 1]);
    rc := if ok then 0 else 1;
  }

  /** A pause stores nothing and adds its own length to the pauses. */
  lemma WaitFacts(w: Wire, ms: nat)
    ensures forall reg :: Stores(Wait(w, ms).trace, reg) == Stores(w.trace, reg)
    ensures PauseTime(Wait(w, ms).trace) == PauseTime(w.trace) + ms
  {
    forall reg
      ensures Stores(Wait(w, ms).trace, reg) == Stores(w.trace, reg)
    {
      StoresAfterSleep(w.trace, ms, reg);
    }
    PauseAfter(w.trace, Sleep(ms));
  }

  // ---------------------------------------------------------------------
  // get_acc_conf

  /** The two page-1 reads of `get_acc_conf`: ACC_Config (write failure: 1,
      read failure: 2), then ACC_Sleep_Config (3, 4). The fields are decoded
      as the driver writes them, so the range and the sleep mode always come
      out 0; a field the driver has not reached keeps its prior value. */
  function AccConfReads(w: Wire, prior: AccConfig): (r: Run<AccConfig>)
    ensures r.code in {0, 1, 2, 3, 4}
    ensures r.code == 1 || r.code == 2 ==> r.value == prior
    ensures r.code == 0 ==> r.value.range == 0 && r.value.sleepMode == 0
    ensures r.code == 3 || r.code == 4 ==>
      r.value.range == 0 && r.value.sleepMode == prior.sleepMode && r.value.sleepDuration == prior.sleepDuration
    ensures r.code == 3 || r.code == 4 ==> r.value == AccConfigAsWritten(prior, ByteAt(w.replies, 1))
    ensures r.code == 0 ==>
      r.value == SleepConfigAsWritten(AccConfigAsWritten(prior, ByteAt(w.replies, 1)), ByteAt(w.replies, 3))
    ensures forall reg :: Stores(r.wire.trace, reg) == Stores(w.trace, reg)
  {
    var t := QuerySpec(w, ACC_CONFIG, 1);
    forall reg
      ensures Stores(t.wire.trace, reg) == Stores(w.trace, reg)
    {
      QueryStoresNothing(w, ACC_CONFIG, 1, reg);
    }
    if t.status == WriteFailed then Run(1, prior, t.wire)
    else if t.status == ReadFailed then Run(2, prior, t.wire)
    else
      var c := AccConfigAsWritten(prior, t.data[0]);
      var u := QuerySpec(t.wire, ACC_SLEEP_CONFIG, 1);
      forall reg
        ensures Stores(u.wire.trace, reg) == Stores(t.wire.trace, reg)
      {
        QueryStoresNothing(t.wire, ACC_SLEEP_CONFIG, 1, reg);
      }
      if u.status == WriteFailed then Run(3, c, u.wire)
      else if u.status == ReadFailed then Run(4, c, u.wire)
      else Run(0, SleepConfigAsWritten(c, u.data[0]), u.wire)
  }

  /** `get_acc_conf`: select page 1 (its result is not checked), do the two
      reads, and select page 0 before returning on every path, so that on
      every path it asks for page 1 first and page 0 last and writes no
      other register. */
  function GetAccConfSpec(w: Wire, prior: AccConfig): (r: Run<AccConfig>)
    ensures r.code in {0, 1, 2, 3, 4}
    ensures r.code == 1 || r.code == 2 ==> r.value == prior
    ensures Stores(r.wire.trace, PAGE_ID) == Stores(w.trace, PAGE_ID) + [[1], [0]]
    ensures forall start :: PageAfter(r.wire.trace, start) == 0
    ensures forall reg :: reg != PAGE_ID ==> Stores(r.wire.trace, reg) == Stores(w.trace, reg)
  {
    var a := AccConfReads(SetPageSpec(w, 1).wire, prior);
    Run(a.code, a.value, SetPageSpec(a.wire, 0).wire)
  }

  method GetAccConf(bus: Bus, conf: AccConfRecord) returns (rc: int)
    modifies bus, conf
    ensures var r := GetAccConfSpec(old(bus.State()), old(conf.Snapshot()));
      rc == r.code && bus.State() == r.wire && conf.Snapshot() == r.value
  {
    var ignored := SetPage1(bus);
    var status, data := bus.Query(ACC_CONFIG, 1);
    if status == WriteFailed {
      ignored := SetPage0(bus);
      return 1;
    }
    if status == ReadFailed {
      ignored := SetPage0(bus);
      return 2;
    }
    conf.range := AndShift(data[0], 0, 2, 2);
    conf.bandwidth := AndShift(data[0], 2, 3, 4);
    conf.powerMode := AndShift(data[0], 5, 3, 6);
    status, data := bus.Query(ACC_SLEEP_CONFIG, 1);
    if status == WriteFailed {
      ignored := SetPage0(bus);
      return 3;
    }
    if status == ReadFailed {
      ignored := SetPage0(bus);
      return 4;
    }
    conf.sleepMode := AndShift(data[0], 0, 2, 2);
    conf.sleepDuration := AndShift(data[0], 2, 3, 4);
    ignored := SetPage0(bus);
    return 0;
  }

  /** `get_acc_conf` reads the two page-1 registers in order, stopping at the
      first transfer that fails, between the two page writes; it returns 0
      exactly when both reads complete. */
  lemma GetAccConfSteps(w: Wire, prior: AccConfig)
    ensures var plan := Select(ACC_CONFIG, 1) + Select(ACC_SLEEP_CONFIG, 1);
      var p := SetPageSpec(w, 1).wire;
      var a := AccConfReads(p, prior);
      var r := GetAccConfSpec(w, prior);
      a.wire.trace == p.trace + Issued(plan, p.replies)
      && a.wire.replies == Left(plan, p.replies)
      && r.wire == SetPageSpec(a.wire, 0).wire
      && (r.code == 0 <==> Completes(plan, p.replies))
  {
    var p := SetPageSpec(w, 1).wire;
    var t := QuerySpec(p, ACC_CONFIG, 1);
    var u := QuerySpec(t.wire, ACC_SLEEP_CONFIG, 1);
    QueryIssued(t.wire, ACC_SLEEP_CONFIG, 1);
    assert Issued([], u.wire.replies) == [] && Left([], u.wire.replies) == u.wire.replies;
    assert u.wire.trace + [] == u.wire.trace;
    QueryThen(t.wire, ACC_SLEEP_CONFIG, 1, [], u.wire);
    assert Select(ACC_SLEEP_CONFIG, 1) + [] == Select(ACC_SLEEP_CONFIG, 1);
    QueryThen(p, ACC_CONFIG, 1, Select(ACC_SLEEP_CONFIG, 1), u.wire);
  }

  /** What `get_acc_conf` leaves in the record, in terms of the replies:
      reply 0 answers the page-1 write, replies 1 and 2 the ACC_Config
      query, replies 3 and 4 the ACC_Sleep_Config query. Codes 1 and 2
      leave the record as it was; codes 3 and 4 hold the ACC_Config fields
      only; code 0 holds both bytes' fields, decoded as the driver writes
      them. */
  lemma GetAccConfValues(w: Wire, prior: AccConfig)
    ensures var r, rs := GetAccConfSpec(w, prior), w.replies;
      (r.code == 1 || r.code == 2 ==> r.value == prior)
      && (r.code == 3 || r.code == 4 ==>
            Answered(rs, 2) && r.value == AccConfigAsWritten(prior, ByteAt(rs, 2)))
      && (r.code == 0 ==>
            Answered(rs, 2) && Answered(rs, 4)
            && r.value == SleepConfigAsWritten(AccConfigAsWritten(prior, ByteAt(rs, 2)), ByteAt(rs, 4)))
  {
    var rs := w.replies;
    var p := SetPageSpec(w, 1).wire;
    if rs != [] {
      QueryAt(p, ACC_CONFIG, 1, rs, 1);
      var t := QuerySpec(p, ACC_CONFIG, 1);
      if t.status == Ok {
        QueryAt(t.wire, ACC_SLEEP_CONFIG, 1, rs, 3);
      }
    }
  }

  /** On success `get_acc_conf` stores a range of 0, bit 4 of ACC_Config as
      the bandwidth, its bits 7-6 as the power mode, a sleep mode of 0 and
      bit 4 of ACC_Sleep_Config as the sleep duration. */
  lemma GetAccConfFields(w: Wire, prior: AccConfig)
    requires GetAccConfSpec(w, prior).code == 0
    ensures var v, rs := GetAccConfSpec(w, prior).value, w.replies;
      v == AccConfig(0, Bit(ByteAt(rs, 2), 4), ByteAt(rs, 2) / 64, 0, Bit(ByteAt(rs, 4), 4))
  {
    GetAccConfValues(w, prior);
  }

  // ---------------------------------------------------------------------
  // bno_dump

  /** The register address the dump writes for row `row`: `stride * row`
      in the one-byte `reg`. */
  function RowAddress(stride: nat, row: nat): Byte
  {
    ToByte(stride * row)
  }

  /** Rows `row` .. 7 of one page of the dump: write the row's start address
      (`stride * row`), read 16 bytes, go on to the next row; the first
      failing write or read ends the dump with `failWrite` or `failRead`. */
  function DumpRows(w: Wire, row: nat, stride: nat, failWrite: int, failRead: int): (r: Outcome)
    requires failWrite != 0 && failRead != 0
    ensures r.code in {0, failWrite, failRead}
    ensures forall reg :: Stores(r.wire.trace, reg) == Stores(w.trace, reg)
    ensures PauseTime(r.wire.trace) == PauseTime(w.trace)
    decreases 8 - row
  {
    if row >= 8 then Outcome(0, w)
    else
      var t := QuerySpec(w, RowAddress(stride, row), 16);
      forall reg
        ensures Stores(t.wire.trace, reg) == Stores(w.trace, reg)
      {
        QueryStoresNothing(w, RowAddress(stride, row), 16, reg);
      }
      QueryPauses(w, RowAddress(stride, row), 16);
      if t.status == WriteFailed then Outcome(failWrite, t.wire)
      else if t.status == ReadFailed then Outcome(failRead, t.wire)
      else DumpRows(t.wire, row + 1, stride, failWrite, failRead)
  }

  /** `bno_dump` as written: eight 16-byte reads from addresses 0 .. 7 of
      page 0 (failures: 1, 2), then page 1 the same way. */
  function DumpSpec(w: Wire): (r: Outcome)
    ensures r.code in {0, 1, 2, 3, 4}
  {
    DumpWith(w, 1)
  }

  /** The dump with row addresses `stride * row`: page 0 (failures: 1, 2),
      then the rest on page 1. */
  function DumpWith(w: Wire, stride: nat): (r: Outcome)
    ensures r.code in {0, 1, 2, 3, 4}
  {
    var a := DumpRows(w, 0, stride, 1, 2);
    if a.code != 0 then a else DumpSecondPage(a.wire, stride)
  }

  /** Select page 1 (not checked), wait 50 ms, read the page (failures: 3,
      4), select page 0 (not checked) and wait 50 ms. */
  function DumpSecondPage(w: Wire, stride: nat): (r: Outcome)
    ensures r.code in {0, 3, 4}
  {
    var b := DumpRows(Wait(SetPageSpec(w, 1).wire, PAGE_SWITCH_MS), 0, stride, 3, 4);
    if b.code != 0 then b
    else Outcome(0, Wait(SetPageSpec(b.wire, 0).wire, PAGE_SWITCH_MS))
  }

  method BnoDump(bus: Bus) returns (rc: int)
    modifies bus
    ensures var r := DumpSpec(old(bus.State()));
      rc == r.code && bus.State() == r.wire
  {
    var count := 0;
    while count < 8
      invariant 0 <= count <= 8
      invariant DumpRows(old(bus.State()), 0, 1, 1, 2) == DumpRows(bus.State(), count, 1, 1, 2)
    {
      var status, data := bus.Query(RowAddress(1, count), 16);
      if status == WriteFailed {
        return 1;
      }
      if status == ReadFailed {
        return 2;
      }
      count := count + 1;
    }
    var ignored := SetPage1(bus);
    bus.Pause(PAGE_SWITCH_MS);
    ghost var page1 := bus.State();
    count := 0;
    while count < 8
      invariant 0 <= count <= 8
      invariant DumpRows(page1, 0, 1, 3, 4) == DumpRows(bus.State(), count, 1, 3, 4)
    {
      var status, data := bus.Query(RowAddress(1, count), 16);
      if status == WriteFailed {
        return 3;
      }
      if status == ReadFailed {
        return 4;
      }
      count := count + 1;
    }
    ignored := SetPage0(bus);
    bus.Pause(PAGE_SWITCH_MS);
    return 0;
  }

  /** Page discipline of the second half of the dump: a failure leaves page 1
      asked for; completing asks for page 0 again. It pauses 50 ms, or 100 ms
      when it completes, and writes no other register. */
  lemma DumpSecondPages(w: Wire, stride: nat)
    ensures var r := DumpSecondPage(w, stride);
      (r.code != 0 ==>
         Stores(r.wire.trace, PAGE_ID) == Stores(w.trace, PAGE_ID) + [[1]]
         && PauseTime(r.wire.trace) == PauseTime(w.trace) + PAGE_SWITCH_MS)
      && (r.code == 0 ==>
            Stores(r.wire.trace, PAGE_ID) == Stores(w.trace, PAGE_ID) + [[1], [0]]
            && PauseTime(r.wire.trace) == PauseTime(w.trace) + 2 * PAGE_SWITCH_MS)
      && forall reg :: reg != PAGE_ID ==> Stores(r.wire.trace, reg) == Stores(w.trace, reg)
  {
    var p := SetPageSpec(w, 1).wire;
    WaitFacts(p, PAGE_SWITCH_MS);
    var b := DumpRows(Wait(p, PAGE_SWITCH_MS), 0, stride, 3, 4);
    if b.code == 0 {
      WaitFacts(SetPageSpec(b.wire, 0).wire, PAGE_SWITCH_MS);
    }
  }

  /** Page discipline of `bno_dump`: a failure on page 0 asks for no page at
      all, a failure on page 1 returns with page 1 still asked for, and only
      the complete dump asks for page 0 again. */
  lemma DumpPages(w: Wire, stride: nat)
    ensures var r := DumpWith(w, stride);
      (r.code == 1 || r.code == 2 ==> Stores(r.wire.trace, PAGE_ID) == Stores(w.trace, PAGE_ID))
      && (r.code == 3 || r.code == 4 ==> forall start :: PageAfter(r.wire.trace, start) == 1)
      && (r.code == 0 ==>
            Stores(r.wire.trace, PAGE_ID) == Stores(w.trace, PAGE_ID) + [[1], [0]]
            && (forall start :: PageAfter(r.wire.trace, start) == 0)
            && PauseTime(r.wire.trace) == PauseTime(w.trace) + 2 * PAGE_SWITCH_MS)
      && forall reg :: reg != PAGE_ID ==> Stores(r.wire.trace, reg) == Stores(w.trace, reg)
  {
    var a := DumpRows(w, 0, stride, 1, 2);
    if a.code == 0 {
      DumpSecondPages(a.wire, stride);
    }
  }

  /** The first step of a dump row: it writes the row's address, and when
      that write completes it reads 16 bytes from there. */
  lemma DumpRowStarts(w: Wire, row: nat, stride: nat, failWrite: int, failRead: int)
    requires failWrite != 0 && failRead != 0 && row < 8
    ensures var ops, n := DumpRows(w, row, stride, failWrite, failRead).wire.trace, |w.trace|;
      |ops| > n && ops[n] == Write([RowAddress(stride, row)])
      && (SendOk(w) ==> |ops| > n + 1 && ops[n + 1] == Read(16))
  {
    var t := QuerySpec(w, RowAddress(stride, row), 16);
    if t.status == Ok {
      DumpRowsExtend(t.wire, row + 1, stride, failWrite, failRead);
    }
  }

  /** Later rows only add to the trace. */
  lemma {:induction false} DumpRowsExtend(w: Wire, row: nat, stride: nat, failWrite: int, failRead: int)
    requires failWrite != 0 && failRead != 0
    ensures w.trace <= DumpRows(w, row, stride, failWrite, failRead).wire.trace
    decreases 8 - row
  {
    if row < 8 {
      var t := QuerySpec(w, RowAddress(stride, row), 16);
      if t.status == Ok {
        DumpRowsExtend(t.wire, row + 1, stride, failWrite, failRead);
      }
    }
  }

  /** Whether dump row `row` reads register `a`: it reads 16 registers from
      the address it writes. */
  predicate InWindow(stride: nat, row: nat, a: int)
  {
    RowAddress(stride, row) <= a < RowAddress(stride, row) + 16
  }

  /** As written, the rows start at addresses 0 .. 7, so their windows
      overlap (row 1 reads registers 0x01 .. 0x10, most of which row 0 read
      already) and no row reaches register 0x17, although the dump labels
      its rows 0x00 .. 0x70. */
  lemma DumpOverlaps()
    ensures InWindow(1, 0, 1) && InWindow(1, 1, 1)
    ensures forall row: nat :: row < 8 ==> !InWindow(1, row, 0x17)
  {
    forall row: nat | row < 8
      ensures RowAddress(1, row) == row
    {
      assert 1 * row == 0 + 256 * 0 + row;
    }
  }

  /** With the row address `16 * row` the labels call for, each register
      0x00 .. 0x7F of a page is read by exactly one row. */
  lemma DumpCovers(a: int)
    requires 0 <= a < 128
    ensures InWindow(16, a / 16, a)
    ensures forall row: nat :: row < 8 && InWindow(16, row, a) ==> row == a / 16
  {
    forall row: nat | row < 8
      ensures RowAddress(16, row) == 16 * row
    {
      DivModUnique(16 * row, 256, 0, 16 * row);
    }
  }

  // ---------------------------------------------------------------------
  // bno_reset

  /** `bno_reset`: write RST_SYS into SYS_TRIGGER (failure: 1), wait 650 ms
      for the sensor to boot, and end the program with status 0. It never
      returns 0 to its caller. */
  function ResetSpec(w: Wire): (r: Finish)
    ensures r.ending == Returned(1) <==> !SendOk(w)
    ensures r.ending == Returned(1) || r.ending == Exited(0)
    ensures r.ending.Exited? ==> r.wire.trace == w.trace + [Write([SYS_TRIGGER, RST_SYS]), Sleep(BOOT_MS)]
  {
    var w1 := Send(w, [SYS_TRIGGER, RST_SYS]);
    if !SendOk(w) then Finish(Returned(1), w1)
    else Finish(Exited(0), Wait(w1, BOOT_MS))
  }

  method BnoReset(bus: Bus) returns (e: Ending)
    modifies bus
    ensures var r := ResetSpec(old(bus.State()));
      e == r.ending && bus.State() == r.wire
  {
    var ok := bus.Transmit([SYS_TRIGGER, RST_SYS]);
    if !ok {
      return Returned(1);
    }
    bus.Pause(BOOT_MS);
    return Exited(0);
  }
}
