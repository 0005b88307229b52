/** The calibration block of libbno055.c: `get_caloffset` reads the offset
    registers into `struct bnocal`, `save_cal` reads the 34-byte block from
    the SIC matrix base on and hands it to a file, `load_cal` writes a
    file's 34 bytes back from the same base and reads them back to compare.
    Each captures the operating mode first, switches to CONFIG (the offset
    registers only hold still there) and restores the mode afterwards. The
    file is a parameter: what `fopen`/`fread` deliver to `load_cal`, and
    whether `fopen`/`fwrite` accept `save_cal`'s bytes. */
module Calibration {
  import opened Bits
  import opened Registers
  import opened RegisterIO
  import opened Codec
  import opened Records
  import opened OperatingMode
  import opened Wrappers

  // ---------------------------------------------------------------------
  // get_caloffset

  /** `get_caloffset`: capture the mode (failure: `1 | code << 8`), switch
      to CONFIG (failure: `2 | code << 8`), then read the offsets. */
  function GetCalOffsetSpec(w: Wire, prior: Offsets): (r: Run<Offsets>)
    ensures r.code in {0, 3, 4} || (r.code % 256 == 1 && r.code / 256 in {1, 2})
      || (r.code % 256 in {2, 5} && ModeFailure(r.code / 256))
    ensures r.code % 256 in {1, 2, 3, 4} ==> r.value == prior
    ensures r.code % 256 in {0, 5} ==> OffsetsInt16(r.value)
  {
    var g := GetModeSpec(w, 0);
    if g.code != 0 then Run(Nest(1, g.code), prior, g.wire)
    else
      var c := SetModeSpec(g.wire, CONFIG);
      if c.code != 0 then Run(Nest(2, c.code), prior, c.wire)
      else OffsetsFetch(c.wire, g.value, prior)
  }

  /** In CONFIG: read 34 bytes from ACC_OFFSET_X_LSB (failures: 3, 4),
      decode the first 22 into the eleven offsets, then put the device back
      into `oldMode` (failure: `5 | code << 8`, with the offsets kept). */
  function OffsetsFetch(w: Wire, oldMode: int, prior: Offsets): (r: Run<Offsets>)
    ensures r.code in {0, 3, 4} || (r.code % 256 == 5 && ModeFailure(r.code / 256))
    ensures r.code == 3 <==> !SendOk(w)
    ensures r.code == 3 || r.code == 4 ==> r.value == prior
    ensures r.code != 3 && r.code != 4 ==>
      |w.replies| >= 2 && w.replies[1].Done? && |w.replies[1].data| == CALIB_BYTECOUNT
      && r.value == DecodeOffsets(w.replies[1].data)
  {
    var t := QuerySpec(w, ACC_OFFSET_X_LSB, CALIB_BYTECOUNT);
    match t.status
    case WriteFailed => Run(3, prior, t.wire)
    case ReadFailed => Run(4, prior, t.wire)
    case Ok =>
      var s := SetModeSpec(t.wire, oldMode);
      Run(if s.code == 0 then 0 else Nest(5, s.code), DecodeOffsets(t.data), s.wire)
  }

  /** `get_caloffset` on the calibration record: the offsets are assigned
      field by field, the four calibration levels are left alone. */
  method GetCalOffset(bus: Bus, cal: CalRecord) returns (rc: int)
    modifies bus, cal
    ensures var r := GetCalOffsetSpec(old(bus.State()), old(cal.OffsetValues()));
      rc == r.code && bus.State() == r.wire && cal.OffsetValues() == r.value
    ensures cal.Status() == old(cal.Status())
  {
    var code, oldMode := GetMode(bus, 0);
    if code != 0 {
      return Nest(1, code);
    }
    code := SetMode(bus, CONFIG);
    if code != 0 {
      return Nest(2, code);
    }
    rc := FetchOffsets(bus, cal, oldMode);
  }

  /** The part of `get_caloffset` after the switch to CONFIG. */
  method FetchOffsets(bus: Bus, cal: CalRecord, oldMode: int) returns (rc: int)
    modifies bus, cal
    ensures var r := OffsetsFetch(old(bus.State()), oldMode, old(cal.OffsetValues()));
      rc == r.code && bus.State() == r.wire && cal.OffsetValues() == r.value
    ensures cal.Status() == old(cal.Status())
  {
    var status, data := bus.Query(ACC_OFFSET_X_LSB, CALIB_BYTECOUNT);
    if status == WriteFailed {
      return 3;
    }
    if status == ReadFailed {
      return 4;
    }
    cal.aoff := Axes(Word(data, 0), Word(data, 1), Word(data, 2));
    cal.moff := Axes(Word(data, 3), Word(data, 4), Word(data, 5));
    cal.goff := Axes(Word(data, 6), Word(data, 7), Word(data, 8));
    cal.accRadius := Word(data, 9);
    cal.magRadius := Word(data, 10);
    assert cal.OffsetValues() == DecodeOffsets(data);
    var code := SetMode(bus, oldMode);
    rc := if code == 0 then 0 else Nest(5, code);
  }

  /** `get_caloffset` only reads the offset registers: the one register it
      stores into is OPR_MODE. */
  lemma CalOffsetStores(w: Wire, prior: Offsets, reg: Byte)
    requires reg != OPR_MODE
    ensures Stores(GetCalOffsetSpec(w, prior).wire.trace, reg) == Stores(w.trace, reg)
  {
    var g := GetModeSpec(w, 0);
    QueryStoresNothing(w, OPR_MODE, 1, reg);
    if g.code == 0 {
      var c := SetModeSpec(g.wire, CONFIG);
      SetModeStores(g.wire, CONFIG, reg);
      if c.code == 0 {
        var t := QuerySpec(c.wire, ACC_OFFSET_X_LSB, CALIB_BYTECOUNT);
        QueryStoresNothing(c.wire, ACC_OFFSET_X_LSB, CALIB_BYTECOUNT, reg);
        if t.status == Ok {
          SetModeStores(t.wire, g.value, reg);
        }
      }
    }
  }

  // ---------------------------------------------------------------------
  // load_cal

  /** `load_cal` from the file's contents (`None`: `fopen` failed, 1).
      `fread` takes at most 34 bytes, so a shorter file is refused (2) and a
      longer one is cut to its first 34 bytes; neither refusal touches the
      bus. The value is the block read back from the device, or `[]` when it
      was not read. */
  function LoadCalSpec(w: Wire, file: Option<seq<Byte>>): (r: Run<seq<Byte>>)
    ensures r.code == 1 <==> file.None?
    ensures r.code == 2 <==> file.Some? && |file.value| < CALIB_BYTECOUNT
    ensures r.code == 1 || r.code == 2 ==> r.wire == w && r.value == []
    ensures r.code in {0, 1, 2, 5, 6, 7} || (r.code % 256 == 3 && r.code / 256 in {1, 2})
      || (r.code % 256 in {4, 8} && ModeFailure(r.code / 256))
  {
    match file
    case None => Run(1, [], w)
    case Some(bytes) =>
      if |bytes| < CALIB_BYTECOUNT then Run(2, [], w)
      else LoadBlob(w, bytes[..CALIB_BYTECOUNT])
  }

  /** Capture the mode (failure: `3 | code << 8`), switch to CONFIG
      (failure: `4 | code << 8`) and give it 50 ms before the block goes in. */
  function LoadBlob(w: Wire, blob: seq<Byte>): (r: Run<seq<Byte>>)
    requires |blob| == CALIB_BYTECOUNT
    ensures r.code in {0, 5, 6, 7} || (r.code % 256 == 3 && r.code / 256 in {1, 2})
      || (r.code % 256 in {4, 8} && ModeFailure(r.code / 256))
  {
    var g := GetModeSpec(w, 0);
    if g.code != 0 then Run(Nest(3, g.code), [], g.wire)
    else
      var c := SetModeSpec(g.wire, CONFIG);
      if c.code != 0 then Run(Nest(4, c.code), [], c.wire)
      else LoadWrite(Wait(c.wire, CALIB_LOAD_MS), g.value, blob)
  }

  /** The one frame that stores the block: the SIC matrix base address
      followed by the 34 bytes (failure: 5). */
  function LoadWrite(w: Wire, oldMode: int, blob: seq<Byte>): (r: Run<seq<Byte>>)
    requires |blob| == CALIB_BYTECOUNT
    ensures r.code in {0, 5, 6, 7} || (r.code % 256 == 8 && ModeFailure(r.code / 256))
    ensures r.code == 5 <==> !SendOk(w)
  {
    var w1 := Send(w, [SIC_MATRIX_0_LSB] + blob);
    if !SendOk(w) then Run(5, [], w1)
    else LoadVerify(w1, oldMode)
  }

  /** Read the block back from the same base (failures: 6, 7), restore
      `oldMode` (failure: `8 | code << 8`) and give the fusion code 650 ms
      to take the new calibration. */
  function LoadVerify(w: Wire, oldMode: int): (r: Run<seq<Byte>>)
    ensures r.code in {0, 6, 7} || (r.code % 256 == 8 && ModeFailure(r.code / 256))
    ensures r.code == 6 <==> !SendOk(w)
    ensures r.code != 6 && r.code != 7 <==> |r.value| == CALIB_BYTECOUNT
    ensures r.code != 6 && r.code != 7 ==>
      |w.replies| >= 2 && w.replies[1] == Done(r.value)
    ensures r.code == 0 ==> |r.wire.trace| > 0 && r.wire.trace[|r.wire.trace| - 1] == Sleep(BOOT_MS)
  {
    var t := QuerySpec(w, SIC_MATRIX_0_LSB, CALIB_BYTECOUNT);
    match t.status
    case WriteFailed => Run(6, [], t.wire)
    case ReadFailed => Run(7, [], t.wire)
    case Ok =>
      var s := SetModeSpec(t.wire, oldMode);
      if s.code != 0 then Run(Nest(8, s.code), t.data, s.wire)
      else Run(0, t.data, Wait(s.wire, BOOT_MS))
  }

  /** Whether `load_cal`, having returned `code`, got as far as issuing the
      block write (whether or not the write completed). */
  predicate BlockWritten(code: int)
  {
    code % 256 in {0, 5, 6, 7, 8}
  }

  /** `load_cal` stores into the SIC matrix base the file's first 34 bytes,
      once, exactly when it gets as far as the block write, and into no
      other register but OPR_MODE. */
  lemma LoadCalStores(w: Wire, file: Option<seq<Byte>>, reg: Byte)
    requires reg != OPR_MODE
    ensures var r := LoadCalSpec(w, file);
      Stores(r.wire.trace, reg) == Stores(w.trace, reg)
        + if reg == SIC_MATRIX_0_LSB && BlockWritten(r.code) then [file.value[..CALIB_BYTECOUNT]] else []
  {
    if file.Some? && |file.value| >= CALIB_BYTECOUNT {
      LoadBlobStores(w, file.value[..CALIB_BYTECOUNT], reg);
    }
  }

  lemma LoadBlobStores(w: Wire, blob: seq<Byte>, reg: Byte)
    requires |blob| == CALIB_BYTECOUNT && reg != OPR_MODE
    ensures var r := LoadBlob(w, blob);
      Stores(r.wire.trace, reg) == Stores(w.trace, reg)
        + if reg == SIC_MATRIX_0_LSB && BlockWritten(r.code) then [blob] else []
  {
    var g := GetModeSpec(w, 0);
    QueryStoresNothing(w, OPR_MODE, 1, reg);
    if g.code == 0 {
      var c := SetModeSpec(g.wire, CONFIG);
      SetModeStores(g.wire, CONFIG, reg);
      if c.code == 0 {
        StoresAfterSleep(c.wire.trace, CALIB_LOAD_MS, reg);
        LoadWriteStores(Wait(c.wire, CALIB_LOAD_MS), g.value, blob, reg);
      }
    }
  }

  lemma LoadWriteStores(w: Wire, oldMode: int, blob: seq<Byte>, reg: Byte)
    requires |blob| == CALIB_BYTECOUNT && reg != OPR_MODE
    ensures var r := LoadWrite(w, oldMode, blob);
      Stores(r.wire.trace, reg) == Stores(w.trace, reg) + if reg == SIC_MATRIX_0_LSB then [blob] else []
  {
    var frame := [SIC_MATRIX_0_LSB] + blob;
    var w1 := Send(w, frame);
    StoresAppend(w.trace, [Write(frame)], reg);
    assert frame[1..] == blob && [Write(frame)][1..] == [];
    if SendOk(w) {
      LoadVerifyStores(w1, oldMode, reg);
    }
  }

  /** The read-back and the mode restore store nothing but the mode. */
  lemma LoadVerifyStores(w: Wire, oldMode: int, reg: Byte)
    requires reg != OPR_MODE
    ensures Stores(LoadVerify(w, oldMode).wire.trace, reg) == Stores(w.trace, reg)
  {
    var t := QuerySpec(w, SIC_MATRIX_0_LSB, CALIB_BYTECOUNT);
    QueryStoresNothing(w, SIC_MATRIX_0_LSB, CALIB_BYTECOUNT, reg);
    if t.status == Ok {
      var s := SetModeSpec(t.wire, oldMode);
      SetModeStores(t.wire, oldMode, reg);
      StoresAfterSleep(s.wire.trace, BOOT_MS, reg);
    }
  }

  /** A block that reads back different from what was written is only
      reported: once the read-back delivers its 34 bytes, any other 34
      bytes in their place give the same return code and leave the bus the
      same. */
  lemma LoadIgnoresMismatch(w: Wire, oldMode: int, other: seq<Byte>)
    requires |w.replies| >= 2 && w.replies[0].Done? && w.replies[1].Done? && |w.replies[1].data| == CALIB_BYTECOUNT
    requires |other| == CALIB_BYTECOUNT
    ensures var r, r' := LoadVerify(w, oldMode), LoadVerify(w.(replies := w.replies[1 := Done(other)]), oldMode);
      r'.code == r.code && r'.wire == r.wire
  {
    var w' := w.(replies := w.replies[1 := Done(other)]);
    assert w'.replies[2..] == w.replies[2..];
    var t, t' := QuerySpec(w, SIC_MATRIX_0_LSB, CALIB_BYTECOUNT), QuerySpec(w', SIC_MATRIX_0_LSB, CALIB_BYTECOUNT);
    assert t.status == Ok && t'.status == Ok;
    assert t'.wire == t.wire;
  }

  /** The read-back comparison of `load_cal`: the registers whose value
      read back differs from the byte written there, in register order. A
      mismatch is only reported; it does not change the return code. */
  method ReadBackMismatches(blob: seq<Byte>, back: seq<Byte>) returns (regs: seq<int>)
    requires |blob| == CALIB_BYTECOUNT && |back| == CALIB_BYTECOUNT
    ensures forall k :: 0 <= k < |regs| ==> SIC_MATRIX_0_LSB <= regs[k] < SIC_MATRIX_0_LSB + CALIB_BYTECOUNT
    ensures forall k, l :: 0 <= k < l < |regs| ==> regs[k] < regs[l]
    ensures forall i :: 0 <= i < CALIB_BYTECOUNT ==> (SIC_MATRIX_0_LSB + i in regs <==> blob[i] != back[i])
  {
    regs := [];
    var i := 0;
    while i < CALIB_BYTECOUNT
      invariant 0 <= i <= CALIB_BYTECOUNT
      invariant forall k :: 0 <= k < |regs| ==> SIC_MATRIX_0_LSB <= regs[k] < SIC_MATRIX_0_LSB + i
      invariant forall k, l :: 0 <= k < l < |regs| ==> regs[k] < regs[l]
      invariant forall j :: 0 <= j < i ==> (SIC_MATRIX_0_LSB + j in regs <==> blob[j] != back[j])
    {
      if blob[i] != back[i] {
        regs := regs + [SIC_MATRIX_0_LSB + i];
      }
      i := i + 1;
    }
  }

  /** `load_cal`; `mismatched` lists the registers it reports as not having
      taken the file's byte. */
  method LoadCal(bus: Bus, file: Option<seq<Byte>>) returns (rc: int, mismatched: seq<int>)
    modifies bus
    ensures var r := LoadCalSpec(old(bus.State()), file);
      rc == r.code && bus.State() == r.wire
      && (|r.value| == CALIB_BYTECOUNT ==>
            forall i :: 0 <= i < CALIB_BYTECOUNT ==>
              (SIC_MATRIX_0_LSB + i in mismatched <==> file.value[i] != r.value[i]))
      && (|r.value| != CALIB_BYTECOUNT ==> mismatched == [])
  {
    if file.None? {
      return 1, [];
    }
    if |file.value| < CALIB_BYTECOUNT {
      return 2, [];
    }
    var blob := file.value[..CALIB_BYTECOUNT];
    var code, oldMode := GetMode(bus, 0);
    if code != 0 {
      return Nest(3, code), [];
    }
    code := SetMode(bus, CONFIG);
    if code != 0 {
      return Nest(4, code), [];
    }
    bus.Pause(CALIB_LOAD_MS);
    rc, mismatched := StoreBlob(bus, blob, oldMode);
  }

  /** The part of `load_cal` from the block write on. */
  method StoreBlob(bus: Bus, blob: seq<Byte>, oldMode: int) returns (rc: int, mismatched: seq<int>)
    requires |blob| == CALIB_BYTECOUNT
    modifies bus
    ensures var r := LoadWrite(old(bus.State()), oldMode, blob);
      rc == r.code && bus.State() == r.wire
      && (|r.value| == CALIB_BYTECOUNT ==>
            forall i :: 0 <= i < CALIB_BYTECOUNT ==> (SIC_MATRIX_0_LSB + i in mismatched <==> blob[i] != r.value[i]))
      && (|r.value| != CALIB_BYTECOUNT ==> mismatched == [])
  {
    var ok := bus.Transmit([SIC_MATRIX_0_LSB] + blob);
    if !ok {
      return 5, [];
    }
    var status, back := bus.Query(SIC_MATRIX_0_LSB, CALIB_BYTECOUNT);
    if status == WriteFailed {
      return 6, [];
    }
    if status == ReadFailed {
      return 7, [];
    }
    mismatched := ReadBackMismatches(blob, back);
    var code := SetMode(bus, oldMode);
    if code != 0 {
      return Nest(8, code), mismatched;
    }
    bus.Pause(BOOT_MS);
    rc := 0;
  }

  // ---------------------------------------------------------------------
  // save_cal

  /** Where `save_cal` puts the block: `fopen` fails, or the file takes at
      most `room` bytes of what `fwrite` hands it. */
  datatype FileSink = Unopenable | Opened(room: nat)

  /** `save_cal`: capture the mode (failure: `1 | code << 8`), switch to
      CONFIG (failure: `2 | code << 8`), then read the block. The value is
      what reaches the file. */
  function SaveCalSpec(w: Wire, sink: FileSink): (r: Run<seq<Byte>>)
    ensures r.code in {0, 3, 4, 5, 6} || (r.code % 256 == 1 && r.code / 256 in {1, 2})
      || (r.code % 256 in {2, 7} && ModeFailure(r.code / 256))
    ensures r.code % 256 in {1, 2, 3, 4, 5} ==> r.value == []
    ensures r.code % 256 in {0, 7} ==> |r.value| == CALIB_BYTECOUNT
  {
    var g := GetModeSpec(w, 0);
    if g.code != 0 then Run(Nest(1, g.code), [], g.wire)
    else
      var c := SetModeSpec(g.wire, CONFIG);
      if c.code != 0 then Run(Nest(2, c.code), [], c.wire)
      else SaveFetch(c.wire, g.value, sink)
  }

  /** In CONFIG: read 34 bytes from the SIC matrix base (failures: 3, 4) and
      hand them to the file (cannot open: 5, short write: 6; both return
      without restoring the mode), then restore `oldMode` (failure:
      `7 | code << 8`). */
  function SaveFetch(w: Wire, oldMode: int, sink: FileSink): (r: Run<seq<Byte>>)
    ensures r.code in {0, 3, 4, 5, 6} || (r.code % 256 == 7 && ModeFailure(r.code / 256))
    ensures r.code == 3 <==> !SendOk(w)
    ensures r.code in {3, 4, 5, 6} ==> r.wire == QuerySpec(w, SIC_MATRIX_0_LSB, CALIB_BYTECOUNT).wire
    ensures r.code !in {3, 4, 5} ==>
      |w.replies| >= 2 && w.replies[1].Done? && |w.replies[1].data| == CALIB_BYTECOUNT
      && sink.Opened? && r.value == w.replies[1].data[..Min(sink.room, CALIB_BYTECOUNT)]
    ensures r.code == 6 <==>
      (QuerySpec(w, SIC_MATRIX_0_LSB, CALIB_BYTECOUNT).status == Ok && sink.Opened? && sink.room < CALIB_BYTECOUNT)
  {
    var t := QuerySpec(w, SIC_MATRIX_0_LSB, CALIB_BYTECOUNT);
    match t.status
    case WriteFailed => Run(3, [], t.wire)
    case ReadFailed => Run(4, [], t.wire)
    case Ok =>
      match sink
      case Unopenable => Run(5, [], t.wire)
      case Opened(room) =>
        if room < CALIB_BYTECOUNT then Run(6, t.data[..room], t.wire)
        else
          var s := SetModeSpec(t.wire, oldMode);
          Run(if s.code == 0 then 0 else Nest(7, s.code), t.data, s.wire)
  }

  function Min(a: nat, b: nat): (m: nat)
    ensures m <= a && m <= b && (m == a || m == b)
  {
    if a < b then a else b
  }

  /** `save_cal`; `saved` is what reaches the file. */
  method SaveCal(bus: Bus, sink: FileSink) returns (rc: int, saved: seq<Byte>)
    modifies bus
    ensures var r := SaveCalSpec(old(bus.State()), sink);
      rc == r.code && saved == r.value && bus.State() == r.wire
  {
    var code, oldMode := GetMode(bus, 0);
    if code != 0 {
      return Nest(1, code), [];
    }
    code := SetMode(bus, CONFIG);
    if code != 0 {
      return Nest(2, code), [];
    }
    var status, data := bus.Query(SIC_MATRIX_0_LSB, CALIB_BYTECOUNT);
    if status == WriteFailed {
      return 3, [];
    }
    if status == ReadFailed {
      return 4, [];
    }
    if sink.Unopenable? {
      return 5, [];
    }
    saved := data[..Min(sink.room, CALIB_BYTECOUNT)];
    if sink.room < CALIB_BYTECOUNT {
      return 6, saved;
    }
    code := SetMode(bus, oldMode);
    rc := if code == 0 then 0 else Nest(7, code);
  }

  /** `save_cal` only reads the calibration block: the one register it
      stores into is OPR_MODE. */
  lemma SaveCalStores(w: Wire, sink: FileSink, reg: Byte)
    requires reg != OPR_MODE
    ensures Stores(SaveCalSpec(w, sink).wire.trace, reg) == Stores(w.trace, reg)
  {
    var g := GetModeSpec(w, 0);
    QueryStoresNothing(w, OPR_MODE, 1, reg);
    if g.code == 0 {
      var c := SetModeSpec(g.wire, CONFIG);
      SetModeStores(g.wire, CONFIG, reg);
      if c.code == 0 {
        var t := QuerySpec(c.wire, SIC_MATRIX_0_LSB, CALIB_BYTECOUNT);
        QueryStoresNothing(c.wire, SIC_MATRIX_0_LSB, CALIB_BYTECOUNT, reg);
        if t.status == Ok && sink.Opened? && sink.room >= CALIB_BYTECOUNT {
          SetModeStores(t.wire, g.value, reg);
        }
      }
    }
  }

  /** A block `save_cal` saved is one `load_cal` accepts, and loading it
      stores exactly those 34 bytes back into the registers from the SIC
      matrix base on, the registers `save_cal` read them from. */
  lemma SaveLoadRoundTrip(saveWire: Wire, sink: FileSink, loadWire: Wire)
    requires SaveCalSpec(saveWire, sink).code == 0
    ensures var d := SaveCalSpec(saveWire, sink).value;
      var l := LoadCalSpec(loadWire, Some(d));
      |d| == CALIB_BYTECOUNT && l.code != 1 && l.code != 2
      && (BlockWritten(l.code) ==>
            Stores(l.wire.trace, SIC_MATRIX_0_LSB) == Stores(loadWire.trace, SIC_MATRIX_0_LSB) + [d])
  {
    var d := SaveCalSpec(saveWire, sink).value;
    LoadCalStores(loadWire, Some(d), SIC_MATRIX_0_LSB);
    assert d[..CALIB_BYTECOUNT] == d;
  }
}
