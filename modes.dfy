/** Operating and power modes: `get_mode`, `set_mode`, `get_power` and
    `set_power` of libbno055.c. A mode or power change is only accepted in
    CONFIG mode, so the setters move the device through CONFIG with the
    settle times the datasheet asks for, then read the register back. */
module OperatingMode {
  import opened Bits
  import opened Registers
  import opened RegisterIO
  import opened Codec

  // ---------------------------------------------------------------------
  // get_mode and get_power

  /** `get_mode`: read OPR_MODE and keep its low nibble. 1: the address
      write failed, 2: the read failed; the output keeps `prior` then. */
  function GetModeSpec(w: Wire, prior: int): (r: Run<int>)
    ensures r.code == 0 || r.code == 1 || r.code == 2
    ensures r.code == 1 <==> !SendOk(w)
    ensures r.wire.trace == w.trace + if r.code == 1 then [Write([OPR_MODE])] else Select(OPR_MODE, 1)
    ensures r.code == 0 ==>
      |w.replies| >= 2 && w.replies[1].Done? && |w.replies[1].data| == 1
      && r.value == w.replies[1].data[0] % 16 && r.wire.replies == w.replies[2..]
    ensures r.code != 0 ==> r.value == prior
  {
    var t := QuerySpec(w, OPR_MODE, 1);
    match t.status
    case WriteFailed => Run(1, prior, t.wire)
    case ReadFailed => Run(2, prior, t.wire)
    case Ok => Run(0, LowNibble(t.data[0]), t.wire)
  }

  method GetMode(bus: Bus, prior: int) returns (rc: int, mode: int)
    modifies bus
    ensures var r := GetModeSpec(old(bus.State()), prior);
      rc == r.code && mode == r.value && bus.State() == r.wire
  {
    var status, data := bus.Query(OPR_MODE, 1);
    if status == WriteFailed {
      return 1, prior;
    }
    if status == ReadFailed {
      return 2, prior;
    }
    return 0, LowNibble(data[0]);
  }

  /** `get_power`: read PWR_MODE and keep its low two bits; codes as for
      `get_mode`. */
  function GetPowerSpec(w: Wire, prior: int): (r: Run<int>)
    ensures r.code == 0 || r.code == 1 || r.code == 2
    ensures r.code == 1 <==> !SendOk(w)
    ensures r.wire.trace == w.trace + if r.code == 1 then [Write([PWR_MODE])] else Select(PWR_MODE, 1)
    ensures r.code == 0 ==>
      |w.replies| >= 2 && w.replies[1].Done? && |w.replies[1].data| == 1
      && r.value == w.replies[1].data[0] % 4 && r.wire.replies == w.replies[2..]
    ensures r.code != 0 ==> r.value == prior
  {
    var t := QuerySpec(w, PWR_MODE, 1);
    match t.status
    case WriteFailed => Run(1, prior, t.wire)
    case ReadFailed => Run(2, prior, t.wire)
    case Ok => Run(0, PowerField(t.data[0]), t.wire)
  }

  method GetPower(bus: Bus, prior: int) returns (rc: int, mode: int)
    modifies bus
    ensures var r := GetPowerSpec(old(bus.State()), prior);
      rc == r.code && mode == r.value && bus.State() == r.wire
  {
    var status, data := bus.Query(PWR_MODE, 1);
    if status == WriteFailed {
      return 1, prior;
    }
    if status == ReadFailed {
      return 2, prior;
    }
    return 0, PowerField(data[0]);
  }

  // ---------------------------------------------------------------------
  // set_mode

  /** Whether `set_mode` passes through CONFIG: only when leaving one
      non-CONFIG mode for another. */
  predicate Transit(oldMode: int, newMode: int)
  {
    oldMode > CONFIG && newMode > CONFIG
  }

  /** `set_mode`: read the current mode (failure: `1 | code << 8`) and stop
      if it is already `newMode`; otherwise change it. */
  function SetModeSpec(w: Wire, newMode: int): (r: Outcome)
    ensures r.code in {0, 2, 3, Nest(1, 1), Nest(1, 2), Nest(4, 1), Nest(4, 2)}
  {
    var g := GetModeSpec(w, 0);
    if g.code != 0 then Outcome(Nest(1, g.code), g.wire)
    else if g.value == newMode then Outcome(0, g.wire)
    else ChangeModeSpec(g.wire, g.value, newMode)
  }

  /** The codes `set_mode` fails with. */
  predicate ModeFailure(code: int)
  {
    code in {2, 3, Nest(1, 1), Nest(1, 2), Nest(4, 1), Nest(4, 2)}
  }

  /** Leaving `oldMode` for `newMode`: between two non-CONFIG modes, write
      CONFIG first (failure: 2) and wait 10 ms; then write the new mode. */
  function ChangeModeSpec(w: Wire, oldMode: int, newMode: int): (r: Outcome)
    ensures r.code in {0, 2, 3, Nest(4, 1), Nest(4, 2)}
  {
    if !Transit(oldMode, newMode) then WriteModeSpec(w, newMode)
    else if !SendOk(w) then Outcome(2, Send(w, [OPR_MODE, ToByte(CONFIG)]))
    else WriteModeSpec(Wait(Send(w, [OPR_MODE, ToByte(CONFIG)]), ANY_TO_CONFIG_MS), newMode)
  }

  /** Write `newMode` (failure: 3), wait 25 ms and read the mode back
      (failure: `4 | code << 8`): 0 if it reads `newMode`, 3 if it does not. */
  function WriteModeSpec(w: Wire, newMode: int): (r: Outcome)
    ensures r.code in {0, 3, Nest(4, 1), Nest(4, 2)}
  {
    var w1 := Send(w, [OPR_MODE, ToByte(newMode)]);
    if !SendOk(w) then Outcome(3, w1)
    else
      var c := GetModeSpec(Wait(w1, CONFIG_TO_ANY_MS), 0);
      if c.code != 0 then Outcome(Nest(4, c.code), c.wire)
      else Outcome(if c.value == newMode then 0 else 3, c.wire)
  }

  method SetMode(bus: Bus, newMode: int) returns (rc: int)
    modifies bus
    ensures var r := SetModeSpec(old(bus.State()), newMode);
      rc == r.code && bus.State() == r.wire
  {
    var code, oldMode := GetMode(bus, 0);
    if code != 0 {
      return Nest(1, code);
    }
    if oldMode == newMode {
      return 0;
    }
    if Transit(oldMode, newMode) {
      var ok := bus.Transmit([OPR_MODE, ToByte(CONFIG)]);
      if !ok {
        return 2;
      }
      bus.Pause(ANY_TO_CONFIG_MS);
    }
    var ok := bus.Transmit([OPR_MODE, ToByte(newMode)]);
    if !ok {
      return 3;
    }
    bus.Pause(CONFIG_TO_ANY_MS);
    var currMode;
    code, currMode := GetMode(bus, 0);
    if code != 0 {
      return Nest(4, code);
    }
    rc := if currMode == newMode then 0 else 3;
  }

  /** Writing `mode` into OPR_MODE and letting it settle for 25 ms. */
  function ModeWrite(mode: int): seq<Op>
  {
    [Write([OPR_MODE, ToByte(mode)]), Sleep(CONFIG_TO_ANY_MS)]
  }

  /** The writes and pauses `set_mode` makes once it has found the device in
      `oldMode`, a mode other than `newMode`, before it reads the mode back. */
  function SetModeWrites(oldMode: int, newMode: int): seq<Op>
  {
    (if Transit(oldMode, newMode) then [Write([OPR_MODE, ToByte(CONFIG)]), Sleep(ANY_TO_CONFIG_MS)] else [])
    + ModeWrite(newMode)
  }

  /** Already in the requested mode: `set_mode` returns 0 after the one
      query, with no register write and no pause. */
  lemma SetModeNoop(w: Wire, newMode: int)
    requires GetModeSpec(w, 0).code == 0 && GetModeSpec(w, 0).value == newMode
    ensures var r := SetModeSpec(w, newMode);
      r.code == 0 && r.wire.trace == w.trace + Select(OPR_MODE, 1)
      && Stores(Select(OPR_MODE, 1), OPR_MODE) == [] && PauseTime(Select(OPR_MODE, 1)) == 0
  {
    var sel := Select(OPR_MODE, 1);
    assert sel[1..][1..] == [];
  }

  /** The mode write and its read-back are the plan `ModeWrite` + query,
      stopped at the first failing transfer: 0 exactly when all of it
      completes and the mode read back is `newMode`; 3 both when the write
      fails and when another mode is read back. */
  lemma WriteModeSteps(w: Wire, newMode: int)
    ensures var plan := ModeWrite(newMode) + Select(OPR_MODE, 1);
      var r := WriteModeSpec(w, newMode);
      var c := GetModeSpec(Wire([], Left(ModeWrite(newMode), w.replies)), 0);
      r.wire.trace == w.trace + Issued(plan, w.replies)
      && r.wire.replies == Left(plan, w.replies)
      && (r.code == 0 <==> Completes(plan, w.replies) && c.value == newMode)
      && (r.code == 3 <==> !SendOk(w) || (Completes(plan, w.replies) && c.value != newMode))
  {
    var sel := Select(OPR_MODE, 1);
    var frame := [OPR_MODE, ToByte(newMode)];
    WriteWait(frame, CONFIG_TO_ANY_MS, sel, w.replies);
    WriteWait(frame, CONFIG_TO_ANY_MS, [], w.replies);
    assert ModeWrite(newMode) + [] == ModeWrite(newMode);
    if SendOk(w) {
      WriteModeOk(w, newMode);
    }
  }

  /** `WriteModeSteps` once the mode write completes. */
  lemma WriteModeOk(w: Wire, newMode: int)
    requires SendOk(w)
    ensures var plan := ModeWrite(newMode) + Select(OPR_MODE, 1);
      var r := WriteModeSpec(w, newMode);
      var c := GetModeSpec(Wire([], Rest(w.replies)), 0);
      r.wire.trace == w.trace + (ModeWrite(newMode) + Issued(Select(OPR_MODE, 1), Rest(w.replies)))
      && r.wire.replies == Left(Select(OPR_MODE, 1), Rest(w.replies))
      && (r.code == 0 <==> Completes(Select(OPR_MODE, 1), Rest(w.replies)) && c.value == newMode)
      && (r.code == 3 <==> Completes(Select(OPR_MODE, 1), Rest(w.replies)) && c.value != newMode)
  {
    ReadBackSteps(w, newMode);
    var w2 := Wait(Send(w, [OPR_MODE, ToByte(newMode)]), CONFIG_TO_ANY_MS);
    AppendAssoc(w.trace, ModeWrite(newMode), Issued(Select(OPR_MODE, 1), Rest(w.replies)));
  }

  /** Once the mode write completes, the rest of `WriteModeSpec` is the
      read-back query after the 25 ms pause. */
  lemma ReadBackSteps(w: Wire, newMode: int)
    requires SendOk(w)
    ensures var w2 := Wait(Send(w, [OPR_MODE, ToByte(newMode)]), CONFIG_TO_ANY_MS);
      var t := QuerySpec(w2, OPR_MODE, 1);
      var u := QuerySpec(Wire([], Rest(w.replies)), OPR_MODE, 1);
      w2.trace == w.trace + ModeWrite(newMode)
      && t.wire.trace == w2.trace + Issued(Select(OPR_MODE, 1), Rest(w.replies))
      && t.wire.replies == Left(Select(OPR_MODE, 1), Rest(w.replies))
      && (t.status == Ok <==> Completes(Select(OPR_MODE, 1), Rest(w.replies)))
      && t.status == u.status && t.data == u.data
  {
    var w2 := Wait(Send(w, [OPR_MODE, ToByte(newMode)]), CONFIG_TO_ANY_MS);
    QueryIssued(w2, OPR_MODE, 1);
    QueryIssued(Wire([], Rest(w.replies)), OPR_MODE, 1);
  }

  /** A real mode change runs `SetModeWrites` and the read-back query,
      stopped at the first failing transfer: 2 exactly when the switch to
      CONFIG fails, 0 exactly when everything completes and the mode read
      back is `newMode`. */
  lemma ChangeModeSteps(w: Wire, oldMode: int, newMode: int)
    ensures var writes := SetModeWrites(oldMode, newMode);
      var plan := writes + Select(OPR_MODE, 1);
      var r := ChangeModeSpec(w, oldMode, newMode);
      var c := GetModeSpec(Wire([], Left(writes, w.replies)), 0);
      r.wire.trace == w.trace + Issued(plan, w.replies)
      && r.wire.replies == Left(plan, w.replies)
      && (r.code == 0 <==> Completes(plan, w.replies) && c.value == newMode)
      && (r.code == 2 <==> Transit(oldMode, newMode) && !SendOk(w))
      && (r.code == 3 <==> (!Completes(writes, w.replies) && r.code != 2) || (Completes(plan, w.replies) && c.value != newMode))
  {
    var sel := Select(OPR_MODE, 1);
    if !Transit(oldMode, newMode) {
      assert SetModeWrites(oldMode, newMode) == ModeWrite(newMode) == ModeWrite(newMode) + [];
      WriteWait([OPR_MODE, ToByte(newMode)], CONFIG_TO_ANY_MS, [], w.replies);
      WriteModeSteps(w, newMode);
    } else {
      var frame := [OPR_MODE, ToByte(CONFIG)];
      var tail := ModeWrite(newMode);
      assert SetModeWrites(oldMode, newMode) + sel == [Write(frame), Sleep(ANY_TO_CONFIG_MS)] + (tail + sel);
      WriteWait(frame, ANY_TO_CONFIG_MS, tail + sel, w.replies);
      WriteWait(frame, ANY_TO_CONFIG_MS, tail, w.replies);
      if SendOk(w) {
        TransitSteps(w, newMode);
      }
    }
  }

  /** The part of `ChangeModeSteps` after a successful switch to CONFIG. */
  lemma TransitSteps(w: Wire, newMode: int)
    requires SendOk(w)
    ensures var frame := [OPR_MODE, ToByte(CONFIG)];
      var plan := ModeWrite(newMode) + Select(OPR_MODE, 1);
      var r := WriteModeSpec(Wait(Send(w, frame), ANY_TO_CONFIG_MS), newMode);
      var c := GetModeSpec(Wire([], Left(ModeWrite(newMode), Rest(w.replies))), 0);
      r.wire.trace == w.trace + ([Write(frame), Sleep(ANY_TO_CONFIG_MS)] + Issued(plan, Rest(w.replies)))
      && r.wire.replies == Left(plan, Rest(w.replies))
      && (r.code == 0 <==> Completes(plan, Rest(w.replies)) && c.value == newMode)
      && (r.code == 3 <==> !Completes(ModeWrite(newMode), Rest(w.replies)) || (Completes(plan, Rest(w.replies)) && c.value != newMode))
  {
    var frame := [OPR_MODE, ToByte(CONFIG)];
    var w1 := Wait(Send(w, frame), ANY_TO_CONFIG_MS);
    WriteModeSteps(w1, newMode);
    WriteWait([OPR_MODE, ToByte(newMode)], CONFIG_TO_ANY_MS, [], Rest(w.replies));
    assert ModeWrite(newMode) + [] == ModeWrite(newMode);
    assert w1.trace == w.trace + [Write(frame), Sleep(ANY_TO_CONFIG_MS)];
    assert w1.replies == Rest(w.replies);
    AppendAssoc(w.trace, [Write(frame), Sleep(ANY_TO_CONFIG_MS)], Issued(ModeWrite(newMode) + Select(OPR_MODE, 1), Rest(w.replies)));
  }

  /** When a mode change goes through, the device spends 10 ms in CONFIG
      (between two non-CONFIG modes only) and then 25 ms settling in the new
      mode; the last value stored into OPR_MODE is the new mode. */
  lemma SetModeSettles(oldMode: int, newMode: int)
    ensures PauseTime(SetModeWrites(oldMode, newMode))
      == (if Transit(oldMode, newMode) then ANY_TO_CONFIG_MS else 0) + CONFIG_TO_ANY_MS
    ensures Stores(SetModeWrites(oldMode, newMode), OPR_MODE)
      == (if Transit(oldMode, newMode) then [[ToByte(CONFIG)]] else []) + [[ToByte(newMode)]]
  {
    var ops, tail := SetModeWrites(oldMode, newMode), ModeWrite(newMode);
    assert tail[1..][1..] == [];
    assert [OPR_MODE, ToByte(newMode)][1..] == [ToByte(newMode)];
    assert Stores(tail[1..], OPR_MODE) == [];
    assert Stores(tail, OPR_MODE) == [[ToByte(newMode)]];
    assert PauseTime(tail[1..]) == CONFIG_TO_ANY_MS;
    if Transit(oldMode, newMode) {
      assert ops[1..][1..] == tail;
      assert [OPR_MODE, ToByte(CONFIG)][1..] == [ToByte(CONFIG)];
      assert Stores(ops[1..], OPR_MODE) == Stores(tail, OPR_MODE);
    } else {
      assert ops == tail;
    }
  }

  /** The mode write stores `newMode` into OPR_MODE, whether or not it
      completes, and nothing into any other register. */
  lemma WriteModeStores(w: Wire, newMode: int, reg: Byte)
    ensures Stores(WriteModeSpec(w, newMode).wire.trace, reg)
      == Stores(w.trace, reg) + if reg == OPR_MODE then [[ToByte(newMode)]] else []
  {
    var w1 := Send(w, [OPR_MODE, ToByte(newMode)]);
    StoresAfterWrite(w.trace, OPR_MODE, ToByte(newMode), reg);
    if SendOk(w) {
      StoresAfterSleep(w1.trace, CONFIG_TO_ANY_MS, reg);
      QueryStoresNothing(Wait(w1, CONFIG_TO_ANY_MS), OPR_MODE, 1, reg);
    }
  }

  /** The values a real mode change stores into OPR_MODE: CONFIG first when
      it passes through CONFIG, then `newMode` unless that first write
      failed. */
  function ChangeModeStored(oldMode: int, newMode: int, firstOk: bool): seq<seq<Byte>>
  {
    if Transit(oldMode, newMode) then [[ToByte(CONFIG)]] + (if firstOk then [[ToByte(newMode)]] else [])
    else [[ToByte(newMode)]]
  }

  lemma ChangeModeStores(w: Wire, oldMode: int, newMode: int, reg: Byte)
    ensures Stores(ChangeModeSpec(w, oldMode, newMode).wire.trace, reg)
      == Stores(w.trace, reg) + if reg == OPR_MODE then ChangeModeStored(oldMode, newMode, SendOk(w)) else []
  {
    if Transit(oldMode, newMode) {
      var w1 := Send(w, [OPR_MODE, ToByte(CONFIG)]);
      StoresAfterWrite(w.trace, OPR_MODE, ToByte(CONFIG), reg);
      if SendOk(w) {
        StoresAfterSleep(w1.trace, ANY_TO_CONFIG_MS, reg);
        WriteModeStores(Wait(w1, ANY_TO_CONFIG_MS), newMode, reg);
      }
    } else {
      WriteModeStores(w, newMode, reg);
    }
  }

  /** `set_mode` stores into no register but OPR_MODE, and when it returns 0
      it has either found the device already in `newMode` and stored
      nothing, or stored `newMode` last. */
  lemma SetModeStores(w: Wire, newMode: int, reg: Byte)
    ensures var r := SetModeSpec(w, newMode);
      reg != OPR_MODE ==> Stores(r.wire.trace, reg) == Stores(w.trace, reg)
    ensures var r := SetModeSpec(w, newMode);
      var before, after := Stores(w.trace, OPR_MODE), Stores(r.wire.trace, OPR_MODE);
      r.code == 0 ==>
        (after == before && GetModeSpec(w, 0).value == newMode)
        || (|after| > |before| && after[..|before|] == before && after[|after| - 1] == [ToByte(newMode)])
  {
    var g := GetModeSpec(w, 0);
    QueryStoresNothing(w, OPR_MODE, 1, reg);
    QueryStoresNothing(w, OPR_MODE, 1, OPR_MODE);
    if g.code == 0 && g.value != newMode {
      ChangeModeStores(g.wire, g.value, newMode, reg);
      ChangeModeStores(g.wire, g.value, newMode, OPR_MODE);
      var r := SetModeSpec(w, newMode);
      if r.code == 0 {
        assert !Transit(g.value, newMode) || SendOk(g.wire);
        var added := ChangeModeStored(g.value, newMode, SendOk(g.wire));
        assert added[|added| - 1] == [ToByte(newMode)];
      }
    }
  }

  // ---------------------------------------------------------------------
  // set_power

  /** `set_power`: read the current mode (failure: `1 | code << 8`), then
      switch the power mode from it. */
  function SetPowerSpec(w: Wire, power: int): (r: Outcome)
    ensures r.code in {0, 2, 3, 4, 6, Nest(1, 1), Nest(1, 2), Nest(5, 1), Nest(5, 2)}
  {
    var g := GetModeSpec(w, 0);
    if g.code != 0 then Outcome(Nest(1, g.code), g.wire)
    else EnterConfigSpec(g.wire, g.value, power)
  }

  /** Outside CONFIG, write CONFIG first (failure: 2) and wait 30 ms. */
  function EnterConfigSpec(w: Wire, oldMode: int, power: int): (r: Outcome)
    ensures r.code in {0, 2, 3, 4, 6, Nest(5, 1), Nest(5, 2)}
  {
    if oldMode <= CONFIG then WritePowerSpec(w, oldMode, power)
    else if !SendOk(w) then Outcome(2, Send(w, [OPR_MODE, ToByte(CONFIG)]))
    else WritePowerSpec(Wait(Send(w, [OPR_MODE, ToByte(CONFIG)]), POWER_SWITCH_MS), oldMode, power)
  }

  /** Write the power mode (failure: 3) and wait 30 ms. */
  function WritePowerSpec(w: Wire, oldMode: int, power: int): (r: Outcome)
    ensures r.code in {0, 3, 4, 6, Nest(5, 1), Nest(5, 2)}
  {
    if !SendOk(w) then Outcome(3, Send(w, [PWR_MODE, ToByte(power)]))
    else RestoreModeSpec(Wait(Send(w, [PWR_MODE, ToByte(power)]), POWER_SWITCH_MS), oldMode, power)
  }

  /** Outside CONFIG, write the old mode back (failure: 4) and wait 30 ms. */
  function RestoreModeSpec(w: Wire, oldMode: int, power: int): (r: Outcome)
    ensures r.code in {0, 4, 6, Nest(5, 1), Nest(5, 2)}
  {
    if oldMode <= CONFIG then VerifyPowerSpec(w, power)
    else if !SendOk(w) then Outcome(4, Send(w, [OPR_MODE, ToByte(oldMode)]))
    else VerifyPowerSpec(Wait(Send(w, [OPR_MODE, ToByte(oldMode)]), POWER_SWITCH_MS), power)
  }

  /** Read the power mode back (failure: `5 | code << 8`): 0 if it reads
      `power`, 6 if it does not. */
  function VerifyPowerSpec(w: Wire, power: int): (r: Outcome)
    ensures r.code in {0, 6, Nest(5, 1), Nest(5, 2)}
  {
    var p := GetPowerSpec(w, 0);
    if p.code != 0 then Outcome(Nest(5, p.code), p.wire)
    else Outcome(if p.value == power then 0 else 6, p.wire)
  }

  method SetPower(bus: Bus, power: int) returns (rc: int)
    modifies bus
    ensures var r := SetPowerSpec(old(bus.State()), power);
      rc == r.code && bus.State() == r.wire
  {
    var code, oldMode := GetMode(bus, 0);
    if code != 0 {
      return Nest(1, code);
    }
    if oldMode > CONFIG {
      var ok := bus.Transmit([OPR_MODE, ToByte(CONFIG)]);
      if !ok {
        return 2;
      }
      bus.Pause(POWER_SWITCH_MS);
    }
    var ok := bus.Transmit([PWR_MODE, ToByte(power)]);
    if !ok {
      return 3;
    }
    bus.Pause(POWER_SWITCH_MS);
    if oldMode > CONFIG {
      ok := bus.Transmit([OPR_MODE, ToByte(oldMode)]);
      if !ok {
        return 4;
      }
      bus.Pause(POWER_SWITCH_MS);
    }
    var currPower;
    code, currPower := GetPower(bus, 0);
    if code != 0 {
      return Nest(5, code);
    }
    rc := if currPower == power then 0 else 6;
  }

  /** Writing CONFIG into OPR_MODE before a power change, only outside CONFIG. */
  function PowerEnter(oldMode: int): seq<Op>
  {
    if oldMode > CONFIG then [Write([OPR_MODE, ToByte(CONFIG)]), Sleep(POWER_SWITCH_MS)] else []
  }

  /** Writing `oldMode` back into OPR_MODE after a power change, only outside CONFIG. */
  function PowerLeave(oldMode: int): seq<Op>
  {
    if oldMode > CONFIG then [Write([OPR_MODE, ToByte(oldMode)]), Sleep(POWER_SWITCH_MS)] else []
  }

  /** The writes and pauses `set_power` makes once it has found the device
      in `oldMode`, before it reads the power mode back: the power-mode
      write, bracketed by a switch to CONFIG and back when `oldMode` is not
      CONFIG, each followed by 30 ms. */
  function SetPowerWrites(oldMode: int, power: int): seq<Op>
  {
    PowerEnter(oldMode) + ([Write([PWR_MODE, ToByte(power)]), Sleep(POWER_SWITCH_MS)] + PowerLeave(oldMode))
  }

  /** The read-back is a query of PWR_MODE: 0 when it completes and reads
      `power`, 6 when it completes and reads another power mode. */
  lemma VerifyPowerSteps(w: Wire, power: int)
    ensures var r := VerifyPowerSpec(w, power);
      var p := GetPowerSpec(Wire([], w.replies), 0);
      r.wire.trace == w.trace + Issued(Select(PWR_MODE, 1), w.replies)
      && r.wire.replies == Left(Select(PWR_MODE, 1), w.replies)
      && (r.code == 0 <==> Completes(Select(PWR_MODE, 1), w.replies) && p.value == power)
      && (r.code == 6 <==> Completes(Select(PWR_MODE, 1), w.replies) && p.value != power)
  {
    QueryIssued(w, PWR_MODE, 1);
  }

  lemma RestoreModeSteps(w: Wire, oldMode: int, power: int)
    ensures var plan := PowerLeave(oldMode) + Select(PWR_MODE, 1);
      var r := RestoreModeSpec(w, oldMode, power);
      var p := GetPowerSpec(Wire([], Left(PowerLeave(oldMode), w.replies)), 0);
      r.wire.trace == w.trace + Issued(plan, w.replies)
      && r.wire.replies == Left(plan, w.replies)
      && (r.code == 0 <==> Completes(plan, w.replies) && p.value == power)
      && (r.code == 6 <==> Completes(plan, w.replies) && p.value != power)
  {
    var sel := Select(PWR_MODE, 1);
    if oldMode > CONFIG {
      var frame := [OPR_MODE, ToByte(oldMode)];
      var later := Wait(Send(w, frame), POWER_SWITCH_MS);
      VerifyPowerSteps(later, power);
      VerifyPowerSteps(Wire([], Rest(w.replies)), power);
      WriteWaitThen(w, frame, POWER_SWITCH_MS, sel, VerifyPowerSpec(later, power).wire);
      WriteWait(frame, POWER_SWITCH_MS, sel, w.replies);
      WriteWait(frame, POWER_SWITCH_MS, [], w.replies);
      assert PowerLeave(oldMode) + [] == PowerLeave(oldMode);
    } else {
      assert PowerLeave(oldMode) + sel == sel;
      VerifyPowerSteps(w, power);
    }
  }

  lemma WritePowerSteps(w: Wire, oldMode: int, power: int)
    ensures var store := [Write([PWR_MODE, ToByte(power)]), Sleep(POWER_SWITCH_MS)];
      var writes := store + PowerLeave(oldMode);
      var plan := store + (PowerLeave(oldMode) + Select(PWR_MODE, 1));
      var r := WritePowerSpec(w, oldMode, power);
      var p := GetPowerSpec(Wire([], Left(writes, w.replies)), 0);
      r.wire.trace == w.trace + Issued(plan, w.replies)
      && r.wire.replies == Left(plan, w.replies)
      && (r.code == 0 <==> Completes(plan, w.replies) && p.value == power)
      && (r.code == 6 <==> Completes(plan, w.replies) && p.value != power)
  {
    var frame := [PWR_MODE, ToByte(power)];
    var later := Wait(Send(w, frame), POWER_SWITCH_MS);
    var tail := PowerLeave(oldMode) + Select(PWR_MODE, 1);
    RestoreModeSteps(later, oldMode, power);
    RestoreModeSteps(Wire([], Rest(w.replies)), oldMode, power);
    WriteWaitThen(w, frame, POWER_SWITCH_MS, tail, RestoreModeSpec(later, oldMode, power).wire);
    WriteWait(frame, POWER_SWITCH_MS, tail, w.replies);
    WriteWait(frame, POWER_SWITCH_MS, PowerLeave(oldMode), w.replies);
  }

  /** `set_power` runs `SetPowerWrites` and then reads PWR_MODE back,
      stopping at the first transfer that fails; it returns 0 exactly when
      everything completes and the power mode read back is `power`, and 6
      exactly when everything completes and it is another one. */
  lemma SetPowerSteps(w: Wire, power: int)
    requires GetModeSpec(w, 0).code == 0
    ensures var g := GetModeSpec(w, 0);
      var writes := SetPowerWrites(g.value, power);
      var plan := writes + Select(PWR_MODE, 1);
      var r := SetPowerSpec(w, power);
      var p := GetPowerSpec(Wire([], Left(writes, g.wire.replies)), 0);
      r.wire.trace == g.wire.trace + Issued(plan, g.wire.replies)
      && r.wire.replies == Left(plan, g.wire.replies)
      && (r.code == 0 <==> Completes(plan, g.wire.replies) && p.value == power)
      && (r.code == 6 <==> Completes(plan, g.wire.replies) && p.value != power)
  {
    var g := GetModeSpec(w, 0);
    var m, u := g.value, g.wire;
    var store := [Write([PWR_MODE, ToByte(power)]), Sleep(POWER_SWITCH_MS)];
    var sel := Select(PWR_MODE, 1);
    var inner := store + (PowerLeave(m) + sel);
    assert SetPowerWrites(m, power) + sel == PowerEnter(m) + inner;
    if m > CONFIG {
      var frame := [OPR_MODE, ToByte(CONFIG)];
      var later := Wait(Send(u, frame), POWER_SWITCH_MS);
      WritePowerSteps(later, m, power);
      WritePowerSteps(Wire([], Rest(u.replies)), m, power);
      WriteWaitThen(u, frame, POWER_SWITCH_MS, inner, WritePowerSpec(later, m, power).wire);
      WriteWait(frame, POWER_SWITCH_MS, inner, u.replies);
      WriteWait(frame, POWER_SWITCH_MS, store + PowerLeave(m), u.replies);
    } else {
      assert SetPowerWrites(m, power) == store + PowerLeave(m);
      assert SetPowerWrites(m, power) + sel == inner;
      WritePowerSteps(u, m, power);
    }
  }

  /** The bracket around the power-mode write: CONFIG goes into OPR_MODE
      before it and `oldMode` after it exactly when `oldMode` is not CONFIG,
      PWR_MODE receives `power` once, and every write waits 30 ms. */
  lemma SetPowerBracket(oldMode: int, power: int)
    ensures Stores(SetPowerWrites(oldMode, power), OPR_MODE)
      == if oldMode > CONFIG then [[ToByte(CONFIG)], [ToByte(oldMode)]] else []
    ensures Stores(SetPowerWrites(oldMode, power), PWR_MODE) == [[ToByte(power)]]
    ensures PauseTime(SetPowerWrites(oldMode, power)) == if oldMode > CONFIG then 3 * POWER_SWITCH_MS else POWER_SWITCH_MS
  {
    BracketParts(oldMode, power, OPR_MODE);
    BracketParts(oldMode, power, PWR_MODE);
    PairFacts(PWR_MODE, ToByte(power), POWER_SWITCH_MS, OPR_MODE);
    if oldMode > CONFIG {
      PairFacts(OPR_MODE, ToByte(CONFIG), POWER_SWITCH_MS, PWR_MODE);
      PairFacts(OPR_MODE, ToByte(oldMode), POWER_SWITCH_MS, PWR_MODE);
    } else {
      assert PowerEnter(oldMode) == [] && PowerLeave(oldMode) == [];
    }
  }

  /** What `SetPowerWrites` stores and how long it pauses, part by part. */
  lemma BracketParts(oldMode: int, power: int, reg: Byte)
    ensures var store := [Write([PWR_MODE, ToByte(power)]), Sleep(POWER_SWITCH_MS)];
      var enter, leave := PowerEnter(oldMode), PowerLeave(oldMode);
      Stores(SetPowerWrites(oldMode, power), reg) == Stores(enter, reg) + Stores(store, reg) + Stores(leave, reg)
      && PauseTime(SetPowerWrites(oldMode, power)) == PauseTime(enter) + PauseTime(store) + PauseTime(leave)
  {
    var store := [Write([PWR_MODE, ToByte(power)]), Sleep(POWER_SWITCH_MS)];
    var enter, leave := PowerEnter(oldMode), PowerLeave(oldMode);
    StoresAppend(enter, store + leave, reg);
    StoresAppend(store, leave, reg);
    PauseAppend(enter, store + leave);
    PauseAppend(store, leave);
  }
}
