# BNO055 driver model

This project is a Dafny model of the register-level core of pi-bno055, a Linux I2C driver for the Bosch BNO055 absolute-orientation sensor. It covers three source files:

- `libbno055.c`, the driver library: operating and power modes, register pages, calibration status and offsets, the axis remap, the information block, the sensor samples, register dumps, resets, calibration load and save, and the accelerometer configuration.
- `i2c_bno055.c`, the older driver: it sets the defaults, reads the calibration state and offsets and the information block, sets the mode and resets the chip.
- `print.c`: the code-to-text tables.

The I2C bus is the class `RegisterIO.Bus`. Its `trace` holds every operation the driver issued (write frame, read of n bytes, sleep of n ms). Its `replies` are the scripted answers of the device: one reply per write or read, which succeeds, returns data, or fails. Each driver function is a method over the bus. Its `ensures` ties the return code, the new bus state and the output record to a pure `...Spec` function of the old state. The lemmas about those functions state what the driver promises, for example:

- which registers it writes, and with what;
- how long it sleeps;
- which register page it leaves selected;
- which code each failure returns;
- how the bytes read become values.

A composite return code `step | (inner << 8)` is `Nest(step, inner) = step + 256 * inner`; a lemma proves this equal to the bit-or. A process exit is the `Exited` ending of a `Finish`. A C structure the driver fills in is a class whose fields the methods update (`CalRecord`, `InfoRecord`, `AccConfRecord`). Bytes are 0..255: `char` is taken as unsigned, as on the ARM boards the driver is written for.

The `print.c` functions are pure functions in module `Labels`:

- A function that returns 0 or -1 is `Some(label)` or `None`.
- `print_unit` and `print_acc_conf` return the pieces of text they print.

## Model

| member | source | states |
|---|---|---|
| RegisterIO.Bus.Transmit | libbno055.c:99-102 | a write of a frame succeeds exactly when the next reply is a success, and appends the write to the trace |
| RegisterIO.Bus.Receive | libbno055.c:106-109 | a read of n bytes succeeds exactly when the next reply carries n bytes; the data returned are that reply's bytes |
| RegisterIO.Bus.Pause | libbno055.c:146 | a sleep adds its time to the trace and consumes no reply |
| RegisterIO.Bus.Query | libbno055.c:97-109 | select-then-read: a write of the register address, then a read; the write failure and the read failure are told apart, and on success the data are the read reply's bytes |
| RegisterIO.QuerySpec | libbno055.c:97-109 | the select-then-read transaction fails at the write exactly when the first reply fails; on success it returns the n bytes of the second reply and consumes two replies |
| RegisterIO.QueryIssued | libbno055.c:97-109 | the trace of a transaction is the prefix of [select, read] that the device let through, and it succeeds exactly when both complete |
| RegisterIO.QueryStoresNothing | libbno055.c:97-109 | a select-then-read transaction writes no register value |
| RegisterIO.QueryAt | libbno055.c:97-109 | a query that starts at reply k takes reply k for the address write and reply k + 1 for the read: on success it returns that reply's bytes and leaves the replies from k + 2 on, and a failed read means reply k + 1 did not deliver n bytes |
| RegisterIO.AnswersStep | libbno055.c:545-649 | an answered single-byte read in front of answered ones extends the run of answered reads by one |
| Bits.Nest | libbno055.c:130 | the composite code keeps the step in its low byte and the inner code above it |
| Bits.NestIsBitOr | libbno055.c:130 | the composite code equals the bit-or of the step with the inner code shifted left by 8 |
| OperatingMode.GetModeSpec | libbno055.c:96-116 | code 1 on a write failure, 2 on a read failure, keeping the old mode; on success the mode is the low four bits of the byte read |
| OperatingMode.GetMode | libbno055.c:96-116 | the method returns the code and the mode of `GetModeSpec` and leaves the bus in its state |
| OperatingMode.GetPowerSpec | libbno055.c:305-325 | code 1 or 2 on a failure; on success the power mode is the low two bits of the byte read |
| OperatingMode.GetPower | libbno055.c:305-325 | the method follows `GetPowerSpec` |
| OperatingMode.SetModeSpec | libbno055.c:123-170 | every return code of `set_mode` is one of 0, 2, 3, Nest(1, 1..2) or Nest(4, 1..2) |
| OperatingMode.ChangeModeSpec | libbno055.c:133-169 | after the mode read, set_mode returns 0, 2, 3 or Nest(4, 1..2) |
| OperatingMode.WriteModeSpec | libbno055.c:149-169 | the direct mode write and its read-back return 0, 3 or Nest(4, 1..2) |
| OperatingMode.SetMode | libbno055.c:123-170 | the method follows `SetModeSpec` |
| OperatingMode.SetModeNoop | libbno055.c:132 | when the device already is in the new mode, set_mode only reads the mode, writes nothing, sleeps not at all and returns 0 |
| OperatingMode.WriteModeSteps | libbno055.c:150-169 | after a write of the new mode and 25 ms, the mode is read back; the result is 0 exactly when every step completes and the mode read back is the new one; 3 comes both from a failed write and from a mismatched read-back |
| OperatingMode.WriteModeOk | libbno055.c:150-169 | the same steps once the mode write has gone through |
| OperatingMode.ReadBackSteps | libbno055.c:161-167 | the read-back after the mode write and the 25 ms wait sees the replies that follow the write |
| OperatingMode.ChangeModeSteps | libbno055.c:133-169 | a change between two non-CONFIG modes first writes CONFIG and waits 10 ms; code 2 exactly when that write fails; the read-back decides 0 and 3 |
| OperatingMode.TransitSteps | libbno055.c:133-169 | after the CONFIG write, the remaining steps consume the replies that follow it |
| OperatingMode.SetModeSettles | libbno055.c:133-161 | the writes of a mode change store CONFIG then the new mode (only the new mode when no transit is needed) into OPR_MODE, and wait 10 + 25 ms or 25 ms |
| OperatingMode.WriteModeStores | libbno055.c:150-169 | the direct mode write stores only the new mode, and only into OPR_MODE |
| OperatingMode.ChangeModeStores | libbno055.c:133-169 | a mode change writes no register other than OPR_MODE |
| OperatingMode.SetModeStores | libbno055.c:123-170 | set_mode writes no other register; on success either nothing was written because the mode was already set, or the last value stored into OPR_MODE is the new mode |
| OperatingMode.SetPowerSpec | libbno055.c:332-400 | every return code of `set_power` is one of 0, 2, 3, 4, 6, Nest(1, ·) or Nest(5, ·) |
| OperatingMode.EnterConfigSpec | libbno055.c:347-399 | from the CONFIG write on, set_power returns 0, 2, 3, 4, 6 or Nest(5, 1..2) |
| OperatingMode.WritePowerSpec | libbno055.c:364-399 | from the power write on, set_power returns 0, 3, 4, 6 or Nest(5, 1..2) |
| OperatingMode.RestoreModeSpec | libbno055.c:379-399 | from the mode write-back on, set_power returns 0, 4, 6 or Nest(5, 1..2) |
| OperatingMode.VerifyPowerSpec | libbno055.c:393-399 | the power read-back returns 0, 6 or Nest(5, 1..2) |
| OperatingMode.SetPower | libbno055.c:332-400 | the method follows `SetPowerSpec` |
| OperatingMode.VerifyPowerSteps | libbno055.c:395-399 | the final read of the power mode gives 0 when it matches the requested mode and 6 when it does not |
| OperatingMode.RestoreModeSteps | libbno055.c:377-399 | the old mode is restored, with 30 ms, before the power mode is verified |
| OperatingMode.WritePowerSteps | libbno055.c:362-399 | the power mode is written and followed by 30 ms, then the old mode is restored and the power mode is verified |
| OperatingMode.SetPowerSteps | libbno055.c:332-400 | after reading the mode, set_power issues the bracket writes and the verification read in order; 0 exactly when all complete and the power mode matches, 6 when it does not match |
| OperatingMode.SetPowerBracket | libbno055.c:344-390 | from a non-CONFIG mode the power write is bracketed by a CONFIG write and a write back of the old mode, with 3 × 30 ms; from CONFIG, only the power write with 30 ms |
| OperatingMode.BracketParts | libbno055.c:344-390 | the register writes and waits of set_power are those of entering CONFIG, the power write and the mode restore, in that order |
| RegisterPages.SetPageSpec | libbno055.c:58-89 | selecting a page stores it into PAGE_ID, leaves that page selected, writes no other register, does not wait, and returns 1 exactly on a write failure |
| RegisterPages.SetPage0 | libbno055.c:58-71 | the method follows `SetPageSpec` for page 0 |
| RegisterPages.SetPage1 | libbno055.c:76-89 | the method follows `SetPageSpec` for page 1 |
| RegisterPages.AccConfReads | libbno055.c:1306-1365 | the two configuration reads on page 1 return codes 1 to 4 by failure and write no register; 1 and 2 keep the record, 3 and 4 hold the ACC_Config fields decoded from reply 1, and 0 adds the sleep fields decoded from reply 3, with range and sleep mode 0 as the masks give |
| RegisterPages.GetAccConfSpec | libbno055.c:1303-1370 | whatever code get_acc_conf returns, it has selected page 1 and then page 0 and written nothing else; codes 1 and 2 keep the record (its contents by code are in `GetAccConfValues`) |
| RegisterPages.GetAccConf | libbno055.c:1303-1370 | the method follows `GetAccConfSpec` and updates the configuration record |
| RegisterPages.GetAccConfSteps | libbno055.c:1303-1370 | the two selects and reads happen between the page 1 and the page 0 write; 0 exactly when both complete |
| RegisterPages.GetAccConfValues | libbno055.c:1303-1369 | codes 1 and 2 keep the record; codes 3 and 4 hold only the ACC_Config fields decoded from reply 2; code 0 holds the ACC_Config fields of reply 2 and the sleep fields of reply 4, both replies being answered one-byte reads |
| RegisterPages.GetAccConfFields | libbno055.c:1325-1362 | on success the record is range 0, bandwidth bit 4 and power mode bits 7-6 of the ACC_Config byte, sleep mode 0 and sleep duration bit 4 of the ACC_Sleep_Config byte |
| RegisterPages.DumpRows | libbno055.c:1039-1058 | reading the eight rows of a page writes no register and does not wait |
| RegisterPages.DumpSpec | libbno055.c:1030-1098 | every return code of bno_dump is 0 to 4 |
| RegisterPages.DumpWith | libbno055.c:1039-1097 | with any row address, the dump returns 0 to 4: 1 and 2 from page 0, 3 and 4 from page 1 |
| RegisterPages.DumpSecondPage | libbno055.c:1061-1097 | the second page of the dump returns 0, 3 or 4 |
| RegisterPages.DumpRowStarts | libbno055.c:1039-1051 | each dump row first writes its row address `stride * row` as a one-byte register address, and when that completes reads 16 bytes |
| RegisterPages.DumpRowsExtend | libbno055.c:1039-1058 | the later rows of a dump only add to the trace |
| RegisterPages.BnoDump | libbno055.c:1030-1098 | the method follows `DumpSpec` |
| RegisterPages.DumpSecondPages | libbno055.c:1060-1095 | the second page is selected with 50 ms; page 0 is selected again, with another 50 ms, only when every row of page 1 was read |
| RegisterPages.DumpPages | libbno055.c:1030-1098 | a failure on page 0 writes no page; a failure on page 1 leaves page 1 selected; success leaves page 0 selected after 100 ms of waits |
| RegisterPages.DumpOverlaps | libbno055.c:1039-1041 | with the address written as the row number, rows 0 and 1 both cover register 1, and no row covers register 0x17 |
| RegisterPages.DumpCovers | libbno055.c:1039-1058 | with the address written as 16 × the row number, every register of the page lies in exactly one row |
| RegisterPages.ResetSpec | libbno055.c:1103-1122 | bno_reset returns 1 on a write failure; otherwise it writes RST_SYS into SYS_TRIGGER, waits 650 ms and exits with status 0 |
| RegisterPages.BnoReset | libbno055.c:1103-1122 | the method follows `ResetSpec` |
| RegisterPages.WaitFacts | libbno055.c:1062 | a wait writes no register and adds its time |
| DeviceStatus.ByteRead | libbno055.c:1005-1025 | a one-byte register read returns the byte on success and the caller's codes on a write or read failure, keeping the old value |
| DeviceStatus.ReadByte | libbno055.c:1005-1025 | the method follows `ByteRead` |
| DeviceStatus.GetCalStatusSpec | libbno055.c:176-205 | codes 1 and 2 on failure keep the record; on success the four 2-bit calibration states are the fields of the byte read |
| DeviceStatus.GetCalStatus | libbno055.c:176-205 | the method follows `GetCalStatusSpec` and leaves the offsets alone |
| DeviceStatus.GetRemapSpec | libbno055.c:405-432 | a selector other than 'c' or 's' returns 1 with no bus operation; 'c' reads AXIS_MAP_CONFIG and 's' reads AXIS_MAP_SIGN; codes 2 and 3 on failure |
| DeviceStatus.GetRemap | libbno055.c:405-432 | the method follows `GetRemapSpec` |
| DeviceStatus.GetInfSpec | libbno055.c:438-652 | every code of get_inf is 0, 1, 2, 7, 8, 10 to 16 or a nested mode or remap failure; codes 1 and 2 keep the record (the record's contents by code are in `GetInfValues`) |
| DeviceStatus.GetInf | libbno055.c:438-652 | the method follows `GetInfSpec` and updates the information record |
| DeviceStatus.InfModes | libbno055.c:503-652 | the steps after the identity block, from the operating and power mode reads on, each nested failure keeping its own step code |
| DeviceStatus.InfRemap | libbno055.c:525-652 | the steps from the axis remap on |
| DeviceStatus.InfStatus | libbno055.c:545-652 | code 8 comes both from the failed read of SYS_STAT and from the failed select of SELFTEST_RESULT |
| DeviceStatus.InfUnits | libbno055.c:607-652 | the unit selection and temperature reads return 13 to 16 by failure |
| DeviceStatus.ReadInfModes | libbno055.c:503-652 | the method follows `InfModes` |
| DeviceStatus.ReadInfRemap | libbno055.c:525-652 | the method follows `InfRemap` |
| DeviceStatus.ReadInfStatus | libbno055.c:545-652 | the method follows `InfStatus` |
| DeviceStatus.ReadInfUnits | libbno055.c:607-652 | the method follows `InfUnits` |
| DeviceStatus.InfUnitsSteps | libbno055.c:607-651 | the last two reads stop at the first failure and issue nothing after it |
| DeviceStatus.InfStatusSteps | libbno055.c:545-651 | the same from SYS_STAT on |
| DeviceStatus.InfRemapSteps | libbno055.c:525-651 | the same from the remap on |
| DeviceStatus.InfModesSteps | libbno055.c:503-651 | the same from the mode on |
| DeviceStatus.GetInfSteps | libbno055.c:438-652 | get_inf stops at the first failed transfer, issues nothing after it, and returns 0 exactly when every transfer completes |
| DeviceStatus.InfEightAmbiguous | libbno055.c:554-570 | two different failures, at different points of the trace, both return 8 |
| DeviceStatus.IdentityOf | libbno055.c:446-484 | the identity block is seven bytes |
| DeviceStatus.ByteReadAt | libbno055.c:545-649 | a one-byte read that starts at reply k returns the byte of reply k + 1 and leaves the replies from k + 2 on; a failed read means reply k + 1 did not answer |
| DeviceStatus.InfUnitsValues | libbno055.c:607-651 | steps 13 to 16 store the unit selection and the temperature, each from its own reply, and stop storing at the first failure |
| DeviceStatus.InfStatusValues | libbno055.c:545-651 | steps 7 to 12 store the system status, the low four bits of the self-test result and the system error; code 8 has stored the status exactly when its read was answered |
| DeviceStatus.InfRemapValues | libbno055.c:525-651 | steps 5 and 6 store the two remap bytes before the status steps |
| DeviceStatus.InfModesValues | libbno055.c:503-651 | steps 3 and 4 store the low four bits of the mode and the low two bits of the power mode before the remap steps |
| DeviceStatus.GetInfValues | libbno055.c:438-652 | for every return code, the record holds exactly the stores get_inf made before returning, each from its own reply, and nothing else changed: codes 1 and 2 keep the record, a nested or register failure keeps the steps before it, and 0 has every read answered |
| DeviceStatus.GetInfComplete | libbno055.c:438-652 | on success the record holds the seven identity bytes, the mode and self-test low nibbles, the power mode's low two bits, the remap bytes and the status, error, unit and temperature bytes, each from its own reply |
| DeviceStatus.InfAfterAll | libbno055.c:455-649 | the ten stores of get_inf, one after the other, fill every field of the record |
| DeviceStatus.GetClockSourceSpec | libbno055.c:974-1000 | codes 1 and 2 on failure, after which page 0 is selected; on success the clock source is bit 7 of SYS_TRIGGER |
| DeviceStatus.GetClockSource | libbno055.c:974-1000 | the method follows `GetClockSourceSpec` |
| DeviceStatus.GetSysStatusSpec | libbno055.c:1005-1025 | codes 1 and 2 on failure; on success the status is the byte read |
| DeviceStatus.GetSysStatus | libbno055.c:1005-1025 | the method follows `GetSysStatusSpec` |
| Codec.LowNibble | libbno055.c:113 | the mode is the byte and 0x0F, a value below 16 |
| Codec.PowerField | libbno055.c:322 | the power mode is the byte and 0x03, a value below 4 |
| Codec.ClockSourceField | libbno055.c:997 | the clock source is bit 7, 1 exactly for bytes from 128 on |
| Codec.UnitFactor | libbno055.c:870 | the divisor is 1 when bit 0 of UNIT_SEL is set and 100 otherwise |
| Codec.DecodeCalStatus | libbno055.c:191-194 | the four calibration states are bits 7-6, 5-4, 3-2 and 1-0 of the byte, each below 4 |
| Codec.PackCalStatusSum | libbno055.c:191-194 | packing four states is 64 s + 16 g + 4 a + m |
| Codec.CalStatusRepack | libbno055.c:191-194 | packing the decoded states gives the byte back |
| Codec.CalStatusUnpack | libbno055.c:191-194 | decoding packed valid states gives the states back |
| Codec.ToInt16 | libbno055.c:672-757 | a cast to int16_t gives a value in -32768..32767 congruent to its argument modulo 65536 |
| Codec.Int16LE | libbno055.c:672 | a little-endian byte pair reads as lo + 256 hi, less 65536 when the sign bit is set |
| Codec.Int16Bytes | libbno055.c:672 | every 16-bit signed value has a byte pair that reads back as it |
| Codec.Int16RoundTrip | libbno055.c:672 | the pair written for the value read from a pair is that pair |
| Codec.Uint16LE | i2c_bno055.c:173 | the unsigned sum lo + 256 hi is below 65536, with lo and hi as its two base-256 digits |
| Codec.AxesAt | libbno055.c:672-682 | three consecutive signed words decode to axes whose encoding is exactly those six bytes |
| Codec.AxesBytes | libbno055.c:672-682 | the encoding of three axes is six bytes |
| Codec.AxesUnpack | libbno055.c:672-682 | decoding the encoding of three signed 16-bit axes gives them back |
| Codec.QuadAt | libbno055.c:825-840 | the quaternion's four words decode to values whose encoding is exactly the eight bytes |
| Codec.QuadBytes | libbno055.c:825-840 | the encoding of a quaternion is eight bytes |
| Codec.QuadUnpack | libbno055.c:825-840 | decoding the encoding of a quaternion gives it back |
| Codec.DecodeOffsets | libbno055.c:252-279 | the 22 offset bytes decode to three signed axes and two signed radii |
| Codec.EncodeOffsets | libbno055.c:252-279 | encoding the offsets gives 22 bytes |
| Codec.OffsetsRoundTrip | libbno055.c:252-279 | encoding the decoded offsets gives the 22 bytes back |
| Codec.OffsetsUnpack | libbno055.c:252-279 | decoding encoded offsets gives them back |
| Codec.AccConfigAsWritten | libbno055.c:1326-1328 | as written, the range is always 0, the bandwidth is bit 4 alone and the power mode is bits 7-6 |
| Codec.SleepConfigAsWritten | libbno055.c:1358-1359 | as written, the sleep mode is always 0 and the sleep duration is bit 4 alone |
| Codec.LowPairShiftedOut | libbno055.c:1326 | (d & 0x03) >> 2 is 0 for every byte |
| Codec.MidFieldShifted | libbno055.c:1327 | (d & 0x1C) >> 4 is bit 4 of the byte |
| Codec.TopFieldShifted | libbno055.c:1328 | (d & 0xE0) >> 6 is bits 7-6 of the byte |
| Codec.AccConfigIntended | libbno055.c:1326-1328 | the intended fields: range bits 1-0, bandwidth bits 4-2, power mode bits 7-5 |
| Codec.SleepConfigIntended | libbno055.c:1358-1359 | the intended fields: sleep mode bit 0, sleep duration bits 4-1 |
| Codec.AccConfigRoundTrip | libbno055.c:1326-1328 | the intended fields pack back into the whole byte |
| Codec.AccLowBits | libbno055.c:1326-1327 | range and bandwidth together are the low five bits |
| Codec.AccRangeLost | libbno055.c:1326 | 0x0C and 0x0D decode to the same configuration as written, though their ranges differ |
| Codec.SleepConfigRoundTrip | libbno055.c:1358-1359 | the intended sleep fields pack back into the low five bits |
| Codec.SleepModeLost | libbno055.c:1358 | 0x00 and 0x01 decode alike as written, though their sleep modes differ |
| Calibration.GetCalOffsetSpec | libbno055.c:211-299 | codes by step: Nest(1, ·) for a failed mode read, Nest(2, ·) for a failed CONFIG switch, 3 and 4 for the block read, Nest(5, ·) for a failed mode restore; failures before the block read keep the offsets; later codes hold decoded 16-bit offsets |
| Calibration.OffsetsFetch | libbno055.c:224-298 | 3 exactly on a failed select; on success of the read the offsets are those decoded from the block read |
| Calibration.GetCalOffset | libbno055.c:211-299 | the method follows `GetCalOffsetSpec` and leaves the calibration states alone |
| Calibration.FetchOffsets | libbno055.c:224-298 | the method follows `OffsetsFetch` |
| Calibration.CalOffsetStores | libbno055.c:211-299 | get_caloffset writes no register other than OPR_MODE |
| Calibration.LoadCalSpec | libbno055.c:1127-1222 | 1 exactly when the file cannot be opened, 2 exactly when it holds fewer than 34 bytes, both without a bus operation; the other codes by step |
| Calibration.LoadBlob | libbno055.c:1165-1221 | the codes of load_cal after the file has been read |
| Calibration.LoadWrite | libbno055.c:1175-1221 | 5 exactly when the 35-byte block write fails |
| Calibration.LoadVerify | libbno055.c:1185-1221 | 6 exactly on a failed select; the read-back holds 34 bytes exactly when it was read |
| Calibration.LoadCalStores | libbno055.c:1127-1222 | load_cal writes the first 34 bytes of the file, in one block at SIC_MATRIX_0_LSB, exactly when it reaches the block write, and writes no other register except OPR_MODE |
| Calibration.BlockWritten | libbno055.c:1177-1221 | load_cal has issued the 35-byte block write exactly when its code is 0, 5, 6, 7 or Nest(8, ·) |
| Calibration.LoadBlobStores | libbno055.c:1165-1221 | the same for a 34-byte block |
| Calibration.LoadWriteStores | libbno055.c:1175-1221 | the block write stores the block at SIC_MATRIX_0_LSB |
| Calibration.LoadVerifyStores | libbno055.c:1185-1221 | the verification stores nothing outside OPR_MODE |
| Calibration.LoadIgnoresMismatch | libbno055.c:1199-1204 | the code and the trace do not depend on what the read-back returns: a mismatch is reported but not acted on |
| Calibration.ReadBackMismatches | libbno055.c:1199-1204 | the registers reported are, in increasing order, exactly those whose read-back differs from the byte written |
| Calibration.LoadCal | libbno055.c:1127-1222 | the method follows `LoadCalSpec` and reports exactly the mismatched registers |
| Calibration.StoreBlob | libbno055.c:1175-1221 | the method follows `LoadWrite` and reports exactly the mismatched registers |
| Calibration.SaveCalSpec | libbno055.c:1227-1297 | codes by step; the failures before the file write save nothing; 0 and the nested restore failure have saved 34 bytes |
| Calibration.SaveFetch | libbno055.c:1241-1296 | 3 exactly on a failed select; the file codes 5 and 6 return without restoring the mode |
| Calibration.SaveCal | libbno055.c:1227-1297 | the method follows `SaveCalSpec` |
| Calibration.SaveCalStores | libbno055.c:1227-1297 | save_cal writes no register other than OPR_MODE |
| Calibration.SaveLoadRoundTrip | libbno055.c:1127-1297 | a file that save_cal wrote is accepted by load_cal, which writes back exactly the saved 34 bytes |
| SensorData.AxesReadSpec | libbno055.c:657-689 | codes 1 and 2 on failure keep the old sample; on success the three signed words are exactly the six bytes read |
| SensorData.ReadAxes | libbno055.c:657-689 | the method follows `AxesReadSpec` |
| SensorData.GetAcc | libbno055.c:657-689 | get_acc reads the accelerometer block |
| SensorData.GetMag | libbno055.c:695-727 | get_mag reads the magnetometer block |
| SensorData.GetGyr | libbno055.c:732-764 | get_gyr reads the gyroscope block |
| SensorData.GetEul | libbno055.c:769-803 | get_eul reads the Euler block and returns 1 for a read failure too |
| SensorData.EulerFailuresAlike | libbno055.c:772-784 | a failed select and a failed read of get_eul both return 1 |
| SensorData.GetQuaSpec | libbno055.c:808-847 | codes 1 and 2 on failure; on success the quaternion's encoding is exactly the eight bytes read |
| SensorData.GetQua | libbno055.c:808-847 | the method follows `GetQuaSpec` |
| SensorData.VectorReadSpec | libbno055.c:852-908 | UNIT_SEL is read first (1, 2 on failure), then the vector (3, 4); on success the divisor comes from bit 0 of UNIT_SEL and the words are exactly the bytes read |
| SensorData.ReadVector | libbno055.c:852-908 | the method follows `VectorReadSpec` |
| SensorData.GetGra | libbno055.c:852-908 | get_gra reads the gravity block |
| SensorData.GetLin | libbno055.c:913-969 | get_lin reads the linear acceleration block |
| SensorData.VectorReadStores | libbno055.c:852-969 | the vector reads write no register |
| LegacyDriver.ResetSpec | i2c_bno055.c:50-61 | -1 exactly on a failed write; otherwise 0 |
| LegacyDriver.ResetSteps | i2c_bno055.c:50-61 | the reset writes RST_SYS into SYS_TRIGGER and waits 50 ms, or stops after the failed write |
| LegacyDriver.BnoReset | i2c_bno055.c:50-61 | the method follows `ResetSpec` |
| LegacyDriver.SetModeSpec | i2c_bno055.c:407-421 | the mode is written directly, with no read of the old mode; 0 and a 30 ms wait on success, -1 on a failed write |
| LegacyDriver.SetMode | i2c_bno055.c:407-421 | the method follows `SetModeSpec` |
| LegacyDriver.SetModeDirect | i2c_bno055.c:407-421 | the legacy set_mode stores the mode into OPR_MODE, writes nothing else, reads nothing, and waits 30 ms exactly when it succeeds |
| LegacyDriver.SignedChar | i2c_bno055.c:73 | a byte as a signed char is in -128..127 and congruent to the byte modulo 256 |
| LegacyDriver.UnsignedIdMatches | i2c_bno055.c:82 | with unsigned char, 0xA0 matches BNO055_ID |
| LegacyDriver.SignedIdNeverMatches | i2c_bno055.c:82 | with signed char, no byte matches BNO055_ID |
| LegacyDriver.ProbeSpec | i2c_bno055.c:67-92 | the chip-id probe returns -1 on any failed transfer of either try; on success the value is the byte of the second read |
| LegacyDriver.ProbeWaits | i2c_bno055.c:82-85 | the probe waits 1 s exactly when the first read does not match, and writes no register |
| LegacyDriver.ProbeTwice | i2c_bno055.c:67-92 | the probe always reads the chip id twice, with the 1 s wait between only on a mismatch |
| LegacyDriver.ConfigureSpec | i2c_bno055.c:102-127 | after the probe: exit -1 exactly when the mode write fails, else -1 or 0 from the power and page writes |
| LegacyDriver.PowerPageSpec | i2c_bno055.c:110-127 | the power write returns -1 on failure, then waits 10 ms; the page write returns -1 on failure |
| LegacyDriver.PowerPageSteps | i2c_bno055.c:110-127 | the trace is the prefix of [power write, 10 ms, page write] that the device let through |
| LegacyDriver.ConfigureSteps | i2c_bno055.c:102-127 | the trace is the prefix of [NDOF write, 30 ms, power write, 10 ms, page write] that the device let through |
| LegacyDriver.ConfigureStores | i2c_bno055.c:102-127 | the configuration stores NDOF into OPR_MODE, NORMAL into PWR_MODE and 0 into PAGE_ID, and waits 40 ms |
| LegacyDriver.SetDefaultsSpec | i2c_bno055.c:63-128 | set_defaults ends in 0, -1 or exit -1; a completed probe that does not read 0xA0 exits with -1 right there; 0 only after a matching probe |
| LegacyDriver.SetDefaults | i2c_bno055.c:63-128 | the method follows `SetDefaultsSpec` with unsigned char |
| LegacyDriver.SetDefaultsConfigures | i2c_bno055.c:63-128 | a successful set_defaults read 0xA0 on the second try and then issued exactly the configuration writes |
| LegacyDriver.HealthyDeviceAccepted | i2c_bno055.c:63-128 | a device that answers 0xA0 passes the probe without the wait and is configured |
| LegacyDriver.SignedCharRejects | i2c_bno055.c:73-99 | with signed char, set_defaults never returns 0, and the device that answers 0xA0 waits 1 s and exits with -1 |
| LegacyDriver.StatCalSpec | i2c_bno055.c:134-156 | -1 on either failure before any field is assigned; on success the four states are the fields of the byte |
| LegacyDriver.StatCal | i2c_bno055.c:134-156 | the method follows `StatCalSpec` and updates the record |
| LegacyDriver.StatCalAgrees | i2c_bno055.c:134-156 | stat_cal reads the same bytes as get_calstatus and decodes them the same way; it succeeds exactly when get_calstatus does |
| LegacyDriver.UnsignedAxesAt | i2c_bno055.c:171-187 | the unsigned sums decode to axes whose encoding is exactly the six bytes |
| LegacyDriver.UnsignedAxesBytes | i2c_bno055.c:171-187 | the encoding of three unsigned axes is six bytes |
| LegacyDriver.UnsignedMatchesSigned | i2c_bno055.c:171-187 | each unsigned offset is the signed offset plus 65536 when the high byte's sign bit is set |
| LegacyDriver.ReadCalSpec | i2c_bno055.c:158-194 | -1 on a failure, keeping the offsets; on success the three unsigned axes are exactly the 18 bytes read, and the radii are untouched |
| LegacyDriver.ReadCal | i2c_bno055.c:158-194 | the method follows `ReadCalSpec` |
| LegacyDriver.ReadFieldsSpec | i2c_bno055.c:295-398 | the per-register reads return 0 or -1 |
| LegacyDriver.StoreField | i2c_bno055.c:295-398 | a per-register store changes only the status fields, never the identity bytes, the power mode or the remap; a register without a field changes nothing; mode and self-test keep only their low four bits |
| LegacyDriver.ReadFieldsSteps | i2c_bno055.c:295-398 | the per-register reads stop at the first failure, issuing nothing after it, and succeed exactly when every transfer completes |
| LegacyDriver.ReadInfSpec | i2c_bno055.c:237-401 | read_inf returns 0 or -1 |
| LegacyDriver.ReadInfSteps | i2c_bno055.c:237-401 | read_inf stops at the first failure and returns 0 exactly when every transfer completes |
| LegacyDriver.ReadFieldsValues | i2c_bno055.c:295-398 | successful field reads store, in order, the byte of each read reply |
| LegacyDriver.ReadFieldsReached | i2c_bno055.c:295-398 | for every outcome the record holds exactly the bytes of the queries that went through before the first failure, and the reads return 0 exactly when all went through |
| LegacyDriver.ReadInfReached | i2c_bno055.c:237-401 | a failed identity read leaves the record as it was; otherwise the identity bytes and the fields read before the first failure are stored, and nothing else; 0 exactly when all six field reads went through |
| LegacyDriver.ReadInfValues | i2c_bno055.c:237-401 | on success: the seven identity bytes, the low nibble of the mode and of the self-test result, and the status, error, unit and temperature bytes, each from its own reply; the remap and power fields keep their values |
| LegacyDriver.InfFields | i2c_bno055.c:295-398 | the six field stores, one after the other |
| LegacyDriver.ReadInf | i2c_bno055.c:237-401 | the method follows `ReadInfSpec` and updates the record |
| LegacyDriver.ReadFields | i2c_bno055.c:295-398 | the method follows `ReadFieldsSpec` |
| LegacyDriver.StoreByte | i2c_bno055.c:295-398 | the byte goes into the register's field, reduced to its low nibble for the mode and the self-test result |
| LegacyDriver.ReadMag | i2c_bno055.c:403-405 | read_mag returns 0 and changes nothing |
| Labels.Find | print.c:62-103 | a switch prints nothing exactly when no case has the code, and otherwise the text of a case with that code |
| Labels.CodeOf | print.c:62-103 | reading a text back gives a code whose case prints it |
| Labels.FindInverse | print.c:62-103 | in a table without repeats, the text printed for a code reads back as that code, and only that code prints it |
| Labels.FindEntry | print.c:62-103 | in a table whose codes do not repeat, a case's code prints that case's text |
| Labels.FindRun | print.c:240-300 | a table whose codes run from a base matches exactly the codes of that run |
| Labels.Line | print.c:62-103 | the text of a matched case is printed with its newline; an unmatched code prints nothing |
| Labels.ModeLabel | print.c:60-105 | print_mode returns -1 exactly for modes outside 0..12 |
| Labels.ModeLabelReadsBack | print.c:60-105 | a printed mode name reads back as its mode |
| Labels.ModeTableDistinct | print.c:64-102 | the thirteen mode names are all different |
| Labels.ModeLabelInjective | print.c:60-105 | two modes print the same name only if they are the same mode |
| Labels.ModeNibbleNamed | print.c:60-105 | of the sixteen values of the mode nibble, exactly those up to 12 are named; 0x0C prints NDOF_FMC and 0x0B NDOF_FMC_OFF |
| Labels.PowerLabel | print.c:111-126 | print_power returns -1 exactly outside 0..2 |
| Labels.PowerLabelReadsBack | print.c:111-126 | a printed power-mode name reads back as its mode |
| Labels.PowerFieldNamed | print.c:111-126 | every value of the 2-bit power field is named except 3 |
| Labels.SysStatusLabel | print.c:132-159 | print_sstat returns -1 exactly outside 0..6 |
| Labels.SysStatusLabelReadsBack | print.c:132-159 | a printed status text reads back as its code |
| Labels.SysStatusDistinct | print.c:136-156 | the seven status texts are all different |
| Labels.RemapConfLabel | print.c:167-185 | print_remap_conf returns 0 exactly for 0x24, 0x18, 0x09 and 0x36 |
| Labels.RemapConfLabelReadsBack | print.c:167-185 | a printed axis configuration reads back as its value |
| Labels.RemapSignLabel | print.c:191-221 | print_remap_sign returns -1 exactly outside 0..7 |
| Labels.RemapSignBits | print.c:191-221 | for every value 0..7 the text gives the sign of X from bit 2, of Y from bit 1 and of Z from bit 0, '-' for a set bit |
| Labels.SmallBits | print.c:191-221 | below 8, bits 2, 1 and 0 are the binary digits |
| Labels.UnitLines | print.c:26-54 | print_unit prints five lines |
| Labels.UnitLinesDetermine | print.c:26-54 | two unit selections print the same lines exactly when they agree on bits 0 to 4 |
| Labels.UnitOrientationBit | print.c:50-53 | the orientation line says Android exactly when bit 3 is set |
| Labels.UnitHighBitIgnored | print.c:50-53 | bit 7, which the comment names for the orientation, changes nothing printed |
| Labels.UnitOrientationMisread | print.c:50-53 | as written, 0x80 prints Windows and 0x08 prints Android; the corrected printer prints the opposite |
| Labels.UnitLinesIntended | print.c:26-54 | the corrected printer: the same five lines, the orientation taken from bit 7 |
| Labels.UnitOrientationIntended | print.c:50-53 | the corrected printer keeps the first four lines and prints Android exactly when bit 7 is set |
| Labels.BitAddEven | print.c:29-52 | adding an even multiple of 2^k leaves bit k unchanged |
| Labels.SleepModeTable | print.c:303-310 | the sleep-mode texts carry no newline |
| Labels.SleepModeText | print.c:303-310 | a sleep mode prints a text exactly for 0 and 1, and nothing otherwise |
| Labels.SleepDurationText | print.c:311-343 | a sleep duration prints something exactly when it is at most 15 |
| Labels.SleepDurationDistinct | print.c:313-342 | the ten duration texts differ from one another and from 0.5ms |
| Labels.SleepDurationAt | print.c:312-343 | durations 6 to 15 print their own case |
| Labels.SleepDurationsMerged | print.c:311-343 | two durations up to 15 print the same text exactly when they are equal or both below 6 |
| Labels.NewlineKeepsApart | print.c:311-343 | different texts stay different with their newlines |
| Labels.AccConfParts | print.c:238-344 | each of the five parts of print_acc_conf is empty exactly when its code has no case: power mode above 5, bandwidth above 7, range above 3, sleep mode above 1, sleep duration above 15 |

## Left out

- get_i2cbus in both files opens the device file and selects the slave address. These are operating-system calls, and the bus is the scripted `Bus` instead.
- Sleeps are `Sleep` entries in the trace. Real time passes nowhere.
- Exits become the `Exited` ending of a `Finish`, and the caller's process is not modelled.
- File input and output in load_cal and save_cal are parameters. The file is an optional byte sequence, and the output file is a `FileSink` that can be unopenable or have room for a number of bytes.
- Floating-point scaling of the samples is not modelled: the divisions by 16, 100, 900, 16384 or the unit factor. The model keeps the raw signed counts and the divisor.
- Log output (`printf` with loglevel or verbose), the text of bno_dump and of the debug lines are left out. They do not change the bus, the return codes or the records.
- print_clksrc calls get_clksrc and prints. get_clksrc is modelled, and its three texts are not.
- decode_units (i2c_bno055.c:199-229) makes the same five bit tests as print_unit, bit 3 for the orientation included, with different labels ("Acceleration Unit: " and so on) and a return value of 0; only print_unit's text is modelled.
- getbno055.c, the command-line program, is not part of this model.
- libbno055.h and the header of i2c_bno055.c are not part of this model. Register addresses are those named in the source comments and in the BNO055 register map. The record fields are taken as `int` (as `nat` in the decoded `CalStatus` and `AccConfig` values, whose fields are never negative), except the offset and radius fields of `struct bnocal` (see the next line).
- Codec.DecodeOffsets: the offset and radius fields of `struct bnocal` are taken as `int16_t`, as the signed ranges in the comments of get_caloffset (libbno055.c:246-277) and the `int16_t` casts suggest; the header that declares them is not part of this model. As written, `((int16_t)data[1] << 8) | data[0]` has type `int` and lies in 0..65535 with unsigned bytes, so with `int` fields the pair (0x00, 0x80) would be stored as 32768 where the model stores -32768.
- Calibration.GetCalOffsetSpec: bytes are unsigned, as on ARM. Where `char` is signed, `((int16_t)data[1] << 8) | data[0]` sign-extends a low byte from 0x80 up and sets the high byte to 0xFF, so those offsets would read wrongly (libbno055.c:233, 252). The model does not capture that corruption.
- LegacyDriver.ReadInfValues: bytes are unsigned, as on ARM. With signed `char`, identity and status bytes from 0x80 up would be stored as negative numbers.
- LegacyDriver.ReadCalSpec: the legacy record is declared in a header that is not part of this model. Its offset fields are taken as wide enough for the unsigned sum `data[0] + data[1] * 256`, so no truncation to 16 bits is modelled.
- The save and load window is 34 bytes from SIC_MATRIX_0_LSB (0x43..0x64). The comment in save_cal speaks of the radii in 0x67~6A. The model follows the code: the gyroscope Z offset and the radii are neither saved nor loaded.
- load_cal reads at most 34 bytes, so a longer file is accepted and only its first 34 bytes are used. Only a shorter file returns 2.
- print_remap_conf is modelled with its table as written. Its comments give bit pairs that do not match the labels, and the model proves nothing about which axis mapping a value means.

## Findings

| source | as written | input that shows it | evidently intended | confidence | as-written member | corrected member |
|---|---|---|---|---|---|---|
| libbno055.c:1039-1041 | bno_dump selects register `count` (0..7) for the row that it prints as `count*16` | row 1 selects register 0x01, so rows 0 and 1 overlap and register 0x17 is never read | select register 16 × count, so the eight rows cover the page once | not executed | RegisterPages.DumpOverlaps | RegisterPages.DumpCovers |
| libbno055.c:1326-1328, 1358-1359 | get_acc_conf shifts each masked field by the wrong amount | 0x0D and 0x0C both decode to range 0; sleep byte 0x01 decodes to sleep mode 0 | range bits 1-0, bandwidth bits 4-2, power mode bits 7-5, sleep mode bit 0, sleep duration bits 4-1 | not executed | Codec.AccRangeLost | Codec.AccConfigRoundTrip |
| print.c:48-53 | print_unit reads the orientation from bit 3 of UNIT_SEL, under a comment that names bit 7 | a selection of 0x80 (orientation bit set) prints "Windows", and 0x08 prints "Android" | read bit 7, where the BNO055 register map puts the orientation setting | not executed | Labels.UnitOrientationMisread | Labels.UnitOrientationIntended |
| i2c_bno055.c:73-99 | set_defaults compares a `char` chip-id byte with 0xA0 | where `char` is signed, 0xA0 reads as -96, so a healthy chip fails both tries and the program exits | compare the byte as unsigned, as on ARM | not executed | LegacyDriver.SignedCharRejects | LegacyDriver.HealthyDeviceAccepted |
