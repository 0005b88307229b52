/** BNO055 register addresses, register values and settle times the driver
    uses. Addresses are on register page 0 unless marked page 1. */
module Registers {
  import opened Bits

  const CHIP_ID: Byte := 0x00
  const PAGE_ID: Byte := 0x07
  const ACC_DATA_X_LSB: Byte := 0x08
  const MAG_DATA_X_LSB: Byte := 0x0E
  const GYRO_DATA_X_LSB: Byte := 0x14
  const EULER_H_LSB: Byte := 0x1A
  const QUATERNION_W_LSB: Byte := 0x20
  const LIN_ACC_X_LSB: Byte := 0x28
  const GRAVITY_X_LSB: Byte := 0x2E
  const TEMP: Byte := 0x34
  const CALIB_STAT: Byte := 0x35
  const SELFTEST_RESULT: Byte := 0x36
  const SYS_STAT: Byte := 0x39
  const SYS_ERR: Byte := 0x3A
  const UNIT_SEL: Byte := 0x3B
  const OPR_MODE: Byte := 0x3D
  const PWR_MODE: Byte := 0x3E
  const SYS_TRIGGER: Byte := 0x3F
  const AXIS_MAP_CONFIG: Byte := 0x41
  const AXIS_MAP_SIGN: Byte := 0x42
  const SIC_MATRIX_0_LSB: Byte := 0x43
  const ACC_OFFSET_X_LSB: Byte := 0x55

  /** Page 1. */
  const ACC_CONFIG: Byte := 0x08
  /** Page 1. */
  const ACC_SLEEP_CONFIG: Byte := 0x0C

  /** Bytes in the calibration block that is saved to and loaded from a file. */
  const CALIB_BYTECOUNT: nat := 34
  /** Bytes of identity registers 0x00..0x06. */
  const INFO_BYTECOUNT: nat := 7
  /** Offset bytes the earlier driver reads: three axes of three sensors. */
  const LEGACY_OFFSET_BYTECOUNT: nat := 18

  /** The value of CHIP_ID on a BNO055. */
  const BNO055_ID: Byte := 0xA0
  /** SYS_TRIGGER bit 5: reset the system. */
  const RST_SYS: Byte := 0x20

  /** Operating modes: CONFIG is the only one in which settings can change. */
  const CONFIG: int := 0x00
  const NDOF: int := 0x0C
  /** Power modes. */
  const POWER_NORMAL: int := 0x00

  /** Settle times in milliseconds. */
  const ANY_TO_CONFIG_MS: nat := 10
  const CONFIG_TO_ANY_MS: nat := 25
  const POWER_SWITCH_MS: nat := 30
  const PAGE_SWITCH_MS: nat := 50
  const CALIB_LOAD_MS: nat := 50
  const BOOT_MS: nat := 650
  const LEGACY_MODE_SWITCH_MS: nat := 30
  const LEGACY_RESET_MS: nat := 50
  const LEGACY_POWER_MS: nat := 10
  const CHIP_ID_RETRY_MS: nat := 1000
}
