/**
 * The wire profile shared by the Bluetooth power providers (BtPWRBase.java):
 * the service, characteristic and descriptor identifiers the provider looks
 * for, as the 128-bit values 0000nnnn-0000-1000-8000-00805f9b34fb built from
 * a 16-bit assigned number nnnn on the Bluetooth base UUID.
 */
module BtPwrBase {

  /** A 128-bit UUID, as an unbounded natural below 2^128. */
  type Uuid = nat

  const PwrService: Uuid := 0x0000_1818_0000_1000_8000_0080_5f9b_34fb
  const BatteryService: Uuid := 0x0000_180f_0000_1000_8000_0080_5f9b_34fb
  const FirmwareRevision: Uuid := 0x0000_2a26_0000_1000_8000_0080_5f9b_34fb
  const DisService: Uuid := 0x0000_180a_0000_1000_8000_0080_5f9b_34fb
  const PwrMeasurementCharac: Uuid := 0x0000_2a63_0000_1000_8000_0080_5f9b_34fb
  const BatteryLevelCharac: Uuid := 0x0000_2a19_0000_1000_8000_0080_5f9b_34fb
  /** The notification descriptor, with the assigned number 0x2A00 exactly as the provider uses it. */
  const Ccc: Uuid := 0x0000_2a00_0000_1000_8000_0080_5f9b_34fb
}
