# Power-meter providers of RunnerUp, in Dafny

RunnerUp reads cycling power from sensors through a `PWRProvider`: an
object the app opens with a client and an Android `Handler`. The app then
asks it to scan for devices, connect to one, read the current power, and
disconnect. This project models two providers of the `pwrdevice` module:

- `AndroidBLEPWRProvider`, the Bluetooth LE provider, is the main one. It scans
  (with de-duplication of addresses per scan session) and connects
  directly or after a scan. It probes the remote GATT database: the battery
  level, or else the firmware revision. It then reads and enables the
  power-measurement notifications. It decodes each notification (8- or
  16-bit value selected by bit 0 of the flags byte) and tolerates zero
  readings for 60 s. It reports connect results through runnables posted
  to the client's Handler. On disconnect it unsubscribes, drops the link,
  and waits at most 2 s, in 500 ms waits, for the callback to close the
  handle.
- `MockPWRProvider`, a fake provider. It reports bursts of three fake
  devices while scanning, connects 3 s after `connect`, and produces a
  random reading every 750 ms while connected.

Each provider is modelled twice:

- **Spec.** A pure transition function per public method, hardware callback
  and posted runnable, over a `State` datatype (`AndroidBleSpec`,
  `MockPwrSpec`). The Android Bluetooth stack is an input record
  (`Platform`). The provider's calls into it are kept in a `calls` history.
  The client notifications go to `events`, and the runnables posted to the
  Handler to `pending` or `timers`.
- **Class.** A class with the Java fields (`AndroidBleProvider.BlePwrProvider`,
  `MockPwrProvider.MockProvider`). Each method updates the fields in place
  and is proved to perform exactly its transition function
  (`ensures Snap() == F(old(Snap()), ...)`). The public methods and
  callbacks also keep the invariant `Valid()`.

The properties are lemmas about the transition functions
(`AndroidBleProperties`, `MockPwrProperties`). The shared value types
(`DeviceRef`, `PwrData`, client notifications) are in `PwrProvider`. The
GATT identifiers are in `BtPwrBase`.

## Model

| member | source | states |
|---|---|---|
| AndroidBleSpec.CheckBtGatt | pwrdevice/src/org/runnerup/pwr/AndroidBLEPWRProvider.java:720-734 | a callback is accepted iff no handle is held or it carries the held one; an accepted callback leaves its handle held, a rejected one leaves the held handle unchanged |
| AndroidBleSpec.DecodePower | pwrdevice/src/org/runnerup/pwr/AndroidBLEPWRProvider.java:161-168 | a value exists iff the payload holds the 1 or 2 value bytes that bit 0 of the flags byte announces; the value is those bytes read little-endian, so below 2^16 or 2^8 |
| AndroidBleSpec.EncodePower | pwrdevice/src/org/runnerup/pwr/AndroidBLEPWRProvider.java:365-367 | the payload for a reading under any flags byte starts with that byte, has the width bit 0 selects, and carries the reading little-endian |
| AndroidBleSpec.Init | pwrdevice/src/org/runnerup/pwr/AndroidBLEPWRProvider.java:80-95 | a new provider satisfies the invariant: not scanning or connecting, no handle, no notifications, battery level -1 |
| AndroidBleSpec.RunNextQueue | pwrdevice/src/org/runnerup/pwr/AndroidBLEPWRProvider.java:467-477 | running a posted runnable removes it; only a deferred bind queues another runnable, and that is a failed connect result |
| AndroidBleSpec.BindDeviceQueue | pwrdevice/src/org/runnerup/pwr/AndroidBLEPWRProvider.java:478-484 | connectGatt queues nothing, or a failed connect result when it returns null |
| AndroidBleSpec.RunNextProgress | pwrdevice/src/org/runnerup/pwr/AndroidBLEPWRProvider.java:467-477 | each run uses up a deferred bind or shortens the queue, so draining the Handler terminates |
| AndroidBleSpec.UnsubscribeFrame | pwrdevice/src/org/runnerup/pwr/AndroidBLEPWRProvider.java:610-628 | the unsubscribe block only adds calls on the handle and at most one failed-disconnect report |
| AndroidBleSpec.BeginDisconnectFrame | pwrdevice/src/org/runnerup/pwr/AndroidBLEPWRProvider.java:603-630 | the first part of disconnect clears connected/connecting, marks the disconnect in progress, and ends its calls with the link-drop request |
| AndroidBleSpec.WaitForCloseFrame | pwrdevice/src/org/runnerup/pwr/AndroidBLEPWRProvider.java:635-645 | the wait changes only the handle and the calls made on it |
| AndroidBleSpec.GetPwrData | pwrdevice/src/org/runnerup/pwr/AndroidBLEPWRProvider.java:691-698 | null exactly for a negative reading, so never under the invariant; otherwise the reading with its timestamp |
| AndroidBleProperties.ReportConnectFailedInv | pwrdevice/src/org/runnerup/pwr/AndroidBLEPWRProvider.java:582-591 | reportConnectFailed keeps the invariant and leaves no handle and no device |
| AndroidBleProperties.BindDeviceInv | pwrdevice/src/org/runnerup/pwr/AndroidBLEPWRProvider.java:556-562 | binding the target device keeps the invariant |
| AndroidBleProperties.ConnectInv | pwrdevice/src/org/runnerup/pwr/AndroidBLEPWRProvider.java:536-565 | connect keeps the invariant |
| AndroidBleProperties.OnLeScanInv | pwrdevice/src/org/runnerup/pwr/AndroidBLEPWRProvider.java:451-497 | a scan result keeps the invariant |
| AndroidBleProperties.ProbeInv | pwrdevice/src/org/runnerup/pwr/AndroidBLEPWRProvider.java:339-363 | the probe read keeps the invariant |
| AndroidBleProperties.FirmwareProbeInv | pwrdevice/src/org/runnerup/pwr/AndroidBLEPWRProvider.java:346-362 | the firmware fallback keeps the invariant |
| AndroidBleProperties.StartPwrInv | pwrdevice/src/org/runnerup/pwr/AndroidBLEPWRProvider.java:369-391 | startPWR keeps the invariant |
| AndroidBleProperties.OnCharacteristicReadInv | pwrdevice/src/org/runnerup/pwr/AndroidBLEPWRProvider.java:208-238 | a characteristic read keeps the invariant; a stored battery level is a byte |
| AndroidBleProperties.OnDescriptorReadInv | pwrdevice/src/org/runnerup/pwr/AndroidBLEPWRProvider.java:292-299 | a descriptor read keeps the invariant |
| AndroidBleProperties.TakeSampleInv | pwrdevice/src/org/runnerup/pwr/AndroidBLEPWRProvider.java:170-196 | taking a sample keeps the invariant; a reading is never negative |
| AndroidBleProperties.OnCharacteristicChangedInv | pwrdevice/src/org/runnerup/pwr/AndroidBLEPWRProvider.java:142-205 | a notification keeps the invariant, on the exception path too |
| AndroidBleProperties.RunNextInv | pwrdevice/src/org/runnerup/pwr/AndroidBLEPWRProvider.java:467-477 | every posted runnable (scan report, connect result, deferred bind) keeps the invariant |
| AndroidBleProperties.OnServicesDiscoveredInv | pwrdevice/src/org/runnerup/pwr/AndroidBLEPWRProvider.java:302-334 | service discovery keeps the invariant |
| AndroidBleProperties.CloseInv | pwrdevice/src/org/runnerup/pwr/AndroidBLEPWRProvider.java:123-137 | close keeps the invariant |
| AndroidBleProperties.PwrDataAlwaysPresent | pwrdevice/src/org/runnerup/pwr/AndroidBLEPWRProvider.java:691-698 | under the invariant getPWRData never returns null: it returns the reading, 0 before the first one |
| AndroidBleProperties.StartScanGuard | pwrdevice/src/org/runnerup/pwr/AndroidBLEPWRProvider.java:504-515 | startScan while scanning changes nothing; otherwise it starts a session with an empty address set and the UUID filter unless AVOID_SCAN_WITH_UUID |
| AndroidBleProperties.StopScanGuard | pwrdevice/src/org/runnerup/pwr/AndroidBLEPWRProvider.java:518-523 | stopScan always leaves the provider not scanning, and calls stopLeScan only while scanning |
| AndroidBleProperties.ConnectGuard | pwrdevice/src/org/runnerup/pwr/AndroidBLEPWRProvider.java:536-546 | connect while connected or connecting only stops the scan |
| AndroidBleProperties.ConnectBindsAtOnce | pwrdevice/src/org/runnerup/pwr/AndroidBLEPWRProvider.java:544-562 | with matching names connect targets the device and calls connectGatt at once; a null handle fails the connect with a posted failed result |
| AndroidBleProperties.ConnectScansFirst | pwrdevice/src/org/runnerup/pwr/AndroidBLEPWRProvider.java:544-555 | without matching names connect targets the device and starts a fresh scan instead |
| AndroidBleProperties.StaleCallbackIgnored | pwrdevice/src/org/runnerup/pwr/AndroidBLEPWRProvider.java:720-734 | every handle-checked callback with a handle other than the held one changes nothing |
| AndroidBleProperties.FirstCallbackAdoptsHandle | pwrdevice/src/org/runnerup/pwr/AndroidBLEPWRProvider.java:720-726 | with no handle held, the callback's handle is adopted |
| AndroidBleProperties.ConnectionStateOutcome | pwrdevice/src/org/runnerup/pwr/AndroidBLEPWRProvider.java:241-289 | on the held handle: while connecting, link-up asks for service discovery and any other state for a reconnect; during a disconnect the handle is closed and released; otherwise link-down is reported and any other state changes nothing |
| AndroidBleProperties.CharacteristicReadOutcome | pwrdevice/src/org/runnerup/pwr/AndroidBLEPWRProvider.java:208-238 | on the held handle: a battery level is stored from the first byte and startPWR follows; an empty battery payload fails the connect; the firmware revision leads to startPWR; any other characteristic changes nothing |
| AndroidBleProperties.ConnectScenario | pwrdevice/src/org/runnerup/pwr/AndroidBLEPWRProvider.java:208-238 | a whole connect: discovery, battery level 57, subscription, first measurement 200 and the posted result give exactly one successful connect result, connected, battery level 57 and power 200 |
| AndroidBleProperties.DueReportsFresh | pwrdevice/src/org/runnerup/pwr/AndroidBLEPWRProvider.java:490-493 | the reference de-duplication reports pairwise distinct addresses, none already recorded |
| AndroidBleProperties.OnLeScanRecords | pwrdevice/src/org/runnerup/pwr/AndroidBLEPWRProvider.java:490-497 | outside a connect, a recorded address changes nothing and a new one is recorded and reported once |
| AndroidBleProperties.OnLeScanTarget | pwrdevice/src/org/runnerup/pwr/AndroidBLEPWRProvider.java:460-487 | the target of a connect stops the scan, records no address, tells the client nothing and keeps the connect in progress |
| AndroidBleProperties.TargetQueued | pwrdevice/src/org/runnerup/pwr/AndroidBLEPWRProvider.java:467-477 | when connecting from the Handler, the stopped scan is followed by exactly one queued bind |
| AndroidBleProperties.TargetBound | pwrdevice/src/org/runnerup/pwr/AndroidBLEPWRProvider.java:478-486 | otherwise connectGatt is called at once after the scan stops; its handle is adopted, or a null one fails the connect with a queued failed result |
| AndroidBleProperties.OnLeScanStep | pwrdevice/src/org/runnerup/pwr/AndroidBLEPWRProvider.java:451-497 | any scan result, during a connect too, only appends to the queue and either records a new address and queues one report for it, or records nothing and queues no report |
| AndroidBleProperties.ScanMatchesReference | pwrdevice/src/org/runnerup/pwr/AndroidBLEPWRProvider.java:451-497 | outside a connect, a scan session equals the reference de-duplication, in the addresses recorded and the reports queued |
| AndroidBleProperties.ScanReportsEachAddressOnce | pwrdevice/src/org/runnerup/pwr/AndroidBLEPWRProvider.java:451-497 | within a scan session, outside a connect and during the scan a connect starts alike, the queue only grows and the scan reports queued are for pairwise distinct addresses, none recorded before and each recorded after |
| AndroidBleProperties.DecodeEncode | pwrdevice/src/org/runnerup/pwr/AndroidBLEPWRProvider.java:161-168 | decoding the payload of a reading under any flags byte gives the reading back, whatever bytes follow |
| AndroidBleProperties.EncodeDecode | pwrdevice/src/org/runnerup/pwr/AndroidBLEPWRProvider.java:161-168 | conversely, a payload that decodes is, up to its trailing bytes, the encoding of its decoded value under its own flags byte |
| AndroidBleProperties.IgnoredPayload | pwrdevice/src/org/runnerup/pwr/AndroidBLEPWRProvider.java:149-159 | another characteristic or an empty payload changes only the adopted handle |
| AndroidBleProperties.ShortPayload | pwrdevice/src/org/runnerup/pwr/AndroidBLEPWRProvider.java:198-204 | a payload too short for its width fails a pending connect or reports a live link lost, and keeps the reading |
| AndroidBleProperties.DecodedPayload | pwrdevice/src/org/runnerup/pwr/AndroidBLEPWRProvider.java:161-196 | every decodable power notification is taken as a sample of its decoded value |
| AndroidBleProperties.NonZeroSample | pwrdevice/src/org/runnerup/pwr/AndroidBLEPWRProvider.java:189-196 | a non-zero sample becomes the reading, restarts the window, and posts a connect result only while connecting |
| AndroidBleProperties.ZeroSample | pwrdevice/src/org/runnerup/pwr/AndroidBLEPWRProvider.java:172-196 | a zero inside the 60 s window keeps the reading; after it a connect fails or the link is reported lost |
| AndroidBleProperties.ZerosWithinWindowTolerated | pwrdevice/src/org/runnerup/pwr/AndroidBLEPWRProvider.java:172-188 | on a live link, any run of zeros within the window changes no reading and tells the client nothing |
| AndroidBleProperties.TwelveThenZeros | pwrdevice/src/org/runnerup/pwr/AndroidBLEPWRProvider.java:172-188 | a reading of 12 followed by three zeros within 10 s stays 12 |
| AndroidBleProperties.RunScanReport | pwrdevice/src/org/runnerup/pwr/AndroidBLEPWRProvider.java:490-497 | a posted scan report is taken off the queue, hands its device to the client when one is attached (ScanResult), leaves connecting and connected unchanged and emits no connect result |
| AndroidBleProperties.ConnectedPostReports | pwrdevice/src/org/runnerup/pwr/AndroidBLEPWRProvider.java:569-577 | a posted connect result is delivered iff a connect is in progress and a client is attached; it then ends the connect, leaves connected equal to the posted result and hands that result to the client; otherwise it is dropped and nothing else changes |
| AndroidBleProperties.DeferredBindKeepsFlags | pwrdevice/src/org/runnerup/pwr/AndroidBLEPWRProvider.java:467-477 | the deferred connectGatt changes no flag and no notification |
| AndroidBleProperties.RunNextConnects | pwrdevice/src/org/runnerup/pwr/AndroidBLEPWRProvider.java:567-580 | a posted runnable emits a connect result only by ending a connect, and never starts one |
| AndroidBleProperties.DrainConnectsAtMostOnce | pwrdevice/src/org/runnerup/pwr/AndroidBLEPWRProvider.java:567-580 | draining the Handler emits at most one connect result, and only if a connect was in progress |
| AndroidBleProperties.DrainStaleResults | pwrdevice/src/org/runnerup/pwr/AndroidBLEPWRProvider.java:569-577 | once no connect is in progress, posted connect results are dropped |
| AndroidBleProperties.RepeatedConnectedPostsReportOnce | pwrdevice/src/org/runnerup/pwr/AndroidBLEPWRProvider.java:194-196 | however many samples posted reportConnected(true), the client hears exactly one connect result |
| AndroidBleProperties.FailAgain | pwrdevice/src/org/runnerup/pwr/AndroidBLEPWRProvider.java:582-591 | failing an already failed connect leaves it failed |
| AndroidBleProperties.FailedFrom | pwrdevice/src/org/runnerup/pwr/AndroidBLEPWRProvider.java:582-591 | reportConnectFailed drops the handle and device and queues a failed connect result |
| AndroidBleProperties.FirmwareProbeOutcome | pwrdevice/src/org/runnerup/pwr/AndroidBLEPWRProvider.java:346-362 | the firmware probe issues the read when the DIS service and characteristic exist and the stack accepts, and fails the connect otherwise |
| AndroidBleProperties.FirmwareProbeKeepsFailure | pwrdevice/src/org/runnerup/pwr/AndroidBLEPWRProvider.java:343-362 | after a failed connect the firmware probe leaves it failed |
| AndroidBleProperties.ProbeReadsBattery | pwrdevice/src/org/runnerup/pwr/AndroidBLEPWRProvider.java:343-345 | with a battery service seen and the read accepted, the probe only reads the battery level |
| AndroidBleProperties.ProbeWithoutBattery | pwrdevice/src/org/runnerup/pwr/AndroidBLEPWRProvider.java:343-362 | without a battery service the probe is the firmware probe |
| AndroidBleProperties.ProbeBatteryRefused | pwrdevice/src/org/runnerup/pwr/AndroidBLEPWRProvider.java:393-413 | a refused battery read falls back to the firmware probe after the attempt |
| AndroidBleProperties.ProbeMissingBatteryLevel | pwrdevice/src/org/runnerup/pwr/AndroidBLEPWRProvider.java:400-404 | a battery service without the level characteristic fails the connect, whatever follows |
| AndroidBleProperties.ServicesDiscoveredProbes | pwrdevice/src/org/runnerup/pwr/AndroidBLEPWRProvider.java:302-334 | discovery on the held handle notes a battery service and runs the probe |
| AndroidBleProperties.PowerProfileOrder | pwrdevice/src/org/runnerup/pwr/AndroidBLEPWRProvider.java:369-391 | startPWR reads the CCC descriptor iff service, characteristic and descriptor exist and the read is accepted; otherwise the connect fails |
| AndroidBleProperties.SubscribeOrder | pwrdevice/src/org/runnerup/pwr/AndroidBLEPWRProvider.java:417-441 | the descriptor read enables notification then writes the descriptor, or fails the connect |
| AndroidBleProperties.WaitForCloseOutcome | pwrdevice/src/org/runnerup/pwr/AndroidBLEPWRProvider.java:635-652 | the wait closes the handle iff the link-closed callback arrives within 2 s; otherwise the handle is still held when it gives up |
| AndroidBleProperties.DisconnectShape | pwrdevice/src/org/runnerup/pwr/AndroidBLEPWRProvider.java:594-664 | after the first part, disconnect always closes the handle exactly once, forgets the device and reports the link gone |
| AndroidBleProperties.DisconnectEnds | pwrdevice/src/org/runnerup/pwr/AndroidBLEPWRProvider.java:594-664 | disconnect is a no-op without handle, device or link, or during a disconnect; otherwise it ends with everything released, link-drop then close as the last calls, and the invariant |
| AndroidBleProvider.BlePwrProvider.constructor | pwrdevice/src/org/runnerup/pwr/AndroidBLEPWRProvider.java:80-99 | the fields start as declared, and Valid holds |
| AndroidBleProvider.BlePwrProvider.Open | pwrdevice/src/org/runnerup/pwr/AndroidBLEPWRProvider.java:112-121 | performs open: attaches the client, keeps or takes the adapter, reports whether one exists; keeps Valid |
| AndroidBleProvider.BlePwrProvider.Close | pwrdevice/src/org/runnerup/pwr/AndroidBLEPWRProvider.java:123-137 | performs close: stopScan, disconnect, close the handle, release adapter, device and client; keeps Valid |
| AndroidBleProvider.BlePwrProvider.StartScan | pwrdevice/src/org/runnerup/pwr/AndroidBLEPWRProvider.java:504-515 | performs startScan |
| AndroidBleProvider.BlePwrProvider.StopScan | pwrdevice/src/org/runnerup/pwr/AndroidBLEPWRProvider.java:518-523 | performs stopScan |
| AndroidBleProvider.BlePwrProvider.Connect | pwrdevice/src/org/runnerup/pwr/AndroidBLEPWRProvider.java:536-565 | performs connect; keeps Valid |
| AndroidBleProvider.BlePwrProvider.BindDevice | pwrdevice/src/org/runnerup/pwr/AndroidBLEPWRProvider.java:556-562 | performs connectGatt and the null check |
| AndroidBleProvider.BlePwrProvider.ReportConnected | pwrdevice/src/org/runnerup/pwr/AndroidBLEPWRProvider.java:567-580 | posts the connect result when a Handler is attached |
| AndroidBleProvider.BlePwrProvider.ReportConnectFailed | pwrdevice/src/org/runnerup/pwr/AndroidBLEPWRProvider.java:582-591 | drops and closes the handle, forgets the device, posts a failed result |
| AndroidBleProvider.BlePwrProvider.ReportDisconnected | pwrdevice/src/org/runnerup/pwr/AndroidBLEPWRProvider.java:671-673 | notifies the client the link is gone |
| AndroidBleProvider.BlePwrProvider.ReportDisconnectFailed | pwrdevice/src/org/runnerup/pwr/AndroidBLEPWRProvider.java:666-669 | notifies the client that unsubscribing failed |
| AndroidBleProvider.BlePwrProvider.TargetFound | pwrdevice/src/org/runnerup/pwr/AndroidBLEPWRProvider.java:460-487 | stops the scan and binds the target, on the Handler when CONNECT_IN_OWN_THREAD_FROM_ON_LE_SCAN |
| AndroidBleProvider.BlePwrProvider.OnLeScan | pwrdevice/src/org/runnerup/pwr/AndroidBLEPWRProvider.java:451-497 | performs onLeScan and says when it throws; keeps Valid; OnLeScanTarget, OnLeScanStep and ScanReportsEachAddressOnce state what that transition does |
| AndroidBleProvider.BlePwrProvider.CheckBtGatt | pwrdevice/src/org/runnerup/pwr/AndroidBLEPWRProvider.java:720-734 | the answer and the held handle are those of AndroidBleSpec.CheckBtGatt |
| AndroidBleProvider.BlePwrProvider.OnConnectionStateChange | pwrdevice/src/org/runnerup/pwr/AndroidBLEPWRProvider.java:241-289 | performs onConnectionStateChange, also during disconnect's wait; ConnectionStateOutcome states each branch |
| AndroidBleProvider.BlePwrProvider.ReadBatteryLevel | pwrdevice/src/org/runnerup/pwr/AndroidBLEPWRProvider.java:393-413 | performs readBatteryLevel and returns its answer |
| AndroidBleProvider.BlePwrProvider.DummyReadForSecLevelCheck | pwrdevice/src/org/runnerup/pwr/AndroidBLEPWRProvider.java:339-363 | performs the probe read |
| AndroidBleProvider.BlePwrProvider.OnServicesDiscovered | pwrdevice/src/org/runnerup/pwr/AndroidBLEPWRProvider.java:302-334 | performs onServicesDiscovered; keeps Valid |
| AndroidBleProvider.BlePwrProvider.StartPwr | pwrdevice/src/org/runnerup/pwr/AndroidBLEPWRProvider.java:369-391 | performs startPWR |
| AndroidBleProvider.BlePwrProvider.OnCharacteristicRead | pwrdevice/src/org/runnerup/pwr/AndroidBLEPWRProvider.java:208-238 | performs onCharacteristicRead; keeps Valid; CharacteristicReadOutcome states each branch |
| AndroidBleProvider.BlePwrProvider.EnableNotification | pwrdevice/src/org/runnerup/pwr/AndroidBLEPWRProvider.java:417-441 | performs enableNotification and returns its answer |
| AndroidBleProvider.BlePwrProvider.OnDescriptorRead | pwrdevice/src/org/runnerup/pwr/AndroidBLEPWRProvider.java:292-299 | performs onDescriptorRead; keeps Valid |
| AndroidBleProvider.BlePwrProvider.TakeSample | pwrdevice/src/org/runnerup/pwr/AndroidBLEPWRProvider.java:170-196 | performs the sample part of onCharacteristicChanged |
| AndroidBleProvider.BlePwrProvider.KeepReading | pwrdevice/src/org/runnerup/pwr/AndroidBLEPWRProvider.java:189-192 | stores a non-zero reading and restarts the zero window |
| AndroidBleProvider.BlePwrProvider.ZeroWindowLapsed | pwrdevice/src/org/runnerup/pwr/AndroidBLEPWRProvider.java:179-187 | fails the connect or reports the link lost |
| AndroidBleProvider.BlePwrProvider.OnCharacteristicChanged | pwrdevice/src/org/runnerup/pwr/AndroidBLEPWRProvider.java:142-205 | performs onCharacteristicChanged; keeps Valid |
| AndroidBleProvider.BlePwrProvider.RunNext | pwrdevice/src/org/runnerup/pwr/AndroidBLEPWRProvider.java:569-577 | runs the oldest posted runnable, says when it throws; keeps Valid |
| AndroidBleProvider.BlePwrProvider.RunScanResult | pwrdevice/src/org/runnerup/pwr/AndroidBLEPWRProvider.java:494-497 | hands a scan report to an attached client |
| AndroidBleProvider.BlePwrProvider.RunConnected | pwrdevice/src/org/runnerup/pwr/AndroidBLEPWRProvider.java:569-577 | delivers a connect result only while connecting |
| AndroidBleProvider.BlePwrProvider.RunConnectGatt | pwrdevice/src/org/runnerup/pwr/AndroidBLEPWRProvider.java:467-477 | the deferred connectGatt |
| AndroidBleProvider.BlePwrProvider.Unsubscribe | pwrdevice/src/org/runnerup/pwr/AndroidBLEPWRProvider.java:610-628 | performs the unsubscribe block of disconnect |
| AndroidBleProvider.BlePwrProvider.BeginDisconnect | pwrdevice/src/org/runnerup/pwr/AndroidBLEPWRProvider.java:603-630 | clears the flags, marks the disconnect, unsubscribes, drops the link |
| AndroidBleProvider.BlePwrProvider.WaitForClose | pwrdevice/src/org/runnerup/pwr/AndroidBLEPWRProvider.java:635-645 | the bounded wait loop: the state AndroidBleSpec.WaitForClose gives, after at most four 500 ms waits |
| AndroidBleProvider.BlePwrProvider.ForceClose | pwrdevice/src/org/runnerup/pwr/AndroidBLEPWRProvider.java:653-658 | closes and releases a handle still held |
| AndroidBleProvider.BlePwrProvider.FinishDisconnect | pwrdevice/src/org/runnerup/pwr/AndroidBLEPWRProvider.java:646-663 | closes a handle still held, forgets the device, ends the disconnect, reports it |
| AndroidBleProvider.BlePwrProvider.Disconnect | pwrdevice/src/org/runnerup/pwr/AndroidBLEPWRProvider.java:594-664 | performs disconnect with the callback arriving closeAfterMs into the wait; at most four waits; keeps Valid |
| AndroidBleProvider.BlePwrProvider.GetPwrData | pwrdevice/src/org/runnerup/pwr/AndroidBLEPWRProvider.java:691-698 | null iff the reading is negative; under Valid always the reading |
| MockPwrSpec.Power | pwrdevice/src/org/runnerup/pwr/MockPWRProvider.java:115 | a fake reading is in [150, 190] |
| MockPwrSpec.BatteryLevel | pwrdevice/src/org/runnerup/pwr/MockPWRProvider.java:164-166 | a fake battery level is in [0, 100) |
| MockPwrSpec.Hex2 | pwrdevice/src/org/runnerup/pwr/MockPWRProvider.java:54-55 | "%02X" of a byte is two characters |
| MockPwrSpec.Init | pwrdevice/src/org/runnerup/pwr/MockPWRProvider.java:41-137 | a new mock has no client, is idle, has no reading (getPWRData is null) and has posted and reported nothing |
| MockPwrProperties.InitInv | pwrdevice/src/org/runnerup/pwr/MockPWRProvider.java:41-137 | a new mock satisfies the invariant |
| MockPwrProperties.OpenInv | pwrdevice/src/org/runnerup/pwr/MockPWRProvider.java:31-35 | open keeps the invariant and attaches the client |
| MockPwrProperties.StartScanInv | pwrdevice/src/org/runnerup/pwr/MockPWRProvider.java:67-70 | startScan keeps the invariant and scans |
| MockPwrProperties.StopScanInv | pwrdevice/src/org/runnerup/pwr/MockPWRProvider.java:73-75 | stopScan keeps the invariant and stops scanning |
| MockPwrProperties.ConnectInv | pwrdevice/src/org/runnerup/pwr/MockPWRProvider.java:91-110 | connect keeps the invariant |
| MockPwrProperties.DisconnectInv | pwrdevice/src/org/runnerup/pwr/MockPWRProvider.java:130-133 | disconnect keeps the invariant and clears both flags |
| MockPwrProperties.FireInv | pwrdevice/src/org/runnerup/pwr/MockPWRProvider.java:48-127 | every posted runnable keeps the invariant: counter below 3, never connecting and connected, reading 0 or in [150, 190] |
| MockPwrProperties.ConnectGuard | pwrdevice/src/org/runnerup/pwr/MockPWRProvider.java:91-98 | connect changes nothing iff connected or connecting |
| MockPwrProperties.ConnectPostsCompletion | pwrdevice/src/org/runnerup/pwr/MockPWRProvider.java:98-109 | a connect from idle is in progress with one completion posted 3 s ahead |
| MockPwrProperties.ConnectDoneReportsOnce | pwrdevice/src/org/runnerup/pwr/MockPWRProvider.java:101-108 | the completion reports one successful connect iff connecting, and a second run reports nothing |
| MockPwrProperties.DisconnectCancelsCompletion | pwrdevice/src/org/runnerup/pwr/MockPWRProvider.java:130-133 | after disconnect a posted completion changes nothing |
| MockPwrProperties.ConnectThenComplete | pwrdevice/src/org/runnerup/pwr/MockPWRProvider.java:91-110 | connect then its completion: connected, one ConnectResult(true), the readings started |
| MockPwrProperties.PwrUpdateReposts | pwrdevice/src/org/runnerup/pwr/MockPWRProvider.java:112-127 | the update posts itself again iff connected, and changes no flag or notification |
| MockPwrProperties.PwrUpdateGivesData | pwrdevice/src/org/runnerup/pwr/MockPWRProvider.java:115-116 | after an update getPWRData returns a fake value in [150, 190] stamped with the wall clock |
| MockPwrProperties.GetPwrDataNull | pwrdevice/src/org/runnerup/pwr/MockPWRProvider.java:155-161 | getPWRData is null iff the reading is not positive; under the invariant, iff no reading has been taken |
| MockPwrProperties.ZeroReadingDiffers | pwrdevice/src/org/runnerup/pwr/MockPWRProvider.java:156-158 | for a reading of 0 the mock returns null while the Bluetooth provider returns a zero reading |
| MockPwrProperties.FakeScanStep | pwrdevice/src/org/runnerup/pwr/MockPWRProvider.java:52-63 | one run reports a device iff scanning, and posts itself again iff scanning with fewer than 3 reported |
| MockPwrProperties.StoppedScanReportsNothing | pwrdevice/src/org/runnerup/pwr/MockPWRProvider.java:53-62 | after stopScan a posted fake scan reports nothing and resets the counter |
| MockPwrProperties.BurstBounded | pwrdevice/src/org/runnerup/pwr/MockPWRProvider.java:48-64 | a burst reports exactly min(runs, 3 - count) scan results while scanning, none otherwise, and resets the counter when it runs out |
| MockPwrProperties.BurstAtMostThree | pwrdevice/src/org/runnerup/pwr/MockPWRProvider.java:67-70 | a burst started by startScan reports at most three devices |
| MockPwrProperties.Hex2RoundTrip | pwrdevice/src/org/runnerup/pwr/MockPWRProvider.java:54-55 | the two hex digits read back as the byte |
| MockPwrProperties.MockAddressShape | pwrdevice/src/org/runnerup/pwr/MockPWRProvider.java:54-55 | a fake address is the 15-character prefix plus the clock's low byte in hex |
| MockPwrProperties.MockAddressesDistinct | pwrdevice/src/org/runnerup/pwr/MockPWRProvider.java:54-55 | clocks that differ modulo 256 give different addresses |
| MockPwrProvider.MockProvider.constructor | pwrdevice/src/org/runnerup/pwr/MockPWRProvider.java:41-137 | the fields start as declared; Valid holds |
| MockPwrProvider.MockProvider.Open | pwrdevice/src/org/runnerup/pwr/MockPWRProvider.java:31-35 | performs open; keeps Valid |
| MockPwrProvider.MockProvider.Close | pwrdevice/src/org/runnerup/pwr/MockPWRProvider.java:38-39 | close changes nothing |
| MockPwrProvider.MockProvider.StartScan | pwrdevice/src/org/runnerup/pwr/MockPWRProvider.java:67-70 | performs startScan; keeps Valid |
| MockPwrProvider.MockProvider.StopScan | pwrdevice/src/org/runnerup/pwr/MockPWRProvider.java:73-75 | performs stopScan; keeps Valid |
| MockPwrProvider.MockProvider.Connect | pwrdevice/src/org/runnerup/pwr/MockPWRProvider.java:91-110 | performs connect; keeps Valid |
| MockPwrProvider.MockProvider.Disconnect | pwrdevice/src/org/runnerup/pwr/MockPWRProvider.java:130-133 | performs disconnect; keeps Valid |
| MockPwrProvider.MockProvider.GetPwrData | pwrdevice/src/org/runnerup/pwr/MockPWRProvider.java:155-161 | null iff the reading is not positive, which under Valid means no reading yet; otherwise the reading and its timestamp |
| MockPwrProvider.MockProvider.RunFakeScan | pwrdevice/src/org/runnerup/pwr/MockPWRProvider.java:52-63 | performs run() of fakeScanResult |
| MockPwrProvider.MockProvider.RunConnectDone | pwrdevice/src/org/runnerup/pwr/MockPWRProvider.java:101-108 | performs run() of the connect completion |
| MockPwrProvider.MockProvider.RunPwrUpdate | pwrdevice/src/org/runnerup/pwr/MockPWRProvider.java:114-126 | performs run() of pwrUpdate |
| MockPwrProvider.MockProvider.Fire | pwrdevice/src/org/runnerup/pwr/MockPWRProvider.java:48-127 | the Handler runs one posted runnable; keeps Valid |

Each class method that "performs" an operation is proved equal to the
transition function of the same name in `AndroidBleSpec` or `MockPwrSpec`.
The lemmas above state what those functions guarantee.

## Left out

- Logging (`log`, `Log.e`), `getName`, `getProviderName`, `isBondingDevice`,
  `isEnabled`, `startEnableIntent` and the plain getters are not modelled.
  They return constants or fields.
- `checkLibrary`, `PWRManager` and the client's own code are not part of
  this model.
- The Android Bluetooth stack is an input (`Platform`). The model records
  the requests made to it, not what it does with them.
- Callbacks the stack delivers after `close()` are not modelled. GATT
  callbacks and the posted runnables assume an attached client.
- The wall clock, `SystemClock.elapsedRealtimeNanos()` and `Math.random()`
  are parameters.
- The mock's pre-JELLY_BEAN_MR1 branch, which computes the elapsed realtime
  from milliseconds, is not modelled. The elapsed time is taken as given
  in nanoseconds.
- Threads are not modelled. `disconnect()`'s `synchronized` wait is
  modelled as waits of 500 ms, with the link-closed callback arriving
  `closeAfterMs` into the wait. The callback's `notifyAll` is on the
  callback object, not on the provider the waiter waits on. So the waiter
  only sees the closed handle when its 500 ms wait ends, as modelled.
  `InterruptedException` is not modelled.
- Runnables posted with `post` run in order from `pending`, through
  `RunNext`. `AndroidBleSpec.Drain` runs them until the queue is empty.
  It is a function only, because the provider itself has no such loop.
- The mock's `postDelayed` runnables are kept with their delays. `Fire`
  runs any one of them: the model does not order them by time.
- Exceptions are modelled only where the code reaches them:
  - the null `btDevice` in `onLeScan` and in the deferred connectGatt;
  - the null from `getIntValue` on a short payload, which is caught;
  - the scan report posted with no client.

  The first and the last are a `throws` result: the state is left as it
  was, except that a runnable that throws is still taken off the queue. The
  short payload follows the `catch` block of `onCharacteristicChanged`.
- `onServicesDiscovered` ignores its `status`: both branches call the
  probe. The loop over the discovered services, which only logs and sets
  `hasBatteryService`, is modelled as a membership test.
- `AVOID_SCAN_WITH_UUID` only chooses the UUID filter of `startLeScan`,
  recorded as a flag of the call.
- Five identifiers in the source do not resolve, and the model uses the
  evident intent:
  - `POWER_MEASUREMENT_CHARAC` at AndroidBLEPWRProvider.java:149, 377 and
    618 is `PWR_MEASUREMENT_CHARAC`, the only measurement UUID
    BtPWRBase.java defines;
  - `startHR()` at :221 is `startPWR()`;
  - `mHRP` at :371 is `mPWR`;
  - `hrClient`/`hrClientHandler` in `reportConnected`,
    `reportDisconnected` and `reportDisconnectFailed` are the `pwrClient`
    fields;
  - `hrValue`/`hrTimestamp`/`hrElapsedRealtime` in the getters are the
    `pwr` fields.
- The source text is incomplete in two places. The modelled body follows
  the provider's declared behaviour:
  - The body of the runnable that `onLeScan` posts is missing; it reports
    `PWRDeviceRef(NAME, name, address)` to the client.
  - The start of `connect` has a stray brace.
- `connect` stops the scan before its guard, so a call while connected
  still stops a running scan. Scanning and connecting can hold together
  while `connect` scans for its target.
- Integers are unbounded. Java `long` wrap-around of the clocks is not
  modelled, because clock values stay far from the limit.
- Power: the mock's reading `(int) (150 + 40 * Math.random())` is computed
  in exact arithmetic, not in Java doubles. Double rounding can push the
  sum up to the next integer when it lies just below one. For the largest
  values of `Math.random()` (from 1 - 4 * 2^-53) that gives 190. So the
  bound proved is [150, 190], which holds in Java. An individual reading of
  the model can be one less than Java's.
- AndroidBleSpec.StartScan and AndroidBleProvider.BlePwrProvider.StartScan
  require an adapter when not scanning. With a null `btAdapter` the source
  throws a NullPointerException at AndroidBLEPWRProvider.java:512-514, which
  the model does not represent.
- AndroidBleSpec.Connect and AndroidBleProvider.BlePwrProvider.Connect
  require an adapter. With a null `btAdapter` the source throws at
  AndroidBLEPWRProvider.java:540, which the model does not represent.
  `getRemoteDevice` there also throws IllegalArgumentException on a
  malformed address; the model takes the address as well-formed, as the
  addresses that scan results supply are.
- MockPwrSpec.StartScan and MockPwrProvider.MockProvider.StartScan require
  an attached client. Before `open()` the source's `postDelayed` on a null
  Handler throws (MockPWRProvider.java:67-70); that throw is not modelled.
- MockPwrSpec.Connect and MockPwrProvider.MockProvider.Connect require an
  attached client when a connect would start. The null Handler throws in
  the source (MockPWRProvider.java:99-109); that throw is not modelled.
- ScanMatchesReference and OnLeScanRecords compare with the reference
  de-duplication only outside a connect. During the scan that `connect`
  starts, the target device stops the scan instead. OnLeScanStep,
  OnLeScanTarget and ScanReportsEachAddressOnce state that case.
