/**
 * The Bluetooth LE power provider (AndroidBLEPWRProvider.java) as a state
 * machine over values. Every public method, hardware callback and posted
 * runnable of the provider is one transition function from State to State.
 * The class in android_ble_provider.dfy keeps the same fields in place and
 * each of its methods is proved to perform exactly the transition given here.
 *
 * The Android Bluetooth stack is an input: a Platform value says what the
 * remote GATT database holds, which requests the stack accepts and which
 * handle connectGatt returns. What the provider asks of the stack is
 * recorded in `calls`, what it tells its client in `events`, and what it
 * posts to the client's Handler in `pending`.
 */
module AndroidBleSpec {
  import opened Wrappers
  import opened BtPwrBase
  import opened PwrProvider

  /** The provider name used in the DeviceRefs it reports. */
  const Name: string := "AndroidBLE"
  /** Zero readings are tolerated for this long after the last non-zero one. */
  const MaxPwrTimestampNotZeroMs: int := 60 * 1000
  /** disconnect() waits at most this long for the link-closed callback... */
  const DisconnectWaitMs: int := 2000
  /** ...in waits of this length. */
  const WaitSliceMs: int := 500

  newtype byte = x: int | 0 <= x < 256

  /** The identity of a BluetoothGatt object; handles are compared by identity only. */
  type Handle = nat

  /** A BluetoothDevice: its address and the name the platform has cached for it. */
  datatype Device = Device(address: string, name: Option<string>)

  /** The newState argument of onConnectionStateChange (BluetoothProfile.STATE_*). */
  datatype LinkState = StateDisconnected | StateConnecting | StateConnected | StateDisconnecting

  /**
   * The platform-version switches of the provider, fixed at construction:
   * AVOID_SCAN_WITH_UUID and CONNECT_IN_OWN_THREAD_FROM_ON_LE_SCAN.
   */
  datatype Config = Config(avoidScanWithUuid: bool, connectInOwnThread: bool)

  /** A request made on a BluetoothGatt handle. */
  datatype GattOp =
    | DiscoverServices
    | Reconnect
    | ReadCharacteristic(charac: Uuid)
    | ReadDescriptor(charac: Uuid, descriptor: Uuid)
    | SetNotification(charac: Uuid, enable: bool)
    | WriteDescriptor(charac: Uuid, descriptor: Uuid, enable: bool)
    | DisconnectLink
    | CloseHandle

  /** A call the provider makes into the Bluetooth stack. */
  datatype PlatformCall =
    | StartLeScan(uuidFilter: bool)
    | StopLeScan
    | ConnectGatt(address: string)
    | Gatt(handle: Handle, op: GattOp)

  /**
   * What the Bluetooth stack answers during one step: the services of the
   * remote device, its (service, characteristic) and (characteristic,
   * descriptor) pairs, the requests that return true, and the handle
   * connectGatt returns (None for null).
   */
  datatype Platform = Platform(
    services: set<Uuid>,
    characteristics: set<(Uuid, Uuid)>,
    descriptors: set<(Uuid, Uuid)>,
    accepts: set<GattOp>,
    connectGatt: Option<Handle>)

  /** A Runnable posted to the client's Handler. */
  datatype Action =
    | PostScanResult(device: DeviceRef)
    | PostConnected(ok: bool)
    | PostConnectGatt

  /** The provider's fields, plus the three histories described above. */
  datatype State = State(
    config: Config,
    adapter: bool,             // btAdapter != null
    attached: bool,            // pwrClient != null && pwrClientHandler != null
    gatt: Option<Handle>,      // btGatt
    device: Option<Device>,    // btDevice
    pwrValue: int,
    pwrTimestamp: int,
    pwrElapsedRealtime: int,
    batteryLevel: int,
    hasBatteryService: bool,
    prevNonZero: int,          // mPrevPwrTimestampNotZero
    scanning: bool,
    connecting: bool,
    connected: bool,
    disconnecting: bool,
    scanDevices: set<string>,  // mScanDevices
    pending: seq<Action>,
    events: seq<ClientEvent>,
    calls: seq<PlatformCall>)

  /** A step that also answers yes or no (readBatteryLevel, enableNotification). */
  datatype Attempt = Attempt(ok: bool, state: State)

  /** The outcome of checkBtGatt: whether the callback is accepted, and the handle held afterwards. */
  datatype GattCheck = GattCheck(accepted: bool, held: Option<Handle>)

  /**
   * The invariant every public operation preserves: scanning needs the
   * adapter, the adapter and a target device exist only while the provider
   * is open, connecting and connected exclude each other, no disconnect is
   * in progress between operations, and the readings are in range.
   */
  predicate Inv(s: State) {
    && (s.scanning ==> s.adapter)
    && (s.adapter ==> s.attached)
    && (s.device.Some? ==> s.attached)
    && !(s.connecting && s.connected)
    && !s.disconnecting
    && s.pwrValue >= 0
    && -1 <= s.batteryLevel < 256
  }

  /** The state of a freshly constructed provider. */
  function Init(config: Config): (s: State)
    ensures Inv(s)
    ensures !s.scanning && !s.connecting && !s.connected && s.gatt.None?
    ensures s.events == [] && s.pending == [] && s.batteryLevel == -1
  {
    State(config, false, false, None, None, 0, 0, 0, -1, false, 0,
          false, false, false, false, {}, [], [], [])
  }

  function Call(s: State, c: PlatformCall): State {
    s.(calls := s.calls + [c])
  }

  function Emit(s: State, e: ClientEvent): State {
    s.(events := s.events + [e])
  }

  // ---------------------------------------------------------------------------
  // Pure decisions
  // ---------------------------------------------------------------------------

  /**
   * checkBtGatt: a callback is accepted when no handle is held (the callback's
   * handle is then adopted) or when it carries the held handle; a callback
   * with any other handle is rejected and the held handle stays.
   */
  function CheckBtGatt(held: Option<Handle>, gatt: Handle): (r: GattCheck)
    ensures r.accepted <==> held.None? || held == Some(gatt)
    ensures r.accepted ==> r.held == Some(gatt)
    ensures !r.accepted ==> r.held == held
  {
    if held.None? then GattCheck(true, Some(gatt))
    else if held.value == gatt then GattCheck(true, held)
    else GattCheck(false, held)
  }

  /** isPowerInUINT16: bit 0 of the flags byte selects a 16-bit value. */
  predicate IsPowerInUint16(flags: byte) {
    (flags as int) % 2 == 1
  }

  /** The number of payload bytes the value occupies for a given flags byte. */
  function ValueWidth(flags: byte): nat {
    if IsPowerInUint16(flags) then 2 else 1
  }

  /** An unsigned little-endian integer: the first byte is the least significant. */
  function LittleEndian(bytes: seq<byte>): nat
    decreases |bytes|
  {
    if bytes == [] then 0 else bytes[0] as nat + 256 * LittleEndian(bytes[1..])
  }

  /** The value of one and of two little-endian bytes. */
  lemma LittleEndianShort(lo: byte, hi: byte)
    ensures LittleEndian([lo]) == lo as nat
    ensures LittleEndian([lo, hi]) == lo as nat + 256 * hi as nat
  {
    assert [lo][1..] == [];
    assert [lo, hi][1..] == [hi];
    assert [hi][1..] == [];
  }

  /**
   * The value getIntValue reads at offset 1: a little-endian uint16 or a
   * uint8, as the flags byte says; None (Java's null) when the payload is too
   * short. This is the Heart Rate Measurement layout, kept as the provider
   * has it.
   */
  function DecodePower(value: seq<byte>): (r: Option<nat>)
    requires |value| > 0
    ensures r.Some? <==> |value| >= 1 + ValueWidth(value[0])
    ensures r.Some? ==> r.value == LittleEndian(value[1..1 + ValueWidth(value[0])])
    ensures r.Some? && IsPowerInUint16(value[0]) ==> r.value < 0x1_0000
    ensures r.Some? && !IsPowerInUint16(value[0]) ==> r.value < 0x100
  {
    if IsPowerInUint16(value[0]) then
      if |value| < 3 then None
      else
        LittleEndianShort(value[1], value[2]);
        assert value[1..3] == [value[1], value[2]];
        Some(value[1] as int + 256 * value[2] as int)
    else
      if |value| < 2 then None
      else
        LittleEndianShort(value[1], 0);
        assert value[1..2] == [value[1]];
        Some(value[1] as int)
  }

  /** The payload a sensor sends for a reading, with a given flags byte, in the layout DecodePower reads. */
  function EncodePower(power: nat, flags: byte): (value: seq<byte>)
    requires power < (if IsPowerInUint16(flags) then 0x1_0000 else 0x100)
    ensures |value| == 1 + ValueWidth(flags)
    ensures value[0] == flags
    ensures LittleEndian(value[1..]) == power
  {
    if IsPowerInUint16(flags) then
      var v := [flags, (power % 256) as byte, (power / 256) as byte];
      LittleEndianShort(v[1], v[2]);
      assert v[1..] == [v[1], v[2]];
      v
    else
      var v := [flags, power as byte];
      LittleEndianShort(v[1], 0);
      assert v[1..] == [v[1]];
      v
  }

  /** A zero reading ends the tolerance window when a non-zero one was seen more than 60 s earlier. */
  predicate ZeroTimedOut(prevNonZero: int, now: int) {
    prevNonZero > 0 && now - prevNonZero > MaxPwrTimestampNotZeroMs
  }

  // ---------------------------------------------------------------------------
  // Reporting to the client
  // ---------------------------------------------------------------------------

  /** The Handler's queue after posting a runnable: the post happens only when a Handler is attached. */
  function Posting(s: State, a: Action): seq<Action> {
    if s.attached then s.pending + [a] else s.pending
  }

  /** The calls that drop the link and close the held handle, if one is held. */
  function DropCalls(s: State): seq<PlatformCall> {
    if s.gatt.Some? then [Gatt(s.gatt.value, DisconnectLink), Gatt(s.gatt.value, CloseHandle)] else []
  }

  /** reportConnected: posts the connect result, if a Handler is attached. */
  function ReportConnected(s: State, b: bool): State {
    s.(pending := Posting(s, PostConnected(b)))
  }

  /** reportConnectFailed: drops and closes the handle, forgets the device and posts a failed connect result. */
  function ReportConnectFailed(s: State): State {
    ReportConnected(s.(calls := s.calls + DropCalls(s), gatt := None, device := None), false)
  }

  /** reportDisconnected: tells the client the link is gone (the client must be attached). */
  function ReportDisconnected(s: State): State
    requires s.attached
  {
    Emit(s, DisconnectResult(true))
  }

  /** reportDisconnectFailed: tells the client that unsubscribing failed. */
  function ReportDisconnectFailed(s: State): State
    requires s.attached
  {
    Emit(s, DisconnectResult(false))
  }

  // ---------------------------------------------------------------------------
  // open / close / scanning / connect
  // ---------------------------------------------------------------------------

  /** open: attaches the client, takes the default adapter if none is held, reports whether one exists. */
  function Open(s: State, adapterAvailable: bool): State {
    var a := s.adapter || adapterAvailable;
    s.(attached := true, adapter := a, events := s.events + [OpenResult(a)])
  }

  /** startScan: a no-op while scanning; otherwise starts a new session with no address seen. */
  function StartScan(s: State): State
    requires s.scanning || s.adapter
  {
    if s.scanning then s
    else s.(scanning := true, scanDevices := {},
            calls := s.calls + [StartLeScan(!s.config.avoidScanWithUuid)])
  }

  /** The call stopScan makes: it stops the platform scan only while scanning. */
  function StopScanCalls(s: State): seq<PlatformCall> {
    if s.scanning then [StopLeScan] else []
  }

  /** stopScan: acts only while scanning. */
  function StopScan(s: State): State {
    s.(scanning := false, calls := s.calls + StopScanCalls(s))
  }

  /** btDevice.connectGatt: adopts the returned handle; a null handle fails the connect. */
  function BindDevice(s: State, p: Platform): State
    requires s.device.Some?
  {
    var s1 := s.(calls := s.calls + [ConnectGatt(s.device.value.address)], gatt := p.connectGatt);
    if p.connectGatt.None? then ReportConnectFailed(s1) else s1
  }

  /** The caller's name is known and equals the platform's cached name, so no scan is needed. */
  predicate NamesMatch(ref: DeviceRef, cachedName: Option<string>) {
    ref.deviceName.Some? && cachedName.Some? && cachedName.value == ref.deviceName.value
  }

  /**
   * connect(ref): stops any scan, then does nothing more while connected or
   * connecting. Otherwise it targets the device at ref's address and binds
   * straight away when the names match, or starts a scan that onLeScan
   * completes.
   */
  function Connect(s: State, ref: DeviceRef, cachedName: Option<string>, p: Platform): State
    requires s.adapter
  {
    var s1 := StopScan(s);
    if s1.connected || s1.connecting then s1
    else
      var s2 := s1.(connecting := true, device := Some(Device(ref.deviceAddress, cachedName)));
      if NamesMatch(ref, cachedName) then BindDevice(s2, p)
      else StartScan(s2)
  }

  // ---------------------------------------------------------------------------
  // onLeScan
  // ---------------------------------------------------------------------------

  /** onLeScan dereferences btDevice while connecting; with no device that throws out of the callback. */
  predicate OnLeScanThrows(s: State) {
    s.attached && s.connecting && s.device.None?
  }

  /** The scan result is the device the provider is connecting to. */
  predicate IsTarget(s: State, device: Device) {
    s.connecting && s.device.Some? && device.address == s.device.value.address
  }

  /** The report posted for a newly seen device. */
  function ScanReport(device: Device): DeviceRef {
    DeviceRef(Name, device.name, device.address)
  }

  /** The target device was seen: stop scanning and bind it, on the Handler when so configured. */
  function TargetFound(s: State, p: Platform): State
    requires s.device.Some?
  {
    var s1 := StopScan(s);
    if s.config.connectInOwnThread then s1.(pending := s1.pending + [PostConnectGatt])
    else BindDevice(s1, p)
  }

  /**
   * onLeScan: ignored without a client; the target device stops the scan and
   * is bound (on the Handler when so configured); any other address is
   * reported once per scan session.
   */
  function OnLeScan(s: State, device: Device, p: Platform): State {
    if !s.attached || OnLeScanThrows(s) then s
    else if IsTarget(s, device) then TargetFound(s, p)
    else if device.address in s.scanDevices then s
    else s.(scanDevices := s.scanDevices + {device.address},
            pending := s.pending + [PostScanResult(ScanReport(device))])
  }

  // ---------------------------------------------------------------------------
  // GATT callbacks
  // ---------------------------------------------------------------------------

  /** A callback carrying a handle other than the one held. */
  predicate Stale(s: State, g: Handle) {
    s.gatt.Some? && s.gatt.value != g
  }

  /**
   * onConnectionStateChange: while connecting, link-up starts service
   * discovery and link-down asks for a reconnect; while disconnecting the
   * handle is closed and released; otherwise link-down is reported.
   */
  function OnConnectionStateChange(s: State, g: Handle, newState: LinkState): State
    requires s.attached
  {
    var c := CheckBtGatt(s.gatt, g);
    if !c.accepted then s
    else if s.connecting then
      s.(gatt := c.held, calls := s.calls + [Gatt(g, if newState == StateConnected then DiscoverServices else Reconnect)])
    else if s.disconnecting then
      s.(gatt := None, calls := s.calls + [Gatt(g, CloseHandle)])
    else if newState == StateDisconnected then
      ReportDisconnected(s.(gatt := c.held))
    else s.(gatt := c.held)
  }

  /**
   * readBatteryLevel: requests the battery level on the held handle; a
   * battery service without the level characteristic fails the connect.
   */
  function ReadBatteryLevel(s: State, p: Platform): Attempt
    requires s.gatt.Some?
  {
    if BatteryService !in p.services then Attempt(false, s)
    else if (BatteryService, BatteryLevelCharac) !in p.characteristics then Attempt(false, ReportConnectFailed(s))
    else
      var s1 := Call(s, Gatt(s.gatt.value, ReadCharacteristic(BatteryLevelCharac)));
      Attempt(ReadCharacteristic(BatteryLevelCharac) in p.accepts, s1)
  }

  /** The fallback probe: read the firmware revision of the Device Information service. */
  function FirmwareProbe(s: State, g: Handle, p: Platform): State {
    if DisService !in p.services then ReportConnectFailed(s)
    else if (DisService, FirmwareRevision) !in p.characteristics then ReportConnectFailed(s)
    else
      var s1 := Call(s, Gatt(g, ReadCharacteristic(FirmwareRevision)));
      if ReadCharacteristic(FirmwareRevision) in p.accepts then s1 else ReportConnectFailed(s1)
  }

  /**
   * DummyReadForSecLevelCheck: the probe read that must succeed before the
   * profile is trusted. The battery level is read when the battery service
   * was seen and the read starts; otherwise the firmware revision.
   */
  function DummyReadForSecLevelCheck(s: State, g: Handle, p: Platform): State
    requires s.gatt.Some?
  {
    if s.hasBatteryService then
      var a := ReadBatteryLevel(s, p);
      if a.ok then a.state else FirmwareProbe(a.state, g, p)
    else FirmwareProbe(s, g, p)
  }

  /** onServicesDiscovered: notes whether a battery service exists, then probes. */
  function OnServicesDiscovered(s: State, g: Handle, p: Platform): State {
    var c := CheckBtGatt(s.gatt, g);
    if !c.accepted then s
    else
      var s1 := s.(gatt := c.held, hasBatteryService := s.hasBatteryService || BatteryService in p.services);
      DummyReadForSecLevelCheck(s1, g, p)
  }

  /** The power service, its measurement characteristic and that characteristic's CCC descriptor all exist. */
  predicate HasPowerProfile(p: Platform) {
    && PwrService in p.services
    && (PwrService, PwrMeasurementCharac) in p.characteristics
    && (PwrMeasurementCharac, Ccc) in p.descriptors
  }

  /** startPWR: finds the power measurement characteristic and reads its CCC descriptor. */
  function StartPwr(s: State, p: Platform): State
    requires s.gatt.Some?
  {
    if !HasPowerProfile(p) then ReportConnectFailed(s)
    else
      var s1 := Call(s, Gatt(s.gatt.value, ReadDescriptor(PwrMeasurementCharac, Ccc)));
      if ReadDescriptor(PwrMeasurementCharac, Ccc) in p.accepts then s1 else ReportConnectFailed(s1)
  }

  /**
   * onCharacteristicRead: the firmware revision or a battery level (stored
   * first) lets startPWR continue; an empty battery payload fails the connect.
   */
  function OnCharacteristicRead(s: State, g: Handle, charac: Uuid, value: seq<byte>, p: Platform): State {
    var c := CheckBtGatt(s.gatt, g);
    if !c.accepted then s
    else if charac == FirmwareRevision then StartPwr(s.(gatt := c.held), p)
    else if charac == BatteryLevelCharac then
      if |value| == 0 then ReportConnectFailed(s.(gatt := c.held))
      else StartPwr(s.(gatt := c.held, batteryLevel := value[0] as int), p)
    else s.(gatt := c.held)
  }

  /**
   * enableNotification: switches notifications on the characteristic and
   * writes the matching value to its CCC descriptor; true when the write starts.
   */
  function EnableNotification(s: State, on: bool, charac: Uuid, p: Platform): Attempt {
    if s.gatt.None? then Attempt(false, s)
    else
      var h := s.gatt.value;
      var write := SetNotification(charac, on) in p.accepts && (charac, Ccc) in p.descriptors;
      var issued := [Gatt(h, SetNotification(charac, on))] + (if write then [Gatt(h, WriteDescriptor(charac, Ccc, on))] else []);
      Attempt(write && WriteDescriptor(charac, Ccc, on) in p.accepts, s.(calls := s.calls + issued))
  }

  /**
   * onDescriptorRead: subscribes to the characteristic whose descriptor was
   * read; a refused subscription fails the connect. This callback does not
   * check the handle.
   */
  function OnDescriptorRead(s: State, charac: Uuid, p: Platform): State {
    var a := EnableNotification(s, true, charac, p);
    if a.ok then a.state else ReportConnectFailed(a.state)
  }

  /** The zero-reading window has run out: the connect fails, or the link is reported lost. */
  function ZeroWindowLapsed(s: State): State
    requires s.attached
  {
    if s.connecting then ReportConnectFailed(s) else ReportDisconnected(s)
  }

  /**
   * The effect of a decoded reading taken at nowMs: a non-zero value becomes
   * the reading and restarts the zero window; a zero keeps the old reading
   * until the window has run out, and then fails the connect or reports the
   * link lost. Reaching the end while connecting posts the connect result.
   */
  function TakeSample(s: State, v: nat, nowMs: int, nowNs: int): State
    requires s.attached
  {
    var s1 := s.(pwrTimestamp := nowMs, pwrElapsedRealtime := nowNs);
    if v == 0 && ZeroTimedOut(s.prevNonZero, nowMs) then ZeroWindowLapsed(s1)
    else
      var s2 := KeepReading(s1, v);
      if s2.connecting then ReportConnected(s2, true) else s2
  }

  /** A non-zero reading becomes the current value and restarts the zero window. */
  function KeepReading(s: State, v: nat): State {
    if v == 0 then s else s.(pwrValue := v, prevNonZero := s.pwrTimestamp)
  }

  /**
   * onCharacteristicChanged: decodes a power measurement and takes it as a
   * sample. A payload too short for its value throws and is handled as a
   * failure: of the connect, or of the link.
   */
  function OnCharacteristicChanged(s: State, g: Handle, charac: Uuid, value: seq<byte>, nowMs: int, nowNs: int): State
    requires s.attached
  {
    var c := CheckBtGatt(s.gatt, g);
    if !c.accepted then s
    else if charac != PwrMeasurementCharac || |value| == 0 then s.(gatt := c.held)
    else match DecodePower(value)
      case None =>
        if s.connecting then ReportConnectFailed(s.(gatt := c.held))
        else if s.connected then ReportDisconnected(s.(gatt := c.held))
        else s.(gatt := c.held)
      case Some(v) => TakeSample(s.(gatt := c.held), v, nowMs, nowNs)
  }

  // ---------------------------------------------------------------------------
  // Posted runnables
  // ---------------------------------------------------------------------------

  /** Running the next posted runnable throws: a scan report with no client, or a deferred bind with no device. */
  predicate RunNextThrows(s: State)
    requires s.pending != []
  {
    || (s.pending[0].PostScanResult? && !s.attached)
    || (s.pending[0].PostConnectGatt? && s.device.None?)
  }

  /**
   * Runs the runnable at the head of the Handler's queue. A posted connect
   * result takes effect only while still connecting: it sets connected to the
   * result, clears connecting and notifies the client.
   */
  function RunNext(s: State, p: Platform): State
    requires s.pending != []
  {
    var s1 := s.(pending := s.pending[1..]);
    match s.pending[0]
    case PostScanResult(ref) => RunScanResult(s1, ref)
    case PostConnected(b) => RunConnected(s1, b)
    case PostConnectGatt => RunConnectGatt(s1, p)
  }

  /** The runnable posted by onLeScan: hands the device to the client (it throws when none is attached). */
  function RunScanResult(s: State, ref: DeviceRef): State {
    if s.attached then s.(events := s.events + [ScanResult(ref)]) else s
  }

  /** The runnable posted by reportConnected. */
  function RunConnected(s: State, b: bool): State {
    if s.connecting && s.attached then s.(connected := b, connecting := false, events := s.events + [ConnectResult(b)])
    else s
  }

  /** The runnable posted by onLeScan on platforms that connect from the Handler (it throws without a device). */
  function RunConnectGatt(s: State, p: Platform): State {
    if s.device.Some? then BindDevice(s, p) else s
  }

  /** The deferred binds still queued. */
  function DeferredBinds(q: seq<Action>): nat {
    multiset(q)[PostConnectGatt]
  }

  /**
   * Running a runnable removes it from the queue; only a deferred bind can
   * queue another runnable, and that one is a failed connect result.
   */
  lemma RunNextQueue(s: State, p: Platform)
    requires s.pending != []
    ensures RunNext(s, p).pending == s.pending[1..] ||
            (s.pending[0].PostConnectGatt? && RunNext(s, p).pending == s.pending[1..] + [PostConnected(false)])
  {
    match s.pending[0]
    case PostScanResult(_) =>
    case PostConnected(_) =>
    case PostConnectGatt =>
      if s.device.Some? {
        BindDeviceQueue(s.(pending := s.pending[1..]), p);
      }
  }

  /** A bind queues nothing, or the failed connect result when it fails. */
  lemma BindDeviceQueue(s: State, p: Platform)
    requires s.device.Some?
    ensures BindDevice(s, p).pending == s.pending || BindDevice(s, p).pending == s.pending + [PostConnected(false)]
  {
    var s1 := s.(calls := s.calls + [ConnectGatt(s.device.value.address)], gatt := p.connectGatt);
    assert s1.pending == s.pending;
    if p.connectGatt.None? {
      assert BindDevice(s, p) == ReportConnectFailed(s1);
    }
  }

  /** Running a runnable uses up a deferred bind, or keeps their number and shortens the queue. */
  lemma RunNextProgress(s: State, p: Platform)
    requires s.pending != []
    ensures DeferredBinds(RunNext(s, p).pending) < DeferredBinds(s.pending) ||
            (DeferredBinds(RunNext(s, p).pending) == DeferredBinds(s.pending) && |RunNext(s, p).pending| < |s.pending|)
  {
    var q := s.pending;
    assert q == [q[0]] + q[1..];
    assert multiset(q) == multiset{q[0]} + multiset(q[1..]);
    RunNextQueue(s, p);
    if RunNext(s, p).pending != q[1..] {
      assert multiset(q[1..] + [PostConnected(false)]) == multiset(q[1..]) + multiset{PostConnected(false)};
    }
  }

  /** Runs posted runnables until the queue is empty or one throws. */
  function Drain(s: State, p: Platform): State
    decreases DeferredBinds(s.pending), |s.pending|
  {
    if s.pending == [] then s
    else
      var s1 := RunNext(s, p);
      RunNextProgress(s, p);
      if RunNextThrows(s) then s1
      else Drain(s1, p)
  }

  // ---------------------------------------------------------------------------
  // disconnect / close
  // ---------------------------------------------------------------------------

  /** The do { ... } while (false) block of disconnect: unsubscribe, reporting the first failure. */
  function Unsubscribe(s: State, p: Platform): State
    requires s.attached && s.gatt.Some?
  {
    if PwrService !in p.services then ReportDisconnectFailed(s)
    else if (PwrService, PwrMeasurementCharac) !in p.characteristics then ReportDisconnectFailed(s)
    else
      var a := EnableNotification(s, false, PwrMeasurementCharac, p);
      if a.ok then a.state else ReportDisconnectFailed(a.state)
  }

  /** Unsubscribing makes calls on the handle and may report a failure; nothing else changes. */
  lemma UnsubscribeFrame(s: State, p: Platform)
    requires s.attached && s.gatt.Some?
    ensures var r := Unsubscribe(s, p);
      && r == s.(calls := r.calls, events := r.events)
      && |r.calls| >= |s.calls| && r.calls[..|s.calls|] == s.calls
      && (r.events == s.events || r.events == s.events + [DisconnectResult(false)])
  {
    if PwrService in p.services && (PwrService, PwrMeasurementCharac) in p.characteristics {
      var a := EnableNotification(s, false, PwrMeasurementCharac, p);
      assert a.state == s.(calls := a.state.calls);
      assert a.state.calls[..|s.calls|] == s.calls;
    }
  }

  /**
   * The first part of disconnect leaves the flags clear with a disconnect in
   * progress and the handle held, and ends its calls with the request to drop
   * the link.
   */
  lemma BeginDisconnectFrame(s: State, p: Platform)
    requires s.attached && s.gatt.Some?
    ensures var r := BeginDisconnect(s, p);
      && r == s.(connected := false, connecting := false, disconnecting := true, calls := r.calls, events := r.events)
      && |r.calls| > |s.calls| && r.calls[..|s.calls|] == s.calls && r.calls[|r.calls| - 1] == Gatt(s.gatt.value, DisconnectLink)
      && (r.events == s.events || r.events == s.events + [DisconnectResult(false)])
  {
    var s0 := s.(connected := false, connecting := false, disconnecting := true);
    UnsubscribeFrame(s0, p);
  }

  /**
   * The bounded wait of disconnect on handle h: `elapsed` ms of the 2000 ms
   * budget have passed, and waits of 500 ms follow while a handle is held.
   * The link-closed callback arrives closeAfterMs into the wait; it closes the
   * handle, and the waiter sees that when its 500 ms wait ends (the callback
   * notifies its own monitor, not the provider the waiter waits on).
   */
  function WaitForClose(s: State, h: Handle, elapsed: nat, closeAfterMs: nat): State
    requires s.attached && s.disconnecting && !s.connecting
    decreases DisconnectWaitMs - elapsed
  {
    if s.gatt.None? || elapsed >= DisconnectWaitMs then s
    else if elapsed <= closeAfterMs < elapsed + WaitSliceMs then
      WaitForClose(OnConnectionStateChange(s, h, StateDisconnected), h, elapsed + WaitSliceMs, closeAfterMs)
    else WaitForClose(s, h, elapsed + WaitSliceMs, closeAfterMs)
  }

  /** The wait changes nothing but the handle and the calls made on it. */
  lemma {:induction false} WaitForCloseFrame(s: State, h: Handle, elapsed: nat, closeAfterMs: nat)
    requires s.attached && s.disconnecting && !s.connecting
    ensures WaitForClose(s, h, elapsed, closeAfterMs) ==
              s.(gatt := WaitForClose(s, h, elapsed, closeAfterMs).gatt, calls := WaitForClose(s, h, elapsed, closeAfterMs).calls)
    decreases DisconnectWaitMs - elapsed
  {
    if s.gatt.None? || elapsed >= DisconnectWaitMs {
    } else if elapsed <= closeAfterMs < elapsed + WaitSliceMs {
      WaitForCloseFrame(OnConnectionStateChange(s, h, StateDisconnected), h, elapsed + WaitSliceMs, closeAfterMs);
    } else {
      WaitForCloseFrame(s, h, elapsed + WaitSliceMs, closeAfterMs);
    }
  }

  /** The call that closes the held handle, if one is held. */
  function CloseCalls(s: State): seq<PlatformCall> {
    if s.gatt.Some? then [Gatt(s.gatt.value, CloseHandle)] else []
  }

  /** Closes and releases the handle if one is still held. */
  function ForceClose(s: State): State {
    s.(gatt := None, calls := s.calls + CloseCalls(s))
  }

  /** disconnect() has something to do: a handle and a device are held, a link is up or coming up, and no disconnect runs. */
  predicate DisconnectActs(s: State) {
    s.gatt.Some? && s.device.Some? && (s.connecting || s.connected) && !s.disconnecting
  }

  /**
   * The first part of disconnect: clear the link flags, mark the disconnect
   * in progress, unsubscribe, and ask the link to go down.
   */
  function BeginDisconnect(s: State, p: Platform): State
    requires s.attached && s.gatt.Some?
  {
    var s1 := Unsubscribe(s.(connected := false, connecting := false, disconnecting := true), p);
    s1.(calls := s1.calls + [Gatt(s.gatt.value, DisconnectLink)])
  }

  /** The last part of disconnect: close the handle if still held, forget the device, report the link gone. */
  function FinishDisconnect(s: State): State
    requires s.attached
  {
    s.(gatt := None, calls := s.calls + CloseCalls(s), device := None, disconnecting := false,
       events := s.events + [DisconnectResult(true)])
  }

  /**
   * disconnect: unsubscribes, asks the link to go down and, when it was up,
   * waits at most 2 s for the callback to close the handle before closing it
   * itself; then forgets the device and reports the link gone.
   */
  function Disconnect(s: State, p: Platform, closeAfterMs: nat): State
    requires Inv(s)
  {
    if !DisconnectActs(s) then s
    else
      var s1 := BeginDisconnect(s, p);
      BeginDisconnectFrame(s, p);
      var s2 := if s.connected then WaitForCloseFrame(s1, s.gatt.value, 0, closeAfterMs); WaitForClose(s1, s.gatt.value, 0, closeAfterMs) else s1;
      FinishDisconnect(s2)
  }

  /** close: stops scanning, disconnects, then releases the handle, the adapter, the device and the client. */
  function Close(s: State, p: Platform, closeAfterMs: nat): State
    requires Inv(s)
  {
    var s1 := Disconnect(StopScan(s), p, closeAfterMs);
    ForceClose(s1).(adapter := false, device := None, attached := false)
  }

  /** getPWRData: null only when the reading is negative, which Inv rules out. */
  function GetPwrData(s: State): (r: Option<PwrData>)
    ensures r.None? <==> s.pwrValue < 0
    ensures Inv(s) ==> r.Some?
    ensures r.Some? ==> r.value == PwrData(s.pwrValue, s.pwrTimestamp)
  {
    if s.pwrValue < 0 then None else Some(PwrData(s.pwrValue, s.pwrTimestamp))
  }
}
