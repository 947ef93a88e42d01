/**
 * AndroidBLEPWRProvider as a class whose fields are updated in place, as the
 * Java object's are. Snap() reads the fields as an AndroidBleSpec.State, and
 * every method is proved to perform exactly the transition of the function
 * of the same name in AndroidBleSpec; the public methods and the callbacks
 * also keep the invariant Valid().
 */
module AndroidBleProvider {
  import opened Wrappers
  import opened BtPwrBase
  import opened PwrProvider
  import opened AndroidBleSpec
  import opened AndroidBleProperties

  class BlePwrProvider {
    /** AVOID_SCAN_WITH_UUID and CONNECT_IN_OWN_THREAD_FROM_ON_LE_SCAN, fixed for the platform. */
    const config: Config
    var adapter: bool
    var attached: bool
    var gatt: Option<Handle>
    var device: Option<Device>
    var pwrValue: int
    var pwrTimestamp: int
    var pwrElapsedRealtime: int
    var batteryLevel: int
    var hasBatteryService: bool
    var prevNonZero: int
    var scanning: bool
    var connecting: bool
    var connected: bool
    var disconnecting: bool
    var scanDevices: set<string>
    /** The runnables posted to the client's Handler, oldest first. */
    var pending: seq<Action>
    /** What the client has been told, oldest first. */
    var events: seq<ClientEvent>
    /** What the provider has asked of the Bluetooth stack, oldest first. */
    var calls: seq<PlatformCall>

    /** The fields as a value of the specification. */
    function Snap(): State
      reads this
    {
      State(config, adapter, attached, gatt, device, pwrValue, pwrTimestamp, pwrElapsedRealtime,
            batteryLevel, hasBatteryService, prevNonZero, scanning, connecting, connected, disconnecting,
            scanDevices, pending, events, calls)
    }

    predicate Valid()
      reads this
    {
      Inv(Snap())
    }

    constructor (config: Config)
      ensures Snap() == Init(config) && Valid()
    {
      this.config := config;
      adapter, attached, gatt, device := false, false, None, None;
      pwrValue, pwrTimestamp, pwrElapsedRealtime, batteryLevel := 0, 0, 0, -1;
      hasBatteryService, prevNonZero := false, 0;
      scanning, connecting, connected, disconnecting := false, false, false, false;
      scanDevices, pending, events, calls := {}, [], [], [];
    }

    // -------------------------------------------------------------------------
    // Reporting to the client
    // -------------------------------------------------------------------------

    method ReportConnected(b: bool)
      modifies this
      ensures Snap() == AndroidBleSpec.ReportConnected(old(Snap()), b)
    {
      if attached {
        pending := pending + [PostConnected(b)];
      }
    }

    method ReportConnectFailed()
      modifies this
      ensures Snap() == AndroidBleSpec.ReportConnectFailed(old(Snap()))
    {
      if gatt.Some? {
        calls := calls + [Gatt(gatt.value, DisconnectLink), Gatt(gatt.value, CloseHandle)];
        gatt := None;
      }
      device := None;
      assert Snap() == old(Snap()).(calls := old(calls) + DropCalls(old(Snap())), gatt := None, device := None);
      ReportConnected(false);
    }

    method ReportDisconnected()
      requires attached
      modifies this
      ensures Snap() == AndroidBleSpec.ReportDisconnected(old(Snap()))
    {
      events := events + [DisconnectResult(true)];
    }

    method ReportDisconnectFailed()
      requires attached
      modifies this
      ensures Snap() == AndroidBleSpec.ReportDisconnectFailed(old(Snap()))
    {
      events := events + [DisconnectResult(false)];
    }

    // -------------------------------------------------------------------------
    // open / scanning / connect
    // -------------------------------------------------------------------------

    /** open(handler, client); adapterAvailable says whether BluetoothAdapter.getDefaultAdapter() is non-null. */
    method Open(adapterAvailable: bool)
      requires Valid()
      modifies this
      ensures Snap() == AndroidBleSpec.Open(old(Snap()), adapterAvailable) && Valid()
    {
      attached := true;
      if !adapter {
        adapter := adapterAvailable;
      }
      events := events + [OpenResult(adapter)];
    }

    method StartScan()
      requires scanning || adapter
      modifies this
      ensures Snap() == AndroidBleSpec.StartScan(old(Snap()))
      ensures old(Valid()) ==> Valid()
    {
      if scanning {
        return;
      }
      scanning := true;
      scanDevices := {};
      calls := calls + [StartLeScan(!config.avoidScanWithUuid)];
    }

    method StopScan()
      modifies this
      ensures Snap() == AndroidBleSpec.StopScan(old(Snap()))
      ensures old(Valid()) ==> Valid()
    {
      if scanning {
        scanning := false;
        calls := calls + [StopLeScan];
      }
    }

    /** btGatt = btDevice.connectGatt(...), failing the connect on a null handle. */
    method BindDevice(p: Platform)
      requires device.Some?
      modifies this
      ensures Snap() == AndroidBleSpec.BindDevice(old(Snap()), p)
    {
      ghost var s0 := Snap();
      calls := calls + [ConnectGatt(device.value.address)];
      gatt := p.connectGatt;
      if gatt.None? {
        assert Snap() == s0.(calls := s0.calls + [ConnectGatt(s0.device.value.address)], gatt := p.connectGatt);
        ReportConnectFailed();
      }
    }

    /** connect(ref); cachedName is the name the platform has cached for the device at ref's address. */
    method Connect(ref: DeviceRef, cachedName: Option<string>, p: Platform)
      requires Valid() && adapter
      modifies this
      ensures Snap() == AndroidBleSpec.Connect(old(Snap()), ref, cachedName, p) && Valid()
    {
      ghost var s0 := Snap();
      StopScan();
      if connected || connecting {
        return;
      }
      ghost var s1 := Snap();
      connecting := true;
      device := Some(Device(ref.deviceAddress, cachedName));
      assert Snap() == s1.(connecting := true, device := Some(Device(ref.deviceAddress, cachedName)));
      if !NamesMatch(ref, cachedName) {
        StartScan();
      } else {
        BindDevice(p);
      }
      ConnectInv(s0, ref, cachedName, p);
    }

    method TargetFound(p: Platform)
      requires device.Some?
      modifies this
      ensures Snap() == AndroidBleSpec.TargetFound(old(Snap()), p)
    {
      StopScan();
      if config.connectInOwnThread {
        pending := pending + [PostConnectGatt];
      } else {
        BindDevice(p);
      }
    }

    /** The scan callback; `throws` reports the NullPointerException taken when no device is targeted while connecting. */
    method OnLeScan(d: Device, p: Platform) returns (throws: bool)
      requires Valid()
      modifies this
      ensures Snap() == AndroidBleSpec.OnLeScan(old(Snap()), d, p)
      ensures throws == OnLeScanThrows(old(Snap()))
      ensures Valid()
    {
      ghost var s0 := Snap();
      if !attached {
        return false;
      }
      if connecting && device.None? {
        return true;
      }
      throws := false;
      if connecting && d.address == device.value.address {
        TargetFound(p);
      } else if d.address !in scanDevices {
        scanDevices := scanDevices + {d.address};
        pending := pending + [PostScanResult(ScanReport(d))];
      }
      OnLeScanInv(s0, d, p);
    }

    // -------------------------------------------------------------------------
    // GATT callbacks
    // -------------------------------------------------------------------------

    /** checkBtGatt: adopts the callback's handle when none is held; rejects any other handle. */
    method CheckBtGatt(g: Handle) returns (ok: bool)
      modifies this
      ensures var c := AndroidBleSpec.CheckBtGatt(old(gatt), g);
        ok == c.accepted && Snap() == old(Snap()).(gatt := c.held)
    {
      if gatt.None? {
        gatt := Some(g);
        return true;
      }
      ok := gatt.value == g;
    }

    method OnConnectionStateChange(g: Handle, newState: LinkState)
      requires attached
      modifies this
      ensures Snap() == AndroidBleSpec.OnConnectionStateChange(old(Snap()), g, newState)
      ensures old(Valid()) ==> Valid()
    {
      var ok := CheckBtGatt(g);
      if !ok {
        return;
      }
      if connecting {
        calls := calls + [Gatt(gatt.value, if newState == StateConnected then DiscoverServices else Reconnect)];
      } else if disconnecting {
        calls := calls + [Gatt(gatt.value, CloseHandle)];
        gatt := None;
      } else if newState == StateDisconnected {
        ReportDisconnected();
      }
    }

    method ReadBatteryLevel(p: Platform) returns (ok: bool)
      requires gatt.Some?
      modifies this
      ensures Attempt(ok, Snap()) == AndroidBleSpec.ReadBatteryLevel(old(Snap()), p)
    {
      if BatteryService !in p.services {
        return false;
      }
      if (BatteryService, BatteryLevelCharac) !in p.characteristics {
        ReportConnectFailed();
        return false;
      }
      calls := calls + [Gatt(gatt.value, ReadCharacteristic(BatteryLevelCharac))];
      ok := ReadCharacteristic(BatteryLevelCharac) in p.accepts;
    }

    /** The probe on the callback's handle g: the battery level if possible, else the firmware revision. */
    method DummyReadForSecLevelCheck(g: Handle, p: Platform)
      requires gatt.Some?
      modifies this
      ensures Snap() == AndroidBleSpec.DummyReadForSecLevelCheck(old(Snap()), g, p)
    {
      if hasBatteryService {
        var ok := ReadBatteryLevel(p);
        if ok {
          return;
        }
      }
      ghost var s1 := Snap();
      if DisService !in p.services {
        ReportConnectFailed();
      } else if (DisService, FirmwareRevision) !in p.characteristics {
        ReportConnectFailed();
      } else {
        calls := calls + [Gatt(g, ReadCharacteristic(FirmwareRevision))];
        if ReadCharacteristic(FirmwareRevision) !in p.accepts {
          ReportConnectFailed();
        }
      }
      assert Snap() == FirmwareProbe(s1, g, p);
    }

    method OnServicesDiscovered(g: Handle, p: Platform)
      requires Valid()
      modifies this
      ensures Snap() == AndroidBleSpec.OnServicesDiscovered(old(Snap()), g, p)
      ensures Valid()
    {
      ghost var s0 := Snap();
      var ok := CheckBtGatt(g);
      if !ok {
        return;
      }
      hasBatteryService := hasBatteryService || BatteryService in p.services;
      assert Snap() == s0.(gatt := Some(g), hasBatteryService := s0.hasBatteryService || BatteryService in p.services);
      DummyReadForSecLevelCheck(g, p);
      OnServicesDiscoveredInv(s0, g, p);
    }

    method StartPwr(p: Platform)
      requires gatt.Some?
      modifies this
      ensures Snap() == AndroidBleSpec.StartPwr(old(Snap()), p)
    {
      if PwrService !in p.services {
        ReportConnectFailed();
      } else if (PwrService, PwrMeasurementCharac) !in p.characteristics {
        ReportConnectFailed();
      } else if (PwrMeasurementCharac, Ccc) !in p.descriptors {
        ReportConnectFailed();
      } else {
        calls := calls + [Gatt(gatt.value, ReadDescriptor(PwrMeasurementCharac, Ccc))];
        if ReadDescriptor(PwrMeasurementCharac, Ccc) !in p.accepts {
          ReportConnectFailed();
        }
      }
    }

    /** onCharacteristicRead; an empty battery payload makes getIntValue return null, which the handler catches. */
    method OnCharacteristicRead(g: Handle, charac: Uuid, value: seq<byte>, p: Platform)
      requires Valid()
      modifies this
      ensures Snap() == AndroidBleSpec.OnCharacteristicRead(old(Snap()), g, charac, value, p)
      ensures Valid()
    {
      ghost var s0 := Snap();
      var ok := CheckBtGatt(g);
      if !ok {
        return;
      }
      if charac == FirmwareRevision {
        StartPwr(p);
      } else if charac == BatteryLevelCharac {
        if |value| == 0 {
          ReportConnectFailed();
        } else {
          batteryLevel := value[0] as int;
          assert Snap() == s0.(gatt := Some(g), batteryLevel := value[0] as int);
          StartPwr(p);
        }
      }
      OnCharacteristicReadInv(s0, g, charac, value, p);
    }

    method EnableNotification(on: bool, charac: Uuid, p: Platform) returns (ok: bool)
      modifies this
      ensures Attempt(ok, Snap()) == AndroidBleSpec.EnableNotification(old(Snap()), on, charac, p)
    {
      if gatt.None? {
        return false;
      }
      calls := calls + [Gatt(gatt.value, SetNotification(charac, on))];
      if SetNotification(charac, on) !in p.accepts || (charac, Ccc) !in p.descriptors {
        return false;
      }
      calls := calls + [Gatt(gatt.value, WriteDescriptor(charac, Ccc, on))];
      ok := WriteDescriptor(charac, Ccc, on) in p.accepts;
    }

    method OnDescriptorRead(charac: Uuid, p: Platform)
      requires Valid()
      modifies this
      ensures Snap() == AndroidBleSpec.OnDescriptorRead(old(Snap()), charac, p)
      ensures Valid()
    {
      ghost var s0 := Snap();
      var ok := EnableNotification(true, charac, p);
      if !ok {
        ReportConnectFailed();
      }
      OnDescriptorReadInv(s0, charac, p);
    }

    /** The sample part of onCharacteristicChanged, from reading the clocks on. */
    method TakeSample(v: nat, nowMs: int, nowNs: int)
      requires attached
      modifies this
      ensures Snap() == AndroidBleSpec.TakeSample(old(Snap()), v, nowMs, nowNs)
    {
      pwrTimestamp, pwrElapsedRealtime := nowMs, nowNs;
      assert Snap() == old(Snap()).(pwrTimestamp := nowMs, pwrElapsedRealtime := nowNs);
      if v == 0 && prevNonZero > 0 && pwrTimestamp - prevNonZero > MaxPwrTimestampNotZeroMs {
        ZeroWindowLapsed();
        return;
      }
      KeepReading(v);
      if connecting {
        ReportConnected(true);
      }
    }

    method KeepReading(v: nat)
      modifies this
      ensures Snap() == AndroidBleSpec.KeepReading(old(Snap()), v)
    {
      if v != 0 {
        pwrValue, prevNonZero := v, pwrTimestamp;
      }
    }

    method ZeroWindowLapsed()
      requires attached
      modifies this
      ensures Snap() == AndroidBleSpec.ZeroWindowLapsed(old(Snap()))
    {
      if connecting {
        ReportConnectFailed();
      } else {
        ReportDisconnected();
      }
    }

    /**
     * onCharacteristicChanged, with the wall clock at nowMs and the elapsed
     * realtime at nowNs. A payload too short for its value makes getIntValue
     * return null; unboxing it throws, and the handler fails the connect or
     * reports the link lost.
     */
    method OnCharacteristicChanged(g: Handle, charac: Uuid, value: seq<byte>, nowMs: int, nowNs: int)
      requires Valid() && attached
      modifies this
      ensures Snap() == AndroidBleSpec.OnCharacteristicChanged(old(Snap()), g, charac, value, nowMs, nowNs)
      ensures Valid()
    {
      ghost var s0 := Snap();
      var ok := CheckBtGatt(g);
      if !ok || charac != PwrMeasurementCharac || |value| == 0 {
        return;
      }
      var decoded := DecodePower(value);
      if decoded.None? {
        if connecting {
          ReportConnectFailed();
        } else if connected {
          ReportDisconnected();
        }
      } else {
        TakeSample(decoded.value, nowMs, nowNs);
      }
      OnCharacteristicChangedInv(s0, g, charac, value, nowMs, nowNs);
    }

    // -------------------------------------------------------------------------
    // Posted runnables
    // -------------------------------------------------------------------------

    /** The Handler runs the oldest posted runnable; `throws` reports a NullPointerException in it. */
    method RunNext(p: Platform) returns (throws: bool)
      requires pending != [] && Valid()
      modifies this
      ensures Snap() == AndroidBleSpec.RunNext(old(Snap()), p)
      ensures throws == RunNextThrows(old(Snap()))
      ensures Valid()
    {
      ghost var s0 := Snap();
      var a := pending[0];
      pending := pending[1..];
      assert Snap() == s0.(pending := s0.pending[1..]);
      match a {
        case PostScanResult(ref) =>
          throws := !attached;
          RunScanResult(ref);
        case PostConnected(b) =>
          throws := false;
          RunConnected(b);
        case PostConnectGatt =>
          throws := device.None?;
          RunConnectGatt(p);
      }
      RunNextInv(s0, p);
    }

    /** run() of the runnable onLeScan posts; without a client it throws before changing anything. */
    method RunScanResult(ref: DeviceRef)
      modifies this
      ensures Snap() == AndroidBleSpec.RunScanResult(old(Snap()), ref)
    {
      if attached {
        events := events + [ScanResult(ref)];
      }
    }

    /** run() of the runnable reportConnected posts. */
    method RunConnected(b: bool)
      modifies this
      ensures Snap() == AndroidBleSpec.RunConnected(old(Snap()), b)
    {
      if connecting && attached {
        connected := b;
        connecting := false;
        events := events + [ConnectResult(b)];
      }
    }

    /** run() of the runnable that connects from the Handler; without a device it throws before changing anything. */
    method RunConnectGatt(p: Platform)
      modifies this
      ensures Snap() == AndroidBleSpec.RunConnectGatt(old(Snap()), p)
    {
      if device.Some? {
        BindDevice(p);
      }
    }

    // -------------------------------------------------------------------------
    // disconnect / close
    // -------------------------------------------------------------------------

    method Unsubscribe(p: Platform)
      requires attached && gatt.Some?
      modifies this
      ensures Snap() == AndroidBleSpec.Unsubscribe(old(Snap()), p)
    {
      if PwrService !in p.services {
        ReportDisconnectFailed();
      } else if (PwrService, PwrMeasurementCharac) !in p.characteristics {
        ReportDisconnectFailed();
      } else {
        var ok := EnableNotification(false, PwrMeasurementCharac, p);
        if !ok {
          ReportDisconnectFailed();
        }
      }
    }

    /** The part of disconnect() before the wait: flags, unsubscribing, and btGatt.disconnect(). */
    method BeginDisconnect(p: Platform)
      requires attached && gatt.Some?
      modifies this
      ensures Snap() == AndroidBleSpec.BeginDisconnect(old(Snap()), p)
    {
      var h := gatt.value;
      connected, connecting, disconnecting := false, false, true;
      assert Snap() == old(Snap()).(connected := false, connecting := false, disconnecting := true);
      Unsubscribe(p);
      calls := calls + [Gatt(h, DisconnectLink)];
    }

    /**
     * The wait of disconnect() on handle h, in waits of 500 ms for at most
     * 2 s while a handle is held; the link-closed callback arrives
     * closeAfterMs into the wait. Returns the number of waits.
     */
    method WaitForClose(h: Handle, closeAfterMs: nat) returns (waits: nat)
      requires attached && disconnecting && !connecting
      modifies this
      ensures Snap() == AndroidBleSpec.WaitForClose(old(Snap()), h, 0, closeAfterMs)
      ensures waits <= 4
    {
      ghost var s0 := Snap();
      var elapsed := 0;
      waits := 0;
      while gatt.Some? && elapsed < DisconnectWaitMs
        invariant 0 <= elapsed <= DisconnectWaitMs && elapsed == WaitSliceMs * waits
        invariant attached && disconnecting && !connecting
        invariant AndroidBleSpec.WaitForClose(Snap(), h, elapsed, closeAfterMs) == AndroidBleSpec.WaitForClose(s0, h, 0, closeAfterMs)
        decreases DisconnectWaitMs - elapsed
      {
        if elapsed <= closeAfterMs < elapsed + WaitSliceMs {
          OnConnectionStateChange(h, StateDisconnected);
        }
        elapsed := elapsed + WaitSliceMs;
        waits := waits + 1;
      }
    }

    /** Closes and releases the handle if one is still held. */
    method ForceClose()
      modifies this
      ensures Snap() == AndroidBleSpec.ForceClose(old(Snap()))
    {
      if gatt.Some? {
        calls := calls + [Gatt(gatt.value, CloseHandle)];
        gatt := None;
      }
    }

    /** The part of disconnect() after the wait. */
    method FinishDisconnect()
      requires attached
      modifies this
      ensures Snap() == AndroidBleSpec.FinishDisconnect(old(Snap()))
    {
      ForceClose();
      device, disconnecting := None, false;
      assert Snap() == AndroidBleSpec.ForceClose(old(Snap())).(device := None, disconnecting := false);
      ReportDisconnected();
    }

    /**
     * disconnect(); the link-closed callback arrives closeAfterMs into the
     * wait. `waits` counts the 500 ms waits: at most four.
     */
    method Disconnect(p: Platform, closeAfterMs: nat) returns (waits: nat)
      requires Valid()
      modifies this
      ensures Snap() == AndroidBleSpec.Disconnect(old(Snap()), p, closeAfterMs) && Valid()
      ensures waits <= 4
    {
      ghost var s0 := Snap();
      waits := 0;
      if gatt.None? || device.None? || (!connecting && !connected) || disconnecting {
        return;
      }
      var wasConnected := connected;
      BeginDisconnectFrame(s0, p);
      BeginDisconnect(p);
      if wasConnected {
        WaitForCloseFrame(Snap(), s0.gatt.value, 0, closeAfterMs);
        waits := WaitForClose(gatt.value, closeAfterMs);
      }
      FinishDisconnect();
      assert Snap() == AndroidBleSpec.Disconnect(s0, p, closeAfterMs);
      assert Valid() by {
        DisconnectEnds(s0, p, closeAfterMs);
      }
    }

    method Close(p: Platform, closeAfterMs: nat)
      requires Valid()
      modifies this
      ensures Snap() == AndroidBleSpec.Close(old(Snap()), p, closeAfterMs) && Valid()
    {
      ghost var s0 := Snap();
      StopScan();
      var _ := Disconnect(p, closeAfterMs);
      ForceClose();
      adapter := false;
      device := None;
      attached := false;
      assert Snap() == AndroidBleSpec.Close(s0, p, closeAfterMs);
      assert Valid() by {
        CloseInv(s0, p, closeAfterMs);
      }
    }

    /** getPWRData: the reading and its timestamp; null only for a negative reading, which Valid excludes. */
    function GetPwrData(): (r: Option<PwrData>)
      reads this
      ensures r.None? <==> pwrValue < 0
      ensures Valid() ==> r == Some(PwrData(pwrValue, pwrTimestamp))
    {
      if pwrValue < 0 then None else Some(PwrData(pwrValue, pwrTimestamp))
    }
  }
}
