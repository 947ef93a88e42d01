/**
 * What the Bluetooth LE power provider promises, proved about the transition
 * functions of AndroidBleSpec: the invariant over every reachable state, the
 * handle check, scan de-duplication, the probe order, sample decoding and the
 * zero-reading window, one connect result per attempt, and the bounded
 * disconnect.
 */
module AndroidBleProperties {
  import opened Wrappers
  import opened BtPwrBase
  import opened PwrProvider
  import opened AndroidBleSpec

  // ---------------------------------------------------------------------------
  // Every operation preserves Inv
  // ---------------------------------------------------------------------------

  lemma ReportConnectFailedInv(s: State)
    requires Inv(s)
    ensures Inv(ReportConnectFailed(s))
    ensures ReportConnectFailed(s).device.None? && ReportConnectFailed(s).gatt.None?
  {
  }

  lemma BindDeviceInv(s: State, p: Platform)
    requires Inv(s) && s.device.Some?
    ensures Inv(BindDevice(s, p))
  {
    var s1 := s.(calls := s.calls + [ConnectGatt(s.device.value.address)], gatt := p.connectGatt);
    ReportConnectFailedInv(s1);
  }

  lemma ConnectInv(s: State, ref: DeviceRef, cachedName: Option<string>, p: Platform)
    requires Inv(s) && s.adapter
    ensures Inv(Connect(s, ref, cachedName, p))
  {
    var s1 := StopScan(s);
    if !(s1.connected || s1.connecting) {
      var s2 := s1.(connecting := true, device := Some(Device(ref.deviceAddress, cachedName)));
      if NamesMatch(ref, cachedName) {
        BindDeviceInv(s2, p);
      }
    }
  }

  lemma OnLeScanInv(s: State, device: Device, p: Platform)
    requires Inv(s)
    ensures Inv(OnLeScan(s, device, p))
  {
    if s.attached && !OnLeScanThrows(s) && IsTarget(s, device) && !s.config.connectInOwnThread {
      BindDeviceInv(StopScan(s), p);
    }
  }

  lemma ProbeInv(s: State, g: Handle, p: Platform)
    requires Inv(s) && s.gatt.Some?
    ensures Inv(DummyReadForSecLevelCheck(s, g, p))
  {
    if s.hasBatteryService {
      var a := ReadBatteryLevel(s, p);
      assert Inv(a.state) by {
        if BatteryService in p.services && (BatteryService, BatteryLevelCharac) !in p.characteristics {
          ReportConnectFailedInv(s);
        }
      }
      if !a.ok {
        FirmwareProbeInv(a.state, g, p);
      }
    } else {
      FirmwareProbeInv(s, g, p);
    }
  }

  lemma FirmwareProbeInv(s: State, g: Handle, p: Platform)
    requires Inv(s)
    ensures Inv(FirmwareProbe(s, g, p))
  {
    var s1 := Call(s, Gatt(g, ReadCharacteristic(FirmwareRevision)));
    ReportConnectFailedInv(s);
    ReportConnectFailedInv(s1);
  }

  lemma StartPwrInv(s: State, p: Platform)
    requires Inv(s) && s.gatt.Some?
    ensures Inv(StartPwr(s, p))
  {
    var s1 := Call(s, Gatt(s.gatt.value, ReadDescriptor(PwrMeasurementCharac, Ccc)));
    ReportConnectFailedInv(s);
    ReportConnectFailedInv(s1);
  }

  lemma OnCharacteristicReadInv(s: State, g: Handle, charac: Uuid, value: seq<byte>, p: Platform)
    requires Inv(s)
    ensures Inv(OnCharacteristicRead(s, g, charac, value, p))
  {
    var c := CheckBtGatt(s.gatt, g);
    if c.accepted {
      if charac == FirmwareRevision {
        StartPwrInv(s.(gatt := c.held), p);
      } else if charac == BatteryLevelCharac {
        if |value| == 0 {
          ReportConnectFailedInv(s.(gatt := c.held));
        } else {
          StartPwrInv(s.(gatt := c.held, batteryLevel := value[0] as int), p);
        }
      }
    }
  }

  lemma OnDescriptorReadInv(s: State, charac: Uuid, p: Platform)
    requires Inv(s)
    ensures Inv(OnDescriptorRead(s, charac, p))
  {
    ReportConnectFailedInv(EnableNotification(s, true, charac, p).state);
  }

  lemma TakeSampleInv(s: State, v: nat, nowMs: int, nowNs: int)
    requires Inv(s) && s.attached
    ensures Inv(TakeSample(s, v, nowMs, nowNs))
  {
    ReportConnectFailedInv(s.(pwrTimestamp := nowMs, pwrElapsedRealtime := nowNs));
  }

  lemma OnCharacteristicChangedInv(s: State, g: Handle, charac: Uuid, value: seq<byte>, nowMs: int, nowNs: int)
    requires Inv(s) && s.attached
    ensures Inv(OnCharacteristicChanged(s, g, charac, value, nowMs, nowNs))
  {
    var c := CheckBtGatt(s.gatt, g);
    if c.accepted && charac == PwrMeasurementCharac && |value| > 0 {
      match DecodePower(value)
      case None => ReportConnectFailedInv(s.(gatt := c.held));
      case Some(v) => TakeSampleInv(s.(gatt := c.held), v, nowMs, nowNs);
    }
  }

  lemma RunNextInv(s: State, p: Platform)
    requires Inv(s) && s.pending != []
    ensures Inv(RunNext(s, p))
  {
    if s.pending[0].PostConnectGatt? && s.device.Some? {
      BindDeviceInv(s.(pending := s.pending[1..]), p);
    }
  }

  lemma OnServicesDiscoveredInv(s: State, g: Handle, p: Platform)
    requires Inv(s)
    ensures Inv(OnServicesDiscovered(s, g, p))
  {
    var c := CheckBtGatt(s.gatt, g);
    if c.accepted {
      ProbeInv(s.(gatt := c.held, hasBatteryService := s.hasBatteryService || BatteryService in p.services), g, p);
    }
  }

  lemma CloseInv(s: State, p: Platform, closeAfterMs: nat)
    requires Inv(s)
    ensures Inv(Close(s, p, closeAfterMs))
  {
    DisconnectEnds(StopScan(s), p, closeAfterMs);
  }

  /**
   * getPWRData never returns null on this provider: the reading starts at 0
   * and only decoded (unsigned) values are stored, which Inv records.
   */
  lemma PwrDataAlwaysPresent(s: State)
    requires Inv(s)
    ensures GetPwrData(s) == Some(PwrData(s.pwrValue, s.pwrTimestamp))
  {
  }

  // ---------------------------------------------------------------------------
  // Guards
  // ---------------------------------------------------------------------------

  /** startScan while scanning changes nothing; otherwise it starts a session with no address recorded. */
  lemma StartScanGuard(s: State)
    requires s.scanning || s.adapter
    ensures s.scanning ==> StartScan(s) == s
    ensures !s.scanning ==> StartScan(s).scanning && StartScan(s).scanDevices == {} &&
                            StartScan(s).calls == s.calls + [StartLeScan(!s.config.avoidScanWithUuid)]
  {
  }

  /** stopScan acts only while scanning, and leaves the provider not scanning. */
  lemma StopScanGuard(s: State)
    ensures !StopScan(s).scanning
    ensures !s.scanning ==> StopScan(s) == s
    ensures s.scanning ==> StopScan(s).calls == s.calls + [StopLeScan]
  {
  }

  /** connect while connected or connecting does nothing beyond stopping a scan. */
  lemma ConnectGuard(s: State, ref: DeviceRef, cachedName: Option<string>, p: Platform)
    requires s.adapter && (s.connected || s.connecting)
    ensures Connect(s, ref, cachedName, p) == StopScan(s)
  {
  }

  /**
   * Otherwise, when the cached name matches, connect stops any scan and binds
   * at once: it asks the stack for a link to ref's address and keeps the
   * handle it gets; without one the connect fails straight away.
   */
  lemma ConnectBindsAtOnce(s: State, ref: DeviceRef, cachedName: Option<string>, p: Platform)
    requires s.adapter && s.attached && !s.connected && !s.connecting && NamesMatch(ref, cachedName)
    ensures var r := Connect(s, ref, cachedName, p);
      && r.connecting && !r.scanning
      && r.calls == s.calls + StopScanCalls(s) + [ConnectGatt(ref.deviceAddress)]
      && (p.connectGatt.Some? ==>
            r == s.(scanning := false, connecting := true, device := Some(Device(ref.deviceAddress, cachedName)),
                    gatt := p.connectGatt, calls := r.calls))
      && (p.connectGatt.None? ==>
            r == s.(scanning := false, connecting := true, device := None, gatt := None,
                    calls := r.calls, pending := s.pending + [PostConnected(false)]))
  {
    var s2 := StopScan(s).(connecting := true, device := Some(Device(ref.deviceAddress, cachedName)));
    assert Connect(s, ref, cachedName, p) == BindDevice(s2, p);
  }

  /**
   * When the cached name does not match (or is unknown), connect records the
   * device and scans for it first, with a fresh de-duplication set and no
   * link requested yet.
   */
  lemma ConnectScansFirst(s: State, ref: DeviceRef, cachedName: Option<string>, p: Platform)
    requires s.adapter && !s.connected && !s.connecting && !NamesMatch(ref, cachedName)
    ensures Connect(s, ref, cachedName, p) ==
      s.(scanning := true, scanDevices := {}, connecting := true,
         device := Some(Device(ref.deviceAddress, cachedName)),
         calls := s.calls + StopScanCalls(s) + [StartLeScan(!s.config.avoidScanWithUuid)])
  {
    var s2 := StopScan(s).(connecting := true, device := Some(Device(ref.deviceAddress, cachedName)));
    assert Connect(s, ref, cachedName, p) == StartScan(s2);
  }

  // ---------------------------------------------------------------------------
  // The handle check
  // ---------------------------------------------------------------------------

  /** A callback carrying another handle than the one held changes nothing at all. */
  lemma StaleCallbackIgnored(s: State, g: Handle, newState: LinkState, charac: Uuid, value: seq<byte>,
                             nowMs: int, nowNs: int, p: Platform)
    requires Stale(s, g)
    ensures s.attached ==> OnConnectionStateChange(s, g, newState) == s
    ensures OnServicesDiscovered(s, g, p) == s
    ensures OnCharacteristicRead(s, g, charac, value, p) == s
    ensures s.attached ==> OnCharacteristicChanged(s, g, charac, value, nowMs, nowNs) == s
  {
  }

  /** With no handle held, a callback's handle is adopted before the callback acts. */
  lemma FirstCallbackAdoptsHandle(s: State, g: Handle, newState: LinkState)
    requires s.attached && s.gatt.None? && !s.disconnecting
    ensures OnConnectionStateChange(s, g, newState).gatt == Some(g)
  {
  }

  /**
   * onConnectionStateChange on the held (or adopted) handle: while connecting,
   * link-up asks for service discovery and any other state for a reconnect;
   * during a disconnect the handle is closed and released; otherwise
   * link-down is reported to the client and any other state changes nothing.
   */
  lemma ConnectionStateOutcome(s: State, g: Handle, newState: LinkState)
    requires s.attached && !Stale(s, g)
    ensures var r := OnConnectionStateChange(s, g, newState);
      && (s.connecting && newState == StateConnected ==>
            r == s.(gatt := Some(g), calls := s.calls + [Gatt(g, DiscoverServices)]))
      && (s.connecting && newState != StateConnected ==>
            r == s.(gatt := Some(g), calls := s.calls + [Gatt(g, Reconnect)]))
      && (!s.connecting && s.disconnecting ==>
            r == s.(gatt := None, calls := s.calls + [Gatt(g, CloseHandle)]))
      && (!s.connecting && !s.disconnecting && newState == StateDisconnected ==>
            r == s.(gatt := Some(g), events := s.events + [DisconnectResult(true)]))
      && (!s.connecting && !s.disconnecting && newState != StateDisconnected ==>
            r == s.(gatt := Some(g)))
  {
  }

  /**
   * onCharacteristicRead on the held (or adopted) handle: a battery level is
   * stored from the first byte and startPWR follows; an empty battery
   * payload fails the connect; the firmware revision leads straight to
   * startPWR; any other characteristic changes nothing.
   */
  lemma CharacteristicReadOutcome(s: State, g: Handle, charac: Uuid, value: seq<byte>, p: Platform)
    requires !Stale(s, g)
    ensures var r := OnCharacteristicRead(s, g, charac, value, p);
      && (charac == FirmwareRevision ==> r == StartPwr(s.(gatt := Some(g)), p))
      && (charac == BatteryLevelCharac && |value| > 0 ==>
            r.batteryLevel == value[0] as int && r == StartPwr(s.(gatt := Some(g), batteryLevel := value[0] as int), p))
      && (charac == BatteryLevelCharac && |value| == 0 ==>
            r == ReportConnectFailed(s.(gatt := Some(g))) && (s.attached ==> ConnectFailedFrom(s, r)))
      && (charac != FirmwareRevision && charac != BatteryLevelCharac ==> r == s.(gatt := Some(g)))
  {
    if charac == BatteryLevelCharac {
      if |value| == 0 {
        if s.attached {
          FailedFrom(s.(gatt := Some(g)));
        }
      } else {
        StartPwrKeepsBatteryLevel(s.(gatt := Some(g), batteryLevel := value[0] as int), p);
      }
    }
  }

  /** startPWR leaves the battery level alone. */
  lemma StartPwrKeepsBatteryLevel(s: State, p: Platform)
    requires s.gatt.Some?
    ensures StartPwr(s, p).batteryLevel == s.batteryLevel
  {
    var s1 := Call(s, Gatt(s.gatt.value, ReadDescriptor(PwrMeasurementCharac, Ccc)));
    if !HasPowerProfile(p) {
      assert StartPwr(s, p) == ReportConnectFailed(s);
    } else if ReadDescriptor(PwrMeasurementCharac, Ccc) in p.accepts {
      assert StartPwr(s, p) == s1;
    } else {
      assert StartPwr(s, p) == ReportConnectFailed(s1);
    }
  }

  /** The remote device offers everything a connect needs, and the stack accepts every request. */
  predicate FullSensor(p: Platform) {
    && BatteryReadStarts(p) && HasPowerProfile(p)
    && ReadDescriptor(PwrMeasurementCharac, Ccc) in p.accepts
    && SetNotification(PwrMeasurementCharac, true) in p.accepts
    && WriteDescriptor(PwrMeasurementCharac, Ccc, true) in p.accepts
  }

  /**
   * A whole connect on a sensor with a battery service: services are
   * discovered, the battery level reads 57, the power characteristic is
   * subscribed to, the first measurement is 200, and the posted result runs.
   * The client hears exactly one successful connect result, and the provider
   * then reports battery level 57 and power 200.
   */
  lemma ConnectScenario(s: State, g: Handle, p: Platform, nowMs: int, nowNs: int)
    requires Inv(s) && s.attached && s.connecting && s.gatt == Some(g) && s.pending == []
    requires FullSensor(p)
    ensures var s1 := OnServicesDiscovered(s, g, p);
      var s2 := OnCharacteristicRead(s1, g, BatteryLevelCharac, [57], p);
      var s3 := OnDescriptorRead(s2, PwrMeasurementCharac, p);
      var s4 := OnCharacteristicChanged(s3, g, PwrMeasurementCharac, [0, 200], nowMs, nowNs);
      s4.pending != [] &&
      var r := RunNext(s4, p);
      && r.connected && !r.connecting && r.pending == []
      && r.events == s.events + [ConnectResult(true)]
      && r.batteryLevel == 57
      && GetPwrData(r) == Some(PwrData(200, nowMs))
  {
    var s1 := OnServicesDiscovered(s, g, p);
    ServicesDiscoveredProbes(s, g, p);
    var t := s.(gatt := Some(g), hasBatteryService := true);
    ProbeReadsBattery(t, g, p);
    assert s1 == t.(calls := t.calls + [Gatt(g, ReadCharacteristic(BatteryLevelCharac))]);
    var s2 := OnCharacteristicRead(s1, g, BatteryLevelCharac, [57], p);
    CharacteristicReadOutcome(s1, g, BatteryLevelCharac, [57], p);
    var u := s1.(gatt := Some(g), batteryLevel := 57);
    PowerProfileOrder(u, p);
    assert s2 == u.(calls := u.calls + [Gatt(g, ReadDescriptor(PwrMeasurementCharac, Ccc))]);
    var s3 := OnDescriptorRead(s2, PwrMeasurementCharac, p);
    SubscribeOrder(s2, p);
    assert s3.gatt == Some(g) && s3.connecting && s3.attached && s3.pending == [] && s3.batteryLevel == 57;
    var s4 := OnCharacteristicChanged(s3, g, PwrMeasurementCharac, [0, 200], nowMs, nowNs);
    DecodedPayload(s3, g, [0, 200], nowMs, nowNs);
    NonZeroSample(s3, 200, nowMs, nowNs);
    assert s4.pending == [PostConnected(true)];
    ConnectedPostReports(s4, p);
  }

  // ---------------------------------------------------------------------------
  // Scan de-duplication
  // ---------------------------------------------------------------------------

  /** Delivers scan results to onLeScan one after another. */
  function ScanAll(s: State, devices: seq<Device>, p: Platform): State
    requires s.attached
    decreases |devices|
  {
    if devices == [] then s
    else
      OnLeScanStep(s, devices[0], p);
      ScanAll(OnLeScan(s, devices[0], p), devices[1..], p)
  }

  /** The scan reports in a stretch of the Handler's queue, in order. */
  function ScanReports(q: seq<Action>): seq<Action>
    decreases |q|
  {
    if q == [] then [] else (if q[0].PostScanResult? then [q[0]] else []) + ScanReports(q[1..])
  }

  lemma {:induction false} ScanReportsAppend(a: seq<Action>, b: seq<Action>)
    ensures ScanReports(a + b) == ScanReports(a) + ScanReports(b)
    decreases |a|
  {
    if a == [] {
      assert a + b == b;
    } else {
      assert (a + b)[0] == a[0];
      assert (a + b)[1..] == a[1..] + b;
      ScanReportsAppend(a[1..], b);
    }
  }

  /** The addresses of a sequence of scan results. */
  function Addresses(devices: seq<Device>): set<string>
    decreases |devices|
  {
    if devices == [] then {} else {devices[0].address} + Addresses(devices[1..])
  }

  /**
   * The reference de-duplication: the reports due for a sequence of scan
   * results, given the addresses already recorded in the session.
   */
  function DueReports(seen: set<string>, devices: seq<Device>): seq<Action>
    decreases |devices|
  {
    if devices == [] then []
    else if devices[0].address in seen then DueReports(seen, devices[1..])
    else [PostScanResult(ScanReport(devices[0]))] + DueReports(seen + {devices[0].address}, devices[1..])
  }

  /** Scan reports for pairwise distinct addresses, none of them already recorded. */
  predicate FreshReports(seen: set<string>, q: seq<Action>) {
    && (forall i :: 0 <= i < |q| ==> q[i].PostScanResult? && q[i].device.deviceAddress !in seen)
    && (forall i, j :: 0 <= i < j < |q| ==> q[i].device.deviceAddress != q[j].device.deviceAddress)
  }

  /** The reference de-duplication reports each address at most once, and never a recorded one. */
  lemma {:induction false} DueReportsFresh(seen: set<string>, devices: seq<Device>)
    ensures FreshReports(seen, DueReports(seen, devices))
    decreases |devices|
  {
    if devices != [] {
      var a := devices[0].address;
      if a in seen {
        DueReportsFresh(seen, devices[1..]);
      } else {
        var rest := DueReports(seen + {a}, devices[1..]);
        DueReportsFresh(seen + {a}, devices[1..]);
        var q := [PostScanResult(ScanReport(devices[0]))] + rest;
        assert forall i :: 1 <= i < |q| ==> q[i] == rest[i - 1];
      }
    }
  }

  /**
   * One scan result outside a connect: a recorded address changes nothing; a
   * new address is recorded and one report for it is queued.
   */
  lemma OnLeScanRecords(s: State, d: Device, p: Platform)
    requires s.attached && !s.connecting
    ensures OnLeScan(s, d, p) ==
      if d.address in s.scanDevices then s
      else s.(scanDevices := s.scanDevices + {d.address}, pending := s.pending + [PostScanResult(ScanReport(d))])
  {
  }

  /**
   * The target of a connect is seen: scanning stops, no address is recorded,
   * the client is told nothing and the connect stays in progress; the device
   * is bound as TargetQueued and TargetBound describe.
   */
  lemma OnLeScanTarget(s: State, d: Device, p: Platform)
    requires s.attached && IsTarget(s, d)
    ensures OnLeScan(s, d, p) == TargetFound(s, p)
    ensures var r := TargetFound(s, p);
      !r.scanning && r.scanDevices == s.scanDevices && r.events == s.events && r.connecting
  {
    if s.config.connectInOwnThread {
      TargetQueued(s, p);
    } else {
      TargetBound(s, p);
    }
  }

  /** On platforms that connect from the Handler, the target's bind is queued behind the stopped scan. */
  lemma TargetQueued(s: State, p: Platform)
    requires s.attached && s.device.Some? && s.config.connectInOwnThread
    ensures TargetFound(s, p) == s.(scanning := false, calls := s.calls + StopScanCalls(s), pending := s.pending + [PostConnectGatt])
  {
  }

  /** Elsewhere the target is bound at once after the scan stops; a null handle fails the connect. */
  lemma TargetBound(s: State, p: Platform)
    requires s.attached && s.device.Some? && !s.config.connectInOwnThread
    ensures var s2 := s.(scanning := false, calls := s.calls + StopScanCalls(s) + [ConnectGatt(s.device.value.address)],
                         gatt := p.connectGatt);
      TargetFound(s, p) ==
        if p.connectGatt.None? then s2.(gatt := None, device := None, pending := s.pending + [PostConnected(false)])
        else s2
  {
    var s1 := StopScan(s);
    var s2 := s1.(calls := s1.calls + [ConnectGatt(s.device.value.address)], gatt := p.connectGatt);
    if p.connectGatt.None? {
      assert BindDevice(s1, p) == ReportConnected(s2.(gatt := None, device := None), false);
    } else {
      assert BindDevice(s1, p) == s2;
    }
  }

  /**
   * A scan session outside a connect records exactly the addresses seen and
   * queues exactly the reports the reference de-duplication calls for.
   */
  lemma {:induction false} ScanMatchesReference(s: State, devices: seq<Device>, p: Platform)
    requires s.attached && !s.connecting
    ensures ScanAll(s, devices, p) ==
      s.(scanDevices := s.scanDevices + Addresses(devices), pending := s.pending + DueReports(s.scanDevices, devices))
    decreases |devices|
  {
    if devices == [] {
      assert s.pending + [] == s.pending;
      assert s.scanDevices + {} == s.scanDevices;
    } else {
      var d := devices[0];
      var rest := devices[1..];
      var s1 := OnLeScan(s, d, p);
      OnLeScanRecords(s, d, p);
      ScanMatchesReference(s1, rest, p);
      var r := ScanAll(s1, rest, p);
      assert ScanAll(s, devices, p) == r;
      var seen := s.scanDevices + Addresses(devices);
      var due := s.pending + DueReports(s.scanDevices, devices);
      assert r.scanDevices == seen by {
        assert Addresses(devices) == {d.address} + Addresses(rest);
      }
      assert r.pending == due by {
        if d.address !in s.scanDevices {
          var post := PostScanResult(ScanReport(d));
          assert DueReports(s.scanDevices, devices) == [post] + DueReports(s1.scanDevices, rest);
          assert s.pending + [post] + DueReports(s1.scanDevices, rest) == due;
        }
      }
      assert r == s1.(scanDevices := seen, pending := due);
    }
  }

  /**
   * What one scan result does to the scan session: the Handler's queue only
   * grows, and either a new address is recorded and exactly one report for
   * it queued, or nothing is recorded and no report queued.
   */
  predicate ScanStep(s: State, r: State, d: Device) {
    && r.attached && |r.pending| >= |s.pending| && r.pending[..|s.pending|] == s.pending
    && ((d.address !in s.scanDevices && r.scanDevices == s.scanDevices + {d.address} &&
         ScanReports(r.pending[|s.pending|..]) == [PostScanResult(ScanReport(d))])
        || (r.scanDevices == s.scanDevices && ScanReports(r.pending[|s.pending|..]) == []))
  }

  /** A step that appends no scan report and records nothing. */
  lemma StepWithoutReport(s: State, r: State, d: Device, tail: seq<Action>)
    requires r.attached && r.pending == s.pending + tail && r.scanDevices == s.scanDevices
    requires forall i :: 0 <= i < |tail| ==> !tail[i].PostScanResult?
    requires |tail| <= 1
    ensures ScanStep(s, r, d)
  {
    assert r.pending[..|s.pending|] == s.pending;
    assert r.pending[|s.pending|..] == tail;
    if tail != [] {
      assert ScanReports(tail) == [] + ScanReports(tail[1..]);
    }
  }

  /** The target of a connect queues no scan report. */
  lemma TargetStep(s: State, d: Device, p: Platform)
    requires s.attached && IsTarget(s, d)
    ensures ScanStep(s, OnLeScan(s, d, p), d)
  {
    var r := OnLeScan(s, d, p);
    OnLeScanTarget(s, d, p);
    if s.config.connectInOwnThread {
      TargetQueued(s, p);
      StepWithoutReport(s, r, d, [PostConnectGatt]);
    } else {
      TargetBound(s, p);
      if p.connectGatt.None? {
        StepWithoutReport(s, r, d, [PostConnected(false)]);
      } else {
        StepWithoutReport(s, r, d, []);
      }
    }
  }

  /**
   * One scan result, also during the scan a connect starts: a new address
   * is recorded and reported once; the target itself is bound, not reported.
   */
  lemma OnLeScanStep(s: State, d: Device, p: Platform)
    requires s.attached
    ensures ScanStep(s, OnLeScan(s, d, p), d)
  {
    if OnLeScanThrows(s) {
      assert OnLeScan(s, d, p) == s;
    } else if IsTarget(s, d) {
      TargetStep(s, d, p);
    } else if d.address in s.scanDevices {
      assert OnLeScan(s, d, p) == s;
    } else {
      var r := OnLeScan(s, d, p);
      var post := PostScanResult(ScanReport(d));
      assert r == s.(scanDevices := s.scanDevices + {d.address}, pending := s.pending + [post]);
      assert r.pending[|s.pending|..] == [post];
      assert ScanReports([post]) == [post] + ScanReports([]);
    }
  }

  /**
   * From s to r the Handler's queue only grew, the recorded addresses only
   * grew, and the scan reports queued are for pairwise distinct addresses,
   * none recorded in s and each recorded in r.
   */
  predicate SessionFresh(s: State, r: State) {
    && |r.pending| >= |s.pending| && r.pending[..|s.pending|] == s.pending
    && s.scanDevices <= r.scanDevices
    && FreshReports(s.scanDevices, ScanReports(r.pending[|s.pending|..]))
    && (forall i :: 0 <= i < |ScanReports(r.pending[|s.pending|..])| ==>
          ScanReports(r.pending[|s.pending|..])[i].device.deviceAddress in r.scanDevices)
  }

  /**
   * Within one scan session, outside a connect or during the scan a connect
   * starts, each address is reported to the client at most once: the reports
   * queued are for pairwise distinct addresses that were not recorded
   * before, and each is recorded afterwards.
   */
  lemma {:induction false} ScanReportsEachAddressOnce(s: State, devices: seq<Device>, p: Platform)
    requires s.attached
    ensures SessionFresh(s, ScanAll(s, devices, p))
    decreases |devices|
  {
    var r := ScanAll(s, devices, p);
    if devices == [] {
      assert r.pending[|s.pending|..] == [];
    } else {
      var s1 := OnLeScan(s, devices[0], p);
      OnLeScanStep(s, devices[0], p);
      ScanReportsEachAddressOnce(s1, devices[1..], p);
      SessionChain(s, s1, r, devices[0]);
    }
  }

  /** One scan step followed by a fresh stretch of the session is a fresh stretch. */
  lemma SessionChain(s: State, s1: State, r: State, d: Device)
    requires ScanStep(s, s1, d) && SessionFresh(s1, r)
    ensures SessionFresh(s, r)
  {
    var q1 := s1.pending[|s.pending|..];
    var q2 := r.pending[|s1.pending|..];
    assert r.pending[..|s.pending|] == s.pending by {
      assert r.pending[..|s.pending|] == r.pending[..|s1.pending|][..|s.pending|];
    }
    assert r.pending[|s.pending|..] == q1 + q2;
    ScanReportsAppend(q1, q2);
    FreshJoin(s.scanDevices, s1.scanDevices, r.scanDevices, ScanReports(q1), ScanReports(q2));
  }

  /** Joins the reports of a first step, recorded in mid, to fresh reports that follow it. */
  lemma FreshJoin(seen: set<string>, mid: set<string>, all: set<string>, q1: seq<Action>, q2: seq<Action>)
    requires seen <= mid <= all
    requires FreshReports(seen, q1) && forall i :: 0 <= i < |q1| ==> q1[i].device.deviceAddress in mid
    requires FreshReports(mid, q2) && forall i :: 0 <= i < |q2| ==> q2[i].device.deviceAddress in all
    ensures FreshReports(seen, q1 + q2)
    ensures forall i :: 0 <= i < |q1 + q2| ==> (q1 + q2)[i].device.deviceAddress in all
  {
    var q := q1 + q2;
    assert forall i :: |q1| <= i < |q| ==> q[i] == q2[i - |q1|];
    assert forall i :: 0 <= i < |q1| ==> q[i] == q1[i];
  }

  // ---------------------------------------------------------------------------
  // Decoding a power measurement
  // ---------------------------------------------------------------------------

  /** Decoding the payload a sensor sends gives back its value, whatever the other flag bits and whatever bytes follow. */
  lemma DecodeEncode(power: nat, flags: byte, trailer: seq<byte>)
    requires power < (if IsPowerInUint16(flags) then 0x1_0000 else 0x100)
    ensures DecodePower(EncodePower(power, flags) + trailer) == Some(power)
  {
    var e := EncodePower(power, flags);
    var x := e + trailer;
    assert x[0] == flags;
    assert x[1..1 + ValueWidth(flags)] == e[1..];
  }

  /** Two little-endian encodings of the same length and value are the same bytes. */
  lemma {:induction false} LittleEndianInjective(a: seq<byte>, b: seq<byte>)
    requires |a| == |b| && LittleEndian(a) == LittleEndian(b)
    ensures a == b
    decreases |a|
  {
    if a != [] {
      var x := LittleEndian(a);
      DigitSplit(x, a[0] as int, LittleEndian(a[1..]));
      DigitSplit(x, b[0] as int, LittleEndian(b[1..]));
      LittleEndianInjective(a[1..], b[1..]);
      assert a == [a[0]] + a[1..] && b == [b[0]] + b[1..];
    }
  }

  /** The low byte and the rest of a number written as lo + 256 * hi. */
  lemma DigitSplit(x: int, lo: int, hi: int)
    requires 0 <= lo < 256 && x == lo + 256 * hi
    ensures x % 256 == lo && x / 256 == hi
  {
  }

  /**
   * Conversely, a payload that decodes is, up to the bytes after the value,
   * the encoding of the decoded value under its own flags byte: decoding
   * loses nothing but the trailer.
   */
  lemma EncodeDecode(value: seq<byte>)
    requires |value| > 0 && DecodePower(value).Some?
    ensures var v := DecodePower(value).value;
      v < (if IsPowerInUint16(value[0]) then 0x1_0000 else 0x100) &&
      value[..1 + ValueWidth(value[0])] == EncodePower(v, value[0])
  {
    var v := DecodePower(value).value;
    var w := ValueWidth(value[0]);
    var e := EncodePower(v, value[0]);
    LittleEndianInjective(value[1..1 + w], e[1..]);
    assert value[..1 + w] == [value[0]] + value[1..1 + w];
    assert e == [e[0]] + e[1..];
  }

  /** A payload that is not a power measurement, or is empty, changes no reading and reports nothing. */
  lemma IgnoredPayload(s: State, g: Handle, charac: Uuid, value: seq<byte>, nowMs: int, nowNs: int)
    requires s.attached && !Stale(s, g)
    requires charac != PwrMeasurementCharac || |value| == 0
    ensures OnCharacteristicChanged(s, g, charac, value, nowMs, nowNs) == s.(gatt := Some(g))
  {
  }

  /**
   * A payload too short for the width its flags announce is handled as a
   * failure: a pending connect fails, an established link is reported lost,
   * and otherwise nothing but the handle changes.
   */
  lemma ShortPayload(s: State, g: Handle, value: seq<byte>, nowMs: int, nowNs: int)
    requires s.attached && !Stale(s, g) && Inv(s)
    requires 0 < |value| < 1 + ValueWidth(value[0])
    ensures var r := OnCharacteristicChanged(s, g, PwrMeasurementCharac, value, nowMs, nowNs);
      && r.pwrValue == s.pwrValue && r.pwrTimestamp == s.pwrTimestamp
      && (s.connecting ==> r.gatt.None? && r.device.None? && r.events == s.events &&
                           r.pending == s.pending + [PostConnected(false)])
      && (s.connected ==> r.events == s.events + [DisconnectResult(true)] && r.pending == s.pending)
      && (!s.connecting && !s.connected ==> r == s.(gatt := Some(g)))
  {
  }

  /** Every decodable power measurement is taken as a sample of its decoded value. */
  lemma DecodedPayload(s: State, g: Handle, value: seq<byte>, nowMs: int, nowNs: int)
    requires s.attached && !Stale(s, g)
    requires |value| > 0 && DecodePower(value).Some?
    ensures OnCharacteristicChanged(s, g, PwrMeasurementCharac, value, nowMs, nowNs) ==
            TakeSample(s.(gatt := Some(g)), DecodePower(value).value, nowMs, nowNs)
  {
  }

  // ---------------------------------------------------------------------------
  // The zero-reading window
  // ---------------------------------------------------------------------------

  /** One sample: a decoded value and the wall-clock time it arrived. */
  datatype Sample = Sample(power: nat, atMs: int)

  /** Takes samples one after another (the elapsed-realtime clock is not needed here). */
  function TakeSamples(s: State, samples: seq<Sample>): State
    requires s.attached
    decreases |samples|
  {
    if samples == [] then s
    else
      var s1 := TakeSample(s, samples[0].power, samples[0].atMs, 0);
      if s1.attached then TakeSamples(s1, samples[1..]) else s1
  }

  /** A non-zero sample becomes the reading and restarts the window; it reports nothing on a live link. */
  lemma NonZeroSample(s: State, v: nat, nowMs: int, nowNs: int)
    requires s.attached && v > 0
    ensures var r := TakeSample(s, v, nowMs, nowNs);
      && r.pwrValue == v && r.prevNonZero == nowMs && r.pwrTimestamp == nowMs
      && r.events == s.events
      && r.pending == s.pending + (if s.connecting then [PostConnected(true)] else [])
  {
  }

  /**
   * A zero sample inside the window keeps the previous reading; once the
   * window has run out it fails a pending connect or reports the link lost.
   */
  lemma ZeroSample(s: State, nowMs: int, nowNs: int)
    requires s.attached
    ensures var r := TakeSample(s, 0, nowMs, nowNs);
      && (!ZeroTimedOut(s.prevNonZero, nowMs) ==>
            && r.pwrValue == s.pwrValue && r.prevNonZero == s.prevNonZero && r.events == s.events
            && r.pending == s.pending + (if s.connecting then [PostConnected(true)] else []))
      && (ZeroTimedOut(s.prevNonZero, nowMs) && s.connecting ==>
            r.device.None? && r.gatt.None? && r.pending == s.pending + [PostConnected(false)])
      && (ZeroTimedOut(s.prevNonZero, nowMs) && !s.connecting ==>
            r.events == s.events + [DisconnectResult(true)] && r.pending == s.pending)
  {
  }

  /**
   * On a live link, zero samples that all arrive within 60 s of the last
   * non-zero one (or before any non-zero one) leave the reading as it was
   * and tell the client nothing.
   */
  lemma {:induction false} ZerosWithinWindowTolerated(s: State, samples: seq<Sample>)
    requires s.attached && !s.connecting
    requires forall i :: 0 <= i < |samples| ==> samples[i].power == 0 && !ZeroTimedOut(s.prevNonZero, samples[i].atMs)
    ensures var r := TakeSamples(s, samples);
      r.pwrValue == s.pwrValue && r.prevNonZero == s.prevNonZero && r.events == s.events &&
      r.pending == s.pending && r.attached && !r.connecting
    decreases |samples|
  {
    if samples != [] {
      var s1 := TakeSample(s, 0, samples[0].atMs, 0);
      ZeroSample(s, samples[0].atMs, 0);
      assert s1.attached && !s1.connecting && s1.prevNonZero == s.prevNonZero;
      ZerosWithinWindowTolerated(s1, samples[1..]);
    }
  }

  /** The example of a reading of 12 followed by three zeros within 10 s: the reading stays 12. */
  lemma TwelveThenZeros(s: State)
    requires s.attached && !s.connecting
    ensures TakeSamples(s, [Sample(12, 1_000_000), Sample(0, 1_003_000), Sample(0, 1_006_000), Sample(0, 1_010_000)]).pwrValue == 12
  {
    var s1 := TakeSample(s, 12, 1_000_000, 0);
    NonZeroSample(s, 12, 1_000_000, 0);
    var zeros := [Sample(0, 1_003_000), Sample(0, 1_006_000), Sample(0, 1_010_000)];
    ZerosWithinWindowTolerated(s1, zeros);
    assert [Sample(12, 1_000_000), Sample(0, 1_003_000), Sample(0, 1_006_000), Sample(0, 1_010_000)][1..] == zeros;
  }

  // ---------------------------------------------------------------------------
  // One connect result per attempt
  // ---------------------------------------------------------------------------

  /**
   * A posted scan report is taken off the queue and hands its device to an
   * attached client; it never touches the connect flags and emits no
   * connect result.
   */
  lemma RunScanReport(s: State, p: Platform)
    requires s.pending != [] && s.pending[0].PostScanResult?
    ensures var r := RunNext(s, p);
      && r.pending == s.pending[1..]
      && r.connecting == s.connecting && r.connected == s.connected
      && r.events == s.events + (if s.attached then [ScanResult(s.pending[0].device)] else [])
      && ConnectResults(r.events) == ConnectResults(s.events)
  {
    ConnectResultsSnoc(s.events, ScanResult(s.pending[0].device));
  }

  /**
   * A posted connect result is delivered exactly when a connect is in
   * progress: it ends the connect, leaves connected equal to the posted
   * result and hands that result to the client. Otherwise it is dropped.
   */
  lemma ConnectedPostReports(s: State, p: Platform)
    requires s.pending != [] && s.pending[0].PostConnected?
    ensures var r := RunNext(s, p);
      && r.connecting == (s.connecting && !s.attached)
      && ConnectResults(r.events) == ConnectResults(s.events) + (if s.connecting && s.attached then 1 else 0)
      && (s.connecting && s.attached ==>
            r.connected == s.pending[0].ok && r.events == s.events + [ConnectResult(s.pending[0].ok)])
      && (!(s.connecting && s.attached) ==> r == s.(pending := s.pending[1..]))
  {
    ConnectResultsSnoc(s.events, ConnectResult(s.pending[0].ok));
  }

  /** A deferred bind changes neither the flags nor the notifications. */
  lemma DeferredBindKeepsFlags(s: State, p: Platform)
    requires s.pending != [] && s.pending[0].PostConnectGatt?
    ensures var r := RunNext(s, p);
      r.connecting == s.connecting && r.connected == s.connected && r.events == s.events
  {
  }

  /**
   * A posted runnable emits a connect result only by ending a connect in
   * progress, and nothing run from the Handler starts connecting again.
   */
  lemma RunNextConnects(s: State, p: Platform)
    requires s.pending != []
    ensures var r := RunNext(s, p);
      && (r.connecting ==> s.connecting)
      && ConnectResults(r.events) == ConnectResults(s.events) + (if s.connecting && !r.connecting then 1 else 0)
  {
    if s.pending[0].PostScanResult? {
      RunScanReport(s, p);
    } else if s.pending[0].PostConnected? {
      ConnectedPostReports(s, p);
    } else {
      DeferredBindKeepsFlags(s, p);
    }
  }

  /** Draining the Handler's queue emits at most one connect result, and only if a connect was in progress. */
  lemma {:induction false} DrainConnectsAtMostOnce(s: State, p: Platform)
    ensures ConnectResults(Drain(s, p).events) <= ConnectResults(s.events) + (if s.connecting then 1 else 0)
    ensures Drain(s, p).connecting ==> s.connecting
    decreases DeferredBinds(s.pending), |s.pending|
  {
    if s.pending != [] {
      RunNextProgress(s, p);
      RunNextConnects(s, p);
      if !RunNextThrows(s) {
        DrainConnectsAtMostOnce(RunNext(s, p), p);
      }
    }
  }

  predicate AllConnected(q: seq<Action>) {
    forall i :: 0 <= i < |q| ==> q[i] == PostConnected(true)
  }

  /** Once no connect is in progress, posted connect results are dropped. */
  lemma {:induction false} DrainStaleResults(s: State, p: Platform)
    requires !s.connecting && AllConnected(s.pending)
    ensures Drain(s, p) == s.(pending := [])
    decreases |s.pending|
  {
    if s.pending != [] {
      RunNextProgress(s, p);
      assert RunNext(s, p) == s.(pending := s.pending[1..]);
      DrainStaleResults(RunNext(s, p), p);
    }
  }

  /**
   * Every decoded sample while connecting posts reportConnected(true); however
   * many were posted, the client hears exactly one connect result.
   */
  lemma RepeatedConnectedPostsReportOnce(s: State, p: Platform)
    requires s.attached && s.connecting && s.pending != [] && AllConnected(s.pending)
    ensures var r := Drain(s, p);
      r.events == s.events + [ConnectResult(true)] && r.connected && !r.connecting && r.pending == []
  {
    var s1 := RunNext(s, p);
    RunNextProgress(s, p);
    assert s1 == s.(pending := s.pending[1..], connected := true, connecting := false,
                    events := s.events + [ConnectResult(true)]);
    DrainStaleResults(s1, p);
  }

  // ---------------------------------------------------------------------------
  // Probe order
  // ---------------------------------------------------------------------------

  /** The battery level read starts: the service and characteristic exist and the stack accepts the read. */
  predicate BatteryReadStarts(p: Platform) {
    BatteryService in p.services && (BatteryService, BatteryLevelCharac) in p.characteristics &&
    ReadCharacteristic(BatteryLevelCharac) in p.accepts
  }

  /** The firmware revision read starts. */
  predicate FirmwareReadStarts(p: Platform) {
    DisService in p.services && (DisService, FirmwareRevision) in p.characteristics &&
    ReadCharacteristic(FirmwareRevision) in p.accepts
  }

  /** The connect was failed: the handle and the device are dropped and a failed result is queued. */
  predicate ConnectFailedFrom(s: State, r: State) {
    && r.gatt.None? && r.device.None? && r.events == s.events
    && |r.pending| > |s.pending| && r.pending[..|s.pending|] == s.pending
    && forall i :: |s.pending| <= i < |r.pending| ==> r.pending[i] == PostConnected(false)
  }

  /** Failing a failed connect again leaves it failed. */
  lemma FailAgain(s0: State, s: State)
    requires s.attached && ConnectFailedFrom(s0, s)
    ensures ConnectFailedFrom(s0, ReportConnectFailed(s))
  {
    var r := ReportConnectFailed(s);
    assert r.pending == s.pending + [PostConnected(false)];
    assert r.pending[..|s0.pending|] == s.pending[..|s0.pending|];
  }

  /** A first failure of the connect. */
  lemma FailedFrom(s: State)
    requires s.attached
    ensures ConnectFailedFrom(s, ReportConnectFailed(s))
  {
    assert ReportConnectFailed(s).pending == s.pending + [PostConnected(false)];
  }

  /** The firmware probe reads the firmware revision when that read starts, and fails the connect otherwise. */
  lemma FirmwareProbeOutcome(s: State, g: Handle, p: Platform)
    requires s.attached
    ensures var r := FirmwareProbe(s, g, p);
      if FirmwareReadStarts(p) then r == s.(calls := s.calls + [Gatt(g, ReadCharacteristic(FirmwareRevision))])
      else ConnectFailedFrom(s, r)
  {
    var s1 := Call(s, Gatt(g, ReadCharacteristic(FirmwareRevision)));
    FailedFrom(s);
    FailedFrom(s1);
    assert ConnectFailedFrom(s, ReportConnectFailed(s1)) by {
      assert ReportConnectFailed(s1).pending == s.pending + [PostConnected(false)];
    }
  }

  /** After a failed connect the firmware probe leaves the connect failed. */
  lemma FirmwareProbeKeepsFailure(s0: State, s: State, g: Handle, p: Platform)
    requires s.attached && ConnectFailedFrom(s0, s)
    ensures ConnectFailedFrom(s0, FirmwareProbe(s, g, p))
  {
    FailAgain(s0, s);
    FailAgain(s0, Call(s, Gatt(g, ReadCharacteristic(FirmwareRevision))));
  }

  /** The probe reads the battery level when a battery service was seen and that read starts. */
  lemma ProbeReadsBattery(s: State, g: Handle, p: Platform)
    requires s.gatt.Some? && s.hasBatteryService && BatteryReadStarts(p)
    ensures DummyReadForSecLevelCheck(s, g, p) ==
            s.(calls := s.calls + [Gatt(s.gatt.value, ReadCharacteristic(BatteryLevelCharac))])
  {
  }

  /** Without a battery service the probe is the firmware probe. */
  lemma ProbeWithoutBattery(s: State, g: Handle, p: Platform)
    requires s.gatt.Some? && !(s.hasBatteryService && BatteryService in p.services)
    ensures DummyReadForSecLevelCheck(s, g, p) == FirmwareProbe(s, g, p)
  {
  }

  /** A battery level read the stack refuses falls back to the firmware probe, after the attempt. */
  lemma ProbeBatteryRefused(s: State, g: Handle, p: Platform)
    requires s.gatt.Some? && s.hasBatteryService
    requires BatteryService in p.services && (BatteryService, BatteryLevelCharac) in p.characteristics
    requires ReadCharacteristic(BatteryLevelCharac) !in p.accepts
    ensures DummyReadForSecLevelCheck(s, g, p) ==
            FirmwareProbe(s.(calls := s.calls + [Gatt(s.gatt.value, ReadCharacteristic(BatteryLevelCharac))]), g, p)
  {
  }

  /** A battery service without the level characteristic fails the connect, whatever the firmware probe does. */
  lemma ProbeMissingBatteryLevel(s: State, g: Handle, p: Platform)
    requires s.attached && s.gatt.Some? && s.hasBatteryService
    requires BatteryService in p.services && (BatteryService, BatteryLevelCharac) !in p.characteristics
    ensures ConnectFailedFrom(s, DummyReadForSecLevelCheck(s, g, p))
  {
    var f := ReportConnectFailed(s);
    assert DummyReadForSecLevelCheck(s, g, p) == FirmwareProbe(f, g, p);
    FailedFrom(s);
    FirmwareProbeKeepsFailure(s, f, g, p);
  }

  /** Service discovery on the held handle notes a battery service and runs the probe. */
  lemma ServicesDiscoveredProbes(s: State, g: Handle, p: Platform)
    requires !Stale(s, g)
    ensures OnServicesDiscovered(s, g, p) ==
            DummyReadForSecLevelCheck(s.(gatt := Some(g), hasBatteryService := s.hasBatteryService || BatteryService in p.services), g, p)
  {
  }

  /**
   * After the probe read, startPWR reads the CCC descriptor of the power
   * measurement characteristic when the whole profile exists and the read
   * starts, and fails the connect otherwise.
   */
  lemma PowerProfileOrder(s: State, p: Platform)
    requires s.attached && s.gatt.Some?
    ensures var r := StartPwr(s, p);
      if HasPowerProfile(p) && ReadDescriptor(PwrMeasurementCharac, Ccc) in p.accepts then
        r == s.(calls := s.calls + [Gatt(s.gatt.value, ReadDescriptor(PwrMeasurementCharac, Ccc))])
      else ConnectFailedFrom(s, r)
  {
  }

  /** The descriptor read subscribes to notifications; a refused subscription fails the connect. */
  lemma SubscribeOrder(s: State, p: Platform)
    requires s.attached && s.gatt.Some?
    ensures var r := OnDescriptorRead(s, PwrMeasurementCharac, p);
      var h := s.gatt.value;
      if SetNotification(PwrMeasurementCharac, true) in p.accepts && (PwrMeasurementCharac, Ccc) in p.descriptors &&
         WriteDescriptor(PwrMeasurementCharac, Ccc, true) in p.accepts then
        r == s.(calls := s.calls + [Gatt(h, SetNotification(PwrMeasurementCharac, true)),
                                    Gatt(h, WriteDescriptor(PwrMeasurementCharac, Ccc, true))])
      else ConnectFailedFrom(s, r)
  {
  }

  // ---------------------------------------------------------------------------
  // Bounded disconnect
  // ---------------------------------------------------------------------------

  /**
   * The wait closes the handle exactly when the link-closed callback arrives
   * within the 2 s budget; otherwise the handle is still held when the wait
   * gives up.
   */
  lemma {:induction false} WaitForCloseOutcome(s: State, h: Handle, elapsed: nat, closeAfterMs: nat)
    requires s.attached && s.disconnecting && !s.connecting && s.gatt == Some(h)
    requires elapsed % WaitSliceMs == 0
    ensures var r := WaitForClose(s, h, elapsed, closeAfterMs);
      if elapsed <= closeAfterMs < DisconnectWaitMs then
        r.gatt.None? && r.calls == s.calls + [Gatt(h, CloseHandle)]
      else r.gatt == Some(h) && r.calls == s.calls
    decreases DisconnectWaitMs - elapsed
  {
    if elapsed < DisconnectWaitMs {
      if elapsed <= closeAfterMs < elapsed + WaitSliceMs {
        var s1 := OnConnectionStateChange(s, h, StateDisconnected);
        assert s1.gatt.None?;
      } else {
        WaitForCloseOutcome(s, h, elapsed + WaitSliceMs, closeAfterMs);
      }
    }
  }

  /**
   * Whichever way the wait ends, disconnect ends by closing the handle once,
   * after the request to drop the link: it closes it itself when the wait did
   * not, and the wait closed it when the callback came in time.
   */
  lemma DisconnectShape(s: State, p: Platform, closeAfterMs: nat)
    requires Inv(s) && DisconnectActs(s)
    ensures var b := BeginDisconnect(s, p);
      Disconnect(s, p, closeAfterMs) ==
        b.(gatt := None, device := None, disconnecting := false,
           calls := b.calls + [Gatt(s.gatt.value, CloseHandle)], events := b.events + [DisconnectResult(true)])
  {
    var h := s.gatt.value;
    var b := BeginDisconnect(s, p);
    BeginDisconnectFrame(s, p);
    if s.connected {
      var w := WaitForClose(b, h, 0, closeAfterMs);
      WaitForCloseFrame(b, h, 0, closeAfterMs);
      WaitForCloseOutcome(b, h, 0, closeAfterMs);
      assert w.calls + CloseCalls(w) == b.calls + [Gatt(h, CloseHandle)];
      assert Disconnect(s, p, closeAfterMs) == FinishDisconnect(w);
    } else {
      assert Disconnect(s, p, closeAfterMs) == FinishDisconnect(b);
    }
  }

  /**
   * disconnect does nothing without a handle and a device, without a link up
   * or coming up, or while a disconnect runs. Otherwise it ends with no
   * handle, no device, all three flags clear, and the client told the link is
   * gone (after a report that unsubscribing failed, if it did). The handle is
   * closed exactly once, right after the request to drop the link.
   */
  lemma DisconnectEnds(s: State, p: Platform, closeAfterMs: nat)
    requires Inv(s)
    ensures var r := Disconnect(s, p, closeAfterMs);
      && (!DisconnectActs(s) ==> r == s)
      && (DisconnectActs(s) ==>
            && r.gatt.None? && r.device.None?
            && !r.connecting && !r.connected && !r.disconnecting
            && (r.events == s.events + [DisconnectResult(true)] ||
                r.events == s.events + [DisconnectResult(false), DisconnectResult(true)])
            && r.pending == s.pending && r.scanning == s.scanning && r.adapter == s.adapter
            && |r.calls| >= |s.calls| + 2 && r.calls[..|s.calls|] == s.calls
            && r.calls[|r.calls| - 2..] == [Gatt(s.gatt.value, DisconnectLink), Gatt(s.gatt.value, CloseHandle)])
    ensures Inv(Disconnect(s, p, closeAfterMs))
  {
    if DisconnectActs(s) {
      var b := BeginDisconnect(s, p);
      BeginDisconnectFrame(s, p);
      DisconnectShape(s, p, closeAfterMs);
      var r := Disconnect(s, p, closeAfterMs);
      assert r.calls == b.calls + [Gatt(s.gatt.value, CloseHandle)];
      assert r.calls[..|s.calls|] == b.calls[..|s.calls|];
      assert r.calls[|r.calls| - 2..] == [b.calls[|b.calls| - 1], Gatt(s.gatt.value, CloseHandle)];
    }
  }
}
