/** Properties of the mock provider's state machine. */
module MockPwrProperties {
  import opened Wrappers
  import opened PwrProvider
  import opened MockPwrSpec
  import AndroidBleSpec

  // ---------------------------------------------------------------------------
  // The invariant
  // ---------------------------------------------------------------------------

  lemma InitInv()
    ensures Inv(Init())
  {
  }

  lemma OpenInv(s: State)
    requires Inv(s)
    ensures Inv(Open(s)) && Open(s).attached
  {
  }

  lemma StartScanInv(s: State)
    requires Inv(s) && s.attached
    ensures Inv(StartScan(s)) && StartScan(s).scanning
  {
  }

  lemma StopScanInv(s: State)
    requires Inv(s)
    ensures Inv(StopScan(s)) && !StopScan(s).scanning
  {
  }

  lemma ConnectInv(s: State)
    requires Inv(s) && (s.attached || s.connected || s.connecting)
    ensures Inv(Connect(s))
  {
  }

  lemma DisconnectInv(s: State)
    requires Inv(s)
    ensures Inv(Disconnect(s)) && !Disconnect(s).connecting && !Disconnect(s).connected
  {
  }

  /** Every posted runnable keeps the invariant, whichever runs and whatever it draws. */
  lemma FireInv(s: State, i: nat, c: Clock)
    requires Inv(s) && i < |s.timers|
    ensures Inv(Fire(s, i, c))
  {
    var s1 := s.(timers := s.timers[..i] + s.timers[i + 1..]);
    assert s1.attached;
  }

  // ---------------------------------------------------------------------------
  // connect / disconnect
  // ---------------------------------------------------------------------------

  /** connect changes nothing exactly when a connection exists or is under way. */
  lemma ConnectGuard(s: State)
    requires s.attached || s.connected || s.connecting
    ensures Connect(s) == s <==> s.connected || s.connecting
  {
    if !(s.connected || s.connecting) {
      assert |Connect(s).timers| == |s.timers| + 1;
    }
  }

  /** A connect from idle is in progress and has posted one completion, 3 s ahead. */
  lemma ConnectPostsCompletion(s: State)
    requires s.attached && !s.connected && !s.connecting
    ensures Connect(s).connecting && Connect(s).timers == s.timers + [Post(ConnectDone, ConnectDelayMs)]
    ensures Connect(s).events == s.events
  {
  }

  /**
   * The completion reports a successful connect exactly when a connect is in
   * progress; run once more, it reports nothing further.
   */
  lemma {:induction false} ConnectDoneReportsOnce(s: State)
    requires Inv(s)
    ensures var r := RunConnectDone(s);
      && ConnectResults(r.events) == ConnectResults(s.events) + (if s.connecting then 1 else 0)
      && (s.connecting ==> r.connected && !r.connecting)
      && RunConnectDone(r).events == r.events
  {
    if s.connecting {
      ConnectResultsSnoc(s.events, ConnectResult(true));
    }
  }

  /** After disconnect, a completion still posted changes nothing. */
  lemma DisconnectCancelsCompletion(s: State)
    ensures RunConnectDone(Disconnect(s)) == Disconnect(s)
  {
  }

  /** connect, then its completion: connected, with one successful connect result and the readings started. */
  lemma ConnectThenComplete(s: State, c: Clock)
    requires Inv(s) && s.attached && !s.connected && !s.connecting
    ensures var s1 := Connect(s);
      var r := Fire(s1, |s1.timers| - 1, c);
      && r.connected && !r.connecting
      && r.events == s.events + [ConnectResult(true)]
      && r.timers == s.timers + [Post(PwrUpdate, UpdateDelayMs)]
  {
    var s1 := Connect(s);
    assert s1.timers[..|s1.timers| - 1] + s1.timers[|s1.timers|..] == s.timers;
  }

  // ---------------------------------------------------------------------------
  // Readings
  // ---------------------------------------------------------------------------

  /** The reading update posts itself again exactly while connected, and leaves the flags alone. */
  lemma PwrUpdateReposts(s: State, c: Clock)
    ensures var r := RunPwrUpdate(s, c);
      && (|r.timers| == |s.timers| + 1 <==> s.connected)
      && r.timers[..|s.timers|] == s.timers
      && r.connected == s.connected && r.connecting == s.connecting && r.events == s.events
  {
  }

  /** After an update the mock has a reading: a fake value stamped with the wall clock. */
  lemma PwrUpdateGivesData(s: State, c: Clock)
    ensures var d := GetPwrData(RunPwrUpdate(s, c));
      d.Some? && MinPower <= d.value.power <= MinPower + PowerSpread && d.value.timestampEstimate == c.nowMs
  {
  }

  /** getPWRData is null exactly while the reading is not positive; otherwise it carries the reading. */
  lemma GetPwrDataNull(s: State)
    ensures GetPwrData(s).None? <==> s.pwrValue <= 0
    ensures GetPwrData(s).Some? ==> GetPwrData(s).value == PwrData(s.pwrValue, s.pwrTimestamp)
    ensures Inv(s) ==> (GetPwrData(s).None? <==> s.pwrValue == 0)
  {
  }

  /**
   * For a reading of 0 the two providers disagree: the mock has no data,
   * the Bluetooth provider hands out a zero reading.
   */
  lemma ZeroReadingDiffers(m: State, b: AndroidBleSpec.State)
    requires m.pwrValue == 0 && b.pwrValue == 0
    ensures GetPwrData(m).None?
    ensures AndroidBleSpec.GetPwrData(b) == Some(PwrData(0, b.pwrTimestamp))
  {
  }

  // ---------------------------------------------------------------------------
  // The fake scan
  // ---------------------------------------------------------------------------

  /** A run of the fake scan reports one device while scanning and none otherwise, and posts itself again exactly when Reposts says. */
  lemma FakeScanStep(s: State, nowMs: nat)
    ensures var r := RunFakeScan(s, nowMs);
      && r.events == s.events + (if s.scanning then [ScanResult(MockDevice(nowMs))] else [])
      && r.timers == s.timers + (if Reposts(s) then [Post(FakeScan, ScanDelayMs)] else [])
      && r.count == (if Reposts(s) then s.count + 1 else 0)
      && r.scanning == s.scanning
  {
  }

  /** Once scanning has stopped, a posted fake scan reports nothing and ends the burst. */
  lemma StoppedScanReportsNothing(s: State, nowMs: nat)
    ensures var r := RunFakeScan(StopScan(s), nowMs);
      r.events == s.events && r.timers == s.timers && r.count == 0
  {
  }

  /**
   * A burst from counter value count reports min(|nows|, 3 - count) devices
   * while scanning and none otherwise; a burst that runs out resets the
   * counter.
   */
  lemma {:induction false} BurstBounded(s: State, nows: seq<nat>)
    requires 0 <= s.count < BurstSize
    ensures var r := ScanBurst(s, nows);
      && |r.events| == |s.events| + (if s.scanning then Min(|nows|, BurstSize - s.count) else 0)
      && r.events[..|s.events|] == s.events
      && (forall k :: |s.events| <= k < |r.events| ==> r.events[k].ScanResult?)
      && (|nows| >= BurstSize - s.count ==> r.count == 0)
      && 0 <= r.count < BurstSize
    decreases |nows|
  {
    if nows == [] {
    } else {
      var s1 := RunFakeScan(s, nows[0]);
      FakeScanStep(s, nows[0]);
      if Reposts(s) {
        BurstBounded(s1, nows[1..]);
        var r := ScanBurst(s1, nows[1..]);
        assert r.events[..|s1.events|] == s1.events;
        assert r.events[..|s.events|] == s1.events[..|s.events|];
      }
    }
  }

  /** A burst started by startScan, from a reset counter, reports at most three devices. */
  lemma BurstAtMostThree(s: State, nows: seq<nat>)
    requires Inv(s) && s.attached && s.count == 0
    ensures |ScanBurst(StartScan(s), nows).events| <= |s.events| + BurstSize
  {
    BurstBounded(StartScan(s), nows);
  }

  // ---------------------------------------------------------------------------
  // Fake addresses
  // ---------------------------------------------------------------------------

  lemma HexDigitRoundTrip(d: nat)
    requires d < 16
    ensures HexDigitValue(HexDigit(d)) == Some(d)
  {
  }

  /** The two hexadecimal digits read back as the byte they were formatted from. */
  lemma Hex2RoundTrip(n: nat)
    requires n < 256
    ensures ParseHex2(Hex2(n)) == Some(n)
  {
    HexDigitRoundTrip(n / 16);
    HexDigitRoundTrip(n % 16);
  }

  /** A fake address is 17 characters: the fixed prefix and the clock's low byte, which it determines. */
  lemma MockAddressShape(nowMs: nat)
    ensures var a := MockDevice(nowMs).deviceAddress;
      && |a| == 17
      && a[..15] == AddressPrefix
      && ParseHex2(a[15..]) == Some(nowMs % 256)
  {
    var a := MockDevice(nowMs).deviceAddress;
    assert a[15..] == Hex2(nowMs % 256);
    Hex2RoundTrip(nowMs % 256);
  }

  /** Two fake devices share an address only when their clocks agree modulo 256. */
  lemma MockAddressesDistinct(t1: nat, t2: nat)
    requires t1 % 256 != t2 % 256
    ensures MockDevice(t1).deviceAddress != MockDevice(t2).deviceAddress
  {
    MockAddressShape(t1);
    MockAddressShape(t2);
  }
}
