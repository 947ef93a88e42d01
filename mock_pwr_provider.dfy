/**
 * MockPWRProvider as a class over its own fields. Each method performs the
 * transition of the function of the same name in MockPwrSpec; the runnables
 * the Handler runs are the Run* methods, reached through Fire.
 */
module MockPwrProvider {
  import opened Wrappers
  import opened PwrProvider
  import opened MockPwrSpec
  import MockPwrProperties

  class MockProvider {
    /** pwrClient and pwrClientHandler are set (by open). */
    var attached: bool
    var scanning: bool
    /** The counter of the fake-scan runnable. */
    var count: int
    var connecting: bool
    var connected: bool
    var pwrValue: int
    var pwrTimestamp: int
    var pwrElapsedRealtime: int
    /** The runnables posted to the client's Handler and not yet run. */
    var timers: seq<Post>
    /** The notifications delivered to the client. */
    var events: seq<ClientEvent>

    function Snap(): State
      reads this
    {
      State(attached, scanning, count, connecting, connected, pwrValue, pwrTimestamp, pwrElapsedRealtime, timers, events)
    }

    predicate Valid()
      reads this
    {
      Inv(Snap())
    }

    constructor ()
      ensures Snap() == Init() && Valid()
    {
      attached, scanning, count := false, false, 0;
      connecting, connected := false, false;
      pwrValue, pwrTimestamp, pwrElapsedRealtime := 0, 0, 0;
      timers, events := [], [];
    }

    method Open()
      requires Valid()
      modifies this
      ensures Snap() == MockPwrSpec.Open(old(Snap())) && Valid()
    {
      attached := true;
      events := events + [OpenResult(true)];
    }

    method Close()
      ensures Snap() == MockPwrSpec.Close(old(Snap()))
    {
    }

    method StartScan()
      requires Valid() && attached
      modifies this
      ensures Snap() == MockPwrSpec.StartScan(old(Snap())) && Valid()
    {
      scanning := true;
      timers := timers + [Post(FakeScan, ScanDelayMs)];
    }

    method StopScan()
      requires Valid()
      modifies this
      ensures Snap() == MockPwrSpec.StopScan(old(Snap())) && Valid()
    {
      scanning := false;
    }

    /** connect(ref); the mock ignores the reference. */
    method Connect()
      requires Valid() && (attached || connected || connecting)
      modifies this
      ensures Snap() == MockPwrSpec.Connect(old(Snap())) && Valid()
    {
      if connected {
        return;
      }
      if connecting {
        return;
      }
      connecting := true;
      timers := timers + [Post(ConnectDone, ConnectDelayMs)];
    }

    method Disconnect()
      requires Valid()
      modifies this
      ensures Snap() == MockPwrSpec.Disconnect(old(Snap())) && Valid()
    {
      connecting := false;
      connected := false;
    }

    function GetPwrData(): (r: Option<PwrData>)
      reads this
      ensures r.None? <==> pwrValue <= 0
      ensures r.Some? ==> r.value == PwrData(pwrValue, pwrTimestamp)
      ensures Valid() ==> (r.None? <==> pwrValue == 0)
    {
      if pwrValue <= 0 then None else Some(PwrData(pwrValue, pwrTimestamp))
    }

    /** run() of fakeScanResult, at wall-clock time nowMs. */
    method RunFakeScan(nowMs: nat)
      modifies this
      ensures Snap() == MockPwrSpec.RunFakeScan(old(Snap()), nowMs)
    {
      if scanning {
        events := events + [ScanResult(MockDevice(nowMs))];
        count := count + 1;
        if count < BurstSize {
          timers := timers + [Post(FakeScan, ScanDelayMs)];
          return;
        }
      }
      count := 0;
    }

    /** run() of the runnable connect posts. */
    method RunConnectDone()
      modifies this
      ensures Snap() == MockPwrSpec.RunConnectDone(old(Snap()))
    {
      if connecting {
        connected := true;
        connecting := false;
        events := events + [ConnectResult(true)];
        timers := timers + [Post(PwrUpdate, UpdateDelayMs)];
      }
    }

    /** run() of pwrUpdate. */
    method RunPwrUpdate(c: Clock)
      modifies this
      ensures Snap() == MockPwrSpec.RunPwrUpdate(old(Snap()), c)
    {
      pwrValue := Power(c.random);
      pwrTimestamp := c.nowMs;
      pwrElapsedRealtime := c.elapsedNs;
      if connected {
        timers := timers + [Post(PwrUpdate, UpdateDelayMs)];
      }
    }

    /** The Handler takes timers[i] off its queue and runs it. */
    method Fire(i: nat, c: Clock)
      requires Valid() && i < |timers|
      modifies this
      ensures Snap() == MockPwrSpec.Fire(old(Snap()), i, c) && Valid()
    {
      ghost var s0 := Snap();
      var task := timers[i].task;
      timers := timers[..i] + timers[i + 1..];
      assert Snap() == s0.(timers := s0.timers[..i] + s0.timers[i + 1..]);
      match task {
        case FakeScan => RunFakeScan(c.nowMs);
        case ConnectDone => RunConnectDone();
        case PwrUpdate => RunPwrUpdate(c);
      }
      MockPwrProperties.FireInv(s0, i, c);
    }
  }
}
