/**
 * The uniform provider contract (PWRProvider.java): the value types handed
 * to the client and the notifications the client receives.
 */
module PwrProvider {
  import opened Wrappers

  /** PWRDeviceRef: which provider found the device, its name (possibly unknown) and its address. */
  datatype DeviceRef = DeviceRef(provider: string, deviceName: Option<string>, deviceAddress: string)

  /** PWRData: a power reading and the wall-clock time (ms) it was received. */
  datatype PwrData = PwrData(power: int, timestampEstimate: int)

  /** A notification delivered to the PWRClient. Log lines are not modelled. */
  datatype ClientEvent =
    | OpenResult(ok: bool)
    | ScanResult(device: DeviceRef)
    | ConnectResult(connectOk: bool)
    | DisconnectResult(disconnectOk: bool)
    | CloseResult(closeOk: bool)

  /** Number of connect results in a notification history. */
  function ConnectResults(events: seq<ClientEvent>): (n: nat)
    ensures n <= |events|
  {
    if events == [] then 0
    else ConnectResults(events[..|events| - 1]) + (if events[|events| - 1].ConnectResult? then 1 else 0)
  }

  /** Appending one notification adds one connect result exactly when it is one. */
  lemma ConnectResultsSnoc(a: seq<ClientEvent>, e: ClientEvent)
    ensures ConnectResults(a + [e]) == ConnectResults(a) + (if e.ConnectResult? then 1 else 0)
  {
    assert (a + [e])[..|a|] == a;
  }

  lemma {:induction false} ConnectResultsAppend(a: seq<ClientEvent>, b: seq<ClientEvent>)
    ensures ConnectResults(a + b) == ConnectResults(a) + ConnectResults(b)
    decreases |b|
  {
    if b == [] {
      assert a + b == a;
    } else {
      assert (a + b)[..|a + b| - 1] == a + b[..|b| - 1];
      ConnectResultsAppend(a, b[..|b| - 1]);
    }
  }
}
