/**
  The connection manager of lib/ble-conn.js: which resume blob a connect hands
  to the SDK's set-up call, and the reconnection loop with its back-off.

  The radio is not modelled. What the SDK's `connectAndSetUp` reports for an
  attempt is an input (`SetupOutcome`); the 10-second "Failed to initialize SDK"
  timer is the `NoResponse` outcome.
 */
module BleConn {
  import opened Wrappers
  import opened Hex

  /** What one call of the SDK's set-up does. */
  datatype SetupOutcome =
    | Ready                       // the callback reports no error
    | SetupError(error: string)   // the callback reports an error
    | NoResponse                  // no callback within 10 s

  const SdkTimeoutMessage: string := "Failed to initialize SDK"

  /** The blob a cache holds for an address: the hex decoding of the entry stored under exactly that key. */
  function CachedBlob(cache: map<string, string>, address: string): Option<seq<byte>> {
    if address in cache then Some(HexDecode(cache[address])) else None
  }

  /**
    `connect(device, deserialize, cache)`. The cache is `undefined` when a
    caller passes none; a caller that asks to deserialize always passes one.
    Returns the `initBuf` handed to the SDK and how the connect settles.
   */
  method Connect(address: string, deserialize: bool, cache: Option<map<string, string>>, setup: SetupOutcome)
    returns (initBuf: Option<seq<byte>>, result: Result<(), string>)
    requires deserialize ==> cache.Some?
    ensures initBuf.Some? <==> deserialize && address in cache.value
    ensures initBuf.Some? ==> initBuf.value == HexDecode(cache.value[address])
    ensures result.Ok? <==> setup.Ready?
    ensures setup.SetupError? ==> result == Err(setup.error)
    ensures setup.NoResponse? ==> result == Err(SdkTimeoutMessage)
  {
    initBuf := None;
    if deserialize && address in cache.value {
      var initStr := cache.value[address];
      initBuf := Some(HexDecode(initStr));
    }
    match setup {
      case Ready => result := Ok(());
      case SetupError(e) => result := Err(e);
      case NoResponse => result := Err(SdkTimeoutMessage);
    }
  }

  /** The wait, in seconds, after the k-th failed reconnect attempt (k from 0). */
  function BackoffDelay(k: nat): (seconds: nat)
    ensures 5 <= seconds <= 60
    ensures seconds == 60 || seconds == 5 + 10 * k
  {
    if 5 + 10 * k < 60 then 5 + 10 * k else 60
  }

  /** The waits never shrink: each is the previous one plus 10 s, or the 60 s cap. */
  lemma BackoffNonDecreasing(i: nat, j: nat)
    requires i <= j
    ensures BackoffDelay(i) <= BackoffDelay(j)
    ensures BackoffDelay(i + 1) == if BackoffDelay(i) + 10 < 60 then BackoffDelay(i) + 10 else 60
  {
  }

  /** The schedule begins 5, 15, 25, 35, 45, 55 and stays at 60 from the seventh wait on. */
  lemma BackoffSchedule(k: nat)
    ensures k < 6 ==> BackoffDelay(k) == [5, 15, 25, 35, 45, 55][k]
    ensures k >= 6 ==> BackoffDelay(k) == 60
  {
  }

  /** `n` attempts when the budget is a number: none at all for zero or a negative budget. */
  function Budget(retries: int): nat {
    if retries < 0 then 0 else retries
  }

  /**
    `reconnect(device, retries)`, where `retries` is `undefined` (None) or a
    number. `outcomes[k]` is what the k-th attempt's set-up does; a budget
    must not exceed the outcomes supplied, and without a budget some attempt
    must succeed, since the source retries until one does. Returns the number
    of connect calls, the waits between them, the blob each call handed to
    the SDK, whether the device came back, and whether "Failed to reconnect
    to device" is logged.
   */
  method Reconnect(address: string, retries: Option<int>, outcomes: seq<SetupOutcome>)
    returns (attempts: nat, delays: seq<nat>, blobs: seq<Option<seq<byte>>>, connected: bool, gaveUp: bool)
    requires retries.Some? ==> retries.value <= |outcomes|
    requires retries.None? ==> exists k :: 0 <= k < |outcomes| && outcomes[k].Ready?
    ensures attempts <= |outcomes|
    ensures |blobs| == attempts && forall i :: 0 <= i < attempts ==> blobs[i] == None
    ensures connected <==> attempts > 0 && outcomes[attempts - 1].Ready?
    ensures |delays| == if connected then attempts - 1 else attempts
    ensures forall i :: 0 <= i < |delays| ==> !outcomes[i].Ready? && delays[i] == BackoffDelay(i)
    ensures retries.Some? ==> attempts <= Budget(retries.value)
    ensures retries.Some? && !connected ==> attempts == Budget(retries.value)
    ensures retries.None? ==> connected
    ensures gaveUp <==> retries.Some? && 0 <= retries.value && !connected
  {
    var timeout: nat := 5;
    var left := retries;
    attempts, delays, blobs, connected := 0, [], [], false;
    while left.None? || left.value > 0
      invariant |delays| <= attempts <= |outcomes|
      invariant |blobs| == attempts && forall i :: 0 <= i < attempts ==> blobs[i] == None
      invariant forall i :: 0 <= i < |delays| ==> !outcomes[i].Ready? && delays[i] == BackoffDelay(i)
      invariant connected ==> attempts > 0 && outcomes[attempts - 1].Ready? && |delays| == attempts - 1
      invariant connected ==> left == Some(-1)
      invariant !connected ==> |delays| == attempts && timeout == BackoffDelay(attempts)
      invariant !connected ==> left == if retries.None? then None else Some(retries.value - attempts)
      invariant retries.Some? ==> attempts <= Budget(retries.value)
      decreases |outcomes| - attempts
    {
      if retries.None? {
        ghost var k :| 0 <= k < |outcomes| && outcomes[k].Ready?;
        assert attempts <= k;
      }
      var initBuf, result := Connect(address, false, None, outcomes[attempts]);
      blobs := blobs + [initBuf];
      attempts := attempts + 1;
      if result.Ok? {
        left := Some(-1);
        connected := true;
      } else {
        delays := delays + [timeout];
        timeout := if timeout + 10 < 60 then timeout + 10 else 60;
        if left.Some? {
          left := Some(left.value - 1);
        }
      }
    }
    gaveUp := left == Some(0);
  }
}
