/**
  lib/command-download.js: downloading what MetaWear boards have logged.
  Connect to every configured device and remember its name; ask each board
  for its logged signals (the devices that have some are "valid"); then,
  device by device, reconnect, create one capture state per logged signal,
  run the log download until a progress update reports no entries left, and
  finalize the states gathered so far.

  The radio, the SDK and the file system are inputs: what the SDK's
  callbacks report is given as values (`SignalsReply`, `LogEvent`), and the
  session `prepareMetaCloud` creates is an opaque identifier.
 */
module CommandDownload {
  import opened Wrappers
  import opened Seqs
  import opened Text
  import opened Hex
  import opened BleConn
  import opened SensorConfig
  import opened DataCapture
  import App

  // ---------------------------------------------------------------------------
  // Identifiers of logged signals

  const IdentifierTable: map<string, string> := map[
    "acceleration" := "Accelerometer",
    "illuminance" := "Ambient Light",
    "pressure" := "Pressure",
    "relative-humidity" := "Humidity",
    "angular-velocity" := "Gyroscope",
    "magnetic-field" := "Magnetometer",
    "quaternion" := "Quaternion",
    "euler-angles" := "Euler Angles",
    "gravity" := "Gravity",
    "linear-acceleration" := "Linear Acceleration"
  ]

  /** `identifierToName[id]`: `None` is `undefined`. */
  function IdentifierToName(id: string): Option<string> {
    if id in IdentifierTable then Some(IdentifierTable[id]) else None
  }

  /** The property key `SensorConfig[name]` looks up: `undefined` becomes the key "undefined". */
  function SensorKey(name: Option<string>): string {
    name.GetOr("undefined")
  }

  /** The table names exactly these ten identifiers. */
  lemma IdentifiersListed()
    ensures IdentifierTable.Keys == {"acceleration", "illuminance", "pressure", "relative-humidity",
                                     "angular-velocity", "magnetic-field", "quaternion", "euler-angles",
                                     "gravity", "linear-acceleration"}
  {
  }

  lemma IdentifierCount()
    ensures |IdentifierTable.Keys| == 10
  {
  }

  /** No two identifiers name the same sensor. */
  lemma IdentifierNamesDistinct()
    ensures forall a, b :: a in IdentifierTable && b in IdentifierTable && a != b ==> IdentifierTable[a] != IdentifierTable[b]
  {
  }

  /** Of all identifiers, only "acceleration" leads to a sensor `SensorConfig` has; every other one, known or not, leads to none. */
  lemma OnlyAccelerationHasSetting(id: string)
    ensures Lookup(SensorKey(IdentifierToName(id))).Some? <==> id == "acceleration"
  {
    if id in IdentifierTable && id != "acceleration" {
      assert IdentifierTable[id] != "Accelerometer";
    }
  }

  // ---------------------------------------------------------------------------
  // Enumerating a board's logged signals

  /**
    What `mbl_mw_metawearboard_create_anonymous_datasignals` reports: the
    identifiers of the signals behind the array pointer (`None` for a null
    pointer) and the `size` argument, which is the status code when the
    pointer is null.
   */
  datatype SignalsReply = SignalsReply(signals: Option<seq<string>>, size: nat)

  /** The SDK's array holds at least `size` signals. */
  predicate WellFormedReply(reply: SignalsReply) {
    reply.signals.Some? ==> reply.size <= |reply.signals.value|
  }

  /** A reply as the SDK can give it. */
  type Reply = r: SignalsReply | WellFormedReply(r) witness SignalsReply(None, 0)

  datatype Enumeration = Signals(identifiers: seq<string>) | Failed(message: string)

  const NotLoggingMessage: string := "device is not logging any sensor data"

  function CreateFailedMessage(status: nat): string {
    "failed to create anonymous data signals (status = " + NatToString(status) + ")"
  }

  /** Lines 71-80: a null pointer fails with the status, an empty array is "not logging", anything else is its first `size` signals. */
  function Enumerate(reply: Reply): (e: Enumeration)
    ensures e.Signals? <==> reply.signals.Some? && reply.size > 0
    ensures e.Signals? ==> |e.identifiers| == reply.size && e.identifiers == reply.signals.value[..reply.size]
    ensures reply.signals.Some? && reply.size == 0 ==> e == Failed(NotLoggingMessage)
    ensures reply.signals.None? ==> e == Failed(CreateFailedMessage(reply.size))
  {
    match reply.signals
    case None => Failed(CreateFailedMessage(reply.size))
    case Some(items) => if reply.size == 0 then Failed(NotLoggingMessage) else Signals(items[..reply.size])
  }

  /** The board command each device of the sync loop receives. */
  datatype BoardCommand = DebugReset | DebugDisconnect | MacroEraseAll | DebugResetAfterGc

  /** The command the sync loop sends a board: a reset after a successful enumeration, a disconnect after a failed one. */
  function SyncCommand(reply: Reply): BoardCommand
  {
    if Enumerate(reply).Signals? then DebugReset else DebugDisconnect
  }

  /** Reference definition: the positions of the devices whose enumeration succeeded, in order. */
  function ValidDevices(replies: seq<Reply>): seq<nat> {
    ValidAmong(replies, |replies|)
  }

  /** The valid devices among the first `k`. */
  function ValidAmong(replies: seq<Reply>, k: nat): seq<nat>
    requires k <= |replies|
  {
    if k == 0 then [] else ValidAmong(replies, k - 1) + (if Enumerate(replies[k - 1]).Signals? then [k - 1] else [])
  }

  /** The messages the failing devices among the first `k` are warned with, in order. */
  function FailuresAmong(replies: seq<Reply>, k: nat): seq<string>
    requires k <= |replies|
  {
    if k == 0 then []
    else
      var e := Enumerate(replies[k - 1]);
      FailuresAmong(replies, k - 1) + (if e.Failed? then [e.message] else [])
  }

  /** Every device is either valid or warned about, never both. */
  lemma {:induction false} ValidOrFailed(replies: seq<Reply>, k: nat)
    requires k <= |replies|
    ensures |ValidAmong(replies, k)| + |FailuresAmong(replies, k)| == k
  {
    if k > 0 {
      ValidOrFailed(replies, k - 1);
    }
  }

  /** A device is valid exactly when its enumeration succeeded, and the valid ones keep their order. */
  lemma ValidDevicesMeaning(replies: seq<Reply>)
    ensures var v := ValidDevices(replies);
            && (forall i :: i in v <==> 0 <= i < |replies| && Enumerate(replies[i]).Signals?)
            && (forall a, b :: 0 <= a < b < |v| ==> v[a] < v[b])
  {
    ValidAmongMeaning(replies, |replies|);
  }

  lemma ValidAmongMeaning(replies: seq<Reply>, k: nat)
    requires k <= |replies|
    ensures var v := ValidAmong(replies, k);
            && (forall i :: i in v <==> 0 <= i < k && Enumerate(replies[i]).Signals?)
            && (forall a, b :: 0 <= a < b < |v| ==> v[a] < v[b])
  {
    ValidAmongMembers(replies, k);
    ValidAmongRising(replies, k);
  }

  lemma {:induction false} ValidAmongMembers(replies: seq<Reply>, k: nat)
    requires k <= |replies|
    ensures forall i :: i in ValidAmong(replies, k) <==> 0 <= i < k && Enumerate(replies[i]).Signals?
  {
    if k > 0 {
      ValidAmongMembers(replies, k - 1);
      var v := ValidAmong(replies, k - 1);
      var ok := Enumerate(replies[k - 1]).Signals?;
      assert ValidAmong(replies, k) == if ok then v + [k - 1] else v;
      forall i ensures i in ValidAmong(replies, k) <==> 0 <= i < k && Enumerate(replies[i]).Signals? {
        assert i in ValidAmong(replies, k) <==> i in v || (ok && i == k - 1);
      }
    }
  }

  lemma {:induction false} ValidAmongBelow(replies: seq<Reply>, k: nat)
    requires k <= |replies|
    ensures forall a :: 0 <= a < |ValidAmong(replies, k)| ==> ValidAmong(replies, k)[a] < k
  {
    if k > 0 {
      ValidAmongBelow(replies, k - 1);
    }
  }

  lemma {:induction false} ValidAmongRising(replies: seq<Reply>, k: nat)
    requires k <= |replies|
    ensures forall a, b :: 0 <= a < b < |ValidAmong(replies, k)| ==> ValidAmong(replies, k)[a] < ValidAmong(replies, k)[b]
  {
    if k > 0 {
      ValidAmongRising(replies, k - 1);
      ValidAmongBelow(replies, k - 1);
      var v := ValidAmong(replies, k - 1);
      var w: seq<nat> := if Enumerate(replies[k - 1]).Signals? then [k - 1] else [];
      assert ValidAmong(replies, k) == v + w;
      forall a, b | 0 <= a < b < |v + w| ensures (v + w)[a] < (v + w)[b] {
        if b >= |v| {
          assert (v + w)[a] == v[a] && (v + w)[b] == k - 1;
          assert v[a] < k - 1;
        } else {
          assert (v + w)[a] == v[a] && (v + w)[b] == v[b];
          assert v[a] < v[b];
        }
      }
    }
  }

  /** Appending a device whose enumeration succeeded keeps the valid indices paired with their signals. */
  lemma SignalsStep(replies: seq<Reply>, valid: seq<nat>, signals: seq<seq<string>>, k: nat)
    requires k < |replies| && Enumerate(replies[k]).Signals? && |signals| == |valid|
    requires forall i :: 0 <= i < |valid| ==> valid[i] < k && Enumerate(replies[valid[i]]) == Signals(signals[i])
    ensures var v, s := valid + [k], signals + [Enumerate(replies[k]).identifiers];
            forall i :: 0 <= i < |v| ==> v[i] < k + 1 && Enumerate(replies[v[i]]) == Signals(s[i])
  {
  }

  /** One more device: it joins the valid ones or adds its warning. */
  lemma SyncStep(replies: seq<Reply>, k: nat)
    requires k < |replies|
    ensures var e := Enumerate(replies[k]);
            && ValidAmong(replies, k + 1) == ValidAmong(replies, k) + (if e.Signals? then [k] else [])
            && FailuresAmong(replies, k + 1) == FailuresAmong(replies, k) + (if e.Failed? then [e.message] else [])
  {
  }

  /** One device of the sync loop: its enumeration and the board command it is sent. */
  method SyncDevice(reply: Reply) returns (result: Enumeration, command: BoardCommand)
    ensures result == Enumerate(reply) && command == SyncCommand(reply)
    ensures command == if result.Signals? then DebugReset else DebugDisconnect
  {
    result := Enumerate(reply);
    command := if result.Signals? then DebugReset else DebugDisconnect;
  }

  /**
    The sync loop (lines 65-90). For each connected device, in order: a
    success makes it valid, with its signals, one disconnect-wait task and a
    debug reset; a failure logs the message and sends a debug disconnect.
   */
  method SyncLogInfo(replies: seq<Reply>)
    returns (valid: seq<nat>, signals: seq<seq<string>>, tasks: nat, commands: seq<BoardCommand>, warnings: seq<string>)
    ensures valid == ValidDevices(replies)
    ensures |signals| == |valid| == tasks
    ensures forall i :: 0 <= i < |valid| ==> valid[i] < |replies| && Enumerate(replies[valid[i]]) == Signals(signals[i])
    ensures |commands| == |replies|
    ensures forall i :: 0 <= i < |replies| ==> commands[i] == SyncCommand(replies[i])
    ensures warnings == FailuresAmong(replies, |replies|)
    ensures |warnings| + |valid| == |replies|
  {
    valid, signals, tasks, commands, warnings := [], [], 0, [], [];
    ghost var sent := seq(|replies|, j requires 0 <= j < |replies| => SyncCommand(replies[j]));
    var k: nat := 0;
    while k < |replies|
      invariant 0 <= k <= |replies|
      invariant valid == ValidAmong(replies, k)
      invariant |signals| == |valid| == tasks
      invariant forall i :: 0 <= i < |valid| ==> valid[i] < k && Enumerate(replies[valid[i]]) == Signals(signals[i])
      invariant commands == sent[..k]
      invariant warnings == FailuresAmong(replies, k)
    {
      var result, command := SyncDevice(replies[k]);
      SyncStep(replies, k);
      PrefixStep(sent, k);
      commands := commands + [command];
      if result.Signals? {
        SignalsStep(replies, valid, signals, k);
        valid := valid + [k];
        signals := signals + [result.identifiers];
        tasks := tasks + 1;
      } else {
        warnings := warnings + [result.message];
      }
      k := k + 1;
    }
    ValidOrFailed(replies, k);
  }

  // ---------------------------------------------------------------------------
  // The name a device is shown with

  /** `buffer.toString('ascii', start)`: each byte from `start` on with its high bit cleared; nothing when `start` is past the end. */
  function Ascii(data: seq<byte>, start: nat): string {
    if start >= |data| then ""
    else seq(|data| - start, i requires 0 <= i < |data| - start => (data[start + i] % 128) as char)
  }

  /** Lines 52-54. */
  function DeviceName(manufacturerData: Option<seq<byte>>, entry: App.DeviceEntry): string {
    if manufacturerData.None? then entry.name.GetOr("MetaWear") else Ascii(manufacturerData.value, 2)
  }

  /**
    Without manufacturer data the name comes from the configuration, or is
    "MetaWear"; with it, the configured name is ignored and the name is the
    data from its third byte on, which an ASCII payload gives back verbatim.
   */
  lemma DeviceNameCases(manufacturerData: Option<seq<byte>>, entry: App.DeviceEntry)
    ensures manufacturerData.None? && entry.name.Some? ==> DeviceName(manufacturerData, entry) == entry.name.value
    ensures manufacturerData.None? && entry.name.None? ==> DeviceName(manufacturerData, entry) == "MetaWear"
    ensures manufacturerData.Some? ==>
              var data, name := manufacturerData.value, DeviceName(manufacturerData, entry);
              && |name| == (if |data| <= 2 then 0 else |data| - 2)
              && (forall i :: 0 <= i < |name| ==> name[i] as int < 128)
              && (forall i :: 0 <= i < |name| ==> name[i] as int == data[i + 2] % 128)
              && (forall i :: 0 <= i < |name| && data[i + 2] < 128 ==> name[i] as int == data[i + 2])
  {
  }

  // ---------------------------------------------------------------------------
  // printProgress

  /** `Math.round(n / d)` for d > 0: the nearest integer, halves rounded up. */
  function RoundHalfUp(n: int, d: int): int
    requires d > 0
  {
    (2 * n + d) / (2 * d)
  }

  /**
    `filled_length`. A zero total makes the quotient NaN or Infinity, and
    `parseInt` of either is NaN (`None`).
   */
  function FilledLength(iteration: int, total: nat, barLength: nat): Option<int> {
    if total == 0 then None else Some(RoundHalfUp(barLength * iteration, total))
  }

  function Blocks(filled: Option<int>): nat {
    if filled.Some? && filled.value > 0 then filled.value else 0
  }

  function Dashes(filled: Option<int>, barLength: nat): nat {
    if filled.Some? && barLength - filled.value > 0 then barLength - filled.value else 0
  }

  /** The bar both loops build: every comparison with NaN is false, so a NaN length gives an empty bar. */
  function Bar(filled: Option<int>, barLength: nat): string {
    Repeat('█', Blocks(filled)) + Repeat('-', Dashes(filled, barLength))
  }

  /**
    `(100 * (iteration / total)).toFixed(decimals)`, computed exactly: the
    sign, then the magnitude rounded to `decimals` places with halves
    rounded up. A zero total gives NaN or an infinity.
   */
  function Percent(iteration: int, total: nat, decimals: nat): string {
    if total == 0 then
      (if iteration == 0 then "NaN" else if iteration > 0 then "Infinity" else "-Infinity")
    else
      var magnitude := if iteration < 0 then -iteration else iteration;
      ToFixed(iteration < 0, RoundHalfUp(100 * magnitude * Pow10(decimals), total), decimals)
  }

  /** What `printProgress` writes to stdout: the bar line, then a newline exactly when iteration equals total. */
  function ProgressWrites(iteration: int, total: nat, prefix: string, suffix: string, decimals: nat, barLength: nat): seq<string> {
    var line := "\r" + prefix + " |" + Bar(FilledLength(iteration, total, barLength), barLength) + "| "
                + Percent(iteration, total, decimals) + "%" + " " + suffix;
    [line] + (if iteration == total then ["\n"] else [])
  }

  /** `printProgress(iteration, total, prefix, suffix, decimals, bar_length)` with its two loops. */
  method PrintProgress(iteration: int, total: nat, prefix: string, suffix: string, decimals: nat, barLength: nat)
    returns (writes: seq<string>)
    ensures writes == ProgressWrites(iteration, total, prefix, suffix, decimals, barLength)
  {
    var percents := Percent(iteration, total, decimals);
    var filled := FilledLength(iteration, total, barLength);
    var bar := "";
    var i := 0;
    while filled.Some? && i < filled.value
      invariant 0 <= i && (i > 0 ==> filled.Some? && i <= filled.value)
      invariant bar == Repeat('█', i)
      decreases if filled.Some? then filled.value - i else 0
    {
      bar := bar + "█";
      i := i + 1;
    }
    assert i == Blocks(filled);
    var j := 0;
    while filled.Some? && j < barLength - filled.value
      invariant 0 <= j && (j > 0 ==> filled.Some? && j <= barLength - filled.value)
      invariant bar == Repeat('█', Blocks(filled)) + Repeat('-', j)
      decreases if filled.Some? then barLength - filled.value - j else 0
    {
      bar := bar + "-";
      j := j + 1;
    }
    assert j == Dashes(filled, barLength);
    writes := ["\r" + prefix + " |" + bar + "| " + percents + "%" + " " + suffix];
    if iteration == total {
      writes := writes + ["\n"];
    }
  }

  lemma MulMono(b: int, x: int, y: int)
    requires b >= 0 && x <= y
    ensures b * x <= b * y
  {
  }

  lemma DivOfMulPlus(q: int, b: int, r: int)
    requires b > 0 && 0 <= r < b
    ensures (b * q + r) / b == q
  {
    var x := (b * q + r) / b;
    var m := (b * q + r) % b;
    assert b * q + r == b * x + m;
    assert b * (q - x) == m - r;
    if q - x >= 1 {
      MulMono(b, 1, q - x);
    } else if q - x <= -1 {
      MulMono(b, q - x, -1);
    }
  }

  lemma DivBelow(a: int, b: int, q: int)
    requires b > 0 && 0 <= a < b * q
    ensures 0 <= a / b < q
  {
    if a / b >= q {
      MulMono(b, q, a / b);
    }
  }

  /**
    For a positive total and 0 <= iteration <= total the bar is
    round(barLength * iteration / total) blocks followed by dashes, exactly
    `barLength` characters in all: all dashes at the start, all blocks at
    the end.
   */
  lemma BarShape(iteration: int, total: nat, barLength: nat)
    requires total > 0 && 0 <= iteration <= total
    ensures var f := RoundHalfUp(barLength * iteration, total);
            && 0 <= f <= barLength
            && Bar(FilledLength(iteration, total, barLength), barLength) == Repeat('█', f) + Repeat('-', barLength - f)
            && |Bar(FilledLength(iteration, total, barLength), barLength)| == barLength
    ensures iteration == 0 ==> Bar(FilledLength(iteration, total, barLength), barLength) == Repeat('-', barLength)
    ensures iteration == total ==> Bar(FilledLength(iteration, total, barLength), barLength) == Repeat('█', barLength)
  {
    FilledBounds(iteration, total, barLength);
  }

  lemma FilledBounds(iteration: int, total: nat, barLength: nat)
    requires total > 0 && 0 <= iteration <= total
    ensures 0 <= RoundHalfUp(barLength * iteration, total) <= barLength
    ensures iteration == 0 ==> RoundHalfUp(barLength * iteration, total) == 0
    ensures iteration == total ==> RoundHalfUp(barLength * iteration, total) == barLength
  {
    FilledInRange(iteration, total, barLength);
    if iteration == 0 {
      DivOfMulPlus(0, 2 * total, total);
    }
    if iteration == total {
      FilledAtEnd(total, barLength);
    }
  }

  lemma FilledInRange(iteration: int, total: nat, barLength: nat)
    requires total > 0 && 0 <= iteration <= total
    ensures 0 <= RoundHalfUp(barLength * iteration, total) <= barLength
  {
    MulMono(barLength, iteration, total);
    assert (2 * total) * (barLength + 1) == 2 * (barLength * total) + 2 * total;
    DivBelow(2 * (barLength * iteration) + total, 2 * total, barLength + 1);
  }

  lemma FilledAtEnd(total: nat, barLength: nat)
    requires total > 0
    ensures RoundHalfUp(barLength * total, total) == barLength
  {
    assert 2 * (barLength * total) + total == (2 * total) * barLength + total;
    DivOfMulPlus(barLength, 2 * total, total);
  }

  /** With no entries at all, the bar is empty and the percentage is NaN. */
  lemma EmptyDownloadProgress(barLength: nat, decimals: nat)
    ensures Bar(FilledLength(0, 0, barLength), barLength) == ""
    ensures Percent(0, 0, decimals) == "NaN"
  {
  }

  /** The last update of a non-empty download reads "100.0" percent and the first "0.0", at one decimal. */
  lemma PercentEnds(total: nat)
    requires total > 0
    ensures Percent(total, total, 1) == "100.0"
    ensures Percent(0, total, 1) == "0.0"
  {
    assert Pow10(1) == 10;
    assert 2 * (100 * total * 10) + total == (2 * total) * 1000 + total;
    DivOfMulPlus(1000, 2 * total, total);
    DivOfMulPlus(0, 2 * total, total);
    FixedParts(false, 1000, 1, 10, 100, 0);
    FixedParts(false, 0, 1, 10, 0, 0);
    assert NatToString(100) == "100";
  }

  // ---------------------------------------------------------------------------
  // The log download

  /** One call the SDK makes on the download handler. */
  datatype LogEvent =
    | Progress(entriesLeft: nat, totalEntries: nat)   // received_progress_update
    | UnknownEntry                                    // received_unknown_entry
    | UnhandledEntry(dataPoint: string)               // received_unhandled_entry, with the parsed value as text

  const ProgressBarLength: nat := 50

  /** A progress update with no entries left, which resolves the download. */
  predicate Completes(e: LogEvent) {
    e.Progress? && e.entriesLeft == 0
  }

  /** The position of the first progress update with no entries left: the one that resolves the download. */
  function Completion(events: seq<LogEvent>): (c: Option<nat>)
    ensures c.Some? ==> c.value < |events| && Completes(events[c.value])
    ensures c.Some? ==> forall i :: 0 <= i < c.value ==> !Completes(events[i])
    ensures c.None? ==> forall i :: 0 <= i < |events| ==> !Completes(events[i])
  {
    CompletionFrom(events, 0)
  }

  /** The first completing update at position `k` or later. */
  function CompletionFrom(events: seq<LogEvent>, k: nat): (c: Option<nat>)
    requires k <= |events|
    ensures c.Some? ==> k <= c.value < |events| && Completes(events[c.value])
    ensures c.Some? ==> forall i :: k <= i < c.value ==> !Completes(events[i])
    ensures c.None? ==> forall i :: k <= i < |events| ==> !Completes(events[i])
    decreases |events| - k
  {
    if k == |events| then None
    else if Completes(events[k]) then Some(k)
    else CompletionFrom(events, k + 1)
  }

  /** What one event prints and what it warns, in the handler's own words. */
  function EventWrites(e: LogEvent): seq<string> {
    match e
    case Progress(left, total) => ProgressWrites(total - left, total, "Progress", "Complete", 1, ProgressBarLength)
    case UnknownEntry => []
    case UnhandledEntry(_) => []
  }

  function EventWarnings(e: LogEvent): seq<string> {
    match e
    case Progress(_, _) => []
    case UnknownEntry => ["received_unknown_entry"]
    case UnhandledEntry(p) => ["received_unhandled_entry: " + p]
  }

  /** What the first `k` events print, in order. */
  function WritesBefore(events: seq<LogEvent>, k: nat): seq<string>
    requires k <= |events|
  {
    if k == 0 then [] else WritesBefore(events, k - 1) + EventWrites(events[k - 1])
  }

  /** What the first `k` events warn about, in order. */
  function WarningsBefore(events: seq<LogEvent>, k: nat): seq<string>
    requires k <= |events|
  {
    if k == 0 then [] else WarningsBefore(events, k - 1) + EventWarnings(events[k - 1])
  }

  /** What the first events print and warn does not depend on the events after them. */
  lemma {:induction false} BeforeIgnoresLater(events: seq<LogEvent>, later: seq<LogEvent>, k: nat)
    requires k <= |events|
    ensures WritesBefore(events + later, k) == WritesBefore(events, k)
    ensures WarningsBefore(events + later, k) == WarningsBefore(events, k)
  {
    if k > 0 {
      BeforeIgnoresLater(events, later, k - 1);
      assert (events + later)[k - 1] == events[k - 1];
    }
  }

  /** The newline of a progress update is printed exactly on the update that completes the download. */
  lemma NewlineExactlyAtCompletion(left: nat, total: nat)
    ensures "\n" in EventWrites(Progress(left, total)) <==> left == 0
    ensures |EventWrites(Progress(left, total))| == if left == 0 then 2 else 1
  {
    var w := EventWrites(Progress(left, total));
    if left != 0 {
      assert |w| == 1;
      assert w[0][0] == '\r';
    }
  }

  /** Unknown and unhandled entries print nothing and never complete the download; they only warn. */
  lemma EntriesOnlyWarn(events: seq<LogEvent>, e: LogEvent)
    requires !e.Progress?
    ensures Completion(events + [e]) == Completion(events)
    ensures WritesBefore(events + [e], |events| + 1) == WritesBefore(events, |events|)
    ensures |WarningsBefore(events + [e], |events| + 1)| == |WarningsBefore(events, |events|)| + 1
  {
    CompletionIgnoresLast(events, e);
    BeforeIgnoresLater(events, [e], |events|);
  }

  lemma CompletionIgnoresLast(events: seq<LogEvent>, e: LogEvent)
    requires !Completes(e)
    ensures Completion(events + [e]) == Completion(events)
  {
    CompletionFromIgnoresLast(events, e, 0);
  }

  lemma {:induction false} CompletionFromIgnoresLast(events: seq<LogEvent>, e: LogEvent, k: nat)
    requires !Completes(e) && k <= |events|
    ensures CompletionFrom(events + [e], k) == CompletionFrom(events, k)
    decreases |events| - k
  {
    if k < |events| {
      assert (events + [e])[k] == events[k];
      CompletionFromIgnoresLast(events, e, k + 1);
    }
  }

  /** The bar a progress update prints: the entries read so far out of the total, to one decimal. */
  method PrintUpdate(entriesLeft: nat, totalEntries: nat) returns (writes: seq<string>)
    ensures writes == EventWrites(Progress(entriesLeft, totalEntries))
  {
    writes := PrintProgress(totalEntries - entriesLeft, totalEntries, "Progress", "Complete", 1, ProgressBarLength);
  }

  /**
    One call on the download handler: a progress update prints the bar and
    completes the download when no entries are left; the two entry callbacks
    only warn.
   */
  method HandleEvent(e: LogEvent) returns (writes: seq<string>, warnings: seq<string>, done: bool)
    ensures writes == EventWrites(e) && warnings == EventWarnings(e)
    ensures done <==> Completes(e)
  {
    match e {
      case Progress(entriesLeft, totalEntries) =>
        writes := PrintUpdate(entriesLeft, totalEntries);
        warnings, done := [], entriesLeft == 0;
      case UnknownEntry =>
        writes, warnings, done := [], ["received_unknown_entry"], false;
      case UnhandledEntry(dataPoint) =>
        writes, warnings, done := [], ["received_unhandled_entry: " + dataPoint], false;
    }
  }

  /** How many events the download handler sees: up to the completing update, or all of them. */
  function Handled(events: seq<LogEvent>): (n: nat)
    ensures n <= |events|
  {
    match Completion(events)
    case Some(c) => c + 1
    case None => |events|
  }

  /** What the download handler prints for one device: the bars of the events it sees. */
  function DownloadWrites(events: seq<LogEvent>): seq<string> {
    WritesBefore(events, Handled(events))
  }

  /** What the download handler warns about for one device. */
  function DownloadWarnings(events: seq<LogEvent>): seq<string> {
    WarningsBefore(events, Handled(events))
  }

  /**
    The download handler for one device (lines 121-141): events are handled
    in order until the first progress update with no entries left resolves
    the wait. Without one the wait never ends (`completed` is false after all
    the events). Returns how many events were handled and what they printed
    and warned.
   */
  method DownloadLog(events: seq<LogEvent>)
    returns (handled: nat, completed: bool, writes: seq<string>, warnings: seq<string>)
    ensures completed <==> Completion(events).Some?
    ensures handled == Handled(events)
    ensures writes == WritesBefore(events, handled)
    ensures warnings == WarningsBefore(events, handled)
  {
    handled, completed, writes, warnings := 0, false, [], [];
    while handled < |events|
      invariant 0 <= handled <= |events|
      invariant Completion(events) == CompletionFrom(events, handled)
      invariant writes == WritesBefore(events, handled)
      invariant warnings == WarningsBefore(events, handled)
    {
      var out, warned, done := HandleEvent(events[handled]);
      writes := writes + out;
      warnings := warnings + warned;
      if done {
        completed := true;
        handled := handled + 1;
        return;
      }
      handled := handled + 1;
    }
  }

  // ---------------------------------------------------------------------------
  // Finalizing: end every stream and rename its file

  const Placeholder: char := '@'

  /** `path.replace(/@/g, stamp)` */
  function RenameTarget(path: string, stamp: string): string {
    ReplaceAll(path, Placeholder, stamp)
  }

  /**
    Renaming a file created with the placeholder time stamp replaces every
    '@' of the whole path, the directory's included, and turns the file name
    into the one a real time stamp would have given — provided the address
    and the sensor name have no '@' of their own.
   */
  lemma RenameFillsPlaceholder(root: string, address: string, sensor: string, stamp: string)
    requires '@' !in address && '@' !in sensor
    ensures RenameTarget(CsvPath(root, "@", address, sensor), stamp)
         == ReplaceAll(root, '@', stamp) + Separator(root) + FileName(stamp, address, sensor)
    ensures '@' !in root ==> RenameTarget(CsvPath(root, "@", address, sensor), stamp) == CsvPath(root, stamp, address, sensor)
  {
    StampFillsFileName(address, sensor, stamp);
    ReplaceAllConcat3(root, Separator(root), FileName("@", address, sensor), '@', stamp);
    ReplaceAllAbsent(Separator(root), '@', stamp);
    if '@' !in root {
      ReplaceAllAbsent(root, '@', stamp);
    }
  }

  /** In a file name made with the placeholder, the placeholder is the only '@'. */
  lemma StampFillsFileName(address: string, sensor: string, stamp: string)
    requires '@' !in address && '@' !in sensor
    ensures RenameTarget(FileName("@", address, sensor), stamp) == FileName(stamp, address, sensor)
  {
    UpperKeepsAbsent(address, '@');
    RemoveAllKeepsAbsent(Upper(address), ':', '@');
    var rest := "_" + CompactAddress(address) + "_" + sensor + ".csv";
    assert '@' !in rest;
    assert FileName("@", address, sensor) == [Placeholder] + rest;
    ReplaceAllLeading(Placeholder, rest, stamp);
  }

  /**
    Where `states.map` stops: `s['csv'].end()` is the only call that throws
    outside a promise, so the first state without a 'csv' key ends the map.
   */
  function FirstWithoutCsv(states: seq<CaptureState>): (k: nat)
    reads set i | 0 <= i < |states| :: states[i]
    ensures k <= |states|
    ensures forall i :: 0 <= i < k ==> states[i].csv.Some?
    ensures k < |states| ==> states[k].csv.None?
  {
    if states == [] then 0
    else if states[0].csv.None? then 0
    else 1 + FirstWithoutCsv(states[1..])
  }

  /**
    The renames the first `k` states ask for, in order: a state with a 'path'
    renames it to the path with every '@' replaced by the time stamp of its
    first sample (the current time `now` when no sample was written); a
    state without one raises a TypeError inside its promise executor, which
    only rejects that promise.
   */
  function RenamesBefore(states: seq<CaptureState>, k: nat, now: int, formatTime: int -> string): seq<(string, string)>
    requires k <= |states|
    reads set i | 0 <= i < |states| :: states[i]
  {
    if k == 0 then []
    else
      var s := states[k - 1];
      RenamesBefore(states, k - 1, now, formatTime)
      + (if s.path.Some? then [(s.path.value, RenameTarget(s.path.value, formatTime(s.first.GetOr(now))))] else [])
  }

  /** Finalize fails: some state has no 'csv' (the map throws) or no 'path' (its promise rejects). */
  predicate SomeUnfinished(states: seq<CaptureState>)
    reads set i | 0 <= i < |states| :: states[i]
  {
    exists i :: 0 <= i < |states| && (states[i].csv.None? || states[i].path.None?)
  }

  /** Every rename is of a state that has a 'path'; with no 'path' anywhere nothing is renamed. */
  lemma {:induction false} NoPathNoRename(states: seq<CaptureState>, k: nat, now: int, formatTime: int -> string)
    requires k <= |states|
    ensures (forall i :: 0 <= i < k ==> states[i].path.None?) <==> RenamesBefore(states, k, now, formatTime) == []
  {
    if k > 0 {
      NoPathNoRename(states, k - 1, now, formatTime);
      if states[k - 1].path.None? {
      } else {
        assert RenamesBefore(states, k, now, formatTime) != [];
      }
    }
  }

  /**
    Lines 151-157: `Promise.all(states.map(...))`. In order, each state's
    'csv' stream is ended, then its file is renamed if it has a 'path'. The
    first state without 'csv' throws out of the map, so no later state is
    touched; finalize fails when any state lacks 'csv' or 'path'.
   */
  method Finalize(states: seq<CaptureState>, now: int, formatTime: int -> string)
    returns (renames: seq<(string, string)>, error: bool)
    requires forall i, j :: 0 <= i < j < |states| ==> states[i] != states[j]
    modifies (set i | 0 <= i < |states| :: states[i])`csv
    ensures var k := old(FirstWithoutCsv(states));
            && renames == old(RenamesBefore(states, k, now, formatTime))
            && (forall i :: 0 <= i < |states| ==>
                  states[i].csv == if i < k then Some(old(states[i].csv).value.(ended := true)) else old(states[i].csv))
    ensures error <==> old(SomeUnfinished(states))
    ensures forall i :: 0 <= i < |states| ==>
              && states[i].stream == old(states[i].stream) && states[i].first == old(states[i].first)
              && states[i].metacloud == old(states[i].metacloud) && states[i].session == old(states[i].session)
              && states[i].path == old(states[i].path)
  {
    renames, error := [], false;
    var k := 0;
    while k < |states|
      invariant 0 <= k <= |states|
      invariant k <= old(FirstWithoutCsv(states))
      invariant renames == old(RenamesBefore(states, k, now, formatTime))
      invariant error <==> exists i :: 0 <= i < k && old(states[i].path).None?
      invariant forall i :: 0 <= i < |states| ==>
                  states[i].csv == if i < k then Some(old(states[i].csv).value.(ended := true)) else old(states[i].csv)
    {
      var s := states[k];
      if s.csv.None? {
        error := true;
        return;
      }
      s.csv := Some(s.csv.value.(ended := true));
      if s.path.None? {
        error := true;
      } else {
        var stamp := formatTime(s.first.GetOr(now));
        renames := renames + [(s.path.value, RenameTarget(s.path.value, stamp))];
      }
      k := k + 1;
    }
  }

  // ---------------------------------------------------------------------------
  // The connect loop (lines 45-59)

  /**
    What the radio and the board do for one configured device: the addresses
    discovery reports, in order; how the SDK's set-up goes; the board state
    `mbl_mw_metawearboard_serialize` returns; and the advertised
    manufacturer data, if any.
   */
  datatype Probe = Probe(sightings: seq<string>, setup: SetupOutcome, serialized: seq<byte>,
                         manufacturerData: Option<seq<byte>>)

  /** A connected device: its address as discovered, the name it is shown with, and the board state saved for it. */
  datatype Device = Device(address: string, name: string, serialized: seq<byte>)

  /** The TypeError calling a member lib/ble-conn.js does not define raises. */
  const NotAFunctionMessage: string := "TypeError: BleConn.findDevice is not a function"

  /**
    The connect loop as written: lib/ble-conn.js exports no `findDevice`, so
    the first call of every iteration raises a TypeError, which the catch
    logs. No device is ever connected.
   */
  method ConnectAsWritten(entries: seq<App.DeviceEntry>) returns (devices: seq<Device>, warnings: seq<string>)
    ensures devices == []
    ensures |warnings| == |entries| && forall i :: 0 <= i < |warnings| ==> warnings[i] == NotAFunctionMessage
  {
    devices, warnings := [], [];
    for k := 0 to |entries|
      invariant |warnings| == k && forall i :: 0 <= i < k ==> warnings[i] == NotAFunctionMessage
    {
      warnings := warnings + [NotAFunctionMessage];
    }
  }

  /**
    One iteration of the connect loop with the discovery and the cache
    writer app.js defines (its `findDevice` and `serializeDeviceState`): the
    device reached, or the error the catch logs.
   */
  function Reach(entry: App.DeviceEntry, probe: Probe): Result<Device, string> {
    match App.FindDevice(probe.sightings, entry.mac)
    case None => Err(App.CouldNotFindMessage)
    case Some(k) =>
      match probe.setup
      case Ready => Ok(Device(probe.sightings[k], DeviceName(probe.manufacturerData, entry), probe.serialized))
      case SetupError(e) => Err(e)
      case NoResponse => Err(SdkTimeoutMessage)
  }

  /**
    A configured device is reached exactly when discovery sees an address
    equal to its MAC up to case and the set-up succeeds; the device then has
    the first such address. Otherwise the warning says which step failed.
   */
  lemma ReachCases(entry: App.DeviceEntry, probe: Probe)
    ensures Reach(entry, probe).Ok? <==> App.FindDevice(probe.sightings, entry.mac).Some? && probe.setup.Ready?
    ensures Reach(entry, probe).Ok? ==>
              var d := Reach(entry, probe).value;
              && d.address in probe.sightings && App.Matches(d.address, entry.mac)
              && d.name == DeviceName(probe.manufacturerData, entry) && d.serialized == probe.serialized
    ensures App.FindDevice(probe.sightings, entry.mac).None? ==> Reach(entry, probe) == Err(App.CouldNotFindMessage)
    ensures App.FindDevice(probe.sightings, entry.mac).Some? && probe.setup.NoResponse? ==> Reach(entry, probe) == Err(SdkTimeoutMessage)
  {
  }

  /** Reference definition: the devices the loop connects, in configuration order. */
  function Connected(entries: seq<App.DeviceEntry>, probes: seq<Probe>): seq<Device>
    requires |probes| == |entries|
  {
    if entries == [] then []
    else
      var n := |entries| - 1;
      Connected(entries[..n], probes[..n]) + (match Reach(entries[n], probes[n]) case Ok(d) => [d] case Err(_) => [])
  }

  /** Reference definition: the warnings the loop logs, in configuration order. */
  function ConnectWarnings(entries: seq<App.DeviceEntry>, probes: seq<Probe>): seq<string>
    requires |probes| == |entries|
  {
    if entries == [] then []
    else
      var n := |entries| - 1;
      ConnectWarnings(entries[..n], probes[..n]) + (match Reach(entries[n], probes[n]) case Ok(_) => [] case Err(e) => [e])
  }

  lemma ConnectStep(entries: seq<App.DeviceEntry>, probes: seq<Probe>, k: nat)
    requires |probes| == |entries| && k < |entries|
    ensures Connected(entries[..k + 1], probes[..k + 1])
            == Connected(entries[..k], probes[..k]) + (match Reach(entries[k], probes[k]) case Ok(d) => [d] case Err(_) => [])
    ensures ConnectWarnings(entries[..k + 1], probes[..k + 1])
            == ConnectWarnings(entries[..k], probes[..k]) + (match Reach(entries[k], probes[k]) case Ok(_) => [] case Err(e) => [e])
  {
    assert entries[..k + 1][..k] == entries[..k];
    assert probes[..k + 1][..k] == probes[..k];
  }

  /** Every configured device is either connected or warned about, never both and never neither. */
  lemma {:induction false} ConnectAccountsForAll(entries: seq<App.DeviceEntry>, probes: seq<Probe>)
    requires |probes| == |entries|
    ensures |Connected(entries, probes)| + |ConnectWarnings(entries, probes)| == |entries|
  {
    if entries != [] {
      var n := |entries| - 1;
      ConnectAccountsForAll(entries[..n], probes[..n]);
    }
  }

  /** The cache after saving each device's state in turn. */
  function Remember(cache: map<string, string>, devices: seq<Device>): map<string, string> {
    if devices == [] then cache
    else
      var n := |devices| - 1;
      Remember(cache, devices[..n])[devices[n].address := HexEncode(devices[n].serialized)]
  }

  /** What the cache file holds after each save: the whole cache at that moment. */
  function Snapshots(cache: map<string, string>, devices: seq<Device>): seq<map<string, string>> {
    if devices == [] then []
    else Snapshots(cache, devices[..|devices| - 1]) + [Remember(cache, devices)]
  }

  lemma RememberStep(cache: map<string, string>, devices: seq<Device>, d: Device)
    ensures Remember(cache, devices + [d]) == Remember(cache, devices)[d.address := HexEncode(d.serialized)]
    ensures Snapshots(cache, devices + [d]) == Snapshots(cache, devices) + [Remember(cache, devices + [d])]
  {
    assert (devices + [d])[..|devices|] == devices;
  }

  /**
    A connected device's state can be read back from the cache exactly as
    the board gave it, unless a later device with the same address replaced
    it: the next connect that deserializes hands the SDK that state.
   */
  lemma {:induction false} RememberedLatest(cache: map<string, string>, devices: seq<Device>, i: nat)
    requires i < |devices|
    requires forall j :: i < j < |devices| ==> devices[j].address != devices[i].address
    ensures CachedBlob(Remember(cache, devices), devices[i].address) == Some(devices[i].serialized)
  {
    var n := |devices| - 1;
    if i == n {
      HexRoundTrip(devices[n].serialized);
    } else {
      RememberedLatest(cache, devices[..n], i);
    }
  }

  /** Addresses no device connected under keep what the cache held for them. */
  lemma {:induction false} RememberedElsewhere(cache: map<string, string>, devices: seq<Device>, a: string)
    requires forall j :: 0 <= j < |devices| ==> devices[j].address != a
    ensures CachedBlob(Remember(cache, devices), a) == CachedBlob(cache, a)
  {
    if devices != [] {
      RememberedElsewhere(cache, devices[..|devices| - 1], a);
    }
  }

  /**
    One configured device: find it, connect with the cached state and, once
    connected, save its new state to the cache and the cache file.
   */
  method ConnectOne(entry: App.DeviceEntry, probe: Probe, cache: App.DeviceStateCache) returns (reached: Result<Device, string>)
    modifies cache
    ensures reached == Reach(entry, probe)
    ensures reached.Err? ==> cache.entries == old(cache.entries) && cache.saved == old(cache.saved)
    ensures reached.Ok? ==>
              && cache.entries == old(cache.entries)[reached.value.address := HexEncode(reached.value.serialized)]
              && cache.saved == old(cache.saved) + [cache.entries]
  {
    var found := App.FindDevice(probe.sightings, entry.mac);
    if found.None? {
      return Err(App.CouldNotFindMessage);
    }
    var address := probe.sightings[found.value];
    var initBuf, result := Connect(address, true, Some(cache.entries), probe.setup);
    if result.Err? {
      return Err(result.error);
    }
    reached := Ok(Device(address, DeviceName(probe.manufacturerData, entry), probe.serialized));
    cache.SerializeDeviceState(address, probe.serialized);
  }

  /**
    The connect loop with app.js's discovery and cache writer. For each
    configured device, in order: find it, connect with the cached state,
    save its new state to the cache (and the cache file), and take its name;
    any failure is logged and the device skipped.
   */
  method ConnectDevices(entries: seq<App.DeviceEntry>, probes: seq<Probe>, cache: App.DeviceStateCache)
    returns (devices: seq<Device>, warnings: seq<string>)
    requires |probes| == |entries|
    modifies cache
    ensures devices == Connected(entries, probes)
    ensures warnings == ConnectWarnings(entries, probes)
    ensures cache.entries == Remember(old(cache.entries), devices)
    ensures cache.saved == old(cache.saved) + Snapshots(old(cache.entries), devices)
  {
    devices, warnings := [], [];
    var k := 0;
    while k < |entries|
      invariant 0 <= k <= |entries|
      invariant devices == Connected(entries[..k], probes[..k])
      invariant warnings == ConnectWarnings(entries[..k], probes[..k])
      invariant cache.entries == Remember(old(cache.entries), devices)
      invariant cache.saved == old(cache.saved) + Snapshots(old(cache.entries), devices)
    {
      ConnectStep(entries, probes, k);
      var reached := ConnectOne(entries[k], probes[k], cache);
      if reached.Err? {
        warnings := warnings + [reached.error];
      } else {
        RememberStep(old(cache.entries), devices, reached.value);
        devices := devices + [reached.value];
      }
      k := k + 1;
    }
    assert entries[..k] == entries && probes[..k] == probes;
  }

  /** One configured device in sight and answering: the loop as written misses it, the corrected loop connects it. */
  lemma OneReachableDevice()
    ensures Connected([App.DeviceEntry("aa:bb", None)], [Probe(["AA:BB"], Ready, [], None)])
            == [Device("AA:BB", "MetaWear", [])]
  {
    var entries, probes := [App.DeviceEntry("aa:bb", None)], [Probe(["AA:BB"], Ready, [], None)];
    assert entries[..0] == [] && probes[..0] == [];
    assert Upper("AA:BB") == Upper("aa:bb");
    assert App.FindDevice(probes[0].sightings, entries[0].mac) == Some(0);
  }

  // ---------------------------------------------------------------------------
  // The pass over each valid device (lines 95-158)

  /**
    What happens on the pass over one valid device: the set-up outcomes of
    its reconnect attempts, the session `prepareMetaCloud` creates, and the
    calls the log download makes on the handler.
   */
  datatype Visit = Visit(reconnects: seq<SetupOutcome>, session: SessionId, events: seq<LogEvent>)

  /** Where a pass stops the whole command. */
  datatype Halt =
    | Stalled   // no progress update ever reports zero entries left: the download promise never settles
    | Threw     // an exception or a rejected `await` rejects the command's promise

  /**
    How many capture states `createState` can make for the device's signals
    before one throws: without a CSV directory `path.join` throws on the
    first, and only "acceleration" names a sensor `SensorConfig` has.
   */
  function FirstUncapturable(ids: seq<string>, root: Option<string>): (k: nat)
    ensures k <= |ids|
    ensures forall i :: 0 <= i < k ==> root.Some? && ids[i] == "acceleration"
    ensures k < |ids| ==> root.None? || ids[k] != "acceleration"
  {
    if ids == [] || root.None? || ids[0] != "acceleration" then 0
    else 1 + FirstUncapturable(ids[1..], root)
  }

  /** The stream of a state the download flow creates: its placeholder-named file with the Accelerometer header. */
  function PlaceholderStream(root: string, address: string, utcOffset: string): Stream {
    Stream(CsvPath(root, [Placeholder], address, "Accelerometer"), [CsvHeader(Setting(AccelerometerHeader), utcOffset)], false)
  }

  /**
    Lines 105-119: one `createState` per logged signal, with the placeholder
    time stamp and, when there is one, the cloud session. Stops at the first
    call that throws; the file that call opened (if it got that far) is
    left behind without a header.
   */
  method CreateStates(ids: seq<string>, root: Option<string>, address: string, session: Option<SessionId>, utcOffset: string)
    returns (created: seq<CaptureState>, threw: bool, leftover: Option<Stream>)
    ensures threw <==> FirstUncapturable(ids, root) < |ids|
    ensures |created| == FirstUncapturable(ids, root)
    ensures leftover.Some? <==> threw && root.Some?
    ensures leftover.Some? ==>
              var k := FirstUncapturable(ids, root);
              leftover.value == Stream(CsvPath(root.value, [Placeholder], address, SensorKey(IdentifierToName(ids[k]))), [], false)
    ensures forall i, j :: 0 <= i < j < |created| ==> created[i] != created[j]
    ensures forall j :: 0 <= j < |created| ==>
              && fresh(created[j])
              && created[j].csv == Some(PlaceholderStream(root.value, address, utcOffset))
              && created[j].metacloud == session
              && created[j].first.None? && created[j].stream.None? && created[j].session.None? && created[j].path.None?
  {
    created, threw, leftover := [], false, None;
    var options := Options(Some(CsvOptions(root, [Placeholder], address)), session);
    var k := 0;
    while k < |ids|
      invariant 0 <= k <= |ids|
      invariant k <= FirstUncapturable(ids, root) && |created| == k
      invariant forall i, j :: 0 <= i < j < |created| ==> created[i] != created[j]
      invariant forall j :: 0 <= j < |created| ==>
                  && fresh(created[j])
                  && created[j].csv == Some(PlaceholderStream(root.value, address, utcOffset))
                  && created[j].metacloud == session
                  && created[j].first.None? && created[j].stream.None? && created[j].session.None? && created[j].path.None?
    {
      var sensor := SensorKey(IdentifierToName(ids[k]));
      OnlyAccelerationHasSetting(ids[k]);
      var state, file, handler := CreateState(sensor, options, utcOffset);
      if handler.None? {
        threw, leftover := true, file;
        return;
      }
      created := created + [state];
      k := k + 1;
    }
  }

  /** Line 97: `reconnect(d, 3)` gives up exactly when none of its three set-up attempts succeeds. */
  method ReconnectForDownload(address: string, outcomes: seq<SetupOutcome>) returns (gaveUp: bool)
    requires |outcomes| >= 3
    ensures gaveUp <==> forall i :: 0 <= i < 3 ==> !outcomes[i].Ready?
  {
    var attempts, delays, blobs, connected;
    attempts, delays, blobs, connected, gaveUp := Reconnect(address, Some(3), outcomes);
  }

  /**
    Reference definition of where the pass over one device stops the
    command, given how many capture states the command already holds: at
    the first `createState` that throws, at a download that never
    completes, and otherwise at finalize, whose `Promise.all` rejects as soon
    as there is any state at all (none has a 'path').
   */
  function VisitHalt(ids: seq<string>, events: seq<LogEvent>, root: Option<string>, held: nat): Option<Halt> {
    if FirstUncapturable(ids, root) < |ids| then Some(Threw)
    else if Completion(events).None? then Some(Stalled)
    else if held + |ids| > 0 then Some(Threw)
    else None
  }

  /** The `createState` loop as one pass sees it: how many states, all new and not yet given a `path`. */
  method CreateForPass(ids: seq<string>, root: Option<string>, address: string, session: Option<SessionId>,
                       utcOffset: string)
    returns (created: seq<CaptureState>, threw: bool, leftover: Option<Stream>)
    ensures threw <==> FirstUncapturable(ids, root) < |ids|
    ensures |created| == FirstUncapturable(ids, root)
    ensures leftover.Some? <==> threw && root.Some?
    ensures forall i, j :: 0 <= i < j < |created| ==> created[i] != created[j]
    ensures forall j :: 0 <= j < |created| ==> fresh(created[j]) && created[j].path.None?
  {
    created, threw, leftover := CreateStates(ids, root, address, session, utcOffset);
  }

  /**
    The pass over one valid device, lines 96-157, with finalize as written:
    reconnect with three attempts (a failure is logged, not fatal), create
    the capture states, run the log download, erase the macros, reset and
    disconnect the board, then finalize every state gathered so far. Every
    state the command holds came from `createState` and has no 'path', so
    any state at all makes finalize reject.
   */
  method VisitDevice(address: string, ids: seq<string>, visit: Visit, root: Option<string>, cloud: bool,
                     states: seq<CaptureState>, utcOffset: string, now: int, formatTime: int -> string)
    returns (halt: Option<Halt>, created: seq<CaptureState>, leftover: Option<Stream>, gaveUp: bool,
             progress: seq<string>, warnings: seq<string>, commands: seq<BoardCommand>)
    requires |visit.reconnects| >= 3
    requires forall i, j :: 0 <= i < j < |states| ==> states[i] != states[j]
    requires forall i :: 0 <= i < |states| ==> states[i].path.None?
    modifies set i | 0 <= i < |states| :: states[i]
    ensures gaveUp <==> forall i :: 0 <= i < 3 ==> !visit.reconnects[i].Ready?
    ensures halt == VisitHalt(ids, visit.events, root, |states|)
    ensures var threw, stalled := FirstUncapturable(ids, root) < |ids|, Completion(visit.events).None?;
            && progress == (if threw then [] else DownloadWrites(visit.events))
            && warnings == (if threw then [] else DownloadWarnings(visit.events))
            && commands == (if threw || stalled then [] else [MacroEraseAll, DebugResetAfterGc, DebugDisconnect])
    ensures |created| == FirstUncapturable(ids, root)
    ensures leftover.Some? <==> FirstUncapturable(ids, root) < |ids| && root.Some?
    ensures forall j :: 0 <= j < |created| ==> fresh(created[j])
    ensures forall i :: 0 <= i < |states| ==> states[i].path.None?
  {
    gaveUp := ReconnectForDownload(address, visit.reconnects);
    var session := if cloud then Some(visit.session) else None;
    var threw;
    created, threw, leftover := CreateForPass(ids, root, address, session, utcOffset);
    if threw {
      halt, progress, warnings, commands := Some(Threw), [], [], [];
      return;
    }
    halt, progress, warnings, commands := DownloadAndFinalize(visit.events, states, created, now, formatTime);
  }

  /**
    The rest of a pass once the states exist (lines 121-157): the log
    download, then, only if it completes, the board commands and finalize
    over every state held.
   */
  method DownloadAndFinalize(events: seq<LogEvent>, states: seq<CaptureState>, created: seq<CaptureState>,
                             now: int, formatTime: int -> string)
    returns (halt: Option<Halt>, progress: seq<string>, warnings: seq<string>, commands: seq<BoardCommand>)
    requires forall i, j :: 0 <= i < j < |states| ==> states[i] != states[j]
    requires forall i, j :: 0 <= i < j < |created| ==> created[i] != created[j]
    requires forall i, j :: 0 <= i < |states| && 0 <= j < |created| ==> states[i] != created[j]
    requires forall i :: 0 <= i < |states| ==> states[i].path.None?
    requires forall j :: 0 <= j < |created| ==> created[j].path.None?
    modifies set i | 0 <= i < |states| :: states[i]
    modifies set j | 0 <= j < |created| :: created[j]
    ensures halt == (if Completion(events).None? then Some(Stalled)
                     else if |states| + |created| > 0 then Some(Threw) else None)
    ensures progress == DownloadWrites(events) && warnings == DownloadWarnings(events)
    ensures commands == if Completion(events).None? then [] else [MacroEraseAll, DebugResetAfterGc, DebugDisconnect]
    ensures forall i :: 0 <= i < |states| ==> states[i].path.None?
  {
    var handled, completed;
    handled, completed, progress, warnings := DownloadLog(events);
    if !completed {
      halt, commands := Some(Stalled), [];
      return;
    }
    commands := [MacroEraseAll, DebugResetAfterGc, DebugDisconnect];
    var renames, error := FinalizeFresh(states, created, now, formatTime);
    halt := if error then Some(Threw) else None;
  }

  /**
    A pass over a device while no capture state is held yet, which is every
    pass the loop over the devices reaches.
   */
  method VisitWithNoneHeld(address: string, ids: seq<string>, visit: Visit, root: Option<string>, cloud: bool,
                           utcOffset: string, now: int, formatTime: int -> string)
    returns (halt: Option<Halt>, created: seq<CaptureState>, progress: seq<string>, warnings: seq<string>)
    requires |visit.reconnects| >= 3
    ensures halt == VisitHalt(ids, visit.events, root, 0)
    ensures progress == (if FirstUncapturable(ids, root) < |ids| then [] else DownloadWrites(visit.events))
    ensures warnings == (if FirstUncapturable(ids, root) < |ids| then [] else DownloadWarnings(visit.events))
  {
    var leftover, gaveUp, commands;
    halt, created, leftover, gaveUp, progress, warnings, commands :=
      VisitDevice(address, ids, visit, root, cloud, [], utcOffset, now, formatTime);
  }

  /**
    Finalize over the states held so far and the ones this pass created,
    none of which has a 'path': it renames nothing, rejects exactly when
    there is a state at all, and the states still have no 'path' afterwards.
   */
  method FinalizeFresh(states: seq<CaptureState>, created: seq<CaptureState>, now: int, formatTime: int -> string)
    returns (renames: seq<(string, string)>, error: bool)
    requires forall i, j :: 0 <= i < j < |states| ==> states[i] != states[j]
    requires forall i, j :: 0 <= i < j < |created| ==> created[i] != created[j]
    requires forall i, j :: 0 <= i < |states| && 0 <= j < |created| ==> states[i] != created[j]
    requires forall i :: 0 <= i < |states| ==> states[i].path.None?
    requires forall j :: 0 <= j < |created| ==> created[j].path.None?
    modifies set i | 0 <= i < |states| :: states[i]
    modifies set j | 0 <= j < |created| :: created[j]
    ensures error <==> |states| + |created| > 0
    ensures renames == []
    ensures forall i :: 0 <= i < |states| ==> states[i].path.None?
  {
    var all := states + created;
    forall i, j | 0 <= i < j < |all| ensures all[i] != all[j] {
      if j < |states| {
      } else if i >= |states| {
        assert all[i] == created[i - |states|] && all[j] == created[j - |states|];
      } else {
        assert all[j] == created[j - |states|];
      }
    }
    forall j | 0 <= j < |created| ensures all[|states| + j] == created[j] {
    }
    NoPathNoRename(all, FirstWithoutCsv(all), now, formatTime);
    if |all| > 0 {
      assert all[0].path.None?;
    }
    renames, error := Finalize(all, now, formatTime);
  }

  /** Where the whole command ends. */
  datatype RunEnd =
    | Exited             // `process.exit(0)`
    | Stopped(device: nat, halt: Halt)   // the pass over the given valid device stops it

  /**
    Reference definition of where the pass over the valid devices from `v`
    on ends: the first pass that throws or stalls, where finalize rejects as
    soon as any state exists.
   */
  function PassesEnd(signals: seq<seq<string>>, visits: seq<Visit>, root: Option<string>, v: nat): RunEnd
    requires |visits| == |signals|
    decreases |signals| - v
  {
    if v >= |signals| then Exited
    else
      match VisitHalt(signals[v], visits[v].events, root, 0)
      case Some(h) => Stopped(v, h)
      case None => PassesEnd(signals, visits, root, v + 1)
  }

  /** One pass of the reference definition. */
  lemma PassesStep(signals: seq<seq<string>>, visits: seq<Visit>, root: Option<string>, v: nat)
    requires |visits| == |signals| && v < |signals|
    ensures var h := VisitHalt(signals[v], visits[v].events, root, 0);
            PassesEnd(signals, visits, root, v) == if h.Some? then Stopped(v, h.value) else PassesEnd(signals, visits, root, v + 1)
  {
  }

  /** A pass that does not stop the command had no signal to capture and no state to finalize. */
  lemma QuietVisit(ids: seq<string>, events: seq<LogEvent>, root: Option<string>, held: nat)
    requires VisitHalt(ids, events, root, held).None?
    ensures ids == [] && held == 0 && FirstUncapturable(ids, root) == 0
    ensures Completion(events).Some?
  {
  }

  /**
    The command never gets past a valid device with a logged signal: when
    every earlier device logged nothing and finished its download, the pass
    over that device throws or stalls, whatever the later devices would do.
   */
  lemma {:induction false} PassesStopAtFirstLogger(signals: seq<seq<string>>, visits: seq<Visit>, root: Option<string>, v: nat, w: nat)
    requires |visits| == |signals| && v <= w < |signals| && |signals[w]| > 0
    requires forall u :: v <= u < w ==> signals[u] == [] && Completion(visits[u].events).Some?
    ensures PassesEnd(signals, visits, root, v) == Stopped(w, Threw) || PassesEnd(signals, visits, root, v) == Stopped(w, Stalled)
    ensures PassesEnd(signals, visits, root, v) == Stopped(w, Stalled) <==>
              FirstUncapturable(signals[w], root) == |signals[w]| && Completion(visits[w].events).None?
    decreases w - v
  {
    if v < w {
      assert signals[v] == [] && Completion(visits[v].events).Some?;
      PassesStopAtFirstLogger(signals, visits, root, v + 1, w);
    }
  }

  /**
    Lines 94-158 with finalize as written: the passes over the valid devices
    in order, with the states gathered across them. States exist only once a
    device has a logged signal, and that device's pass is the last.
   */
  method DownloadAll(devices: seq<Device>, signals: seq<seq<string>>, visits: seq<Visit>, root: Option<string>,
                     cloud: bool, utcOffset: string, now: int, formatTime: int -> string)
    returns (end: RunEnd, states: seq<CaptureState>, progress: seq<string>, warnings: seq<string>)
    requires |signals| == |devices| && |visits| == |devices|
    requires forall v :: 0 <= v < |visits| ==> |visits[v].reconnects| >= 3
    ensures end == PassesEnd(signals, visits, root, 0)
    ensures end.Exited? ==> states == []
  {
    states, progress, warnings := [], [], [];
    var v := 0;
    while v < |devices|
      invariant 0 <= v <= |devices|
      invariant PassesEnd(signals, visits, root, 0) == PassesEnd(signals, visits, root, v)
      invariant states == []
    {
      var halt, created, written, warned := VisitWithNoneHeld(devices[v].address, signals[v], visits[v], root, cloud,
                                                              utcOffset, now, formatTime);
      PassesStep(signals, visits, root, v);
      progress, warnings := progress + written, warnings + warned;
      if halt.Some? {
        states := states + created;
        end := Stopped(v, halt.value);
        return;
      }
      QuietVisit(signals[v], visits[v].events, root, |states|);
      v := v + 1;
    }
    end := Exited;
  }

  /**
    The whole command (lines 43-160), with the connect loop corrected to use
    app.js's discovery and cache writer: connect, sync the log information,
    wait for the boards to disconnect, then pass over the valid devices.
    `replies` holds what each connected board's enumeration reports.
   */
  method DownloadCommand(entries: seq<App.DeviceEntry>, probes: seq<Probe>, cache: App.DeviceStateCache,
                         replies: seq<Reply>, visits: seq<Visit>, root: Option<string>, cloud: bool,
                         utcOffset: string, now: int, formatTime: int -> string)
    returns (end: RunEnd, devices: seq<Device>, valid: seq<nat>, commands: seq<BoardCommand>, warnings: seq<string>)
    requires |probes| == |entries|
    requires |replies| == |Connected(entries, probes)|
    requires |visits| == |ValidDevices(replies)|
    requires forall v :: 0 <= v < |visits| ==> |visits[v].reconnects| >= 3
    modifies cache
    ensures devices == Connected(entries, probes)
    ensures cache.entries == Remember(old(cache.entries), devices)
    ensures valid == ValidDevices(replies)
    ensures forall i :: 0 <= i < |valid| ==> valid[i] < |replies| && Enumerate(replies[valid[i]]).Signals?
    ensures |commands| == |devices|
    ensures end.Exited? <==> valid == []
    ensures valid != [] ==>
              var ids := Enumerate(replies[valid[0]]).identifiers;
              end == (if FirstUncapturable(ids, root) < |ids| || Completion(visits[0].events).Some? then Stopped(0, Threw)
                      else Stopped(0, Stalled))
  {
    var connectWarnings;
    devices, connectWarnings := ConnectDevices(entries, probes, cache);
    var signals, tasks, syncWarnings;
    valid, signals, tasks, commands, syncWarnings := SyncLogInfo(replies);
    var chosen := seq(|valid|, i requires 0 <= i < |valid| => devices[valid[i]]);
    var states, progress, downloadWarnings;
    end, states, progress, downloadWarnings := DownloadAll(chosen, signals, visits, root, cloud, utcOffset, now, formatTime);
    warnings := connectWarnings + syncWarnings + downloadWarnings;
    if valid != [] {
      assert Enumerate(replies[valid[0]]) == Signals(signals[0]);
      PassesStopAtFirstLogger(signals, visits, root, 0, 0);
    }
  }
}
