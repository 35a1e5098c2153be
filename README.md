# metawear-kine-pi, modelled in Dafny

A model of the decision logic of metawear-kine-pi, the Node.js tool that
streams or downloads accelerometer data from MetaWear boards into CSV files.
What is modelled:

- **Connection manager** (`lib/ble-conn.js`): which cached set-up blob a
  connect hands to the SDK, and the reconnect loop with its back-off
  delays and its retry budget.
- **Capture state and CSV text** (`lib/sensor-config.js`,
  `lib/data-capture.js`): the header, the Accelerometer row, the lazily
  latched first-sample time, elapsed time from integer milliseconds, the
  CSV file name, and `createState`.
- **Log download command** (`lib/command-download.js`): the identifier
  table, the enumeration outcome, the valid devices, the progress bar, the
  download handler and its completion rule, the device name, the '@'
  placeholder rename, finalize, and the whole command driven by the events
  the boards produce.
- **Application start-up** (`app.js`): parsing device and sensor specs,
  the cloud-login rule, the fps default, case-insensitive address matching,
  the device-state cache, and choosing which sensors get a CSV file.

The radio, the SDK, the file system, timers and the logger are not part of
the model. What they report comes in as values: `SetupOutcome` for one
set-up attempt, `SignalsReply` for an enumeration, `LogEvent` for one call
on the download handler, and `Probe` and `Visit` for what a device does in
each phase. The local-time formatter (`moment`) is a function parameter
`formatTime`, and the header's UTC offset is a string parameter.

Files: `wrappers.dfy` (Option, Result), `seqs.dfy` (two sequence facts
the loops use), `text.dfy` (the JavaScript string built-ins used: case
mapping, split/join, replace, decimal and `toFixed` formatting), `hex.dfy`
(Node's hex codec), then one file per source module: `ble_conn.dfy`,
`sensor_config.dfy`, `data_capture.dfy`, `command_download.dfy` and
`app.dfy`.

### Behaviour of the code worth knowing

The model follows the code in each of these places:

- `writeValue` writes to the state's `stream` key
  (lib/sensor-config.js:44), but `createState` stores its stream as `csv`
  (lib/data-capture.js:23). In the download flow every sample therefore
  raises a TypeError before anything is formatted, so `first` is never set
  (`SensorConfig.CaptureState.WriteValue`, `DataCapture.Deliver`).
- Finalize reads the state's `path` (lib/command-download.js:153), which
  nothing sets. The TypeError this raises happens inside a promise
  executor, so it only rejects that state's promise: every state's stream
  is still ended, no file is renamed, and `Promise.all` rejects. Only a
  state without `csv` throws out of the map (line 152), and no state after
  it is touched. As a result the download command never reaches
  `process.exit(0)` once a device has a logged signal
  (`CommandDownload.DownloadCommand`, `CommandDownload.PassesStopAtFirstLogger`),
  and the files keep their '@' names.
- `states` is never cleared between devices (lib/command-download.js:94).
  The model passes all states gathered so far to each finalize. Because
  that finalize fails, no later device is ever reached.
- A reconnect that gives up after its three attempts is only logged, and
  the download goes on (lib/command-download.js:97).
- `Setting` has no `exists` member (lib/sensor-config.js:20-27), yet app.js
  calls it at line 138. The model takes the intended board check as the
  parameter `onBoard`.
- `BleConn.findDevice` and `BleConn.serializeDeviceState` are called
  (lib/command-download.js:48,50) but lib/ble-conn.js does not define them.
  The finding below covers this. The rest of the model uses app.js's
  versions.

## Model

| member | source | states |
|---|---|---|
| BleConn.Connect | lib/ble-conn.js:4-19 | a blob is handed to the SDK exactly when deserializing and the cache has the address as a key; that blob is the hex decoding of the cached text; the connect succeeds exactly on a set-up without error, and otherwise fails with the SDK's error or, with no answer, "Failed to initialize SDK" |
| BleConn.BackoffDelay | lib/ble-conn.js:22-35 | the wait after the k-th failure is between 5 and 60 s, and is 5 + 10k unless capped at 60 |
| BleConn.BackoffNonDecreasing | lib/ble-conn.js:35 | the waits never shrink, and each is the previous one plus 10 s or the 60 s cap |
| BleConn.BackoffSchedule | lib/ble-conn.js:22-35 | the waits are 5, 15, 25, 35, 45, 55 s and 60 s from the seventh on |
| BleConn.Reconnect | lib/ble-conn.js:21-46 | no attempt uses a cached blob; the loop stops right after the first success; a budget of n allows at most n attempts, and exactly n without a success; no budget means it retries until a success; each failure is followed by exactly one wait of the back-off delay; "Failed to reconnect" is logged exactly when a non-negative budget ran out (at once for a budget of 0) |
| Hex.HexEncode | app.js:306 | the hex text has two lower-case digits per byte |
| Hex.HexDecode | lib/ble-conn.js:11 | `Buffer` hex decoding gives at most one byte per two characters; `HexDecodePairs` states which bytes, `HexRoundTrip` that it undoes `HexEncode` |
| Hex.HexDecodePairs | lib/ble-conn.js:11 | byte `j` is the value of the `j`-th pair of digits, of either case, and decoding stops at the first pair that is not two hex digits or at a lone trailing digit |
| Hex.HexDecodeStops | lib/ble-conn.js:11 | text whose first pair is not hex, or that is shorter than a pair, decodes to no bytes |
| Hex.HexDecodeStep | lib/ble-conn.js:11 | a leading hex pair gives the first byte, and decoding goes on with the rest of the text |
| Hex.HexRoundTrip | lib/ble-conn.js:11 | decoding the hex text of a blob gives the blob back |
| Hex.HexEncodeOfDecode | lib/ble-conn.js:11 | re-encoding decoded lower-case hex of even length gives the same text |
| SensorConfig.Lookup | lib/sensor-config.js:29-47 | the sensor table has exactly one entry, "Accelerometer" |
| SensorConfig.ElapsedAtOrigin | lib/sensor-config.js:12-18 | the first sample of a state is at elapsed "0.000" |
| SensorConfig.ElapsedMeaning | lib/sensor-config.js:17 | elapsed is the millisecond difference written as a sign, the decimal whole seconds, a point and exactly three digits of milliseconds |
| SensorConfig.ElapsedNegativeIff | lib/sensor-config.js:17 | elapsed starts with '-' exactly when the sample is earlier than the first one |
| SensorConfig.HeaderColumns | lib/sensor-config.js:24 | the header is one line whose comma-separated fields are the epoch, the local time with its UTC offset, the elapsed time and the three axis columns |
| SensorConfig.RowFields | lib/sensor-config.js:44-45 | a row is one line with the epoch, time, elapsed and three axes at three decimals, then an empty seventh field from the trailing comma |
| SensorConfig.CaptureState.constructor | lib/data-capture.js:16 | a new state has no keys |
| SensorConfig.CaptureState.FormatElapsed | lib/sensor-config.js:12-18 | `first` is set by the first call only, and the result is the elapsed time from it |
| SensorConfig.CaptureState.WriteValue | lib/sensor-config.js:42-45 | without a `stream` key nothing changes and the call fails; otherwise exactly one row is appended to the stream, `first` is latched, and no other key changes |
| DataCapture.CompactAddressShape | lib/data-capture.js:20 | the address part of a file name has no colon and no lower-case letter, and is shorter than the address by its number of colons; `CompactAddressPieces` states which characters are kept |
| DataCapture.CompactAddressPieces | lib/data-capture.js:20 | the address is compacted character by character, in order: a colon vanishes and any other character is upper-cased |
| DataCapture.CompactAddressWithoutColons | lib/data-capture.js:20 | an address without colons is only upper-cased |
| Text.RemoveAllConcat | lib/data-capture.js:20 | removing a character from two pieces removes it from each and keeps the rest in order |
| Text.RemoveAllAbsent | lib/data-capture.js:20 | a string without the character is left as it is |
| DataCapture.CompactAddressIgnoresCase | lib/data-capture.js:20 | two spellings of an address that differ only in case name the same file |
| DataCapture.FileNameFields | lib/data-capture.js:20 | a file name splits on '_' into the time stamp, the compact address and `<sensor>.csv` |
| DataCapture.CreateState | lib/data-capture.js:15-33 | a file is opened exactly when `csv` and its root are given, and holds the header exactly when the sensor is known; the handler is registered (once) exactly when there is no `csv` or the file got its header; the state then has `csv` and the `metacloud` session exactly as given, and no other key |
| DataCapture.Deliver | lib/data-capture.js:30 | a sample goes to the sensor's `writeValue` with the handler's own state; on success only `stream` and `first` change; an unknown sensor or a state without `stream` fails and changes nothing |
| App.ParseDeviceSpecs | app.js:31-34 | each spec becomes one entry, in order |
| App.ParseDeviceSpec | app.js:32-33 | a spec names a device exactly when it has an '='; without one the address is the whole spec; neither the address nor the name contains '=' |
| App.DeviceSpecWithoutName | app.js:33 | a spec without '=' gives that address and no name |
| App.DeviceSpecWithName | app.js:32-33 | "mac=name" gives that address and that name |
| App.DeviceSpecDropsExtraParts | app.js:32-33 | everything after a second '=' is dropped |
| App.NormalizeDevice | app.js:27 | a string entry becomes `{mac}`, an object is kept as it is |
| App.NormalizeDevices | app.js:27 | each element is normalized, in order |
| App.ParseSensorSpecs | app.js:35-39 | the folded object has each name once, and exactly the names the specs mention |
| App.SensorSpecsLastWins | app.js:35-39 | each name holds the rate of the last spec with that name |
| App.SensorSpecsFirstOrder | app.js:35-39 | the keys come in the order their names first appear |
| App.CloudLogin | app.js:46-54 | both cloud options give a login, neither gives none, exactly one is an error |
| App.CloudLoginRule | app.js:46-54 | on the command-line path the program stops exactly when one cloud option is given alone, and has a login exactly when both are |
| App.FpsDefault | app.js:56-68 | with no fps given, in the file or on the command line, fps is 10; otherwise it is the given value |
| App.StartupCases | app.js:19-74 | the sensor list wins over everything; a configuration file starts the program with its normalized devices and its own sensors and login; without one both `--device` and `--sensor` are needed and are parsed into the devices and sensors; the CSV directory defaults to "output" |
| App.BuildConfig | app.js:19-74 | the start-up decision; `StartupCases`, `FpsDefault` and `CloudLoginRule` state where each part of the configuration comes from |
| App.MatchesIsCaseInsensitiveEquality | app.js:87 | the address match is an equivalence that ignores case |
| App.FindDevice | app.js:79-96 | discovery resolves with the first sighted address that matches, and finds nothing when none does |
| App.DeviceStateCache.constructor | app.js:14 | the cache starts as the cache file's contents, or empty |
| App.DeviceStateCache.SerializeDeviceState | app.js:301-315 | the entry for the address becomes the hex text of the blob, and the whole cache is written to the file |
| App.SerializedStateRoundTrip | app.js:301-315 | after saving, a deserializing connect gets the same blob back, other addresses keep theirs, and the text is lower-case hex |
| App.SelectSensorsMeaning | app.js:135-141 | a name is kept exactly when it is configured, known and on the board; each name is either kept or warned about |
| App.SelectSensors | app.js:135-141 | the names the loop keeps; `SelectSensorsMeaning`, `SelectSensorsInOrder` and `SelectedAreAccelerometers` state which names and in what order |
| App.SkipWarnings | app.js:136-140 | the warnings of the names the loop skips; `SelectSensorsMeaning` states that each name is either kept or warned about |
| App.SelectedAreAccelerometers | app.js:136 | only the Accelerometer can be kept |
| App.SelectSensorsInOrder | app.js:135-161 | the kept names keep the configured order |
| App.NewStreamState | app.js:141-152 | a kept sensor gets a fresh state whose stream is its `<now>_<ADDRESS>_<sensor>.csv` file holding the header, plus the session if there is one |
| App.ConfigureDevice | app.js:133-161 | the sensor loop: the kept sensors in order, each with one fresh, prepared state and one handler on it, and one warning per skipped name |
| CommandDownload.IdentifiersListed | lib/command-download.js:10-21 | the table names exactly the ten listed identifiers |
| CommandDownload.IdentifierCount | lib/command-download.js:10-21 | there are ten identifiers |
| CommandDownload.IdentifierNamesDistinct | lib/command-download.js:10-21 | no two identifiers name the same sensor |
| CommandDownload.OnlyAccelerationHasSetting | lib/command-download.js:117-118 | only "acceleration" leads to a sensor the sensor table has |
| CommandDownload.Enumerate | lib/command-download.js:71-80 | a null pointer fails with the status, an empty array fails with "not logging", and anything else gives exactly `size` signals |
| CommandDownload.ValidDevicesMeaning | lib/command-download.js:83 | a device is valid exactly when its enumeration succeeded, and the valid devices keep their order |
| CommandDownload.ValidOrFailed | lib/command-download.js:67-89 | every device is either valid or warned about, never both |
| CommandDownload.SyncLogInfo | lib/command-download.js:65-90 | the valid devices with their signals; each valid device gets one disconnect-wait task and a reset; each failing device gets a disconnect, and the warnings are the failing devices' messages in order, one per failing device |
| CommandDownload.DeviceNameCases | lib/command-download.js:52-54 | without manufacturer data the name is the configured one or "MetaWear"; with it, the name has one character per byte from the third on, each byte with its high bit cleared, so ASCII bytes come back verbatim |
| CommandDownload.DeviceName | lib/command-download.js:52-54 | the name a device is shown with; `DeviceNameCases` states its three cases |
| CommandDownload.PrintProgress | lib/command-download.js:24-41 | the two loops build the bar, and the method writes the line, then a newline exactly when iteration equals total |
| CommandDownload.ProgressWrites | lib/command-download.js:24-40 | what `printProgress` writes; `NewlineExactlyAtCompletion` states when the newline comes |
| CommandDownload.Bar | lib/command-download.js:26-34 | the bar the two loops build; `BarShape` states its length and its share of blocks |
| CommandDownload.Percent | lib/command-download.js:25 | the `toFixed` percentage; `PercentEnds` and `EmptyDownloadProgress` state its values at the ends and for a zero total |
| CommandDownload.BarShape | lib/command-download.js:26-34 | for 0 <= iteration <= total with total > 0, the bar is the rounded share of blocks then dashes, exactly `bar_length` long; all dashes at the start and all blocks at the end |
| CommandDownload.EmptyDownloadProgress | lib/command-download.js:25-34 | a zero total gives an empty bar and "NaN" percent |
| CommandDownload.PercentEnds | lib/command-download.js:25 | at one decimal the first update reads "0.0" and the last "100.0" |
| CommandDownload.Completion | lib/command-download.js:125-127 | the download resolves at the first progress update with no entries left, and never without one |
| CommandDownload.NewlineExactlyAtCompletion | lib/command-download.js:38-40 | a progress update prints the newline exactly when no entries are left |
| CommandDownload.EntriesOnlyWarn | lib/command-download.js:129-136 | unknown and unhandled entries print nothing and do not complete the download; they add one warning |
| CommandDownload.PrintUpdate | lib/command-download.js:124 | a progress update prints the bar of the entries read so far out of the total, to one decimal |
| CommandDownload.CompletionIgnoresLast | lib/command-download.js:123-136 | an event that is not a completing update leaves the completion point where it was |
| CommandDownload.HandleEvent | lib/command-download.js:123-136 | one handler call: a progress update prints the bar and completes on zero entries left; the entry callbacks only warn |
| CommandDownload.DownloadLog | lib/command-download.js:121-141 | the events are handled in order up to the first completing update, or all of them without one, with what each prints and warns |
| CommandDownload.RenameFillsPlaceholder | lib/command-download.js:153 | every '@' of the path is replaced, the directory's included; with no '@' in the directory the new name is the file name a real time stamp would have given |
| CommandDownload.StampFillsFileName | lib/command-download.js:153 | in a placeholder file name the placeholder is the only '@', so the rename puts the time stamp in its place |
| CommandDownload.FirstWithoutCsv | lib/command-download.js:151-152 | the map of finalize reaches exactly the states before the first one without `csv`, whose `end()` throws |
| CommandDownload.Finalize | lib/command-download.js:151-157 | the stream of every state before the first one without `csv` is ended and no later one is touched; in order, each of those states that has a `path` is renamed with its first-sample (or current) time stamp; finalize fails exactly when some state has no `csv` or no `path`; nothing else changes |
| CommandDownload.NoPathNoRename | lib/command-download.js:153 | nothing is renamed exactly when none of the states reached has a `path`, as in the download flow |
| CommandDownload.ConnectAsWritten | lib/command-download.js:45-59 | as written, every configured device fails with a TypeError and none is connected |
| CommandDownload.ReachCases | lib/command-download.js:47-55 | a device is reached exactly when discovery sees a matching address and the set-up succeeds; it then has that address and its derived name; otherwise the warning names the failed step |
| CommandDownload.Reach | lib/command-download.js:47-55 | the reference outcome of connecting one configured device; `ReachCases` states when it connects and what a failure reports |
| CommandDownload.ConnectOne | lib/command-download.js:47-55 | one configured device is reached exactly as the reference definition says, and its state is saved to the cache and the cache file exactly when it is connected |
| CommandDownload.ConnectAccountsForAll | lib/command-download.js:45-59 | each configured device is either connected or warned about |
| CommandDownload.RememberedLatest | lib/command-download.js:49-50 | after the loop, a connected device's board state reads back from the cache exactly, unless a later device has the same address |
| CommandDownload.RememberedElsewhere | app.js:307 | addresses no device connected under keep their cached state |
| CommandDownload.ConnectDevices | lib/command-download.js:45-59 | the loop with app.js's helpers: the connected devices and the warnings in configuration order, and the cache and its file after each save |
| CommandDownload.OneReachableDevice | lib/command-download.js:48 | a device in sight and answering is connected under its discovered address as "MetaWear" |
| CommandDownload.FirstUncapturable | lib/command-download.js:105-119 | `createState` succeeds exactly for the signals before the first one that is not "acceleration", and for none without a CSV directory |
| CommandDownload.CreateStates | lib/command-download.js:105-119 | one fresh state per signal up to the first that throws, each with its '@'-named file holding the header and the session; the throwing call's file is left behind without a header |
| CommandDownload.ReconnectForDownload | lib/command-download.js:97 | the reconnect before a download is given three attempts and gives up exactly when all three fail |
| CommandDownload.FinalizeFresh | lib/command-download.js:151-157 | finalize over the states held and the ones just created renames nothing, fails exactly when there is at least one state, and no state gains a `path` |
| CommandDownload.DownloadAndFinalize | lib/command-download.js:121-157 | after the states exist: a download that never completes stalls the pass with no board command; a completed one is followed by the erase, reset and disconnect, then a finalize that rejects exactly when any state is held; what it prints is the download handler's output |
| CommandDownload.VisitDevice | lib/command-download.js:96-157 | one pass: the reconnect gives up exactly when all three attempts fail; a failing `createState` throws, an unfinished download stalls, and finalize rejects whenever any state exists; the pass prints what the download handler prints unless `createState` threw; the board commands are sent only after a completed download |
| CommandDownload.PassesStopAtFirstLogger | lib/command-download.js:95-158 | the passes end at the first valid device with a logged signal: it stalls exactly when its states are all created and its download never completes, and throws otherwise |
| CommandDownload.DownloadAll | lib/command-download.js:94-158 | the passes over the valid devices end where the reference definition says, and the command exits only with no states |
| CommandDownload.DownloadCommand | lib/command-download.js:43-160 | the whole command: the connected devices, the cache, the valid devices; it exits exactly when no device is valid, and otherwise stops at the first valid device, stalled or thrown |

## Left out

- The radio, discovery timeouts, timers, promise sequencing and the
  disconnect events. Their outcomes are inputs; every awaited disconnect
  is taken to arrive.
- All `mbl_mw_*` SDK calls and `ref` buffers. Only the commands sent to a
  board are recorded (`BoardCommand`).
- File-system streams, `fs.rename`, `fs.writeFile`, JSON and logging. The
  model keeps only the strings, paths and maps they would carry. A rename
  or file write that fails on the disk is not modelled.
- `moment`: local time is the `formatTime` parameter and the UTC offset is
  a string.
- Floating point. Axis values are taken as whole thousandths of g.
  Percentages are computed exactly (rounding half up), where `toFixed` on
  a binary double can differ in the last digit. `parseFloat` of a sample
  rate is not modelled; the rate is kept as text.
- `path.join` normalization (`.`, `..`, repeated slashes). The model joins
  the directory and the file name with one '/' unless the directory is
  empty or ends in '/'.
- Unicode case mapping beyond ASCII letters in `toUpperCase`.
- Hex.HexDecode: decodes as Node's `Buffer` does from version 8 on, stopping at the
  first pair that is not hex and dropping a lone trailing digit. Older versions throw
  on such text, and that exception is not modelled.
- JavaScript property order for integer-like keys and the prototype's own
  keys (`in` on names such as "toString"). The sensor object keeps plain
  insertion order.
- Session creation and cloud sync, the Electron windows and graphs, stdin
  shutdown and lib/graph-config.js.
- lib/clo.js is not part of this model; its result is the `Args` value.
- Samples that arrive on a subscription during the download are not
  interleaved with the handler's events. `DataCapture.Deliver` models one
  delivery, which in the download flow always fails (no `stream` key).
- BleConn.Reconnect: it requires as many outcomes as its budget, and some
  success when it has no budget. Otherwise the source never ends.
- The as-written `app.js` call of `exists`: the model uses the board check
  parameter `onBoard`.
- The `onUnexpectedDisconnect` handler of lib/ble-conn.js, which only logs
  and reconnects without a budget (`BleConn.Reconnect` with `None`).

## Findings

| source | as written | input that shows it | evidently intended | confidence | as-written member | corrected member |
|---|---|---|---|---|---|---|
| lib/command-download.js:48 | calls `BleConn.findDevice` (and then `BleConn.serializeDeviceState`), which lib/ble-conn.js does not export; the TypeError is caught and logged, so no device is ever connected and the command does nothing | one configured device "aa:bb" that discovery sees as "AA:BB" and whose set-up succeeds | the discovery and cache writer that app.js defines, which connect that device | not executed | CommandDownload.ConnectAsWritten | CommandDownload.ConnectDevices |
