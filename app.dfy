/**
  The decisions app.js takes before and while setting up a streaming
  session: turning the command line into a configuration, matching a
  discovered device to a configured address, keeping the device-state
  cache, and choosing which configured sensors get a CSV file.

  The argument parser (lib/clo.js) is not part of this model: its result is
  the `Args` value. `parseFloat` on a sample rate is not modelled: a rate is
  kept as the text after '=' (`None` when there is none).
 */
module App {
  import opened Wrappers
  import opened Seqs
  import opened Text
  import opened Hex
  import opened BleConn
  import opened SensorConfig
  import opened DataCapture

  // ---------------------------------------------------------------------------
  // Device specs: "mac" or "mac=name"

  /** An entry of `config['devices']`: `{mac}` or `{mac, name}`. */
  datatype DeviceEntry = DeviceEntry(mac: string, name: Option<string>)

  /** `d.split("=")`, then `{mac: d}` for one part, else `{mac: parts[0], name: parts[1]}`. */
  function ParseDeviceSpec(d: string): (e: DeviceEntry)
    ensures '=' !in e.mac
    ensures e.name.None? <==> '=' !in d
    ensures e.name.None? ==> e.mac == d
    ensures e.name.Some? ==> '=' !in e.name.value
  {
    var parts := Split(d, '=');
    if |parts| == 1 then DeviceEntry(d, None) else DeviceEntry(parts[0], Some(parts[1]))
  }

  function ParseDeviceSpecs(specs: seq<string>): (entries: seq<DeviceEntry>)
    ensures |entries| == |specs|
    ensures forall i :: 0 <= i < |specs| ==> entries[i] == ParseDeviceSpec(specs[i])
  {
    if specs == [] then [] else [ParseDeviceSpec(specs[0])] + ParseDeviceSpecs(specs[1..])
  }

  /** A spec without '=' is an address and nothing else. */
  lemma DeviceSpecWithoutName(mac: string)
    requires '=' !in mac
    ensures ParseDeviceSpec(mac) == DeviceEntry(mac, None)
  {
    SplitAbsent(mac, '=');
  }

  /** "mac=name" gives that address and that name. */
  lemma DeviceSpecWithName(mac: string, name: string)
    requires '=' !in mac && '=' !in name
    ensures ParseDeviceSpec(mac + "=" + name) == DeviceEntry(mac, Some(name))
  {
    SplitAtFirst(mac, name, '=');
    SplitAbsent(name, '=');
  }

  /** Whatever follows a second '=' is dropped. */
  lemma DeviceSpecDropsExtraParts(mac: string, name: string, rest: string)
    requires '=' !in mac && '=' !in name
    ensures ParseDeviceSpec(mac + "=" + name + "=" + rest) == DeviceEntry(mac, Some(name))
  {
    assert mac + "=" + name + "=" + rest == mac + ['='] + (name + ['='] + rest);
    SplitAtFirst(mac, name + ['='] + rest, '=');
    SplitAtFirst(name, rest, '=');
  }

  /** An element of the `devices` list of a configuration file: a bare address string or an object. */
  datatype ConfigDevice = Address(mac: string) | Object(entry: DeviceEntry)

  /** `typeof(d) === 'string' ? {'mac': d} : d` */
  function NormalizeDevice(d: ConfigDevice): (e: DeviceEntry)
    ensures d.Address? ==> e == DeviceEntry(d.mac, None)
    ensures d.Object? ==> e == d.entry
  {
    match d
    case Address(mac) => DeviceEntry(mac, None)
    case Object(entry) => entry
  }

  function NormalizeDevices(ds: seq<ConfigDevice>): (es: seq<DeviceEntry>)
    ensures |es| == |ds|
    ensures forall i :: 0 <= i < |ds| ==> es[i] == NormalizeDevice(ds[i])
  {
    if ds == [] then [] else [NormalizeDevice(ds[0])] + NormalizeDevices(ds[1..])
  }

  // ---------------------------------------------------------------------------
  // Sensor specs: "name=rate", folded into an object

  /** A plain object used as a dictionary: its keys in insertion order, and the value under each. */
  datatype SensorTable = SensorTable(names: seq<string>, rates: map<string, Option<string>>)

  ghost predicate WellFormed(t: SensorTable) {
    (forall i, j :: 0 <= i < j < |t.names| ==> t.names[i] != t.names[j])
    && (forall k :: k in t.rates <==> k in t.names)
  }

  /** `acc[k] = v`: a new key goes last, an existing key keeps its place. */
  function Assign(t: SensorTable, k: string, v: Option<string>): SensorTable {
    SensorTable(if k in t.rates then t.names else t.names + [k], t.rates[k := v])
  }

  /** `s.split("=")`: the sensor name and the text of its rate. */
  function SpecName(s: string): string {
    Split(s, '=')[0]
  }

  function SpecRate(s: string): Option<string> {
    var parts := Split(s, '=');
    if |parts| >= 2 then Some(parts[1]) else None
  }

  /** `args['sensor'].reduce(..., {})`: a dictionary holding each name the specs mention, once. */
  function ParseSensorSpecs(specs: seq<string>): (t: SensorTable)
    ensures WellFormed(t)
    ensures forall k :: k in t.rates <==> k in SpecNames(specs)
  {
    if specs == [] then SensorTable([], map[])
    else
      var init, last := specs[..|specs| - 1], specs[|specs| - 1];
      assert SpecNames(specs) == SpecNames(init) + [SpecName(last)];
      Assign(ParseSensorSpecs(init), SpecName(last), SpecRate(last))
  }

  /** The names the specs mention, in order, with repetitions. */
  function SpecNames(specs: seq<string>): (names: seq<string>)
    ensures |names| == |specs|
    ensures forall i :: 0 <= i < |specs| ==> names[i] == SpecName(specs[i])
  {
    if specs == [] then [] else SpecNames(specs[..|specs| - 1]) + [SpecName(specs[|specs| - 1])]
  }

  /** Reference definition: the rate of the last spec with name `k`, looking from the end. */
  function LastRate(specs: seq<string>, k: string): Option<Option<string>> {
    if specs == [] then None
    else if SpecName(specs[|specs| - 1]) == k then Some(SpecRate(specs[|specs| - 1]))
    else LastRate(specs[..|specs| - 1], k)
  }

  /** The position of the first occurrence of `k` in `xs`. */
  function FirstIndex(xs: seq<string>, k: string): (i: nat)
    requires k in xs
    ensures i < |xs| && xs[i] == k
    ensures forall j :: 0 <= j < i ==> xs[j] != k
  {
    if xs[0] == k then 0 else 1 + FirstIndex(xs[1..], k)
  }

  lemma {:induction false} FirstIndexExtend(xs: seq<string>, y: string, k: string)
    requires k in xs
    ensures FirstIndex(xs + [y], k) == FirstIndex(xs, k)
  {
    if xs[0] != k {
      assert (xs + [y])[1..] == xs[1..] + [y];
      FirstIndexExtend(xs[1..], y, k);
    }
  }

  lemma FirstIndexNew(xs: seq<string>, k: string)
    requires k !in xs
    ensures FirstIndex(xs + [k], k) == |xs|
  {
    assert (xs + [k])[|xs|] == k;
  }

  /** A later spec for a name overrides an earlier one: each key holds the rate of the last spec with that name. */
  lemma {:induction false} SensorSpecsLastWins(specs: seq<string>, k: string)
    ensures k in ParseSensorSpecs(specs).rates ==> LastRate(specs, k) == Some(ParseSensorSpecs(specs).rates[k])
    ensures k !in ParseSensorSpecs(specs).rates ==> LastRate(specs, k) == None
  {
    if specs != [] {
      SensorSpecsLastWins(specs[..|specs| - 1], k);
    }
  }

  /** `names` lists names of `xs` in the order of their first occurrence in `xs`. */
  ghost predicate FirstOccurrenceOrder(names: seq<string>, xs: seq<string>) {
    (forall i :: 0 <= i < |names| ==> names[i] in xs)
    && forall i, j :: 0 <= i < j < |names| ==> FirstIndex(xs, names[i]) < FirstIndex(xs, names[j])
  }

  /** One step of the fold keeps the order: a name seen before keeps its place, a new one goes last. */
  lemma AssignKeepsOrder(names: seq<string>, xs: seq<string>, k: string)
    requires FirstOccurrenceOrder(names, xs)
    requires k in xs ==> k in names
    ensures FirstOccurrenceOrder(if k in names then names else names + [k], xs + [k])
  {
    forall i | 0 <= i < |names|
      ensures FirstIndex(xs + [k], names[i]) == FirstIndex(xs, names[i])
    {
      FirstIndexExtend(xs, k, names[i]);
    }
    if k !in names {
      FirstIndexNew(xs, k);
      var ns := names + [k];
      forall i, j | 0 <= i < j < |ns|
        ensures FirstIndex(xs + [k], ns[i]) < FirstIndex(xs + [k], ns[j])
      {
        if j == |names| {
          assert ns[j] == k;
          assert ns[i] == names[i];
        } else {
          assert ns[i] == names[i] && ns[j] == names[j];
        }
      }
    }
  }

  /** The keys come in the order in which their names first appear among the specs. */
  lemma {:induction false} SensorSpecsFirstOrder(specs: seq<string>)
    ensures FirstOccurrenceOrder(ParseSensorSpecs(specs).names, SpecNames(specs))
  {
    if specs != [] {
      var init := specs[..|specs| - 1];
      SensorSpecsFirstOrder(init);
      var prev := ParseSensorSpecs(init);
      var k := SpecName(specs[|specs| - 1]);
      assert SpecNames(specs) == SpecNames(init) + [k];
      assert k in prev.rates <==> k in prev.names;
      AssignKeepsOrder(prev.names, SpecNames(init), k);
    }
  }

  // ---------------------------------------------------------------------------
  // From the command line to a configuration

  datatype Credentials = Credentials(username: string, password: string)

  /** Both cloud options give a login, neither gives none, and exactly one is an error that stops the program. */
  function CloudLogin(user: Option<string>, passwd: Option<string>): (r: Result<Option<Credentials>, string>)
    ensures r.Ok? && r.value.Some? <==> user.Some? && passwd.Some?
    ensures r.Ok? && r.value.Some? ==> r.value.value == Credentials(user.value, passwd.value)
    ensures r.Ok? && r.value.None? <==> user.None? && passwd.None?
    ensures r.Err? <==> user.Some? != passwd.Some?
  {
    if user.Some? && passwd.Some? then Ok(Some(Credentials(user.value, passwd.value)))
    else if !(user.None? && passwd.None?) then Err(CloudOptionsMessage)
    else Ok(None)
  }

  const CloudOptionsMessage: string := "'--cloud-user' and '--cloud-passwd' required to sync to MetaCloud"
  const MissingOptionsMessage: string := "either '--config' or '--device' & '--sensor' options must be used"
  const DefaultFps: int := 10

  /** A configuration file as parsed JSON: the keys the core reads, each possibly absent. */
  datatype ConfigFile = ConfigFile(devices: seq<ConfigDevice>, sensors: SensorTable,
                                   cloudLogin: Option<Credentials>, fps: Option<int>)

  /** The command-line options the core reads; `None` is `null` or `undefined`. */
  datatype Args = Args(listSensors: bool, config: Option<ConfigFile>,
                       device: Option<seq<string>>, sensor: Option<seq<string>>,
                       cloudUser: Option<string>, cloudPasswd: Option<string>,
                       fps: Option<int>, output: Option<string>)

  datatype Config = Config(devices: seq<DeviceEntry>, sensors: SensorTable,
                           cloudLogin: Option<Credentials>, fps: int, csvDir: string)

  /** What the program does after reading its options. */
  datatype Startup =
    | ListSensors(names: seq<string>)   // prints the sensor names and exits
    | Stop(message: string)             // logs the error and exits
    | Start(config: Config)

  /** app.js lines 19-74, without the window resolution. */
  function BuildConfig(args: Args): Startup {
    if args.listSensors then ListSensors(["Accelerometer"])
    else
      var csvDir := args.output.GetOr("output");
      if args.config.Some? then
        var f := args.config.value;
        Start(Config(NormalizeDevices(f.devices), f.sensors, f.cloudLogin, f.fps.GetOr(DefaultFps), csvDir))
      else if args.device.None? || args.sensor.None? then Stop(MissingOptionsMessage)
      else
        match CloudLogin(args.cloudUser, args.cloudPasswd)
        case Err(e) => Stop(e)
        case Ok(login) =>
          Start(Config(ParseDeviceSpecs(args.device.value), ParseSensorSpecs(args.sensor.value),
                       login, args.fps.GetOr(DefaultFps), csvDir))
  }

  /** With no `fps` given, in the file or on the command line, `fps` is 10; otherwise it is the given value. */
  lemma FpsDefault(args: Args)
    requires BuildConfig(args).Start?
    ensures var given := if args.config.Some? then args.config.value.fps else args.fps;
            && (given.None? ==> BuildConfig(args).config.fps == 10)
            && (given.Some? ==> BuildConfig(args).config.fps == given.value)
  {
  }

  /**
    On the command-line path the cloud options are all or nothing: both give
    a login, one alone stops the program, neither starts without one. A
    configuration file's own login is taken as it is.
   */
  lemma CloudLoginRule(args: Args)
    requires !args.listSensors && args.config.None? && args.device.Some? && args.sensor.Some?
    ensures BuildConfig(args).Stop? <==> args.cloudUser.Some? != args.cloudPasswd.Some?
    ensures BuildConfig(args).Start? ==>
              (BuildConfig(args).config.cloudLogin.Some? <==> args.cloudUser.Some? && args.cloudPasswd.Some?)
  {
  }

  /**
    The list option wins over everything. A configuration file always starts
    the program: its devices are normalized, and its sensors and login are
    taken as they are, whatever the command line says. Without a file, both
    `--device` and `--sensor` are needed, and the devices and sensors are
    parsed from them.
   */
  lemma StartupCases(args: Args)
    ensures args.listSensors <==> BuildConfig(args).ListSensors?
    ensures !args.listSensors && args.config.Some? ==>
              var f := args.config.value;
              && BuildConfig(args).Start?
              && BuildConfig(args).config.devices == NormalizeDevices(f.devices)
              && BuildConfig(args).config.sensors == f.sensors
              && BuildConfig(args).config.cloudLogin == f.cloudLogin
    ensures (!args.listSensors && args.config.None? && (args.device.None? || args.sensor.None?))
              ==> BuildConfig(args) == Stop(MissingOptionsMessage)
    ensures BuildConfig(args).Start? && args.config.None? ==>
              && args.device.Some? && args.sensor.Some?
              && BuildConfig(args).config.devices == ParseDeviceSpecs(args.device.value)
              && BuildConfig(args).config.sensors == ParseSensorSpecs(args.sensor.value)
    ensures BuildConfig(args).Start? ==> BuildConfig(args).config.csvDir == args.output.GetOr("output")
  {
  }

  // ---------------------------------------------------------------------------
  // Discovery

  /** `device.address.toUpperCase() == mac.toUpperCase()` */
  predicate Matches(address: string, mac: string) {
    Upper(address) == Upper(mac)
  }

  /** Matching is an equivalence that ignores the case of either side. */
  lemma MatchesIsCaseInsensitiveEquality(a: string, b: string, c: string)
    ensures Matches(a, a)
    ensures Matches(a, b) ==> Matches(b, a)
    ensures Matches(a, b) && Matches(b, c) ==> Matches(a, c)
    ensures Matches(a, Lower(a)) && Matches(Upper(a), a)
    ensures Matches(a, b) ==> |a| == |b|
  {
    UpperForgetsCase(a);
  }

  /**
    `findDevice(mac)`: the discovery callback resolves with the first device
    seen whose address matches; `sightings` are the addresses discovered
    before the 10-second timeout, in order. `None` is the "Could not find
    device" rejection.
   */
  function FindDevice(sightings: seq<string>, mac: string): (found: Option<nat>)
    ensures found.Some? ==> found.value < |sightings| && Matches(sightings[found.value], mac)
    ensures found.Some? ==> forall j :: 0 <= j < found.value ==> !Matches(sightings[j], mac)
    ensures found.None? ==> forall j :: 0 <= j < |sightings| ==> !Matches(sightings[j], mac)
  {
    if sightings == [] then None
    else if Matches(sightings[0], mac) then Some(0)
    else
      var rest := FindDevice(sightings[1..], mac);
      if rest.Some? then Some(rest.value + 1) else None
  }

  const CouldNotFindMessage: string := "Could not find device"

  // ---------------------------------------------------------------------------
  // The device-state cache (.cache.json)

  class DeviceStateCache {
    /** `cache`: address to the hex text of the board's serialized state. */
    var entries: map<string, string>
    /** Every text written to the cache file, in order: each is the whole cache at that moment. */
    var saved: seq<map<string, string>>

    /** `fs.existsSync(CACHE_FILENAME) ? JSON.parse(...) : {}` */
    constructor (file: Option<map<string, string>>)
      ensures entries == file.GetOr(map[]) && saved == []
    {
      entries := file.GetOr(map[]);
      saved := [];
    }

    /** `serializeDeviceState(device)` with the board's serialized state `blob`. */
    method SerializeDeviceState(address: string, blob: seq<byte>)
      modifies this
      ensures entries == old(entries)[address := HexEncode(blob)]
      ensures saved == old(saved) + [entries]
    {
      var initStr := HexEncode(blob);
      entries := entries[address := initStr];
      saved := saved + [entries];
    }
  }

  /**
    After `serializeDeviceState` a connect that deserializes hands the same
    blob back to the SDK, every other address keeps its blob, and the stored
    text is lower-case hex with two digits per byte.
   */
  lemma SerializedStateRoundTrip(entries: map<string, string>, address: string, blob: seq<byte>, other: string)
    requires other != address
    ensures CachedBlob(entries[address := HexEncode(blob)], address) == Some(blob)
    ensures CachedBlob(entries[address := HexEncode(blob)], other) == CachedBlob(entries, other)
    ensures IsLowerHex(entries[address := HexEncode(blob)][address])
  {
    HexRoundTrip(blob);
  }

  // ---------------------------------------------------------------------------
  // Choosing the sensors of one device

  /** `s in SensorConfig`, against the one sensor the table has. */
  predicate Known(s: string) {
    Lookup(s).Some?
  }

  /** Reference definition: the configured names, in order, that are known and on the board. */
  function SelectSensors(names: seq<string>, onBoard: string -> bool): seq<string> {
    if names == [] then []
    else
      var rest := SelectSensors(names[1..], onBoard);
      if Known(names[0]) && onBoard(names[0]) then [names[0]] + rest else rest
  }

  /** The warning a skipped name produces, if any. */
  function SkipWarning(s: string, onBoard: string -> bool): Option<string> {
    if !Known(s) then Some("'" + s + "' is not a valid sensor name")
    else if !onBoard(s) then Some("'" + s + "' does not exist on this board")
    else None
  }

  function SkipWarnings(names: seq<string>, onBoard: string -> bool): seq<string> {
    if names == [] then []
    else
      var w := SkipWarning(names[0], onBoard);
      (if w.Some? then [w.value] else []) + SkipWarnings(names[1..], onBoard)
  }

  /** A name is kept exactly when it is configured, known and on the board; each name is kept or warned about, never both. */
  lemma {:induction false} SelectSensorsMeaning(names: seq<string>, onBoard: string -> bool)
    ensures forall s :: s in SelectSensors(names, onBoard) <==> s in names && Known(s) && onBoard(s)
    ensures |SelectSensors(names, onBoard)| + |SkipWarnings(names, onBoard)| == |names|
  {
    if names != [] {
      SelectSensorsMeaning(names[1..], onBoard);
      assert names == [names[0]] + names[1..];
    }
  }

  /** Only the Accelerometer can ever be kept. */
  lemma SelectedAreAccelerometers(names: seq<string>, onBoard: string -> bool)
    ensures forall s :: s in SelectSensors(names, onBoard) ==> s == "Accelerometer"
  {
    SelectSensorsMeaning(names, onBoard);
  }

  /** Where each kept name sits in the configured list. */
  function SelectedPositions(names: seq<string>, onBoard: string -> bool): seq<nat> {
    SelectedFrom(names, onBoard, 0)
  }

  /** The positions, from `k` on, of the names that are kept. */
  function SelectedFrom(names: seq<string>, onBoard: string -> bool, k: nat): seq<nat>
    requires k <= |names|
    decreases |names| - k
  {
    if k == |names| then []
    else (if Known(names[k]) && onBoard(names[k]) then [k] else []) + SelectedFrom(names, onBoard, k + 1)
  }

  /** Selection keeps the configured order: the kept names sit at rising positions of the configured list. */
  lemma SelectSensorsInOrder(names: seq<string>, onBoard: string -> bool)
    ensures var kept, pos := SelectSensors(names, onBoard), SelectedPositions(names, onBoard);
            && |pos| == |kept|
            && (forall i :: 0 <= i < |pos| ==> pos[i] < |names| && names[pos[i]] == kept[i])
            && (forall i, j :: 0 <= i < j < |pos| ==> pos[i] < pos[j])
  {
    SelectedFromInOrder(names, onBoard, 0);
    assert names[0..] == names;
  }

  lemma {:induction false} SelectedFromInOrder(names: seq<string>, onBoard: string -> bool, k: nat)
    requires k <= |names|
    decreases |names| - k
    ensures var kept, pos := SelectSensors(names[k..], onBoard), SelectedFrom(names, onBoard, k);
            && |pos| == |kept|
            && (forall i :: 0 <= i < |pos| ==> k <= pos[i] < |names| && names[pos[i]] == kept[i])
            && (forall i, j :: 0 <= i < j < |pos| ==> pos[i] < pos[j])
  {
    if k < |names| {
      SelectedFromInOrder(names, onBoard, k + 1);
      assert names[k..][1..] == names[k + 1..];
    }
  }

  lemma SelectionStep(names: seq<string>, k: nat, onBoard: string -> bool)
    requires k < |names|
    ensures var w := SkipWarning(names[k], onBoard);
            && (w.Some? ==> SelectSensors(names[k..], onBoard) == SelectSensors(names[k + 1..], onBoard)
                            && SkipWarnings(names[k..], onBoard) == [w.value] + SkipWarnings(names[k + 1..], onBoard))
            && (w.None? ==> SelectSensors(names[k..], onBoard) == [names[k]] + SelectSensors(names[k + 1..], onBoard)
                            && SkipWarnings(names[k..], onBoard) == SkipWarnings(names[k + 1..], onBoard))
  {
    assert names[k..][1..] == names[k + 1..];
  }

  /** The state app.js builds for one kept sensor, before any sample arrives. */
  ghost predicate Prepared(st: CaptureState, sensor: string, csvDir: string, now: string,
                           address: string, session: Option<SessionId>, utcOffset: string)
    reads st
  {
    && Known(sensor)
    && st.stream == Some(Stream(CsvPath(csvDir, now, address, sensor),
                                [CsvHeader(Lookup(sensor).value, utcOffset)], false))
    && st.session == session
    && st.csv == None && st.first == None && st.metacloud == None && st.path == None
  }

  /** Lines 141-152 for one kept sensor: open the file, write the header, attach the session. */
  method NewStreamState(sensor: string, csvDir: string, now: string,
                        address: string, session: Option<SessionId>, utcOffset: string)
    returns (newState: CaptureState)
    requires Known(sensor)
    ensures fresh(newState)
    ensures Prepared(newState, sensor, csvDir, now, address, session, utcOffset)
  {
    newState := new CaptureState();
    // the stream opens empty and `csvHeader` writes the header as its first line
    newState.stream := Some(Stream(CsvPath(csvDir, now, address, sensor), [CsvHeader(Lookup(sensor).value, utcOffset)], false));
    if session.Some? {
      newState.session := session;
    }
  }

  /**
    The sensor loop of app.js (lines 133-161) for one device: each kept
    sensor gets a new state holding a fresh stream on
    `<csvDir>/<now>_<ADDRESS>_<sensor>.csv` that has received the header, one
    subscription to that sensor whose handler writes through that state, and
    the device's session when there is one; every other name only logs a
    warning. `onBoard` stands for `SensorConfig[s].exists(board)`.
   */
  method ConfigureDevice(names: seq<string>, onBoard: string -> bool, csvDir: string, now: string,
                         address: string, session: Option<SessionId>, utcOffset: string)
    returns (states: seq<CaptureState>, sensors: seq<string>, handlers: seq<Handler>, warnings: seq<string>)
    ensures sensors == SelectSensors(names, onBoard)
    ensures warnings == SkipWarnings(names, onBoard)
    ensures |states| == |sensors| == |handlers|
    ensures forall i :: 0 <= i < |states| ==> fresh(states[i])
    ensures forall i, j :: 0 <= i < j < |states| ==> states[i] != states[j]
    ensures forall i :: 0 <= i < |states| ==>
              Prepared(states[i], sensors[i], csvDir, now, address, session, utcOffset)
              && handlers[i] == Handler(sensors[i], states[i])
  {
    states, sensors, handlers, warnings := [], [], [], [];
    var k := 0;
    while k < |names|
      invariant 0 <= k <= |names|
      invariant sensors + SelectSensors(names[k..], onBoard) == SelectSensors(names, onBoard)
      invariant warnings + SkipWarnings(names[k..], onBoard) == SkipWarnings(names, onBoard)
      invariant |states| == |sensors| == |handlers|
      invariant forall i, j :: 0 <= i < j < |states| ==> states[i] != states[j]
      invariant forall i :: 0 <= i < |states| ==>
                  fresh(states[i]) && Prepared(states[i], sensors[i], csvDir, now, address, session, utcOffset)
                  && handlers[i] == Handler(sensors[i], states[i])
    {
      var s := names[k];
      SelectionStep(names, k, onBoard);
      var w := SkipWarning(s, onBoard);
      if w.Some? {
        AppendOne(warnings, w.value, SkipWarnings(names[k + 1..], onBoard));
        warnings := warnings + [w.value];
      } else {
        AppendOne(sensors, s, SelectSensors(names[k + 1..], onBoard));
        var newState := NewStreamState(s, csvDir, now, address, session, utcOffset);
        states := states + [newState];
        sensors := sensors + [s];
        handlers := handlers + [Handler(s, newState)];
      }
      k := k + 1;
    }
  }
}
