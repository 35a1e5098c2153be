/**
  lib/data-capture.js `createState`: the capture state of one logged signal.
  With CSV output it opens `<root>/<now>_<ADDRESS>_<sensor>.csv` and writes
  the sensor's header; it copies the cloud session; it registers exactly one
  handler that passes every sample to the sensor's `writeValue` together with
  the same state object.

  `prepareMetaCloud` (a call into the MetaCloud client) is not modelled: a
  session is an opaque `SessionId`.
 */
module DataCapture {
  import opened Wrappers
  import opened Text
  import opened SensorConfig

  /** `options['csv']`: the output directory (`undefined` when the caller has none), the time stamp and the device address. */
  datatype CsvOptions = CsvOptions(root: Option<string>, now: string, address: string)

  /** `options`: each key may be absent. */
  datatype Options = Options(csv: Option<CsvOptions>, metacloud: Option<SessionId>)

  /** The callback handed to `capture`: it looks up `SensorConfig[sensor]` when a sample arrives and writes through `state`. */
  datatype Handler = Handler(sensor: string, state: CaptureState)

  /** `csv['address'].toUpperCase().replace(/:/g, "")` */
  function CompactAddress(address: string): string {
    RemoveAll(Upper(address), ':')
  }

  /** `util.format("%s_%s_%s.csv", now, ADDRESS, sensor)` */
  function FileName(now: string, address: string, sensor: string): string {
    now + "_" + CompactAddress(address) + "_" + sensor + ".csv"
  }

  /** The separator `path.join` puts between a directory and a file name: none after an empty directory or a trailing '/'. */
  function Separator(root: string): string {
    if root == [] || root[|root| - 1] == '/' then "" else "/"
  }

  /** `path.join(root, name)` for a plain file name. */
  function PathJoin(root: string, name: string): string {
    root + Separator(root) + name
  }

  function CsvPath(root: string, now: string, address: string, sensor: string): string {
    PathJoin(root, FileName(now, address, sensor))
  }

  /** The address part of a file name has no colon and no lower-case letter. */
  lemma CompactAddressShape(address: string)
    ensures ':' !in CompactAddress(address)
    ensures forall i :: 0 <= i < |CompactAddress(address)| ==> !('a' <= CompactAddress(address)[i] <= 'z')
    ensures |CompactAddress(address)| == |address| - Count(Upper(address), ':')
  {
    var u := Upper(address);
    assert forall i :: 0 <= i < |u| ==> !('a' <= u[i] <= 'z');
    NoLowerAfterRemove(u);
  }

  lemma {:induction false} NoLowerAfterRemove(s: string)
    requires forall i :: 0 <= i < |s| ==> !('a' <= s[i] <= 'z')
    ensures forall i :: 0 <= i < |RemoveAll(s, ':')| ==> !('a' <= RemoveAll(s, ':')[i] <= 'z')
  {
    if s != [] {
      NoLowerAfterRemove(s[1..]);
    }
  }

  /**
    What is kept, and in what order: the compact address of two pieces is
    the two compact addresses one after the other, a single colon vanishes
    and any other character is upper-cased.
   */
  lemma CompactAddressPieces(a: string, b: string, x: char)
    ensures CompactAddress(a + b) == CompactAddress(a) + CompactAddress(b)
    ensures CompactAddress([x]) == if x == ':' then [] else [UpperChar(x)]
  {
    UpperConcat(a, b);
    RemoveAllConcat(Upper(a), Upper(b), ':');
    assert Upper([x]) == [UpperChar(x)];
  }

  /** An address without colons only has its letters upper-cased. */
  lemma CompactAddressWithoutColons(address: string)
    requires ':' !in address
    ensures CompactAddress(address) == Upper(address)
  {
    UpperKeepsAbsent(address, ':');
    RemoveAllAbsent(Upper(address), ':');
  }

  /** Case and colons in the address do not matter: two spellings of one address name the same file. */
  lemma CompactAddressIgnoresCase(address: string)
    ensures CompactAddress(Lower(address)) == CompactAddress(address)
    ensures CompactAddress(Upper(address)) == CompactAddress(address)
  {
    UpperForgetsCase(address);
  }

  /**
    When none of its three parts contains '_', a file name splits on '_'
    back into the time stamp, the compact address and `<sensor>.csv`.
   */
  lemma FileNameFields(now: string, address: string, sensor: string)
    requires '_' !in now && '_' !in address && '_' !in sensor
    ensures Split(FileName(now, address, sensor), '_') == [now, CompactAddress(address), sensor + ".csv"]
  {
    var a := CompactAddress(address);
    UpperKeepsAbsent(address, '_');
    RemoveAllKeepsAbsent(Upper(address), ':', '_');
    var tail := sensor + ".csv";
    assert '_' !in tail;
    assert FileName(now, address, sensor) == now + ['_'] + (a + ['_'] + tail);
    SplitAtFirst(now, a + ['_'] + tail, '_');
    SplitAtFirst(a, tail, '_');
    SplitAbsent(tail, '_');
  }

  /**
    `createState(capture, sensor, options)`. Returns the new state, the file
    the call left open (with what it holds) and the handler it registered.
    Two paths throw, and then no handler is registered and the state is
    lost: `path.join` on an undefined root (before anything is opened), and
    `SensorConfig[sensor].csvHeader` for a sensor the table lacks (after the
    file is opened).
   */
  method CreateState(sensor: string, options: Options, utcOffset: string)
    returns (state: CaptureState, file: Option<Stream>, handler: Option<Handler>)
    ensures fresh(state)
    ensures file.Some? <==> options.csv.Some? && options.csv.value.root.Some?
    ensures file.Some? ==>
              var c := options.csv.value;
              file.value == Stream(CsvPath(c.root.value, c.now, c.address, sensor),
                                     if Lookup(sensor).Some? then [CsvHeader(Lookup(sensor).value, utcOffset)] else [],
                                     false)
    ensures handler.Some? <==> options.csv.None? || (file.Some? && Lookup(sensor).Some?)
    ensures handler.Some? ==> handler.value == Handler(sensor, state)
    ensures handler.Some? ==> state.csv == file && state.metacloud == options.metacloud
    ensures state.first == None && state.stream == None && state.session == None && state.path == None
  {
    state := new CaptureState();
    file, handler := None, None;
    if options.csv.Some? {
      var csv := options.csv.value;
      if csv.root.None? {
        return;
      }
      var stream := Stream(CsvPath(csv.root.value, csv.now, csv.address, sensor), [], false);
      var setting := Lookup(sensor);
      if setting.None? {
        file := Some(stream);
        return;
      }
      stream := stream.(lines := stream.lines + [CsvHeader(setting.value, utcOffset)]);
      file := Some(stream);
      state.csv := file;
    }
    if options.metacloud.Some? {
      state.metacloud := options.metacloud;
    }
    handler := Some(Handler(sensor, state));
  }

  /**
    The registered handler receiving one sample. `SensorConfig[sensor]` is
    looked up at delivery time, so a sensor the table lacks fails every
    delivery; otherwise the sample goes to that sensor's `writeValue` with the
    handler's own state.
   */
  method Deliver(handler: Handler, sample: Sample, formatTime: int -> string) returns (ok: bool)
    modifies handler.state
    ensures ok <==> Lookup(handler.sensor).Some? && old(handler.state.stream).Some?
    ensures !ok ==> unchanged(handler.state)
    ensures ok ==> handler.state.first == if old(handler.state.first).None? then Some(sample.epoch) else old(handler.state.first)
    ensures ok ==> handler.state.stream == Some(old(handler.state.stream).value.(lines := old(handler.state.stream).value.lines
                     + [AccelerometerRow(sample, formatTime(sample.epoch), Elapsed(sample.epoch, handler.state.first.value))]))
    ensures handler.state.csv == old(handler.state.csv)
    ensures handler.state.metacloud == old(handler.state.metacloud) && handler.state.session == old(handler.state.session)
    ensures handler.state.path == old(handler.state.path)
  {
    if Lookup(handler.sensor).None? {
      return false;
    }
    ok := handler.state.WriteValue(sample, formatTime);
  }
}
