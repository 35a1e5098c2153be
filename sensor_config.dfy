/**
  lib/sensor-config.js: the sensor table, the CSV header every sink starts
  with, the Accelerometer row format, and the capture state whose `first`
  field is latched by the first sample that is written.

  `moment` is not modelled: the header's UTC offset is a string parameter and
  the local-time column comes from a `formatTime` function parameter. Axis
  values are taken already rounded to thousandths of g; `toFixed` on elapsed
  time is exact because the epoch difference is a whole number of
  milliseconds.
 */
module SensorConfig {
  import opened Wrappers
  import opened Text

  /** `os.EOL` on the POSIX hosts the tool runs on. */
  const EOL: string := "\n"

  /** A write stream as the model sees it: the file it was opened on, the strings written to it in order, and whether `end()` was called. */
  datatype Stream = Stream(path: string, lines: seq<string>, ended: bool)

  /** Cloud sessions are opaque; a session is known by an identifier. */
  type SessionId = nat

  /** A decoded accelerometer sample: its epoch in ms and the three axes in thousandths of g. */
  datatype Sample = Sample(epoch: int, x: int, y: int, z: int)

  /** The part of a `Setting` the model uses: the sensor-specific header columns. */
  datatype Setting = Setting(header: string)

  const EpochColumn: string := "epoch (ms)"
  const ElapsedColumn: string := "elapsed (s)"
  function TimeColumn(utcOffset: string): string { "time (" + utcOffset + ")" }

  const XColumn: string := "x-axis (g)"
  const YColumn: string := "y-axis (g)"
  const ZColumn: string := "z-axis (g)"

  /** The Accelerometer's header: "x-axis (g),y-axis (g),z-axis (g)". */
  const AccelerometerHeader: string := XColumn + "," + YColumn + "," + ZColumn

  /** `SensorConfig[sensor]`: the module exports exactly one sensor. */
  function Lookup(sensor: string): (setting: Option<Setting>)
    ensures setting.Some? <==> sensor == "Accelerometer"
  {
    if sensor == "Accelerometer" then Some(Setting(AccelerometerHeader)) else None
  }

  /** What `csvHeader` writes: `CSV_HEADER_ROOT` with the UTC offset filled in, then the sensor columns and EOL. */
  function CsvHeader(setting: Setting, utcOffset: string): string {
    EpochColumn + "," + TimeColumn(utcOffset) + "," + ElapsedColumn + "," + setting.header + EOL
  }

  function Abs(n: int): nat {
    if n < 0 then -n else n
  }

  /** `(v / 1000).toFixed(3)` for a whole number `v` of thousandths. */
  function Thousandths(v: int): string {
    ToFixed(v < 0, Abs(v), 3)
  }

  /** What `formatElapsed` returns once `first` is known: `((epoch - first) / 1000.0).toFixed(3)`. */
  function Elapsed(epoch: int, first: int): string {
    Thousandths(epoch - first)
  }

  /** The Accelerometer `writeValue` row: seven `%s`-style slots, the last one being EOL, so the row ends with ",\n". */
  function AccelerometerRow(sample: Sample, time: string, elapsed: string): string {
    IntToString(sample.epoch) + "," + time + "," + elapsed + ","
      + Thousandths(sample.x) + "," + Thousandths(sample.y) + "," + Thousandths(sample.z) + "," + EOL
  }

  // ---------------------------------------------------------------------------
  // What the formatted text means

  /** The first sample of a state is at elapsed "0.000". */
  lemma ElapsedAtOrigin(epoch: int)
    ensures Elapsed(epoch, epoch) == "0.000"
  {
    FixedZero(3);
    assert Zeros(3) == "000";
  }

  /**
    Elapsed time is the millisecond difference written as seconds with exactly
    three decimals: a minus sign exactly when the sample is earlier than the
    first one, the whole seconds, a point, and the milliseconds.
   */
  lemma ElapsedMeaning(epoch: int, first: int)
    ensures var ms := Abs(epoch - first);
            Elapsed(epoch, first) == Sign(epoch < first) + NatToString(ms / 1000) + "." + Padded(ms % 1000, 3)
    ensures AllDigits(NatToString(Abs(epoch - first) / 1000))
    ensures DigitsValue(NatToString(Abs(epoch - first) / 1000)) == Abs(epoch - first) / 1000
    ensures AllDigits(Padded(Abs(epoch - first) % 1000, 3)) && |Padded(Abs(epoch - first) % 1000, 3)| == 3
    ensures DigitsValue(Padded(Abs(epoch - first) % 1000, 3)) == Abs(epoch - first) % 1000
  {
    var ms := Abs(epoch - first);
    assert Pow10(3) == 1000;
    FixedParts(epoch < first, ms, 3, 1000, ms / 1000, ms % 1000);
    QuotientDigits(ms, 1000);
    PaddedDigits(ms % 1000, 3);
  }

  /** The elapsed text starts with '-' exactly when the sample's epoch is before the first sample's. */
  lemma ElapsedNegativeIff(epoch: int, first: int)
    ensures |Elapsed(epoch, first)| > 0
    ensures Elapsed(epoch, first)[0] == '-' <==> epoch < first
  {
    var ms := Abs(epoch - first);
    assert Pow10(3) == 1000;
    FixedParts(epoch < first, ms, 3, 1000, ms / 1000, ms % 1000);
    NatToStringDigits(ms / 1000);
  }

  /** The header names six columns: epoch, local time with its UTC offset, elapsed, and the three axes. */
  lemma HeaderColumns(utcOffset: string)
    requires ',' !in utcOffset
    ensures var h := CsvHeader(Setting(AccelerometerHeader), utcOffset);
            && h == h[..|h| - 1] + EOL
            && Split(h[..|h| - 1], ',')
               == [EpochColumn, TimeColumn(utcOffset), ElapsedColumn, XColumn, YColumn, ZColumn]
  {
    var cols := [EpochColumn, TimeColumn(utcOffset), ElapsedColumn, XColumn, YColumn, ZColumn];
    var h := CsvHeader(Setting(AccelerometerHeader), utcOffset);
    HeaderIsJoin(utcOffset);
    assert h[..|h| - 1] == JoinWith(cols, ',');
    ColumnsHaveNoComma(utcOffset);
    SplitJoin(cols, ',');
  }

  lemma HeaderIsJoin(utcOffset: string)
    ensures CsvHeader(Setting(AccelerometerHeader), utcOffset)
         == JoinWith([EpochColumn, TimeColumn(utcOffset), ElapsedColumn, XColumn, YColumn, ZColumn], ',') + EOL
  {
    var t := TimeColumn(utcOffset);
    JoinWithSix(EpochColumn, t, ElapsedColumn, XColumn, YColumn, ZColumn, ',');
    assert CsvHeader(Setting(AccelerometerHeader), utcOffset)
        == EpochColumn + "," + t + "," + ElapsedColumn + "," + XColumn + "," + YColumn + "," + ZColumn + EOL;
  }

  lemma ColumnsHaveNoComma(utcOffset: string)
    requires ',' !in utcOffset
    ensures var cols := [EpochColumn, TimeColumn(utcOffset), ElapsedColumn, XColumn, YColumn, ZColumn];
            forall i :: 0 <= i < |cols| ==> ',' !in cols[i]
  {
    assert ',' !in EpochColumn && ',' !in ElapsedColumn;
    assert ',' !in XColumn && ',' !in YColumn && ',' !in ZColumn;
    assert ',' !in "time (" && ',' !in ")";
  }

  /**
    A row splits into epoch, time, elapsed and the three axes, and then one
    empty field: the trailing comma gives every row one more field than the
    header has columns.
   */
  lemma RowFields(sample: Sample, time: string, elapsed: string)
    requires ',' !in time && ',' !in elapsed
    ensures var r := AccelerometerRow(sample, time, elapsed);
            && r == r[..|r| - 1] + EOL
            && Split(r[..|r| - 1], ',')
               == [IntToString(sample.epoch), time, elapsed,
                   Thousandths(sample.x), Thousandths(sample.y), Thousandths(sample.z), ""]
  {
    var e, x, y, z := IntToString(sample.epoch), Thousandths(sample.x), Thousandths(sample.y), Thousandths(sample.z);
    var fields := [e, time, elapsed, x, y, z, ""];
    var r := AccelerometerRow(sample, time, elapsed);
    var text := e + "," + time + "," + elapsed + "," + x + "," + y + "," + z + ",";
    assert r == text + EOL;
    assert r[..|r| - 1] == text;
    IntToStringHasNoComma(sample.epoch);
    FixedHasNoComma(sample.x < 0, Abs(sample.x), 3);
    FixedHasNoComma(sample.y < 0, Abs(sample.y), 3);
    FixedHasNoComma(sample.z < 0, Abs(sample.z), 3);
    JoinWithSixThenEmpty(e, time, elapsed, x, y, z, ',');
    SplitJoin(fields, ',');
  }

  // ---------------------------------------------------------------------------
  // The capture state

  /**
    The `state` dictionary a sink's subscription writes through. Each field is
    one key the core reads or writes; `None` is an absent key.
   */
  class CaptureState {
    var csv: Option<Stream>             // 'csv': set by createState
    var stream: Option<Stream>          // 'stream': set by app.js, the key writeValue writes to
    var first: Option<int>              // 'first': epoch of the first sample written
    var metacloud: Option<SessionId>    // 'metacloud': set by createState
    var session: Option<SessionId>      // 'session': set by app.js
    var path: Option<string>            // 'path': read at finalize, set by no code

    /** `{}` */
    constructor ()
      ensures csv == None && stream == None && first == None
      ensures metacloud == None && session == None && path == None
    {
      csv, stream, first := None, None, None;
      metacloud, session, path := None, None, None;
    }

    /** `formatElapsed(epoch, state)`: latches `first` on the first call only. */
    method FormatElapsed(epoch: int) returns (elapsed: string)
      modifies this`first
      ensures first == if old(first).None? then Some(epoch) else old(first)
      ensures elapsed == Elapsed(epoch, first.value)
    {
      if first.None? {
        first := Some(epoch);
      }
      elapsed := Elapsed(epoch, first.value);
    }

    /**
      The Accelerometer `writeValue(data, state)`. `state['stream'].write` is
      looked up before its arguments are evaluated, so a state without a
      'stream' key raises a TypeError before `formatElapsed` runs: nothing is
      written and `first` stays as it was.
     */
    method WriteValue(sample: Sample, formatTime: int -> string) returns (ok: bool)
      modifies this
      ensures ok <==> old(stream).Some?
      ensures !ok ==> unchanged(this)
      ensures ok ==> first == if old(first).None? then Some(sample.epoch) else old(first)
      ensures ok ==> stream == Some(old(stream).value.(lines := old(stream).value.lines
                                 + [AccelerometerRow(sample, formatTime(sample.epoch), Elapsed(sample.epoch, first.value))]))
      ensures csv == old(csv) && metacloud == old(metacloud) && session == old(session) && path == old(path)
    {
      if stream.None? {
        return false;
      }
      var time := formatTime(sample.epoch);
      var elapsed := FormatElapsed(sample.epoch);
      var row := AccelerometerRow(sample, time, elapsed);
      stream := Some(stream.value.(lines := stream.value.lines + [row]));
      ok := true;
    }
  }
}
