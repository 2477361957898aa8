/**
 * The backend's request handlers (handlers.go): required-parameter checks, the
 * dynamic-type to number conversion, the event-time fallback, and the split of
 * pivoted query records into four series and a GPS track. The query text and
 * the database are outside the model: a handler either issues its query, whose
 * outcome is a parameter, or replies without one.
 */
module Telemetry {

  import opened Wrappers

  /** A dynamically typed column value of a query record (a Go `interface{}`). */
  datatype Value =
    | Float64(f: real)
    | Int64(i: int)
    | Int32(i: int)
    | Int(i: int)
    | UInt64(u: nat)
    | Str(s: string)
    | Bool(b: bool)
    | Nil

  /** `toFloat64` (handlers.go:145-158): the number and whether the type was accepted. */
  function ToFloat64(v: Value): (r: (real, bool))
    ensures r.1 <==> v.Float64? || v.Int64? || v.Int32? || v.Int?
    ensures v.Float64? ==> r.0 == v.f
    ensures v.Int64? || v.Int32? || v.Int? ==> r.0 == v.i as real
    ensures !r.1 ==> r.0 == 0.0
  {
    match v
    case Float64(f) => (f, true)
    case Int64(i) => (i as real, true)
    case Int32(i) => (i as real, true)
    case Int(i) => (i as real, true)
    case _ => (0.0, false)
  }

  /** Go's map index: a missing key reads as `nil`. */
  function Lookup(values: map<string, Value>, key: string): Value
  {
    if key in values then values[key] else Nil
  }

  const SpeedField := "speed"
  const Level1Field := "fls485_level_1"
  const Level2Field := "fls485_level_2"
  const VoltageField := "main_power_voltage"
  const LatitudeField := "latitude"
  const LongitudeField := "longitude"
  const EventTimeField := "event_time"

  const NanosPerSecond: int := 1_000_000_000

  /** One pivoted row: its `_time` in Unix nanoseconds and its columns by name. */
  datatype Record = Record(time: int, values: map<string, Value>)

  /** `Time.Unix()`: whole seconds, rounded down (Dafny's `/` rounds down for a positive divisor). */
  function UnixSeconds(nanos: int): (s: int)
    ensures s * NanosPerSecond <= nanos < (s + 1) * NanosPerSecond
  {
    nanos / NanosPerSecond
  }

  lemma UnixSecondsMonotone(a: int, b: int)
    requires a <= b
    ensures UnixSeconds(a) <= UnixSeconds(b)
  {
  }

  /**
   * `getEventTime` (handlers.go:160-173). `parse` stands for `time.Parse` with
   * the RFC 3339 layout (section 5.6 of RFC 3339) followed by `Unix()`: the
   * instant's Unix seconds, or nothing when the text does not parse.
   */
  function GetEventTime(values: map<string, Value>, recordTime: int, parse: string -> Option<int>): (t: int)
    ensures EventTimeField in values && values[EventTimeField].Int64? ==> t == values[EventTimeField].i
    ensures EventTimeField in values && values[EventTimeField].Str? && parse(values[EventTimeField].s).Some? ==>
      t == parse(values[EventTimeField].s).value
    ensures EventTimeField !in values ==> t == UnixSeconds(recordTime)
    ensures EventTimeField in values && !values[EventTimeField].Int64? && !values[EventTimeField].Str? ==>
      t == UnixSeconds(recordTime)
    ensures EventTimeField in values && values[EventTimeField].Str? && parse(values[EventTimeField].s).None? ==>
      t == UnixSeconds(recordTime)
  {
    if EventTimeField in values then
      match values[EventTimeField]
      case Int64(v) => v
      case Str(v) =>
        (match parse(v)
         case Some(t) => t
         case None => UnixSeconds(recordTime))
      case _ => UnixSeconds(recordTime)
    else UnixSeconds(recordTime)
  }

  /** A series sample; `time` is the whole second the RFC 3339 text of `_time` names. */
  datatype SeriesPoint = SeriesPoint(time: int, value: real)

  /** A GPS fix with the row's time and its event time, both in Unix seconds. */
  datatype TrackPoint = TrackPoint(time: int, lat: real, lon: real, eventTime: int)

  /** The record's column `field` converts to a number. */
  predicate HasNumber(rec: Record, field: string)
  {
    ToFloat64(Lookup(rec.values, field)).1
  }

  /** The point a record contributes to the series of `field`. */
  function PointOf(rec: Record, field: string): SeriesPoint
  {
    SeriesPoint(UnixSeconds(rec.time), ToFloat64(Lookup(rec.values, field)).0)
  }

  /** The series of `field` over the records, one point per record whose column converts. */
  function SeriesOf(rs: seq<Record>, field: string): (r: seq<SeriesPoint>)
    ensures |r| <= |rs|
  {
    if |rs| == 0 then []
    else
      var prefix := rs[..|rs| - 1];
      var last := rs[|rs| - 1];
      var prev := SeriesOf(prefix, field);
      prev + (if HasNumber(last, field) then [PointOf(last, field)] else [])
  }

  /** The series of a concatenation is the concatenation of the series: record order is kept. */
  lemma {:induction false} SeriesDistributes(a: seq<Record>, b: seq<Record>, field: string)
    ensures SeriesOf(a + b, field) == SeriesOf(a, field) + SeriesOf(b, field)
    decreases |b|
  {
    if |b| == 0 {
      assert a + b == a;
    } else {
      var b' := b[..|b| - 1];
      assert (a + b)[..|a + b| - 1] == a + b';
      SeriesDistributes(a, b', field);
    }
  }

  /** A single record contributes exactly one point when its column converts and none otherwise. */
  lemma SeriesOfOne(rec: Record, field: string)
    ensures SeriesOf([rec], field) == if HasNumber(rec, field) then [PointOf(rec, field)] else []
  {
    assert [rec][..0] == [];
  }

  /** When every record's field converts to a number, the series has one point per record, in record order. */
  lemma {:induction false} SeriesOneToOne(rs: seq<Record>, field: string)
    requires forall i :: 0 <= i < |rs| ==> HasNumber(rs[i], field)
    ensures |SeriesOf(rs, field)| == |rs|
    ensures forall i :: 0 <= i < |rs| ==> SeriesOf(rs, field)[i] == PointOf(rs[i], field)
    decreases |rs|
  {
    if |rs| > 0 {
      var prefix, last := rs[..|rs| - 1], rs[|rs| - 1];
      SeriesOneToOne(prefix, field);
      var prev := SeriesOf(prefix, field);
      AppendConverting(prefix, last, field);
      assert rs == prefix + [last];
      assert forall i :: 0 <= i < |prefix| ==> prev[i] == PointOf(rs[i], field);
    }
  }

  /** Appending a record whose column converts appends its point. */
  lemma AppendConverting(prefix: seq<Record>, last: Record, field: string)
    requires HasNumber(last, field)
    ensures SeriesOf(prefix + [last], field) == SeriesOf(prefix, field) + [PointOf(last, field)]
  {
    assert (prefix + [last])[..|prefix|] == prefix;
  }

  /** Every point of a series comes from some record whose column converts. */
  lemma {:induction false} SeriesProvenance(rs: seq<Record>, field: string, j: nat)
    requires j < |SeriesOf(rs, field)|
    ensures exists i :: 0 <= i < |rs| && HasNumber(rs[i], field) && SeriesOf(rs, field)[j] == PointOf(rs[i], field)
    decreases |rs|
  {
    var prefix, last := rs[..|rs| - 1], rs[|rs| - 1];
    var prev := SeriesOf(prefix, field);
    if j < |prev| {
      SeriesProvenance(prefix, field, j);
      var i :| 0 <= i < |prefix| && HasNumber(prefix[i], field) && prev[j] == PointOf(prefix[i], field);
      assert rs[i] == prefix[i];
    } else {
      assert HasNumber(last, field) && SeriesOf(rs, field)[j] == PointOf(last, field);
    }
  }

  /** Record times in non-decreasing order. */
  predicate TimeOrdered(rs: seq<Record>)
  {
    forall i, j :: 0 <= i <= j < |rs| ==> rs[i].time <= rs[j].time
  }

  /** Rows sorted by `_time` give every series in time order. */
  lemma {:induction false} SeriesInTimeOrder(rs: seq<Record>, field: string)
    requires TimeOrdered(rs)
    ensures forall i, j :: 0 <= i <= j < |SeriesOf(rs, field)| ==>
      SeriesOf(rs, field)[i].time <= SeriesOf(rs, field)[j].time
    decreases |rs|
  {
    if |rs| > 0 {
      var prefix := rs[..|rs| - 1];
      var last := rs[|rs| - 1];
      SeriesInTimeOrder(prefix, field);
      var prev := SeriesOf(prefix, field);
      forall j | 0 <= j < |prev|
        ensures prev[j].time <= UnixSeconds(last.time)
      {
        SeriesProvenance(prefix, field, j);
        var i :| 0 <= i < |prefix| && HasNumber(prefix[i], field) && prev[j] == PointOf(prefix[i], field);
        UnixSecondsMonotone(prefix[i].time, last.time);
      }
    }
  }

  /** The fix a record contributes when both coordinates convert. */
  function TrackPointOf(rec: Record, parse: string -> Option<int>): TrackPoint
  {
    TrackPoint(UnixSeconds(rec.time), ToFloat64(Lookup(rec.values, LatitudeField)).0,
               ToFloat64(Lookup(rec.values, LongitudeField)).0, GetEventTime(rec.values, rec.time, parse))
  }

  predicate HasPosition(rec: Record)
  {
    HasNumber(rec, LatitudeField) && HasNumber(rec, LongitudeField)
  }

  /** The GPS track: one fix per record whose latitude and longitude both convert. */
  function TrackOf(rs: seq<Record>, parse: string -> Option<int>): (r: seq<TrackPoint>)
    ensures |r| <= |rs|
  {
    if |rs| == 0 then []
    else
      var prefix := rs[..|rs| - 1];
      var last := rs[|rs| - 1];
      var prev := TrackOf(prefix, parse);
      prev + (if HasPosition(last) then [TrackPointOf(last, parse)] else [])
  }

  /** Every fix of the track comes from some record whose coordinates both convert. */
  lemma {:induction false} TrackProvenance(rs: seq<Record>, parse: string -> Option<int>, j: nat)
    requires j < |TrackOf(rs, parse)|
    ensures exists i :: 0 <= i < |rs| && HasPosition(rs[i]) && TrackOf(rs, parse)[j] == TrackPointOf(rs[i], parse)
    decreases |rs|
  {
    var prefix, last := rs[..|rs| - 1], rs[|rs| - 1];
    var prev := TrackOf(prefix, parse);
    if j < |prev| {
      TrackProvenance(prefix, parse, j);
      var i :| 0 <= i < |prefix| && HasPosition(prefix[i]) && prev[j] == TrackPointOf(prefix[i], parse);
      assert rs[i] == prefix[i];
    } else {
      assert HasPosition(last) && TrackOf(rs, parse)[j] == TrackPointOf(last, parse);
    }
  }

  /** The track of a concatenation is the concatenation of the tracks: record order is kept. */
  lemma {:induction false} TrackDistributes(a: seq<Record>, b: seq<Record>, parse: string -> Option<int>)
    ensures TrackOf(a + b, parse) == TrackOf(a, parse) + TrackOf(b, parse)
    decreases |b|
  {
    if |b| == 0 {
      assert a + b == a;
    } else {
      var b' := b[..|b| - 1];
      assert (a + b)[..|a + b| - 1] == a + b';
      TrackDistributes(a, b', parse);
    }
  }

  /** A record yields a fix exactly when both coordinates convert; one without either adds nothing. */
  lemma TrackOfOne(rec: Record, parse: string -> Option<int>)
    ensures TrackOf([rec], parse) == if HasPosition(rec) then [TrackPointOf(rec, parse)] else []
  {
    assert [rec][..0] == [];
  }

  /** The four series of the telemetry response. */
  datatype Series = Series(
    speed: seq<SeriesPoint>,
    fls485Level1: seq<SeriesPoint>,
    fls485Level2: seq<SeriesPoint>,
    mainPowerVoltage: seq<SeriesPoint>)

  /** The record loop of `GetTelemetryHandler` (handlers.go:100-133). */
  method SplitRecords(records: seq<Record>, parse: string -> Option<int>) returns (series: Series, track: seq<TrackPoint>)
    ensures series.speed == SeriesOf(records, SpeedField)
    ensures series.fls485Level1 == SeriesOf(records, Level1Field)
    ensures series.fls485Level2 == SeriesOf(records, Level2Field)
    ensures series.mainPowerVoltage == SeriesOf(records, VoltageField)
    ensures track == TrackOf(records, parse)
  {
    var speed, level1, level2, voltage := [], [], [], [];
    track := [];
    var i := 0;
    while i < |records|
      invariant 0 <= i <= |records|
      invariant speed == SeriesOf(records[..i], SpeedField)
      invariant level1 == SeriesOf(records[..i], Level1Field)
      invariant level2 == SeriesOf(records[..i], Level2Field)
      invariant voltage == SeriesOf(records[..i], VoltageField)
      invariant track == TrackOf(records[..i], parse)
    {
      var record := records[i];
      var values := record.values;
      var time := UnixSeconds(record.time);
      assert records[..i + 1][..i] == records[..i];
      var (speedValue, speedOk) := ToFloat64(Lookup(values, SpeedField));
      if speedOk {
        speed := speed + [SeriesPoint(time, speedValue)];
      }
      var (level1Value, level1Ok) := ToFloat64(Lookup(values, Level1Field));
      if level1Ok {
        level1 := level1 + [SeriesPoint(time, level1Value)];
      }
      var (level2Value, level2Ok) := ToFloat64(Lookup(values, Level2Field));
      if level2Ok {
        level2 := level2 + [SeriesPoint(time, level2Value)];
      }
      var (voltageValue, voltageOk) := ToFloat64(Lookup(values, VoltageField));
      if voltageOk {
        voltage := voltage + [SeriesPoint(time, voltageValue)];
      }
      var (lat, latOk) := ToFloat64(Lookup(values, LatitudeField));
      var (lon, lonOk) := ToFloat64(Lookup(values, LongitudeField));
      if latOk && lonOk {
        var eventTime := GetEventTime(values, record.time, parse);
        track := track + [TrackPoint(time, lat, lon, eventTime)];
      }
      i := i + 1;
    }
    assert records[..|records|] == records;
    series := Series(speed, level1, level2, voltage);
  }

  const StatusOK: int := 200
  const StatusBadRequest: int := 400
  const StatusInternalServerError: int := 500

  /** What the database answered: an error, or the result rows. */
  datatype QueryOutcome<R> = QueryFailed(message: string) | Rows(rows: seq<R>)

  /** The JSON body of a reply. */
  datatype Body =
    | ErrorBody(error: string)
    | FieldsBody(fields: seq<string>)
    | TelemetryBody(series: Series, track: seq<TrackPoint>)

  datatype Reply = Reply(status: int, body: Body)

  /** Whether the handler sent its query to the database, and what it replied. */
  datatype Handled = Handled(queried: bool, reply: Reply)

  /** gin's `c.Query`: the empty string for a missing parameter. */
  function QueryParam(params: map<string, string>, key: string): string
  {
    if key in params then params[key] else ""
  }

  /** The string values of a column, in row order; other types are skipped. */
  function Strings(vs: seq<Value>): (r: seq<string>)
    ensures |r| <= |vs|
    ensures forall s :: s in r <==> Str(s) in vs
  {
    if |vs| == 0 then []
    else
      var prefix := vs[..|vs| - 1];
      var last := vs[|vs| - 1];
      assert vs == prefix + [last];
      Strings(prefix) + (match last case Str(s) => [s] case _ => [])
  }

  /** The string values of concatenated rows are those of each part, in order. */
  lemma {:induction false} StringsDistributes(a: seq<Value>, b: seq<Value>)
    ensures Strings(a + b) == Strings(a) + Strings(b)
    decreases |b|
  {
    if |b| == 0 {
      assert a + b == a;
    } else {
      var b' := b[..|b| - 1];
      assert (a + b)[..|a + b| - 1] == a + b';
      assert (a + b)[|a + b| - 1] == b[|b| - 1];
      StringsDistributes(a, b');
    }
  }

  /** `GetFieldsHandler` (handlers.go:35-62): the distinct field names of one device. */
  function GetFields(params: map<string, string>, outcome: QueryOutcome<Value>): (h: Handled)
    ensures !h.queried <==> QueryParam(params, "imei") == ""
    ensures !h.queried ==> h.reply == Reply(StatusBadRequest, ErrorBody("imei required"))
    ensures h.queried && outcome.QueryFailed? ==> h.reply == Reply(StatusInternalServerError, ErrorBody(outcome.message))
    ensures h.queried && outcome.Rows? ==> h.reply == Reply(StatusOK, FieldsBody(Strings(outcome.rows)))
  {
    var imei := QueryParam(params, "imei");
    if imei == "" then Handled(false, Reply(StatusBadRequest, ErrorBody("imei required")))
    else
      match outcome
      case QueryFailed(err) => Handled(true, Reply(StatusInternalServerError, ErrorBody(err)))
      case Rows(rows) => Handled(true, Reply(StatusOK, FieldsBody(Strings(rows))))
  }

  /** `GetTelemetryHandler` (handlers.go:63-143): validate, query, split the rows. */
  method GetTelemetry(params: map<string, string>, outcome: QueryOutcome<Record>, parse: string -> Option<int>)
    returns (h: Handled)
    ensures !h.queried <==>
      QueryParam(params, "imei") == "" || QueryParam(params, "start") == "" || QueryParam(params, "end") == ""
    ensures !h.queried ==>
      h.reply == Reply(StatusBadRequest, ErrorBody("imei, start and end parameters are required"))
    ensures h.queried && outcome.QueryFailed? ==>
      h.reply == Reply(StatusInternalServerError, ErrorBody(outcome.message))
    ensures h.queried && outcome.Rows? ==>
      && h.reply.status == StatusOK
      && h.reply.body == TelemetryBody(
           Series(SeriesOf(outcome.rows, SpeedField), SeriesOf(outcome.rows, Level1Field),
                  SeriesOf(outcome.rows, Level2Field), SeriesOf(outcome.rows, VoltageField)),
           TrackOf(outcome.rows, parse))
  {
    var imei := QueryParam(params, "imei");
    var start := QueryParam(params, "start");
    var end := QueryParam(params, "end");
    if imei == "" || start == "" || end == "" {
      return Handled(false, Reply(StatusBadRequest, ErrorBody("imei, start and end parameters are required")));
    }
    match outcome {
      case QueryFailed(err) =>
        return Handled(true, Reply(StatusInternalServerError, ErrorBody(err)));
      case Rows(rows) =>
        var series, track := SplitRecords(rows, parse);
        return Handled(true, Reply(StatusOK, TelemetryBody(series, track)));
    }
  }
}
