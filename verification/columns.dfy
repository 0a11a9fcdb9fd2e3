/** Column bookkeeping of the data frames: dropping columns, assigning a
    column, the feature columns the prediction script hands to the model, and
    the column order of the dashboard's prediction table. */
module Columns {
  import opened Wrappers
  import opened Seqs

  /** A column name. The names the pipeline writes or reads are constructors;
      `Other` carries any name outside that vocabulary. */
  datatype ColumnName =
    | Time | UsAqi | Pm10 | Pm2_5 | Ozone | CarbonMonoxide | NitrogenDioxide | SulphurDioxide
    | Temperature2m | RelativeHumidity2m | WindSpeed10m | CloudCover | Precipitation
    | DayOfWeekCol | HourCol | MonthCol | CityCol | PredictedUsAqi | AqiLevel | ForecastTime
    | Other(name: string)
  {
    /** The name as it appears in the frames and CSV headers. */
    function Name(): string
    {
      match this
      case Time => "time"
      case UsAqi => "us_aqi"
      case Pm10 => "pm10"
      case Pm2_5 => "pm2_5"
      case Ozone => "ozone"
      case CarbonMonoxide => "carbon_monoxide"
      case NitrogenDioxide => "nitrogen_dioxide"
      case SulphurDioxide => "sulphur_dioxide"
      case Temperature2m => "temperature_2m"
      case RelativeHumidity2m => "relative_humidity_2m"
      case WindSpeed10m => "wind_speed_10m"
      case CloudCover => "cloud_cover"
      case Precipitation => "precipitation"
      case DayOfWeekCol => "dayofweek"
      case HourCol => "hour"
      case MonthCol => "month"
      case CityCol => "city"
      case PredictedUsAqi => "predicted_us_aqi"
      case AqiLevel => "AQI Level"
      case ForecastTime => "timestamp"
      case Other(n) => n
    }
  }

  /** Reads a header back: a name of the vocabulary gives its constructor,
      any other name `Other`. */
  function Parse(name: string): (c: ColumnName)
    ensures c.Name() == name
  {
    if name == "time" then Time
    else if name == "us_aqi" then UsAqi
    else if name == "pm10" then Pm10
    else if name == "pm2_5" then Pm2_5
    else if name == "ozone" then Ozone
    else if name == "carbon_monoxide" then CarbonMonoxide
    else if name == "nitrogen_dioxide" then NitrogenDioxide
    else if name == "sulphur_dioxide" then SulphurDioxide
    else if name == "temperature_2m" then Temperature2m
    else if name == "relative_humidity_2m" then RelativeHumidity2m
    else if name == "wind_speed_10m" then WindSpeed10m
    else if name == "cloud_cover" then CloudCover
    else if name == "precipitation" then Precipitation
    else if name == "dayofweek" then DayOfWeekCol
    else if name == "hour" then HourCol
    else if name == "month" then MonthCol
    else if name == "city" then CityCol
    else if name == "predicted_us_aqi" then PredictedUsAqi
    else if name == "AQI Level" then AqiLevel
    else if name == "timestamp" then ForecastTime
    else Other(name)
  }

  /** A column as pandas knows it, by its name alone: the one encoding its
      name reads back to, so a vocabulary name is never an `Other`. */
  type Column = c: ColumnName | c.Other? ==> Parse(c.name) == c witness Time

  /** Every vocabulary name reads back to its own constructor. */
  lemma ParseName(c: ColumnName)
    requires !c.Other?
    ensures Parse(c.Name()) == c
  {
    match c
    case Time =>
    case UsAqi =>
    case Pm10 =>
    case Pm2_5 =>
    case Ozone =>
    case CarbonMonoxide =>
    case NitrogenDioxide =>
    case SulphurDioxide =>
    case Temperature2m =>
    case RelativeHumidity2m =>
    case WindSpeed10m =>
    case CloudCover =>
    case Precipitation =>
    case DayOfWeekCol =>
    case HourCol =>
    case MonthCol =>
    case CityCol =>
    case PredictedUsAqi =>
    case AqiLevel =>
    case ForecastTime =>
  }

  /** The column a header names. */
  function ReadColumn(name: string): (c: Column)
    ensures c.Name() == name
  {
    Parse(name)
  }

  /** Two columns are the same column exactly when they have the same name. */
  lemma NameInjective(a: Column, b: Column)
    ensures a.Name() == b.Name() <==> a == b
  {
    if !a.Other? {
      ParseName(a);
    }
    if !b.Other? {
      ParseName(b);
    }
  }

  /** `df.drop(columns=...)` for names known to be present, and equally the
      selection that keeps every column not listed. */
  function DropColumns(cols: seq<Column>, drop: seq<Column>): (r: seq<Column>)
    ensures forall c :: c in r <==> c in cols && c !in drop
  {
    Filter(cols, (c: Column) => c !in drop)
  }

  /** `df[c] = ...`: an existing column keeps its place, a new one is appended. */
  function SetColumn(cols: seq<Column>, c: Column): (r: seq<Column>)
    ensures c in r
    ensures |cols| <= |r| && r[..|cols|] == cols
    ensures forall x :: x in r <==> x in cols || x == c
    ensures Distinct(cols) ==> Distinct(r)
  {
    if c in cols then cols else cols + [c]
  }

  /** The surviving columns keep their order and stay free of repetitions. */
  lemma DropColumnsOrder(cols: seq<Column>, drop: seq<Column>)
    ensures IsSubsequence(DropColumns(cols, drop), cols)
    ensures Distinct(cols) ==> Distinct(DropColumns(cols, drop))
  {
    FilterIsSubsequence(cols, (c: Column) => c !in drop);
    if Distinct(cols) {
      FilterDistinct(cols, (c: Column) => c !in drop);
    }
  }

  /** Dropping in two steps is dropping both lists at once. */
  lemma {:induction false} DropTwice(cols: seq<Column>, a: seq<Column>, b: seq<Column>)
    ensures DropColumns(DropColumns(cols, a), b) == DropColumns(cols, a + b)
  {
    if cols != [] {
      DropTwice(cols[1..], a, b);
    }
  }

  /** Dropping absent columns changes nothing. */
  lemma DropAbsent(cols: seq<Column>, drop: seq<Column>)
    requires forall i :: 0 <= i < |cols| ==> cols[i] !in drop
    ensures DropColumns(cols, drop) == cols
  {
    FilterAll(cols, (c: Column) => c !in drop);
  }

  const TimeColumn: Column := Time
  const TargetColumn: Column := UsAqi
  const CalendarColumns: seq<Column> := [DayOfWeekCol, HourCol, MonthCol]

  /** The pollutant series besides the target. */
  const PollutantColumns: seq<Column> :=
    [Pm10, Pm2_5, Ozone, CarbonMonoxide, NitrogenDioxide, SulphurDioxide]

  /** The weather variables. */
  const WeatherDataColumns: seq<Column> :=
    [Temperature2m, RelativeHumidity2m, WindSpeed10m, CloudCover, Precipitation]

  /** The air-quality request's `hourly` block: the time, the target and the
      other pollutant series. */
  const AirQualityColumns: seq<Column> := [Time, UsAqi] + PollutantColumns

  /** The weather request's `hourly` block. */
  const WeatherColumns: seq<Column> := [Time] + WeatherDataColumns

  /** Columns of an inner merge on `key`: the left frame's, then the right
      frame's other columns. */
  function MergeColumns(left: seq<Column>, right: seq<Column>, key: Column): (r: seq<Column>)
    ensures |left| <= |r| && r[..|left|] == left
    ensures forall c :: c in r <==> c in left || (c in right && c != key)
  {
    var r := left + DropColumns(right, [key]);
    assert r[..|left|] == left;
    r
  }

  /** The prediction script's frame after the merge: `time` becomes the
      index, the target is dropped when present, the calendar columns are
      assigned. The features are the other data columns and the calendar
      columns; neither the target nor the time is one. */
  function FeatureColumns(cols: seq<Column>): (r: seq<Column>)
    ensures forall c :: c in r <==> (c in cols && c != TimeColumn && c != TargetColumn) || c in CalendarColumns
    ensures TargetColumn !in r && TimeColumn !in r
  {
    var indexed := DropColumns(cols, [TimeColumn]);
    var features := if TargetColumn in indexed then DropColumns(indexed, [TargetColumn]) else indexed;
    AddCalendar(features)
  }

  /** The three assignments of the calendar columns, in the script's order:
      existing columns keep their place and exactly the calendar columns are
      added. */
  function AddCalendar(cols: seq<Column>): (r: seq<Column>)
    ensures |cols| <= |r| && r[..|cols|] == cols
    ensures forall c :: c in r <==> c in cols || c in CalendarColumns
    ensures Distinct(cols) ==> Distinct(r)
  {
    var a := SetColumn(cols, DayOfWeekCol);
    var b := SetColumn(a, HourCol);
    var r := SetColumn(b, MonthCol);
    assert a[..|cols|] == cols;
    assert b[..|a|][..|cols|] == cols;
    assert r[..|b|][..|cols|] == cols;
    r
  }

  /** Whether or not the target was present, the features are the data
      columns other than time and target, then the calendar columns. */
  lemma FeatureColumnsKept(cols: seq<Column>)
    ensures FeatureColumns(cols) == AddCalendar(DropColumns(cols, [TimeColumn, TargetColumn]))
  {
    var indexed := DropColumns(cols, [TimeColumn]);
    var kept := DropColumns(cols, [TimeColumn, TargetColumn]);
    assert [TimeColumn] + [TargetColumn] == [TimeColumn, TargetColumn];
    DropTwice(cols, [TimeColumn], [TargetColumn]);
    assert DropColumns(indexed, [TargetColumn]) == kept;
    if TargetColumn !in indexed {
      DropAbsent(indexed, [TargetColumn]);
      assert indexed == kept;
    }
  }

  /** The kept data columns come first, in their original order, and a frame
      without repeated names gives features without repeated names. */
  lemma FeatureColumnsOrder(cols: seq<Column>)
    ensures var r, kept := FeatureColumns(cols), DropColumns(cols, [TimeColumn, TargetColumn]);
      && |kept| <= |r| && r[..|kept|] == kept
      && IsSubsequence(kept, cols)
      && (Distinct(cols) ==> Distinct(r))
  {
    FeatureColumnsKept(cols);
    DropColumnsOrder(cols, [TimeColumn, TargetColumn]);
  }

  /** Merging on the right frame's leading key column, when no other column
      repeats the key, appends the right frame's remaining columns. */
  lemma MergeOnLeadingKey(left: seq<Column>, right: seq<Column>, key: Column)
    requires right != [] && right[0] == key && key !in right[1..]
    ensures MergeColumns(left, right, key) == left + right[1..]
  {
    assert right == [key] + right[1..];
    FilterConcat([key], right[1..], (c: Column) => c !in [key]);
    DropAbsent(right[1..], [key]);
  }

  /** A frame that leads with the time and the target and has no calendar
      column yet: the features are its other columns, then the calendar ones. */
  lemma FeatureColumnsOfRawFrame(data: seq<Column>)
    requires TimeColumn !in data && TargetColumn !in data
    requires forall c :: c in CalendarColumns ==> c !in data
    ensures FeatureColumns([TimeColumn, TargetColumn] + data) == data + CalendarColumns
  {
    var drop := [TimeColumn, TargetColumn];
    FilterConcat(drop, data, (c: Column) => c !in drop);
    assert DropColumns(drop, drop) == [];
    DropAbsent(data, drop);
    assert DropColumns(drop + data, drop) == data;
    FeatureColumnsKept(drop + data);
    AddCalendarAppends(data);
  }

  /** Calendar columns not yet present are appended in the script's order. */
  lemma AddCalendarAppends(data: seq<Column>)
    requires forall c :: c in CalendarColumns ==> c !in data
    ensures AddCalendar(data) == data + CalendarColumns
  {
    assert DayOfWeekCol !in data && HourCol !in data && MonthCol !in data;
    var a := data + [DayOfWeekCol];
    assert SetColumn(data, DayOfWeekCol) == a;
    assert HourCol !in a;
    var b := a + [HourCol];
    assert SetColumn(a, HourCol) == b;
    assert MonthCol !in b;
    assert SetColumn(b, MonthCol) == b + [MonthCol];
    assert b + [MonthCol] == data + CalendarColumns;
  }

  /** The data columns of the prediction script's merged frame: the
      pollutants, then the weather variables. */
  const PredictDataColumns: seq<Column> := PollutantColumns + WeatherDataColumns

  /** The columns the prediction script hands to the model: the two
      requests' frames merged on `time`, then the feature step. */
  lemma PredictFeatureColumns()
    ensures FeatureColumns(MergeColumns(AirQualityColumns, WeatherColumns, TimeColumn))
         == PredictDataColumns + CalendarColumns
  {
    MergedPredictColumns();
    FeatureColumnsOfRawFrame(PredictDataColumns);
  }

  /** The merged frame is time, target, then the data columns. */
  lemma MergedPredictColumns()
    ensures MergeColumns(AirQualityColumns, WeatherColumns, TimeColumn) == [TimeColumn, TargetColumn] + PredictDataColumns
  {
    assert WeatherColumns[1..] == WeatherDataColumns;
    assert TimeColumn !in WeatherDataColumns;
    MergeOnLeadingKey(AirQualityColumns, WeatherColumns, TimeColumn);
    assert AirQualityColumns + WeatherDataColumns == [TimeColumn, TargetColumn] + PredictDataColumns;
  }

  /** The dashboard drops these from its prediction table when present. */
  const DisplayDropped: seq<Column> := [CityCol, MonthCol, HourCol, DayOfWeekCol]

  /** The dashboard shows these first. */
  const DisplayFirst: seq<Column> := [Time, PredictedUsAqi, AqiLevel]

  /** The prediction table's columns: the listed ones dropped, then the
      selection `first + others`, which raises a KeyError naming the leading
      columns the frame lacks. */
  function DisplayColumns(cols: seq<Column>): (r: Result<seq<Column>, seq<Column>>)
    ensures r.Success? ==> |r.value| >= 3 && r.value[..3] == DisplayFirst
    ensures r.Failure? ==> r.error != [] && forall c :: c in r.error ==> c in DisplayFirst && c !in cols
  {
    var shown := DropColumns(cols, DisplayDropped);
    var missing := MissingFirst(shown);
    assert forall c :: c in DisplayFirst ==> c !in DisplayDropped;
    if missing != [] then Failure(missing)
    else
      var r := DisplayFirst + DropColumns(shown, DisplayFirst);
      assert r[..3] == DisplayFirst;
      Success(r)
  }

  /** The leading columns a frame lacks, in their display order. */
  function MissingFirst(shown: seq<Column>): (m: seq<Column>)
    ensures forall c :: c in m <==> c in DisplayFirst && c !in shown
  {
    Filter(DisplayFirst, (c: Column) => c !in shown)
  }

  /** The whole table step: the `AQI Level` column is computed from
      `predicted_us_aqi` (a frame without it fails right there, naming it),
      then the columns are dropped and reordered. It succeeds exactly when the
      frame has `time` and `predicted_us_aqi`. */
  function DashboardColumns(cols: seq<Column>): (r: Result<seq<Column>, seq<Column>>)
    ensures r.Success? <==> TimeColumn in cols && PredictedUsAqi in cols
    ensures PredictedUsAqi !in cols ==> r == Failure([PredictedUsAqi])
  {
    if PredictedUsAqi !in cols then Failure([PredictedUsAqi])
    else
      DisplayColumnsFails(SetColumn(cols, AqiLevel));
      DisplayColumns(SetColumn(cols, AqiLevel))
  }

  /** No leading column is among the dropped ones, so the drop never causes
      the KeyError: the selection fails exactly when the frame lacks a leading
      column, and names exactly those. */
  lemma DisplayColumnsFails(cols: seq<Column>)
    ensures DisplayColumns(cols).Success? <==> forall c :: c in DisplayFirst ==> c in cols
    ensures DisplayColumns(cols).Failure? ==>
      forall c :: c in DisplayColumns(cols).error <==> c in DisplayFirst && c !in cols
  {
    var shown := DropColumns(cols, DisplayDropped);
    assert forall c :: c in DisplayFirst ==> (c in shown <==> c in cols);
  }

  /** On success the table leads with time, prediction and level; no dropped
      column remains; every other column is kept, once, in its original
      order. */
  lemma DisplayColumnsSpec(cols: seq<Column>)
    requires DisplayColumns(cols).Success?
    ensures var r := DisplayColumns(cols).value;
      && |r| >= 3 && r[..3] == DisplayFirst
      && IsSubsequence(r[3..], cols)
      && (forall c :: c in r <==> c in cols && c !in DisplayDropped)
  {
    var shown := DropColumns(cols, DisplayDropped);
    var others := DropColumns(shown, DisplayFirst);
    var r := DisplayFirst + others;
    assert r[3..] == others;
    DropTwice(cols, DisplayDropped, DisplayFirst);
    DropColumnsOrder(cols, DisplayDropped + DisplayFirst);
    DisplayColumnsFails(cols);
    assert forall c :: c in others <==> c in cols && c !in DisplayDropped + DisplayFirst;
  }

  /** A frame without repeated names gives a table without repeated names. */
  lemma DisplayColumnsDistinct(cols: seq<Column>)
    requires DisplayColumns(cols).Success? && Distinct(cols)
    ensures Distinct(DisplayColumns(cols).value)
  {
    var shown := DropColumns(cols, DisplayDropped);
    var others := DropColumns(shown, DisplayFirst);
    assert DisplayColumns(cols).value == DisplayFirst + others;
    DropColumnsOrder(cols, DisplayDropped);
    DropColumnsOrder(shown, DisplayFirst);
    DistinctAppend(DisplayFirst, others);
  }

  /** The columns of the file the prediction script writes. */
  const ForecastFileColumns: seq<Column> := [ForecastTime, PredictedUsAqi]

  /** The prediction script names its time column `timestamp` while the
      dashboard selects `time`, so the table step over that file fails, and
      `time` is the one column it reports missing. */
  lemma ForecastFileLacksTime()
    ensures DashboardColumns(ForecastFileColumns).Failure?
    ensures forall c :: c in DashboardColumns(ForecastFileColumns).error <==> c == TimeColumn
  {
    var cols := SetColumn(ForecastFileColumns, AqiLevel);
    DisplayColumnsFails(cols);
    assert cols == [ForecastTime, PredictedUsAqi, AqiLevel];
  }
}
