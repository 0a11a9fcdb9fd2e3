/** The prediction script: both forecast requests must answer 200; the two
    hourly frames are inner-joined on time and sorted; the target is dropped
    and the calendar columns added; the model's outputs are paired with the
    feature rows' timestamps. The model itself is a parameter. */
module Prediction {
  import opened Wrappers
  import opened Calendar
  import opened Series
  import opened Records

  /** One row handed to the model: the pollutants without the `us_aqi`
      target, the weather variables and the calendar columns of its hour.
      Missing readings stay missing: the script drops no rows. */
  datatype FeatureRow = FeatureRow(time: Timestamp, pollutants: Pollutants, weather: Weather, calendar: CalendarFields)

  /** A row of the forecast file. */
  datatype Forecast = Forecast(timestamp: Timestamp, predictedUsAqi: real)

  datatype PredictError = AirQualityRequestFailed | WeatherRequestFailed | PredictionLengthMismatch

  /** The feature row of one joined hour: the target is dropped, the
      pollutants and weather are kept, the calendar fields of the hour are
      added. */
  function Featurize(row: Sample<(AirQuality, Weather)>): (f: FeatureRow)
    ensures f.time == row.time
    ensures f.pollutants == row.reading.0.pollutants && f.weather == row.reading.1
    ensures f.calendar == CalendarOf(row.time)
    ensures 0 <= f.calendar.dayofweek <= 6 && f.calendar.hour == row.time.hour && f.calendar.month == row.time.month
  {
    FeatureRow(row.time, row.reading.0.pollutants, row.reading.1, CalendarOf(row.time))
  }

  /** The target never reaches the model: two joined rows that differ only
      in `us_aqi` give the same feature row. */
  lemma FeaturizeIgnoresTarget(row: Sample<(AirQuality, Weather)>, target: Option<real>)
    ensures Featurize(Sample(row.time, (row.reading.0.(usAqi := target), row.reading.1))) == Featurize(row)
  {
  }

  /** The feature frame: merge on time, sort by time, featurize each row. */
  function Features(air: seq<Sample<AirQuality>>, weather: seq<Sample<Weather>>): (f: seq<FeatureRow>)
    ensures |f| == |Join(air, weather)|
    ensures forall i, j :: 0 <= i < j < |f| ==> !Before(f[j].time, f[i].time)
    ensures forall i :: 0 <= i < |f| ==>
      && f[i].calendar == CalendarOf(f[i].time)
      && 0 <= f[i].calendar.dayofweek <= 6
      && 0 <= f[i].calendar.hour <= 23
      && 1 <= f[i].calendar.month <= 12
  {
    var joined := SortByTime(Join(air, weather));
    seq(|joined|, i requires 0 <= i < |joined| => Featurize(joined[i]))
  }

  function FeatureTimes(f: seq<FeatureRow>): set<Timestamp>
  {
    set i | 0 <= i < |f| :: f[i].time
  }

  /** The feature frame covers exactly the hours both responses have. */
  lemma FeaturesCommonHours(air: seq<Sample<AirQuality>>, weather: seq<Sample<Weather>>)
    ensures FeatureTimes(Features(air, weather)) == Times(air) * Times(weather)
  {
    JoinTimes(air, weather);
    SortKeepsTimes(Join(air, weather));
    FeaturesKeepTimes(air, weather);
  }

  lemma FeaturesKeepTimes(air: seq<Sample<AirQuality>>, weather: seq<Sample<Weather>>)
    ensures FeatureTimes(Features(air, weather)) == Times(SortByTime(Join(air, weather)))
  {
    var sorted := SortByTime(Join(air, weather));
    var f := Features(air, weather);
    assert forall i :: 0 <= i < |f| ==> f[i].time == sorted[i].time;
    forall t | t in Times(sorted) ensures t in FeatureTimes(f) {
      var i :| 0 <= i < |sorted| && sorted[i].time == t;
      assert f[i].time == t;
    }
    forall t | t in FeatureTimes(f) ensures t in Times(sorted) {
      var i :| 0 <= i < |f| && f[i].time == t;
      assert sorted[i].time == t;
    }
  }

  /** Every feature row carries the pollutants and weather of one air-quality
      hour and one weather hour of its own time. */
  lemma FeatureRowSourced(air: seq<Sample<AirQuality>>, weather: seq<Sample<Weather>>, i: nat)
    requires i < |Features(air, weather)|
    ensures var row := Features(air, weather)[i];
      exists a, w :: a in air && w in weather && a.time == row.time && w.time == row.time
                     && row.pollutants == a.reading.pollutants && row.weather == w.reading
  {
    var joined := Join(air, weather);
    var sorted := SortByTime(joined);
    assert sorted[i] in multiset(joined);
    var k :| 0 <= k < |joined| && joined[k] == sorted[i];
    var a, w := Left(joined[k]), Right(joined[k]);
    assert a in air && w in weather;
  }

  /** Conversely every pair of same-hour samples yields its feature row. */
  lemma SourcedFeatureRow(air: seq<Sample<AirQuality>>, weather: seq<Sample<Weather>>, a: Sample<AirQuality>, w: Sample<Weather>)
    requires a in air && w in weather && a.time == w.time
    ensures FeatureRow(a.time, a.reading.pollutants, w.reading, CalendarOf(a.time)) in Features(air, weather)
  {
    var joined := Join(air, weather);
    var sorted := SortByTime(joined);
    var i :| 0 <= i < |air| && air[i] == a;
    var j :| 0 <= j < |weather| && weather[j] == w;
    assert Pair(air[i], weather[j]) in joined;
    assert Pair(a, w) in multiset(sorted);
    var k :| 0 <= k < |sorted| && sorted[k] == Pair(a, w);
    assert Features(air, weather)[k] == Featurize(Pair(a, w));
  }

  /** With no repeated hour in either response there is one feature row per
      common hour. */
  lemma FeaturesOnePerHour(air: seq<Sample<AirQuality>>, weather: seq<Sample<Weather>>)
    requires UniqueTimes(air) && UniqueTimes(weather)
    ensures |Features(air, weather)| == |Times(air) * Times(weather)|
  {
    JoinUnique(air, weather);
    UniqueTimesCount(Join(air, weather));
    JoinTimes(air, weather);
  }

  /** The script: an unsuccessful air-quality response is reported first,
      then an unsuccessful weather response; a model answer of the wrong
      length cannot be framed next to the timestamps. */
  function Predict(air: HttpResponse<seq<Sample<AirQuality>>>, weather: HttpResponse<seq<Sample<Weather>>>,
                   model: seq<FeatureRow> -> seq<real>): (r: Result<seq<Forecast>, PredictError>)
    ensures air.status != 200 ==> r == Failure(AirQualityRequestFailed)
    ensures air.status == 200 && weather.status != 200 ==> r == Failure(WeatherRequestFailed)
  {
    if air.status != 200 then Failure(AirQualityRequestFailed)
    else if weather.status != 200 then Failure(WeatherRequestFailed)
    else
      var f := Features(air.body, weather.body);
      var predictions := model(f);
      if |predictions| != |f| then Failure(PredictionLengthMismatch)
      else Success(seq(|f|, i requires 0 <= i < |f| => Forecast(f[i].time, predictions[i])))
  }

  /** There is no partial result: the script yields a forecast exactly when
      both requests answered and the model gave one value per row, and then
      the i-th timestamp carries the i-th prediction. */
  lemma PredictPairs(air: HttpResponse<seq<Sample<AirQuality>>>, weather: HttpResponse<seq<Sample<Weather>>>,
                     model: seq<FeatureRow> -> seq<real>)
    ensures var f := Features(air.body, weather.body);
      && (Predict(air, weather, model).Success? <==>
            air.status == 200 && weather.status == 200 && |model(f)| == |f|)
      && (Predict(air, weather, model).Success? ==>
            var out := Predict(air, weather, model).value;
            && |out| == |f|
            && forall i :: 0 <= i < |out| ==> out[i].timestamp == f[i].time && out[i].predictedUsAqi == model(f)[i])
  {
  }

  /** The forecast's timestamps ascend and are exactly the common hours. */
  lemma ForecastHours(air: HttpResponse<seq<Sample<AirQuality>>>, weather: HttpResponse<seq<Sample<Weather>>>,
                      model: seq<FeatureRow> -> seq<real>)
    requires Predict(air, weather, model).Success?
    ensures var out := Predict(air, weather, model).value;
      && (forall i, j :: 0 <= i < j < |out| ==> !Before(out[j].timestamp, out[i].timestamp))
      && (set i | 0 <= i < |out| :: out[i].timestamp) == Times(air.body) * Times(weather.body)
  {
    var f := Features(air.body, weather.body);
    var out := Predict(air, weather, model).value;
    FeaturesCommonHours(air.body, weather.body);
    assert (set i | 0 <= i < |out| :: out[i].timestamp) == FeatureTimes(f) by {
      forall t | t in FeatureTimes(f) ensures t in (set i | 0 <= i < |out| :: out[i].timestamp) {
        var i :| 0 <= i < |f| && f[i].time == t;
        assert out[i].timestamp == t;
      }
    }
  }
}
