/** The rows the pipeline handles: the hourly air-quality and weather readings
    the APIs return (each may be missing), an HTTP response, and the merged
    observation stored in the historical table. Reading values are opaque:
    only whether they are present matters to the model. */
module Records {
  import opened Wrappers
  import opened Calendar

  /** The pollutant columns other than the `us_aqi` target. */
  datatype Pollutants = Pollutants(
    pm10: Option<real>,
    pm2_5: Option<real>,
    ozone: Option<real>,
    carbonMonoxide: Option<real>,
    nitrogenDioxide: Option<real>,
    sulphurDioxide: Option<real>)
  {
    predicate Complete()
    {
      pm10.Some? && pm2_5.Some? && ozone.Some? && carbonMonoxide.Some?
      && nitrogenDioxide.Some? && sulphurDioxide.Some?
    }
  }

  /** One hour of the air-quality API's `hourly` block. */
  datatype AirQuality = AirQuality(usAqi: Option<real>, pollutants: Pollutants)
  {
    predicate Complete()
    {
      usAqi.Some? && pollutants.Complete()
    }
  }

  /** One hour of the weather API's hourly variables. */
  datatype Weather = Weather(
    temperature2m: Option<real>,
    relativeHumidity2m: Option<real>,
    windSpeed10m: Option<real>,
    cloudCover: Option<real>,
    precipitation: Option<real>)
  {
    predicate Complete()
    {
      temperature2m.Some? && relativeHumidity2m.Some? && windSpeed10m.Some?
      && cloudCover.Some? && precipitation.Some?
    }
  }

  /** What `requests.get` hands back: a status code and the decoded body. */
  datatype HttpResponse<T> = HttpResponse(status: int, body: T)

  /** A row of the historical table: time, city code, all readings and the
      derived calendar columns. */
  datatype Observation = Observation(
    time: Timestamp,
    city: int,
    air: AirQuality,
    weather: Weather,
    calendar: CalendarFields)
  {
    predicate Complete()
    {
      air.Complete() && weather.Complete()
    }
  }

  /** The de-facto primary key of the historical table. */
  datatype Key = Key(time: Timestamp, city: int)

  function KeyOf(o: Observation): Key
  {
    Key(o.time, o.city)
  }

  function Keys(t: seq<Observation>): set<Key>
  {
    set i | 0 <= i < |t| :: KeyOf(t[i])
  }

  /** No (time, city) key occurs twice. */
  predicate UniqueKeys(t: seq<Observation>)
  {
    forall i, j :: 0 <= i < j < |t| ==> KeyOf(t[i]) != KeyOf(t[j])
  }
}
