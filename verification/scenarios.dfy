/** Worked examples on concrete frames: one city's merge of two overlapping
    three-hour frames, the upsert of a corrected reading, and a run in which
    the only city's air-quality request fails. */
module Scenarios {
  import opened Wrappers
  import opened Calendar
  import opened Series
  import opened Records
  import opened Merger
  import opened Seqs
  import opened Cities
  import opened History
  import opened Backfill

  /** Air quality at 00:00, 01:00 and 02:00 on Monday 2024-01-01. */
  function AirHours(a0: AirQuality, a1: AirQuality, a2: AirQuality): seq<Sample<AirQuality>>
  {
    [Sample(DateHour(2024, 1, 1, 0), a0), Sample(DateHour(2024, 1, 1, 1), a1), Sample(DateHour(2024, 1, 1, 2), a2)]
  }

  /** Weather at 01:00, 02:00 and 03:00 on the same day. */
  function WeatherHours(w1: Weather, w2: Weather, w3: Weather): seq<Sample<Weather>>
  {
    [Sample(DateHour(2024, 1, 1, 1), w1), Sample(DateHour(2024, 1, 1, 2), w2), Sample(DateHour(2024, 1, 1, 3), w3)]
  }

  lemma AirSorted(a0: AirQuality, a1: AirQuality, a2: AirQuality)
    ensures SortByTime(AirHours(a0, a1, a2)) == AirHours(a0, a1, a2)
  {
    assert SortedByTime(AirHours(a0, a1, a2));
    SortSortedIsIdentity(AirHours(a0, a1, a2));
  }

  lemma WeatherSorted(w1: Weather, w2: Weather, w3: Weather)
    ensures SortByTime(WeatherHours(w1, w2, w3)) == WeatherHours(w1, w2, w3)
  {
    assert SortedByTime(WeatherHours(w1, w2, w3));
    SortSortedIsIdentity(WeatherHours(w1, w2, w3));
  }

  lemma ScenarioLastHour(a2: AirQuality, w1: Weather, w2: Weather, w3: Weather)
    ensures Matches(Sample(DateHour(2024, 1, 1, 2), a2), WeatherHours(w1, w2, w3))
         == [Sample(DateHour(2024, 1, 1, 2), (a2, w2))]
  {
    var weather := WeatherHours(w1, w2, w3);
    MatchesNone(Sample(DateHour(2024, 1, 1, 2), a2), weather[2..]);
    assert weather[1..][1..] == weather[2..];
  }

  lemma ScenarioMiddleHour(a1: AirQuality, w1: Weather, w2: Weather, w3: Weather)
    ensures Matches(Sample(DateHour(2024, 1, 1, 1), a1), WeatherHours(w1, w2, w3))
         == [Sample(DateHour(2024, 1, 1, 1), (a1, w1))]
  {
    var weather := WeatherHours(w1, w2, w3);
    MatchesNone(Sample(DateHour(2024, 1, 1, 1), a1), weather[1..]);
  }

  lemma ScenarioJoin(a0: AirQuality, a1: AirQuality, a2: AirQuality, w1: Weather, w2: Weather, w3: Weather)
    ensures Join(AirHours(a0, a1, a2), WeatherHours(w1, w2, w3))
         == [Sample(DateHour(2024, 1, 1, 1), (a1, w1)), Sample(DateHour(2024, 1, 1, 2), (a2, w2))]
  {
    var air := AirHours(a0, a1, a2);
    var weather := WeatherHours(w1, w2, w3);
    ScenarioLastHour(a2, w1, w2, w3);
    ScenarioMiddleHour(a1, w1, w2, w3);
    MatchesNone(air[0], weather);
    assert air[1..][1..] == [air[2]];
    assert Join(air[1..][1..], weather) == Matches(air[2], weather);
  }

  lemma ScenarioKept(a1: AirQuality, a2: AirQuality, w1: Weather, w2: Weather)
    requires a1.Complete() && a2.Complete() && w1.Complete() && w2.Complete()
    ensures var joined := [Sample(DateHour(2024, 1, 1, 1), (a1, w1)), Sample(DateHour(2024, 1, 1, 2), (a2, w2))];
      Filter(joined, NoMissing) == joined
  {
  }

  lemma ScenarioTagged(a1: AirQuality, a2: AirQuality, w1: Weather, w2: Weather)
    ensures TagAll(0, [Sample(DateHour(2024, 1, 1, 1), (a1, w1)), Sample(DateHour(2024, 1, 1, 2), (a2, w2))])
         == [Observation(DateHour(2024, 1, 1, 1), 0, a1, w1, CalendarFields(0, 1, 1)),
             Observation(DateHour(2024, 1, 1, 2), 0, a2, w2, CalendarFields(0, 2, 1))]
  {
    WeekdayAnchors(1);
    WeekdayAnchors(2);
  }

  /** Only the two common hours survive, tagged with Karachi's code and the
      calendar fields of a Monday in January. */
  lemma MergeScenario(a0: AirQuality, a1: AirQuality, a2: AirQuality, w1: Weather, w2: Weather, w3: Weather)
    requires a1.Complete() && a2.Complete() && w1.Complete() && w2.Complete()
    ensures MergeCity(0, AirHours(a0, a1, a2), WeatherHours(w1, w2, w3))
         == [Observation(DateHour(2024, 1, 1, 1), 0, a1, w1, CalendarFields(0, 1, 1)),
             Observation(DateHour(2024, 1, 1, 2), 0, a2, w2, CalendarFields(0, 2, 1))]
  {
    AirSorted(a0, a1, a2);
    WeatherSorted(w1, w2, w3);
    ScenarioJoin(a0, a1, a2, w1, w2, w3);
    ScenarioKept(a1, a2, w1, w2);
    ScenarioTagged(a1, a2, w1, w2);
  }

  /** A reading stored for Karachi at 2024-01-01 00:00 is replaced by a new
      reading of the same hour: one row remains, the new one. */
  lemma UpsertScenario(p: Pollutants, w: Weather)
    ensures var t := DateHour(2024, 1, 1, 0);
      var stored := Observation(t, 0, AirQuality(Some(50.0), p), w, CalendarOf(t));
      var newer := Observation(t, 0, AirQuality(Some(55.0), p), w, CalendarOf(t));
      Upsert([stored], [newer]) == [newer]
  {
    var t := DateHour(2024, 1, 1, 0);
    var stored := Observation(t, 0, AirQuality(Some(50.0), p), w, CalendarOf(t));
    var newer := Observation(t, 0, AirQuality(Some(55.0), p), w, CalendarOf(t));
    assert KeyOf([newer][0]) == KeyOf(stored);
    assert KeyOf(stored) in Keys([newer]);
    assert RemoveKeys([stored], Keys([newer])) == [];
  }

  /** Karachi's air-quality request answers 500 and no other city runs: the
      incremental run writes nothing, the combined run raises. */
  lemma FailedOnlyCityScenario(hist: Option<seq<Observation>>)
    ensures var runs := [CityRun(City("Karachi", 0), HttpResponse(500, []), None)];
      && IncrementalBackfill(hist, runs) == NoNewData
      && HistoryAfter(hist, IncrementalBackfill(hist, runs)) == hist
      && CombinedBackfill(runs) == Aborted(NoObjectsToConcatenate)
  {
    var runs := [CityRun(City("Karachi", 0), HttpResponse(500, []), None)];
    assert Answered(runs) == [];
  }
}
