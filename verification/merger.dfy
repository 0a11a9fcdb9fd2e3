/** The per-city merge of both backfill scripts: inner join of the air-quality
    and weather frames on their time index, `dropna`, the calendar columns
    and the city column. */
module Merger {
  import opened Calendar
  import opened Seqs
  import opened Series
  import opened Records

  type Joined = Sample<(AirQuality, Weather)>

  predicate NoMissing(row: Joined)
  {
    row.reading.0.Complete() && row.reading.1.Complete()
  }

  /** Adds `dayofweek`, `hour`, `month` and the city code to a joined row:
      the stored row is keyed by its hour and the city, is complete exactly
      when the joined row has no missing reading, and carries its hour's
      calendar fields. */
  function Tag(code: int, row: Joined): (o: Observation)
    ensures KeyOf(o) == Key(row.time, code)
    ensures o.Complete() <==> NoMissing(row)
    ensures o.calendar == CalendarOf(row.time) && o.calendar.hour == row.time.hour
    ensures o.air == row.reading.0 && o.weather == row.reading.1
  {
    Observation(row.time, code, row.reading.0, row.reading.1, CalendarOf(row.time))
  }

  function TagAll(code: int, rows: seq<Joined>): (t: seq<Observation>)
    ensures |t| == |rows|
    ensures forall i :: 0 <= i < |t| ==> t[i] == Tag(code, rows[i])
  {
    seq(|rows|, i requires 0 <= i < |rows| => Tag(code, rows[i]))
  }

  /** One city's table: both frames sorted by time, inner-joined, rows with a
      missing reading dropped, calendar and city columns added. */
  function MergeCity(code: int, air: seq<Sample<AirQuality>>, weather: seq<Sample<Weather>>): (t: seq<Observation>)
    ensures forall i :: 0 <= i < |t| ==> t[i].city == code && t[i].Complete()
    ensures forall i :: 0 <= i < |t| ==>
      && t[i].calendar == CalendarOf(t[i].time)
      && 0 <= t[i].calendar.dayofweek <= 6
      && 0 <= t[i].calendar.hour <= 23
      && 1 <= t[i].calendar.month <= 12
    ensures SortedByTimeObs(t)
  {
    var joined := Join(SortByTime(air), SortByTime(weather));
    JoinSorted(SortByTime(air), SortByTime(weather));
    var kept := Filter(joined, NoMissing);
    FilterKeepsOrder(joined, NoMissing);
    TagAll(code, kept)
  }

  predicate SortedByTimeObs(t: seq<Observation>)
  {
    forall i, j :: 0 <= i < j < |t| ==> !Before(t[j].time, t[i].time)
  }

  lemma {:induction false} FilterKeepsOrder(s: seq<Joined>, p: Joined -> bool)
    requires SortedByTime(s)
    ensures SortedByTime(Filter(s, p))
  {
    if s != [] {
      FilterKeepsOrder(s[1..], p);
      var rest := Filter(s[1..], p);
      forall k | 0 <= k < |rest| ensures !Before(rest[k].time, s[0].time) {
        var i :| 0 <= i < |s[1..]| && s[1..][i] == rest[k];
        assert s[i + 1] == rest[k];
      }
    }
  }

  /** A row is in a city's table exactly when it carries that city's code and
      the calendar fields of its hour, and both APIs delivered a complete
      reading for that hour: the readings it carries. */
  lemma MergeCityRows(code: int, air: seq<Sample<AirQuality>>, weather: seq<Sample<Weather>>, o: Observation)
    ensures o in MergeCity(code, air, weather) <==>
      && o.city == code
      && o.calendar == CalendarOf(o.time)
      && o.Complete()
      && Sample(o.time, o.air) in air
      && Sample(o.time, o.weather) in weather
  {
    if o in MergeCity(code, air, weather) {
      MergedRowHasSources(code, air, weather, o);
    } else if o.city == code && o.calendar == CalendarOf(o.time) && o.Complete()
              && Sample(o.time, o.air) in air && Sample(o.time, o.weather) in weather {
      SourcedRowIsMerged(code, air, weather, o);
    }
  }

  lemma MergedRowHasSources(code: int, air: seq<Sample<AirQuality>>, weather: seq<Sample<Weather>>, o: Observation)
    requires o in MergeCity(code, air, weather)
    ensures Sample(o.time, o.air) in air && Sample(o.time, o.weather) in weather
  {
    var sa := SortByTime(air);
    var sw := SortByTime(weather);
    var joined := Join(sa, sw);
    var kept := Filter(joined, NoMissing);
    var t := TagAll(code, kept);
    assert t == MergeCity(code, air, weather);
    var i :| 0 <= i < |t| && t[i] == o;
    assert Left(kept[i]) in sa && Right(kept[i]) in sw;
    assert Left(kept[i]) in multiset(sa) && Right(kept[i]) in multiset(sw);
  }

  lemma SourcedRowIsMerged(code: int, air: seq<Sample<AirQuality>>, weather: seq<Sample<Weather>>, o: Observation)
    requires o.city == code && o.calendar == CalendarOf(o.time) && o.Complete()
    requires Sample(o.time, o.air) in air && Sample(o.time, o.weather) in weather
    ensures o in MergeCity(code, air, weather)
  {
    var p := Pair(Sample(o.time, o.air), Sample(o.time, o.weather));
    SourcesAreJoined(air, weather, Sample(o.time, o.air), Sample(o.time, o.weather));
    KeptIsTagged(code, Join(SortByTime(air), SortByTime(weather)), p);
    assert Tag(code, p) == o;
  }

  /** Two samples of the same hour, one from each frame, meet in the join of the sorted frames. */
  lemma SourcesAreJoined(air: seq<Sample<AirQuality>>, weather: seq<Sample<Weather>>, x: Sample<AirQuality>, y: Sample<Weather>)
    requires x in air && y in weather && x.time == y.time
    ensures Pair(x, y) in Join(SortByTime(air), SortByTime(weather))
  {
    var sa := SortByTime(air);
    var sw := SortByTime(weather);
    assert x in multiset(sa) && y in multiset(sw);
    var a :| 0 <= a < |sa| && sa[a] == x;
    var b :| 0 <= b < |sw| && sw[b] == y;
    assert Pair(sa[a], sw[b]) in Join(sa, sw);
  }

  /** A joined row without a missing reading reaches the table, tagged. */
  lemma KeptIsTagged(code: int, joined: seq<Joined>, p: Joined)
    requires p in joined && NoMissing(p)
    ensures Tag(code, p) in TagAll(code, Filter(joined, NoMissing))
  {
    var kept := Filter(joined, NoMissing);
    var i :| 0 <= i < |kept| && kept[i] == p;
    assert TagAll(code, kept)[i] == Tag(code, p);
  }

  /** A city whose either response is empty contributes no rows. */
  lemma MergeCityEmpty(code: int, air: seq<Sample<AirQuality>>, weather: seq<Sample<Weather>>)
    requires air == [] || weather == []
    ensures MergeCity(code, air, weather) == []
  {
  }

  /** Frames without repeated hours give a table without repeated keys. */
  lemma MergeCityUnique(code: int, air: seq<Sample<AirQuality>>, weather: seq<Sample<Weather>>)
    requires UniqueTimes(air) && UniqueTimes(weather)
    ensures UniqueKeys(MergeCity(code, air, weather))
  {
    var sa := SortByTime(air);
    var sw := SortByTime(weather);
    SortKeepsTimes(air);
    SortKeepsTimes(weather);
    var joined := Join(sa, sw);
    JoinUnique(sa, sw);
    var kept := Filter(joined, NoMissing);
    FilterUnique(joined, NoMissing);
  }

  lemma {:induction false} FilterUnique(s: seq<Joined>, p: Joined -> bool)
    requires UniqueTimes(s)
    ensures UniqueTimes(Filter(s, p))
  {
    if s != [] {
      assert UniqueTimes(s[1..]) by {
        forall i, j | 0 <= i < j < |s[1..]| ensures s[1..][i].time != s[1..][j].time {
          assert s[1..][i] == s[i + 1] && s[1..][j] == s[j + 1];
        }
      }
      FilterUnique(s[1..], p);
      var rest := Filter(s[1..], p);
      forall k | 0 <= k < |rest| ensures rest[k].time != s[0].time {
        var i :| 0 <= i < |s[1..]| && s[1..][i] == rest[k];
        assert s[i + 1] == rest[k];
      }
    }
  }
}
