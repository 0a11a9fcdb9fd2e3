/** The two backfill scripts: fetch and merge each city in turn, concatenate
    the city tables, then either upsert into the stored history (incremental
    backfill) or overwrite the combined file (combined backfill). */
module Backfill {
  import opened Wrappers
  import opened Seqs
  import opened Series
  import opened Records
  import opened Cities
  import opened Merger
  import opened History

  /** One city of the loop, with what fetching it yielded: the air-quality
      HTTP response, and the weather client's frame, or None where the
      client raised. */
  datatype CityRun = CityRun(city: City, air: HttpResponse<seq<Sample<AirQuality>>>, weather: Option<seq<Sample<Weather>>>)

  datatype RunError = WeatherClientRaised(city: string) | NoObjectsToConcatenate

  /** How a run ends: it raised, it stopped before writing, or it wrote a table. */
  datatype RunOutcome = Aborted(error: RunError) | NoNewData | Saved(table: seq<Observation>)

  predicate AirAnswered(run: CityRun)
  {
    run.air.status == 200
  }

  /** The cities whose air-quality request answered 200, in processing order;
      every other city is skipped before its weather is requested. */
  function Answered(runs: seq<CityRun>): (a: seq<CityRun>)
    ensures |a| <= |runs|
    ensures forall run :: run in a <==> run in runs && AirAnswered(run)
  {
    Filter(runs, AirAnswered)
  }

  /** One answered city's merged table. */
  function CityTable(run: CityRun): seq<Observation>
    requires run.weather.Some?
  {
    MergeCity(run.city.code, run.air.body, run.weather.value)
  }

  /** The per-city loop: a city whose air-quality request fails is skipped; a
      weather client that raises ends the whole run. */
  function CollectCities(runs: seq<CityRun>): (r: Result<seq<seq<Observation>>, RunError>)
    ensures r.Success? ==> forall i :: 0 <= i < |runs| && AirAnswered(runs[i]) ==> runs[i].weather.Some?
    ensures r.Failure? ==> exists i :: 0 <= i < |runs| && AirAnswered(runs[i]) && runs[i].weather.None?
                                        && r.error == WeatherClientRaised(runs[i].city.name)
  {
    if runs == [] then Success([])
    else
      var run := runs[0];
      var rest := CollectCities(runs[1..]);
      assert forall i :: 1 <= i < |runs| ==> runs[i] == runs[1..][i - 1];
      if !AirAnswered(run) then rest
      else if run.weather.None? then Failure(WeatherClientRaised(run.city.name))
      else if rest.Failure? then
        var i :| 0 <= i < |runs[1..]| && AirAnswered(runs[1..][i]) && runs[1..][i].weather.None?
                 && rest.error == WeatherClientRaised(runs[1..][i].city.name);
        assert runs[i + 1] == runs[1..][i];
        rest
      else Success([CityTable(run)] + rest.value)
  }

  /** Tables paired with the answered cities they came from, in order. */
  predicate TablesMatch(ok: seq<CityRun>, tables: seq<seq<Observation>>)
  {
    && |tables| == |ok|
    && forall k :: 0 <= k < |ok| ==> ok[k].weather.Some? && tables[k] == CityTable(ok[k])
  }

  /** On success there is one table per answered city, in processing order,
      each the merge of that city's two responses. */
  lemma {:induction false} CollectedTables(runs: seq<CityRun>)
    requires CollectCities(runs).Success?
    ensures TablesMatch(Answered(runs), CollectCities(runs).value)
  {
    if runs != [] {
      CollectedTables(runs[1..]);
      var run := runs[0];
      if AirAnswered(run) {
        assert Answered(runs) == [run] + Answered(runs[1..]);
        assert CollectCities(runs).value == [CityTable(run)] + CollectCities(runs[1..]).value;
        TablesMatchCons(run, Answered(runs[1..]), CollectCities(runs[1..]).value);
      }
    }
  }

  lemma TablesMatchCons(run: CityRun, ok: seq<CityRun>, tables: seq<seq<Observation>>)
    requires run.weather.Some? && TablesMatch(ok, tables)
    ensures TablesMatch([run] + ok, [CityTable(run)] + tables)
  {
    forall k | 1 <= k < |ok| + 1 ensures ([run] + ok)[k].weather.Some? && ([CityTable(run)] + tables)[k] == CityTable(([run] + ok)[k]) {
      ConsIndex(run, ok, k);
      ConsIndex(CityTable(run), tables, k);
    }
  }

  /** A run can only fail at a city that answered. */
  lemma AnsweredFailure(runs: seq<CityRun>)
    requires CollectCities(runs).Failure?
    ensures Answered(runs) != []
  {
    var i :| 0 <= i < |runs| && AirAnswered(runs[i]) && runs[i].weather.None?;
    assert runs[i] in Answered(runs);
  }

  lemma ConsIndex<T>(x: T, s: seq<T>, k: nat)
    requires 1 <= k <= |s|
    ensures ([x] + s)[k] == s[k - 1]
  {
  }

  /** Where the script saves: bootstrap from the batch when there is no
      history file, otherwise the deduplicating upsert. */
  function Store(hist: Option<seq<Observation>>, batch: seq<Observation>): (r: seq<Observation>)
    ensures hist.None? ==> r == batch
    ensures hist.Some? ==> ToMap(r) == ToMap(hist.value) + ToMap(batch)
    ensures hist.Some? ==> Keys(r) == Keys(hist.value) + Keys(batch)
  {
    match hist
    case None => batch
    case Some(h) =>
      UpsertIsMapUnion(h, batch);
      Upsert(h, batch)
  }

  /** The incremental backfill run (hourly rows from yesterday's date through today's, both inclusive, for every city). */
  function IncrementalBackfill(hist: Option<seq<Observation>>, runs: seq<CityRun>): (r: RunOutcome)
    ensures Answered(runs) == [] ==> r == NoNewData
    ensures r.NoNewData? ==> Answered(runs) == []
    ensures r.Aborted? <==> CollectCities(runs).Failure?
    ensures r.Saved? ==> CollectCities(runs).Success?
    ensures r.Saved? && hist.None? ==> r.table == Concat(CollectCities(runs).value)
    ensures r.Saved? && hist.Some? ==>
      && ToMap(r.table) == ToMap(hist.value) + ToMap(Concat(CollectCities(runs).value))
      && Keys(r.table) == Keys(hist.value) + Keys(Concat(CollectCities(runs).value))
  {
    match CollectCities(runs)
    case Failure(e) =>
      AnsweredFailure(runs);
      Aborted(e)
    case Success(tables) =>
      CollectedTables(runs);
      if tables == [] then NoNewData else Saved(Store(hist, Concat(tables)))
  }

  /** The combined backfill run (a window of past days, no history read).
      With no answered city the concatenation raises and nothing is saved. */
  function CombinedBackfill(runs: seq<CityRun>): (r: RunOutcome)
    ensures !r.NoNewData?
    ensures Answered(runs) == [] ==> r == Aborted(NoObjectsToConcatenate)
  {
    match CollectCities(runs)
    case Failure(e) =>
      AnsweredFailure(runs);
      Aborted(e)
    case Success(tables) =>
      CollectedTables(runs);
      if tables == [] then Aborted(NoObjectsToConcatenate) else Saved(Concat(tables))
  }

  /** The history file after a run: rewritten only when the run saved. */
  function HistoryAfter(hist: Option<seq<Observation>>, outcome: RunOutcome): Option<seq<Observation>>
  {
    if outcome.Saved? then Some(outcome.table) else hist
  }

  /** The combined file is the city tables concatenated in processing order
      (one per answered city, by `CollectedTables`), so its length is the sum
      of theirs; where each city's rows sit is `Seqs.ConcatPosition`. */
  lemma CombinedTable(runs: seq<CityRun>)
    requires CombinedBackfill(runs).Saved?
    ensures CollectCities(runs).Success?
    ensures CombinedBackfill(runs).table == Concat(CollectCities(runs).value)
    ensures |CombinedBackfill(runs).table| == TotalLength(CollectCities(runs).value)
  {
    ConcatLength(CollectCities(runs).value);
  }

  /** No answered city: no write, the stored history is untouched. */
  lemma NoAnsweredCityKeepsHistory(hist: Option<seq<Observation>>, runs: seq<CityRun>)
    requires Answered(runs) == []
    ensures HistoryAfter(hist, IncrementalBackfill(hist, runs)) == hist
    ensures CombinedBackfill(runs) == Aborted(NoObjectsToConcatenate)
  {
  }

  /** The guard looks at the list of city tables, not at their rows: when
      cities answered but their tables are all empty, the run still writes.
      With a history file the file is rewritten unchanged; without one an
      empty history file is created. */
  lemma EmptyBatchRewritesHistory(hist: Option<seq<Observation>>, runs: seq<CityRun>)
    requires Answered(runs) != [] && CollectCities(runs).Success?
    requires Concat(CollectCities(runs).value) == []
    ensures IncrementalBackfill(hist, runs) == Saved(if hist.Some? then hist.value else [])
    ensures hist.None? ==> HistoryAfter(hist, IncrementalBackfill(hist, runs)) == Some([])
  {
    CollectedTables(runs);
    if hist.Some? {
      assert Keys([]) == {};
      RemoveKeysNone(hist.value, {});
      assert hist.value + [] == hist.value;
    }
  }

  /** Without a history file the incremental run saves exactly what the
      combined run saves: the concatenated city tables. */
  lemma BootstrapAgreesWithCombined(runs: seq<CityRun>)
    requires Answered(runs) != []
    ensures IncrementalBackfill(None, runs) == CombinedBackfill(runs)
    ensures CollectCities(runs).Success? ==>
      IncrementalBackfill(None, runs) == Saved(Concat(CollectCities(runs).value))
  {
  }

  /** Running the incremental backfill again with the same responses leaves
      the table it saved unchanged. */
  lemma IncrementalIdempotent(hist: Option<seq<Observation>>, runs: seq<CityRun>)
    requires IncrementalBackfill(hist, runs).Saved?
    ensures var t := IncrementalBackfill(hist, runs).table;
      IncrementalBackfill(Some(t), runs) == Saved(t)
  {
    var batch := Concat(CollectCities(runs).value);
    match hist
    case None =>
      assert Upsert(batch, batch) == batch by {
        RemoveKeysAll(batch, Keys(batch));
      }
    case Some(h) =>
      UpsertIdempotent(h, batch);
  }

  /** The city codes of the loop are pairwise distinct (as in the scripts' city list). */
  predicate DistinctCodes(runs: seq<CityRun>)
  {
    forall a, b :: 0 <= a < b < |runs| ==> runs[a].city.code != runs[b].city.code
  }

  /** A city whose air-quality request failed contributes no row to the new
      batch, while every answered city contributes its whole table. */
  lemma SkippedCityContributesNothing(runs: seq<CityRun>, i: nat)
    requires i < |runs| && !AirAnswered(runs[i])
    requires DistinctCodes(runs)
    requires CollectCities(runs).Success?
    ensures forall o: Observation :: o in Concat(CollectCities(runs).value) ==> o.city != runs[i].city.code
  {
    var tables := CollectCities(runs).value;
    var ok := Answered(runs);
    CollectedTables(runs);
    forall o: Observation | o in Concat(tables) ensures o.city != runs[i].city.code {
      var k := ConcatMember(tables, o);
      assert o in CityTable(ok[k]);
      assert ok[k] in runs;
      var a :| 0 <= a < |runs| && runs[a] == ok[k];
      assert a != i;
    }
  }

  /** With distinct city codes and API frames without repeated hours, the new
      batch has no repeated (time, city) key, and neither has the table the
      incremental backfill saves when the old history had none. */
  lemma SavedTableHasUniqueKeys(hist: Option<seq<Observation>>, runs: seq<CityRun>)
    requires DistinctCodes(runs)
    requires forall i :: 0 <= i < |runs| && AirAnswered(runs[i]) && runs[i].weather.Some? ==>
      UniqueTimes(runs[i].air.body) && UniqueTimes(runs[i].weather.value)
    requires hist.Some? ==> UniqueKeys(hist.value)
    requires IncrementalBackfill(hist, runs).Saved?
    ensures UniqueKeys(IncrementalBackfill(hist, runs).table)
  {
    var tables := CollectCities(runs).value;
    CollectedTables(runs);
    BatchUnique(runs);
    if hist.Some? {
      UpsertUnique(hist.value, Concat(tables));
    }
  }

  lemma {:induction false} BatchUnique(runs: seq<CityRun>)
    requires DistinctCodes(runs)
    requires forall i :: 0 <= i < |runs| && AirAnswered(runs[i]) && runs[i].weather.Some? ==>
      UniqueTimes(runs[i].air.body) && UniqueTimes(runs[i].weather.value)
    requires CollectCities(runs).Success?
    ensures UniqueKeys(Concat(CollectCities(runs).value))
    ensures forall o: Observation :: o in Concat(CollectCities(runs).value) ==>
      exists i :: 0 <= i < |runs| && runs[i].city.code == o.city
  {
    if runs != [] {
      var run := runs[0];
      var rest := CollectCities(runs[1..]).value;
      assert DistinctCodes(runs[1..]) by {
        forall a, b | 0 <= a < b < |runs[1..]| ensures runs[1..][a].city.code != runs[1..][b].city.code {
          assert runs[1..][a] == runs[a + 1] && runs[1..][b] == runs[b + 1];
        }
      }
      assert forall i :: 1 <= i < |runs| ==> runs[i] == runs[1..][i - 1];
      BatchUnique(runs[1..]);
      if AirAnswered(run) {
        var t := CityTable(run);
        MergeCityUnique(run.city.code, run.air.body, run.weather.value);
        assert CollectCities(runs).value == [t] + rest;
        assert Concat([t] + rest) == t + Concat(rest);
        forall o: Observation | o in Concat(rest) ensures o.city != run.city.code {
          var i :| 0 <= i < |runs[1..]| && runs[1..][i].city.code == o.city;
          assert runs[i + 1] == runs[1..][i];
        }
        ConcatUnique(t, Concat(rest), run.city.code);
      }
    }
  }

  /** Two tables with unique keys and no shared city code concatenate to a
      table with unique keys. */
  lemma ConcatUnique(t: seq<Observation>, u: seq<Observation>, code: int)
    requires UniqueKeys(t) && UniqueKeys(u)
    requires forall i :: 0 <= i < |t| ==> t[i].city == code
    requires forall o: Observation :: o in u ==> o.city != code
    ensures UniqueKeys(t + u)
  {
    var c := t + u;
    forall i, j | 0 <= i < j < |c| ensures KeyOf(c[i]) != KeyOf(c[j]) {
      if i < |t| && j >= |t| {
        assert c[j] == u[j - |t|];
        assert c[j] in u;
      } else if i >= |t| {
        assert c[i] == u[i - |t|] && c[j] == u[j - |t|];
      }
    }
  }
}
