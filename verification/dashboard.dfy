/** The dashboard's pure helpers: the two AQI classifiers (label and cell
    style), the city filter, the hazard warning on the latest prediction. */
module Dashboard {
  import opened Wrappers
  import opened Seqs
  import opened Calendar
  import opened Cities

  /** `get_aqi_color`: the label shown for a predicted AQI value, which is
      the label of its reference category. */
  function GetAqiColor(aqi: real): (r: string)
    ensures r == Label(BandOf(aqi))
  {
    BandIntervals(aqi);
    if aqi <= 50.0 then "\U{1F7E2} Good"
    else if aqi <= 100.0 then "\U{1F7E1} Moderate"
    else if aqi <= 150.0 then "\U{1F7E0} Unhealthy (Sensitive)"
    else if aqi <= 200.0 then "\U{1F534} Unhealthy"
    else if aqi <= 300.0 then "\U{1F7E3} Very Unhealthy"
    else "\U{26AB} Hazardous"
  }

  /** `highlight_aqi`: the cell style of a predicted AQI value, which is the
      style of its reference category. */
  function HighlightAqi(val: real): (r: string)
    ensures r == Style(BandOf(val))
  {
    BandIntervals(val);
    if val <= 50.0 then "background-color: #c6f7d0; color: black"
    else if val <= 100.0 then "background-color: #fffacc; color: black"
    else if val <= 150.0 then "background-color: #ffd3a3; color: black"
    else if val <= 200.0 then "background-color: #ff9999; color: black"
    else if val <= 300.0 then "background-color: #d6a5ff; color: white"
    else "background-color: #3a3a3a; color: white"
  }

  /** The six AQI categories of the US EPA's Technical Assistance Document
      for the Reporting of Daily Air Quality (EPA-454/B-18-007), mildest first. */
  datatype AqiBand = Good | Moderate | UnhealthyForSensitiveGroups | Unhealthy | VeryUnhealthy | Hazardous

  /** The inclusive upper ends of the first five categories. */
  const BandUpperBounds: seq<real> := [50.0, 100.0, 150.0, 200.0, 300.0]

  /** How many of the upper ends `aqi` lies above. */
  function Exceeded(bounds: seq<real>, aqi: real): (n: nat)
    ensures n <= |bounds|
  {
    if bounds == [] then 0
    else (if aqi > bounds[0] then 1 else 0) + Exceeded(bounds[1..], aqi)
  }

  /** The category with `rank` milder categories below it. */
  function BandAt(rank: nat): AqiBand
    requires rank <= 5
  {
    [Good, Moderate, UnhealthyForSensitiveGroups, Unhealthy, VeryUnhealthy, Hazardous][rank]
  }

  function Rank(b: AqiBand): nat
  {
    match b
    case Good => 0
    case Moderate => 1
    case UnhealthyForSensitiveGroups => 2
    case Unhealthy => 3
    case VeryUnhealthy => 4
    case Hazardous => 5
  }

  /** The reference classification: the category is the number of upper ends exceeded. */
  function BandOf(aqi: real): (b: AqiBand)
    ensures Rank(b) == Exceeded(BandUpperBounds, aqi)
  {
    BandAt(Exceeded(BandUpperBounds, aqi))
  }

  function Label(b: AqiBand): string
  {
    match b
    case Good => "\U{1F7E2} Good"
    case Moderate => "\U{1F7E1} Moderate"
    case UnhealthyForSensitiveGroups => "\U{1F7E0} Unhealthy (Sensitive)"
    case Unhealthy => "\U{1F534} Unhealthy"
    case VeryUnhealthy => "\U{1F7E3} Very Unhealthy"
    case Hazardous => "\U{26AB} Hazardous"
  }

  function Style(b: AqiBand): string
  {
    match b
    case Good => "background-color: #c6f7d0; color: black"
    case Moderate => "background-color: #fffacc; color: black"
    case UnhealthyForSensitiveGroups => "background-color: #ffd3a3; color: black"
    case Unhealthy => "background-color: #ff9999; color: black"
    case VeryUnhealthy => "background-color: #d6a5ff; color: white"
    case Hazardous => "background-color: #3a3a3a; color: white"
  }

  /** Each category is the interval between consecutive upper ends, the upper
      end included; everything above 300 is Hazardous. */
  lemma BandIntervals(aqi: real)
    ensures BandOf(aqi) == Good <==> aqi <= 50.0
    ensures BandOf(aqi) == Moderate <==> 50.0 < aqi <= 100.0
    ensures BandOf(aqi) == UnhealthyForSensitiveGroups <==> 100.0 < aqi <= 150.0
    ensures BandOf(aqi) == Unhealthy <==> 150.0 < aqi <= 200.0
    ensures BandOf(aqi) == VeryUnhealthy <==> 200.0 < aqi <= 300.0
    ensures BandOf(aqi) == Hazardous <==> 300.0 < aqi
  {
    ExceededBounds(aqi);
  }

  /** The count of exceeded upper ends, written out. */
  lemma ExceededBounds(aqi: real)
    ensures Exceeded(BandUpperBounds, aqi)
         == (if aqi > 50.0 then 1 else 0) + (if aqi > 100.0 then 1 else 0) + (if aqi > 150.0 then 1 else 0)
          + (if aqi > 200.0 then 1 else 0) + (if aqi > 300.0 then 1 else 0)
  {
    var b := BandUpperBounds;
    assert b[1..][1..][1..][1..][1..] == [];
    assert Exceeded(b[1..][1..][1..][1..], aqi) == (if aqi > 300.0 then 1 else 0);
    assert Exceeded(b[1..][1..][1..], aqi) == (if aqi > 200.0 then 1 else 0) + (if aqi > 300.0 then 1 else 0);
    assert Exceeded(b[1..][1..], aqi)
        == (if aqi > 150.0 then 1 else 0) + (if aqi > 200.0 then 1 else 0) + (if aqi > 300.0 then 1 else 0);
  }

  /** A higher value never gets a milder category. */
  lemma {:induction false} ExceededMonotone(bounds: seq<real>, a: real, b: real)
    requires a <= b
    ensures Exceeded(bounds, a) <= Exceeded(bounds, b)
  {
    if bounds != [] {
      ExceededMonotone(bounds[1..], a, b);
    }
  }

  lemma BandMonotone(a: real, b: real)
    requires a <= b
    ensures Rank(BandOf(a)) <= Rank(BandOf(b))
  {
    ExceededMonotone(BandUpperBounds, a, b);
  }

  /** The six labels are pairwise different, and so are the six styles. */
  lemma LabelsAndStylesDistinct(x: AqiBand, y: AqiBand)
    ensures Label(x) == Label(y) <==> x == y
    ensures Style(x) == Style(y) <==> x == y
  {
    if x != y {
      assert Label(x)[0] != Label(y)[0];
      assert Style(x)[19] != Style(y)[19] || Style(x)[21] != Style(y)[21];
    }
  }

  /** Label and colour always agree: two values get the same label exactly
      when they get the same cell style, because both classifiers use the
      same boundaries. */
  lemma LabelAndStyleAgree(a: real, b: real)
    ensures GetAqiColor(a) == GetAqiColor(b) <==> HighlightAqi(a) == HighlightAqi(b)
  {
    LabelsAndStylesDistinct(BandOf(a), BandOf(b));
  }

  /** A row of the forecast file as the dashboard reads it. */
  datatype ForecastRow = ForecastRow(time: Timestamp, city: int, predictedUsAqi: real)

  /** `df[df["city"] == code]`. */
  function CityRows(rows: seq<ForecastRow>, code: int): (r: seq<ForecastRow>)
    ensures forall x :: x in r <==> x in rows && x.city == code
  {
    Filter(rows, (r: ForecastRow) => r.city == code)
  }

  /** The selected city's rows; an unknown name is a KeyError. */
  function SelectCity(rows: seq<ForecastRow>, name: string): (r: Result<seq<ForecastRow>, string>)
    ensures r.Success? <==> CityCode(name).Some?
    ensures r.Failure? ==> r.error == name
    ensures r.Success? ==> forall x :: x in r.value <==> x in rows && x.city == CityCode(name).value
  {
    match CityCode(name)
    case None => Failure(name)
    case Some(code) => Success(CityRows(rows, code))
  }

  /** Selecting succeeds for the three selectable names and yields exactly the
      rows carrying that city's code, in file order. */
  lemma SelectCityRows(rows: seq<ForecastRow>, name: string, x: ForecastRow)
    ensures SelectCity(rows, name).Success? <==> name == "Karachi" || name == "Islamabad" || name == "Lahore"
    ensures SelectCity(rows, name).Success? ==>
      && (x in SelectCity(rows, name).value <==> x in rows && CityName(x.city) == Some(name))
      && IsSubsequence(SelectCity(rows, name).value, rows)
      && forall y :: multiset(SelectCity(rows, name).value)[y] ==
           if y.city == CityCode(name).value then multiset(rows)[y] else 0
  {
    if CityCode(name).Some? {
      var code := CityCode(name).value;
      CityMapsInverse(x.city, name);
      FilterIsSubsequence(rows, (r: ForecastRow) => r.city == code);
      forall y: ForecastRow
        ensures multiset(SelectCity(rows, name).value)[y] ==
          if y.city == code then multiset(rows)[y] else 0
      {
        FilterMultiset(rows, (r: ForecastRow) => r.city == code, y);
      }
    }
  }

  /** `city_df.iloc[-1]["predicted_us_aqi"]`; None where the frame is empty
      and pandas raises IndexError. */
  function LatestAqi(rows: seq<ForecastRow>): (v: Option<real>)
    ensures v.Some? <==> rows != []
    ensures rows != [] ==> v == Some(rows[|rows| - 1].predictedUsAqi)
  {
    if rows == [] then None else Some(rows[|rows| - 1].predictedUsAqi)
  }

  /** Whether the hazard warning is shown; None where the latest value cannot
      be read. It fires exactly when the latest prediction's category is
      Unhealthy or worse, that is when its label is one of the three worst. */
  function HazardWarning(rows: seq<ForecastRow>): (w: Option<bool>)
    ensures w.Some? <==> rows != []
    ensures rows != [] ==> w == Some(Rank(BandOf(rows[|rows| - 1].predictedUsAqi)) >= 3)
  {
    match LatestAqi(rows)
    case None => None
    case Some(v) =>
      BandIntervals(v);
      Some(v > 150.0)
  }
}
