/** The three cities: the backfill scripts' city list and the dashboard's
    code-to-name map with its inverse. */
module Cities {
  import opened Wrappers

  datatype City = City(name: string, code: int)

  /** The cities in processing order (the backfill scripts' city list,
      coordinates and timezone left out). */
  const CityInfo: seq<City> := [City("Karachi", 0), City("Islamabad", 1), City("Lahore", 2)]

  /** The dashboard's code-to-name dictionary. */
  const CityMap: map<int, string> := map[0 := "Karachi", 1 := "Islamabad", 2 := "Lahore"]

  /** The dictionary inverted value-for-key (written out; `CityMapsInverse`
      shows it is the inverse). */
  const CityNameToCode: map<string, int> := map["Karachi" := 0, "Islamabad" := 1, "Lahore" := 2]

  /** `city_map[code]`: None where Python raises KeyError. */
  function CityName(code: int): (r: Option<string>)
    ensures r.Some? <==> 0 <= code <= 2
  {
    if code in CityMap then Some(CityMap[code]) else None
  }

  /** `city_name_to_code[name]`: None where Python raises KeyError. */
  function CityCode(name: string): (r: Option<int>)
    ensures r.Some? <==> name == "Karachi" || name == "Islamabad" || name == "Lahore"
  {
    if name in CityNameToCode then Some(CityNameToCode[name]) else None
  }

  /** The two dictionaries are mutual inverses over {0, 1, 2} and the three names. */
  lemma CityMapsInverse(code: int, name: string)
    ensures CityName(code) == Some(name) <==> CityCode(name) == Some(code)
  {
  }

  /** Every city the backfill processes carries the code the dashboard maps to its name. */
  lemma CityInfoAgreesWithCityMap()
    ensures forall i :: 0 <= i < |CityInfo| ==> CityName(CityInfo[i].code) == Some(CityInfo[i].name)
    ensures forall i, j :: 0 <= i < j < |CityInfo| ==> CityInfo[i].code != CityInfo[j].code
  {
  }
}
