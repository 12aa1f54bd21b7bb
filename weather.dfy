/**
 * The weather collector: the current conditions of the configured city
 * become one spoken summary sentence, and a missing city or a provider
 * other than wttr yields no item without any request.
 */
module Weather {
  import opened Text
  import opened NewsData


  const TempLead: string := "当前气温"
  const FeelsLead: string := "体感"
  const WindLead: string := "风速约"
  const Degrees: string := "度"
  const WindUnit: string := "公里每小时"
  const Comma: string := "，"
  const Stop: string := "。"

  /** `(v or [{}])[0]`: the first record of a non-empty list, or an empty
      record when the value is missing or empty. */
  function FirstRecord(v: Json): map<string, Json> {
    if Truthy(v) && v.JList? && v.elems[0].JObject? then v.elems[0].fields else map[]
  }

  /** The four readings `_build_summary` looks at. */
  datatype Reading = Reading(desc: Json, tempC: Json, feelsLike: Json, windKph: Json)

  function ReadingOf(data: map<string, Json>): Reading {
    var current := FirstRecord(Get(data, "current_condition"));
    Reading(Get(FirstRecord(Get(current, "weatherDesc")), "value"),
            Get(current, "temp_C"), Get(current, "FeelsLikeC"), Get(current, "windspeedKmph"))
  }

  /** The summary's clauses, in their fixed order: the description when it
      is true, then each number that is present, zero included. */
  function Parts(w: Reading): seq<string> {
    (if Truthy(w.desc) then [PyStr(w.desc)] else [])
    + (if w.tempC != JNull then [TempLead + PyStr(w.tempC) + Degrees] else [])
    + (if w.feelsLike != JNull then [FeelsLead + PyStr(w.feelsLike) + Degrees] else [])
    + (if w.windKph != JNull then [WindLead + PyStr(w.windKph) + WindUnit] else [])
  }

  /** The sentence: the clauses joined by a full-width comma, ending in a
      full stop; nothing when there is no clause. */
  function Summary(w: Reading): Option<string> {
    var parts := Parts(w);
    if parts == [] then None else Some(Join(parts, Comma) + Stop)
  }

  /** `_build_summary`. */
  method BuildSummary(data: map<string, Json>) returns (r: Option<string>)
    ensures r == Summary(ReadingOf(data))
  {
    var current := FirstRecord(Get(data, "current_condition"));
    var weatherDesc := Get(FirstRecord(Get(current, "weatherDesc")), "value");
    var tempC := Get(current, "temp_C");
    var feelsLike := Get(current, "FeelsLikeC");
    var windKph := Get(current, "windspeedKmph");
    var parts: seq<string> := [];
    if Truthy(weatherDesc) {
      parts := parts + [PyStr(weatherDesc)];
    }
    if tempC != JNull {
      parts := parts + [TempLead + PyStr(tempC) + Degrees];
    }
    if feelsLike != JNull {
      parts := parts + [FeelsLead + PyStr(feelsLike) + Degrees];
    }
    if windKph != JNull {
      parts := parts + [WindLead + PyStr(windKph) + WindUnit];
    }
    assert parts == Parts(Reading(weatherDesc, tempC, feelsLike, windKph));
    if parts == [] {
      return None;
    }
    r := Some(Join(parts, Comma) + Stop);
  }

  /** There is no summary exactly when the description is false and all
      three numbers are missing. */
  lemma SummaryNoneIff(w: Reading)
    ensures Summary(w).None? <==> !Truthy(w.desc) && w.tempC == JNull && w.feelsLike == JNull && w.windKph == JNull
  {
  }

  /** One clause per contributing reading; a zero temperature is a reading,
      an empty description is not. */
  lemma PartsCount(w: Reading)
    ensures |Parts(w)| == Indicator(Truthy(w.desc)) + Indicator(w.tempC != JNull) + Indicator(w.feelsLike != JNull) + Indicator(w.windKph != JNull)
  {
  }

  /** The description, when present, opens the sentence, and a present
      wind speed closes it. */
  lemma PartsOrder(w: Reading)
    ensures Truthy(w.desc) ==> Parts(w)[0] == PyStr(w.desc)
    ensures w.windKph != JNull ==> Parts(w)[|Parts(w)| - 1] == WindLead + PyStr(w.windKph) + WindUnit
    ensures !Truthy(w.desc) && w.tempC != JNull ==> Parts(w)[0] == TempLead + PyStr(w.tempC) + Degrees
  {
  }

  /** A summary ends in a full stop and begins with its first clause. */
  lemma SummaryText(w: Reading)
    requires Summary(w).Some?
    ensures EndsWith(Summary(w).value, Stop)
    ensures StartsWith(Summary(w).value, Parts(w)[0])
  {
    var parts := Parts(w);
    var j := Join(parts, Comma);
    JoinPrefix(parts, Comma);
    StartsWithAppend(j, Stop, parts[0]);
    assert (j + Stop)[|j + Stop| - |Stop|..] == Stop;
  }

  lemma JoinPrefix(parts: seq<string>, sep: string)
    requires parts != []
    ensures StartsWith(Join(parts, sep), parts[0])
  {
    if |parts| > 1 {
      JoinCons(parts[0], parts[1..], sep);
      assert [parts[0]] + parts[1..] == parts;
      StartsWithAppend(parts[0], sep + Join(parts[1..], sep), parts[0]);
    }
  }

  const Wttr: Json := JStr("wttr")

  /** `fetch_weather`, with the wttr request as a parameter: it returns the
      items and the city it requested, if any. */
  method FetchWeather(config: map<string, Json>, fetch: string -> map<string, Json>)
    returns (items: seq<map<string, Json>>, requested: Option<string>)
    ensures !Truthy(Get(config, "city")) ==> items == [] && requested == None
    ensures GetOr(config, "weather_provider", Wttr) != Wttr ==> items == [] && requested == None
    ensures Truthy(Get(config, "city")) && GetOr(config, "weather_provider", Wttr) == Wttr ==>
      requested == Some(PyStr(Get(config, "city")))
      && var s := Summary(ReadingOf(fetch(PyStr(Get(config, "city")))));
         items == (if s.None? then [] else [map["summary" := JStr(s.value)]])
  {
    var city := Get(config, "city");
    if !Truthy(city) {
      return [], None;
    }
    var provider := GetOr(config, "weather_provider", Wttr);
    if provider != Wttr {
      return [], None;
    }
    requested := Some(PyStr(city));
    var data := fetch(PyStr(city));
    var summary := BuildSummary(data);
    if summary.None? || summary.value == "" {
      items := [];
    } else {
      items := [map["summary" := JStr(summary.value)]];
    }
  }
}
