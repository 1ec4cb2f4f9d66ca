/**
  The weather reducer. `lastUpdated` is the instant (in milliseconds) at which
  the current weather or the forecast was last set; the clock reading is a
  parameter.
*/
module WeatherSlice {
  import opened Wrappers
  import opened Records

  class WeatherState {
    var currentWeather: Option<WeatherData>
    var forecast: seq<WeatherData>
    var tides: seq<TideData>
    var sunData: seq<SunData>
    var lastUpdated: Option<int>
    var loading: bool
    var error: Option<string>

    /** The initial state: no data, never updated, not loading, no error. */
    constructor ()
      ensures currentWeather == None && forecast == [] && tides == [] && sunData == []
      ensures lastUpdated == None && !loading && error == None
    {
      currentWeather, forecast, tides, sunData := None, [], [], [];
      lastUpdated, loading, error := None, false, None;
    }

    /** `setCurrentWeather`: stores the reading and stamps the update time. */
    method SetCurrentWeather(w: WeatherData, nowMs: int)
      modifies this`currentWeather, this`lastUpdated
      ensures currentWeather == Some(w) && lastUpdated == Some(nowMs)
    {
      currentWeather := Some(w);
      lastUpdated := Some(nowMs);
    }

    /** `setForecast`: stores the forecast and stamps the update time. */
    method SetForecast(f: seq<WeatherData>, nowMs: int)
      modifies this`forecast, this`lastUpdated
      ensures forecast == f && lastUpdated == Some(nowMs)
    {
      forecast := f;
      lastUpdated := Some(nowMs);
    }

    /** `setTides`. */
    method SetTides(t: seq<TideData>)
      modifies this`tides
      ensures tides == t
    {
      tides := t;
    }

    /** `setSunData`. */
    method SetSunData(s: seq<SunData>)
      modifies this`sunData
      ensures sunData == s
    {
      sunData := s;
    }

    /** `setLoading`. */
    method SetLoading(value: bool)
      modifies this`loading
      ensures loading == value
    {
      loading := value;
    }

    /** `setError`. */
    method SetError(value: Option<string>)
      modifies this`error
      ensures error == value
    {
      error := value;
    }

    /** `clearWeatherData`: drops all data and the update time; loading and error stay. */
    method ClearWeatherData()
      modifies this`currentWeather, this`forecast, this`tides, this`sunData, this`lastUpdated
      ensures currentWeather == None && forecast == [] && tides == [] && sunData == []
      ensures lastUpdated == None
    {
      currentWeather, forecast, tides, sunData, lastUpdated := None, [], [], [], None;
    }
  }
}
