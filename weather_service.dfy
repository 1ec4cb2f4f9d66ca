/** The two computations of the weather service: the wind compass name and the fishing score. */
module WeatherService {
  import opened Wrappers
  import opened Records

  /** The sixteen compass names, clockwise from north in steps of 22.5 degrees. */
  const Directions: seq<string> :=
    ["N", "NNE", "NE", "ENE", "E", "ESE", "SE", "SSE",
     "S", "SSW", "SW", "WSW", "W", "WNW", "NW", "NNW"]

  /** `Math.round`: the nearest integer, halves rounded towards +infinity. */
  function JsRound(x: real): (r: int)
    ensures x - 0.5 < r as real <= x + 0.5
  {
    (x + 0.5).Floor
  }

  /** The JavaScript `%` on integers: the remainder of a division truncated towards zero. */
  function JsRem(a: int, b: int): (r: int)
    requires b > 0
    ensures a >= 0 ==> 0 <= r < b
    ensures a < 0 ==> -b < r <= 0
  {
    if a >= 0 then a % b else -((-a) % b)
  }

  /** The bearing lies in the sector of width 22.5 degrees centred on `i` steps of 22.5 degrees. */
  predicate InSector(degrees: real, i: int)
  {
    (i as real) * 22.5 - 11.25 <= degrees < (i as real) * 22.5 + 11.25
  }

  /**
    `getWindDirection`: `directions[Math.round(degrees / 22.5) % 16]`. A negative
    index reads outside the array, which yields undefined: None here. A non-negative
    bearing is named after the sector it lies in, counted round the compass.
  */
  function WindDirection(degrees: real): (r: Option<string>)
    ensures degrees >= 0.0 ==> r.Some? && r.value in Directions
    ensures degrees >= 0.0 ==>
      exists i: int :: i >= 0 && InSector(degrees, i) && r == Some(Directions[i % 16])
  {
    var i := JsRound(degrees / 22.5);
    var index := JsRem(i, 16);
    RoundedSector(degrees, i);
    if 0 <= index < |Directions| then Some(Directions[index]) else None
  }

  /** Rounding a bearing to the nearest step of 22.5 degrees picks the sector it lies in. */
  lemma RoundedSector(degrees: real, i: int)
    requires i == JsRound(degrees / 22.5)
    ensures InSector(degrees, i)
  {
    var x := degrees / 22.5;
    assert x - 0.5 < i as real <= x + 0.5;
    assert degrees == x * 22.5;
  }

  /** The cardinal points. */
  lemma CardinalPoints()
    ensures WindDirection(0.0) == Some("N") && WindDirection(360.0) == Some("N")
    ensures WindDirection(90.0) == Some("E") && WindDirection(180.0) == Some("S")
    ensures WindDirection(270.0) == Some("W")
  {
    assert JsRound(0.0 / 22.5) == 0;
    assert JsRound(360.0 / 22.5) == 16;
    assert JsRound(90.0 / 22.5) == 4;
    assert JsRound(180.0 / 22.5) == 8;
    assert JsRound(270.0 / 22.5) == 12;
  }

  /** Sector boundaries round up: 11.25 degrees is already NNE; most negative bearings have no name. */
  lemma SectorEdges()
    ensures WindDirection(11.25) == Some("NNE")
    ensures WindDirection(-45.0) == None
    ensures WindDirection(-360.0) == Some("N")
  {
    assert JsRound(11.25 / 22.5) == 1;
    assert JsRound(-45.0 / 22.5) == -2;
    assert JsRound(-360.0 / 22.5) == -16;
  }

  /** The wind adjustment: calm wind (below 10) adds 10, strong wind (above 20) subtracts 15. */
  function WindAdjustment(windSpeed: real): int
  {
    if windSpeed < 10.0 then 10 else if windSpeed > 20.0 then -15 else 0
  }

  /** The rain adjustment: light rain (0 to 2, exclusive) adds 5, heavy rain (2 or more) subtracts 10. */
  function RainAdjustment(precipitation: real): int
  {
    if precipitation > 0.0 && precipitation < 2.0 then 5
    else if precipitation >= 2.0 then -10
    else 0
  }

  /** `Math.max(lo, Math.min(hi, x))`. */
  function Clamp(lo: int, hi: int, x: int): int
  {
    if x > hi then (if lo > hi then lo else hi) else if x < lo then lo else x
  }

  /**
    The fishing score: the neutral 50, the two fixed 10 and 5 placeholders, the
    wind and rain adjustments, clamped to [0, 100]. Only wind speed and
    precipitation take part.
  */
  function FishingScore(windSpeed: real, precipitation: real): int
  {
    Clamp(0, 100, 50 + 10 + 5 + WindAdjustment(windSpeed) + RainAdjustment(precipitation))
  }

  /** `calculateFishingScore`, step by step on a local score. */
  method CalculateFishingScore(weather: WeatherData) returns (score: int)
    ensures score == FishingScore(weather.windSpeed, weather.precipitation)
    ensures 40 <= score <= 80
  {
    score := 50;
    score := score + 10;
    score := score + 5;
    if weather.windSpeed < 10.0 {
      score := score + 10;
    } else if weather.windSpeed > 20.0 {
      score := score - 15;
    }
    if weather.precipitation > 0.0 && weather.precipitation < 2.0 {
      score := score + 5;
    } else if weather.precipitation >= 2.0 {
      score := score - 10;
    }
    score := if score < 100 then score else 100;
    score := if 0 > score then 0 else score;
  }

  /** The unclamped score already lies in [40, 80], so the clamp never changes it. */
  lemma ScoreRange(windSpeed: real, precipitation: real)
    ensures 40 <= 65 + WindAdjustment(windSpeed) + RainAdjustment(precipitation) <= 80
    ensures FishingScore(windSpeed, precipitation) == 65 + WindAdjustment(windSpeed) + RainAdjustment(precipitation)
  {
  }

  /** Moderate wind (10 to 20) and no rain give exactly 65; the extremes 80 and 40 have one cause each. */
  lemma ScorePoints(windSpeed: real, precipitation: real)
    ensures 10.0 <= windSpeed <= 20.0 && precipitation <= 0.0 ==> FishingScore(windSpeed, precipitation) == 65
    ensures FishingScore(windSpeed, precipitation) == 80 <==> windSpeed < 10.0 && 0.0 < precipitation < 2.0
    ensures FishingScore(windSpeed, precipitation) == 40 <==> windSpeed > 20.0 && precipitation >= 2.0
  {
  }
}
