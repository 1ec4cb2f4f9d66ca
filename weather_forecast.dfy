/**
  The display logic of the forecast view: temperature colours, the per-day
  fishing scores, the rating label, the daylight length, the moon-phase glyph
  and the two tips.
*/
module WeatherForecast {
  import opened Records
  import opened WeatherService
  import opened Helpers

  const Hot := "#d32f2f"
  const Warm := "#ff9800"
  const Mild := "#4caf50"
  const Cool := "#2196f3"
  const Cold := "#673ab7"

  /** `getTemperatureColor`: five bands, split above 90, 80, 70 and 50 degrees. */
  function TemperatureColor(temp: real): (r: string)
    ensures r == Hot <==> temp > 90.0
    ensures r == Warm <==> 80.0 < temp <= 90.0
    ensures r == Mild <==> 70.0 < temp <= 80.0
    ensures r == Cool <==> 50.0 < temp <= 70.0
    ensures r == Cold <==> temp <= 50.0
  {
    if temp > 90.0 then Hot
    else if temp > 80.0 then Warm
    else if temp > 70.0 then Mild
    else if temp > 50.0 then Cool
    else Cold
  }

  /** `fishingScores`: one (date, score) pair per forecast day, in forecast order. */
  function FishingScores(forecast: seq<WeatherData>): (r: seq<(string, int)>)
    ensures |r| == |forecast|
    ensures forall i :: 0 <= i < |r| ==>
              r[i].0 == forecast[i].date && r[i].1 == FishingScore(forecast[i].windSpeed, forecast[i].precipitation)
              && 40 <= r[i].1 <= 80
  {
    if forecast == [] then []
    else
      ScoreRange(forecast[0].windSpeed, forecast[0].precipitation);
      [(forecast[0].date, FishingScore(forecast[0].windSpeed, forecast[0].precipitation))] + FishingScores(forecast[1..])
  }

  /** A label when its condition holds, nothing otherwise: `{cond && 'label'}`. */
  function When(cond: bool, text: string): seq<string>
  {
    if cond then [text] else []
  }

  /** The rating line: the five separate conditionals, concatenated. */
  function RatingLabels(score: int): (r: seq<string>)
    ensures |r| == 1
    ensures r[0] == "Excellent" <==> score >= 80
    ensures r[0] == "Good" <==> 60 <= score < 80
    ensures r[0] == "Average" <==> 40 <= score < 60
    ensures r[0] == "Below Average" <==> 20 <= score < 40
    ensures r[0] == "Poor" <==> score < 20
  {
    When(score >= 80, "Excellent") + When(score >= 60 && score < 80, "Good")
    + When(score >= 40 && score < 60, "Average") + When(score >= 20 && score < 40, "Below Average")
    + When(score < 20, "Poor")
  }

  /** The rank of a rating label from the worst (0) to the best (4). */
  function LabelRank(rating: string): int
  {
    if rating == "Poor" then 0
    else if rating == "Below Average" then 1
    else if rating == "Average" then 2
    else if rating == "Good" then 3
    else 4
  }

  /**
    The rating label and the score colour use the same bands; since every score
    lies in [40, 80], the two lowest labels are never shown.
  */
  lemma RatingMatchesColor(score: int, windSpeed: real, precipitation: real)
    ensures LabelRank(RatingLabels(score)[0]) == ColorRank(FishingScoreColor(score as real))
    ensures RatingLabels(FishingScore(windSpeed, precipitation))[0] in {"Excellent", "Good", "Average"}
  {
    ScoreRange(windSpeed, precipitation);
  }

  const MsPerHour := 1000 * 60 * 60
  const MsPerMinute := 1000 * 60

  /**
    The daylight figure from sunrise and sunset in milliseconds:
    `Math.floor(diff / hour)` and `Math.floor((diff % hour) / minute)`, with the
    truncating `%`.
  */
  function Daylight(sunrise: int, sunset: int): (r: (int, int))
    ensures sunset >= sunrise ==> 0 <= r.1 < 60 && r.0 * 60 + r.1 == (sunset - sunrise) / MsPerMinute
    ensures sunset >= sunrise ==> r.0 * MsPerHour + r.1 * MsPerMinute <= sunset - sunrise < r.0 * MsPerHour + (r.1 + 1) * MsPerMinute
  {
    var diff := sunset - sunrise;
    (diff / MsPerHour, JsRem(diff, MsPerHour) / MsPerMinute)
  }

  /** A sunset one minute before sunrise reads "-1h -1m". */
  lemma DaylightNegative()
    ensures Daylight(MsPerMinute, 0) == (-1, -1)
  {
  }

  /** The eight moon glyphs. */
  datatype MoonGlyph = NewMoon | WaxingCrescent | FirstQuarter | WaxingGibbous
                     | FullMoon | WaningGibbous | LastQuarter | WaningCrescent

  function GlyphWhen(cond: bool, g: MoonGlyph): seq<MoonGlyph>
  {
    if cond then [g] else []
  }

  /** The moon picture: the eight separate conditionals on the phase, concatenated. */
  function MoonGlyphs(phase: real): (r: seq<MoonGlyph>)
    ensures phase >= 0.0 ==> |r| == 1
    ensures phase < 0.0 ==> r == []
  {
    GlyphWhen(phase == 0.0, NewMoon) + GlyphWhen(0.0 < phase < 0.25, WaxingCrescent)
    + GlyphWhen(phase == 0.25, FirstQuarter) + GlyphWhen(0.25 < phase < 0.5, WaxingGibbous)
    + GlyphWhen(phase == 0.5, FullMoon) + GlyphWhen(0.5 < phase < 0.75, WaningGibbous)
    + GlyphWhen(phase == 0.75, LastQuarter) + GlyphWhen(phase > 0.75, WaningCrescent)
  }

  function GlyphName(g: MoonGlyph): string
  {
    match g
    case NewMoon => "New Moon"
    case WaxingCrescent => "Waxing Crescent"
    case FirstQuarter => "First Quarter"
    case WaxingGibbous => "Waxing Gibbous"
    case FullMoon => "Full Moon"
    case WaningGibbous => "Waning Gibbous"
    case LastQuarter => "Last Quarter"
    case WaningCrescent => "Waning Crescent"
  }

  /**
    For a non-negative phase the glyph is the one the phase name describes; a
    negative phase is named "Waxing Crescent" but gets no glyph.
  */
  lemma GlyphMatchesName(phase: real)
    ensures phase >= 0.0 ==> GlyphName(MoonGlyphs(phase)[0]) == MoonPhaseName(phase)
    ensures phase < 0.0 ==> MoonGlyphs(phase) == [] && MoonPhaseName(phase) == "Waxing Crescent"
  {
  }

  const WindyTip := " The higher winds might make fishing challenging. Consider fishing in sheltered areas."
  const CalmTip := " These wind conditions are generally favorable for fishing."
  const HighPressureTip := " High pressure generally means clear conditions but potentially less fish activity."
  const LowPressureTip := " Lower pressure might indicate approaching weather changes, which can trigger feeding activity."

  /** The wind tip switches strictly above 15 mph. */
  function WindTip(windSpeed: real): (r: string)
    ensures r == WindyTip <==> windSpeed > 15.0
    ensures r == CalmTip <==> windSpeed <= 15.0
  {
    if windSpeed > 15.0 then WindyTip else CalmTip
  }

  /** The pressure tip switches strictly above 1013 hPa. */
  function PressureTip(pressure: real): (r: string)
    ensures r == HighPressureTip <==> pressure > 1013.0
    ensures r == LowPressureTip <==> pressure <= 1013.0
  {
    if pressure > 1013.0 then HighPressureTip else LowPressureTip
  }
}
