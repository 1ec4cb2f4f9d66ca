/** The display bands of the shared helpers: the fishing-score colour and the moon-phase name. */
module Helpers {

  const Green := "#4caf50"
  const LightGreen := "#8bc34a"
  const Yellow := "#ffc107"
  const Orange := "#ff9800"
  const Red := "#f44336"

  /** `getFishingScoreColor`: five bands, split at 80, 60, 40 and 20. */
  function FishingScoreColor(score: real): (r: string)
    ensures r == Green <==> score >= 80.0
    ensures r == LightGreen <==> 60.0 <= score < 80.0
    ensures r == Yellow <==> 40.0 <= score < 60.0
    ensures r == Orange <==> 20.0 <= score < 40.0
    ensures r == Red <==> score < 20.0
  {
    if score >= 80.0 then Green
    else if score >= 60.0 then LightGreen
    else if score >= 40.0 then Yellow
    else if score >= 20.0 then Orange
    else Red
  }

  /** The position of a score colour from the worst band (0) to the best (4). */
  function ColorRank(color: string): int
  {
    if color == Red then 0
    else if color == Orange then 1
    else if color == Yellow then 2
    else if color == LightGreen then 3
    else 4
  }

  /** A higher score never lands in a lower band. */
  lemma ColorMonotone(a: real, b: real)
    requires a <= b
    ensures ColorRank(FishingScoreColor(a)) <= ColorRank(FishingScoreColor(b))
  {
  }

  /**
    `getMoonPhaseName`: the four exact quarter points have their own names, the
    open intervals between them the crescent and gibbous names; negative phases
    fall in the first interval and everything above 0.75 in the last.
  */
  function MoonPhaseName(phase: real): (r: string)
    ensures r == "New Moon" <==> phase == 0.0
    ensures r == "Waxing Crescent" <==> phase < 0.25 && phase != 0.0
    ensures r == "First Quarter" <==> phase == 0.25
    ensures r == "Waxing Gibbous" <==> 0.25 < phase < 0.5
    ensures r == "Full Moon" <==> phase == 0.5
    ensures r == "Waning Gibbous" <==> 0.5 < phase < 0.75
    ensures r == "Last Quarter" <==> phase == 0.75
    ensures r == "Waning Crescent" <==> phase > 0.75
  {
    if phase == 0.0 then "New Moon"
    else if phase < 0.25 then "Waxing Crescent"
    else if phase == 0.25 then "First Quarter"
    else if phase < 0.5 then "Waxing Gibbous"
    else if phase == 0.5 then "Full Moon"
    else if phase < 0.75 then "Waning Gibbous"
    else if phase == 0.75 then "Last Quarter"
    else "Waning Crescent"
  }
}
