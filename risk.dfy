/** The three risk levels and the thresholds that assign them
    (diabetes_app.py, lines 181-186). */
module Risk {

  datatype Tier = Low | Medium | High

  const HighThreshold: real := 0.52
  const MediumThreshold: real := 0.25

  /** Low < Medium < High. */
  function Rank(t: Tier): nat {
    match t
    case Low => 0
    case Medium => 1
    case High => 2
  }

  /** The `>=` chain: High from 0.52 up, Medium from 0.25 up, otherwise Low.
      Every probability gets exactly one tier; a tie at a threshold goes to
      the higher tier. */
  function TierOf(prob: real): (t: Tier)
    ensures t == High <==> HighThreshold <= prob
    ensures t == Medium <==> MediumThreshold <= prob < HighThreshold
    ensures t == Low <==> prob < MediumThreshold
  {
    if prob >= HighThreshold then High
    else if prob >= MediumThreshold then Medium
    else Low
  }

  /** A higher probability never gives a lower tier. */
  lemma TierMonotone(p1: real, p2: real)
    requires p1 <= p2
    ensures Rank(TierOf(p1)) <= Rank(TierOf(p2))
  {
  }

  /** The thresholds themselves and the values just below them. */
  lemma TierBoundaries()
    ensures TierOf(0.52) == High && TierOf(0.5199) == Medium
    ensures TierOf(0.25) == Medium && TierOf(0.2499) == Low
  {
  }

  /** The level name shown to the user. */
  function LevelName(t: Tier): string {
    match t
    case High => "High"
    case Medium => "Medium"
    case Low => "Low"
  }

  /** The message kind the result is shown with. */
  function Status(t: Tier): string {
    match t
    case High => "error"
    case Medium => "warning"
    case Low => "success"
  }

  /** High is shown as an error, Medium as a warning and Low as a success,
      each under its own level name, and the message kind alone tells the tier. */
  lemma StatusOfTier(t1: Tier, t2: Tier)
    ensures LevelName(High) == "High" && LevelName(Medium) == "Medium" && LevelName(Low) == "Low"
    ensures Status(High) == "error" && Status(Medium) == "warning" && Status(Low) == "success"
    ensures Status(t1) == Status(t2) <==> t1 == t2
  {
  }
}
