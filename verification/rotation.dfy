/**
 * The direction argument of the rotate command, mapped to the absolute page
 * rotation in degrees clockwise that is set on every page.
 */
module Rotation {
  import opened Wrappers

  const DirectionMessage: string := "direction must be either right, left, or around"

  const Directions: set<string> := {"right", "around", "left"}

  /** `right` turns a quarter clockwise, `around` a half, `left` three quarters. */
  function Degrees(direction: string): (r: Result<int, string>)
    ensures r.Ok? <==> direction in Directions
    ensures r.Err? ==> r.error == DirectionMessage
    ensures direction == "right" ==> r == Ok(90)
    ensures direction == "around" ==> r == Ok(180)
    ensures direction == "left" ==> r == Ok(270)
  {
    if direction == "right" then Ok(90)
    else if direction == "around" then Ok(180)
    else if direction == "left" then Ok(270)
    else Err(DirectionMessage)
  }

  /** The direction word for a rotation, if there is one. */
  function DirectionOf(degrees: int): (d: Option<string>)
    ensures d.Some? ==> d.value in Directions
  {
    if degrees == 90 then Some("right")
    else if degrees == 180 then Some("around")
    else if degrees == 270 then Some("left")
    else None
  }

  /** Every accepted direction maps to a rotation that maps back to it, and every
      rotation with a direction word comes from that word. */
  lemma DegreesRoundTrip(direction: string, degrees: int)
    ensures Degrees(direction).Ok? ==> DirectionOf(Degrees(direction).value) == Some(direction)
    ensures DirectionOf(degrees).Some? ==> Degrees(DirectionOf(degrees).value) == Ok(degrees)
  {
  }

  /** Different directions give different rotations. */
  lemma DegreesInjective(d1: string, d2: string)
    requires Degrees(d1).Ok? && Degrees(d2).Ok?
    requires Degrees(d1) == Degrees(d2)
    ensures d1 == d2
  {
    DegreesRoundTrip(d1, 0);
    DegreesRoundTrip(d2, 0);
  }

  /** The match is exact: other words, other capitalisations and the empty
      string are refused. */
  lemma OtherDirectionsRefused()
    ensures Degrees("up").Err? && Degrees("Right").Err? && Degrees("").Err?
  {
  }
}
