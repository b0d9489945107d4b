/** Thermometer mode of the slow tick: all three LEDs are cleared, then at most one is
    lit according to where the temperature lies with respect to the two bounds. */
module Thermometer {
  import opened Outputs

  datatype Option<T> = None | Some(value: T)

  /** Bounds the controller starts with. */
  const DEFAULT_LOWER := 21.5
  const DEFAULT_UPPER := 22.0

  /** The LED that indicates temperature `t`, if any. The bounds are not required to
      be ordered. */
  function Indicator(t: real, lower: real, upper: real): (lit: Option<int>)
    ensures lit.Some? ==> IsPin(lit.value)
    ensures lit == Some(YELLOW) <==> t < lower
    ensures lit == Some(GREEN) <==> lower < t < upper
    ensures lit == Some(RED) <==> lower <= t && upper < t
  {
    if t < lower then Some(YELLOW)
    else if t < upper && t > lower then Some(GREEN)
    else if t > upper then Some(RED)
    else None
  }

  /** The output writes of one thermometer-mode slow tick. */
  function IndicatorWrites(t: real, lower: real, upper: real): (ws: seq<Write>)
    ensures forall i :: 0 <= i < |ws| ==> IsPin(ws[i].pin) && 0 <= ws[i].level <= 1
  {
    var off := [Write(RED, 0), Write(YELLOW, 0), Write(GREEN, 0)];
    match Indicator(t, lower, upper)
    case Some(p) => off + [Write(p, 1)]
    case None => off
  }

  /** After a thermometer tick the indicated LED is on and every other LED is off,
      whatever the LEDs showed before. */
  lemma IndicatorLevels(log: seq<Write>, t: real, lower: real, upper: real, pin: int)
    requires IsPin(pin)
    ensures LastLevel(log + IndicatorWrites(t, lower, upper), pin) ==
            if Indicator(t, lower, upper) == Some(pin) then 1 else 0
  {
    var l1 := log + [Write(RED, 0)];
    var l2 := l1 + [Write(YELLOW, 0)];
    var l3 := l2 + [Write(GREEN, 0)];
    assert log + [Write(RED, 0), Write(YELLOW, 0), Write(GREEN, 0)] == l3;
    LastLevelAfterWrite(log, Write(RED, 0), pin);
    LastLevelAfterWrite(l1, Write(YELLOW, 0), pin);
    LastLevelAfterWrite(l2, Write(GREEN, 0), pin);
    assert LastLevel(l3, pin) == 0;
    match Indicator(t, lower, upper)
    case Some(p) =>
      assert log + IndicatorWrites(t, lower, upper) == l3 + [Write(p, 1)];
      LastLevelAfterWrite(l3, Write(p, 1), pin);
    case None =>
  }

  /** No two LEDs are lit at once after a thermometer tick. */
  lemma AtMostOneLit(log: seq<Write>, t: real, lower: real, upper: real, p: int, q: int)
    requires IsPin(p) && IsPin(q)
    requires LastLevel(log + IndicatorWrites(t, lower, upper), p) == 1
    requires LastLevel(log + IndicatorWrites(t, lower, upper), q) == 1
    ensures p == q
  {
    IndicatorLevels(log, t, lower, upper, p);
    IndicatorLevels(log, t, lower, upper, q);
  }

  /** No LED is lit exactly when the bounds are ordered and the temperature equals one. */
  lemma UnlitIff(t: real, lower: real, upper: real)
    ensures Indicator(t, lower, upper) == None <==> lower <= upper && (t == lower || t == upper)
  {
  }

  /** With inverted bounds green can never light and some LED always does. */
  lemma InvertedBounds(t: real, lower: real, upper: real)
    requires upper < lower
    ensures Indicator(t, lower, upper) == if t < lower then Some(YELLOW) else Some(RED)
  {
  }

  /** The three readings the controller's default bounds are meant to separate. */
  lemma DefaultBoundsExamples()
    ensures Indicator(21.0, DEFAULT_LOWER, DEFAULT_UPPER) == Some(YELLOW)
    ensures Indicator(21.75, DEFAULT_LOWER, DEFAULT_UPPER) == Some(GREEN)
    ensures Indicator(22.5, DEFAULT_LOWER, DEFAULT_UPPER) == Some(RED)
  {
  }
}
