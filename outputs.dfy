/** The output bank of the workshop board: three LEDs on an MCP23008 expander.
    The expander itself is not modelled; every `output(pin, level)` call sent to it
    is recorded as a `Write`, so the hardware state is a function of that log. */
module Outputs {

  /** Pin numbers of the three LEDs on the expander. */
  const GREEN := 0
  const YELLOW := 1
  const RED := 2

  /** Number of LED pins configured as outputs at start-up. */
  const PIN_COUNT := 3

  /** One `output(pin, level)` call on the expander. */
  datatype Write = Write(pin: int, level: int)

  predicate IsPin(p: int) {
    0 <= p < PIN_COUNT
  }

  /** The level most recently written to `pin` in `log`, or 0 if `log` never writes it. */
  function LastLevel(log: seq<Write>, pin: int): int {
    if log == [] then 0
    else if log[|log| - 1].pin == pin then log[|log| - 1].level
    else LastLevel(log[..|log| - 1], pin)
  }

  /** Whether some write in `ws` addresses `pin`. */
  predicate Touches(ws: seq<Write>, pin: int) {
    exists i :: 0 <= i < |ws| && ws[i].pin == pin
  }

  /** After more writes, a pin shows the last of the new writes to it, and keeps its
      old level if none of them addresses it. */
  lemma {:induction false} LastLevelAppend(log: seq<Write>, ws: seq<Write>, pin: int)
    ensures LastLevel(log + ws, pin) ==
            if Touches(ws, pin) then LastLevel(ws, pin) else LastLevel(log, pin)
  {
    if ws == [] {
      assert log + ws == log;
    } else {
      var init, w := ws[..|ws| - 1], ws[|ws| - 1];
      assert (log + ws)[..|log + ws| - 1] == log + init;
      if w.pin != pin {
        LastLevelAppend(log, init, pin);
        if Touches(ws, pin) {
          var i :| 0 <= i < |ws| && ws[i].pin == pin;
          assert init[i].pin == pin;
        }
        if Touches(init, pin) {
          var i :| 0 <= i < |init| && init[i].pin == pin;
          assert ws[i].pin == pin;
        }
      } else {
        assert ws[|ws| - 1].pin == pin;
      }
    }
  }

  /** A single write sets its own pin and leaves the other pins alone. */
  lemma LastLevelAfterWrite(log: seq<Write>, w: Write, pin: int)
    ensures LastLevel(log + [w], pin) == if w.pin == pin then w.level else LastLevel(log, pin)
  {
    LastLevelAppend(log, [w], pin);
    if Touches([w], pin) {
      var i :| 0 <= i < 1 && [w][i].pin == pin;
    }
  }
}
