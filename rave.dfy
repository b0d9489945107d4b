/** Rave mode of the fast LED tick: three random `(pin, level)` picks per tick.
    The random picks are inputs here. */
module Rave {
  import opened Outputs

  /** `update_led` calls per rave tick. */
  const PICKS_PER_TICK := 3

  /** A pick `randint(0, 2)` for the pin and `randint(0, 1)` for the level can produce. */
  predicate ValidPick(w: Write) {
    IsPin(w.pin) && 0 <= w.level <= 1
  }

  /** The picks of one rave tick. */
  predicate ValidPicks(picks: seq<Write>) {
    |picks| == PICKS_PER_TICK && forall i :: 0 <= i < |picks| ==> ValidPick(picks[i])
  }

  /** The output writes of consecutive rave ticks, one round of picks per tick. */
  function RaveLog(rounds: seq<seq<Write>>): seq<Write> {
    if rounds == [] then [] else RaveLog(rounds[..|rounds| - 1]) + rounds[|rounds| - 1]
  }

  /** N rave ticks make exactly 3 * N output writes, each to a valid pin with level 0 or 1. */
  lemma {:induction false} RaveRounds(rounds: seq<seq<Write>>)
    requires forall r :: 0 <= r < |rounds| ==> ValidPicks(rounds[r])
    ensures |RaveLog(rounds)| == PICKS_PER_TICK * |rounds|
    ensures forall i :: 0 <= i < |RaveLog(rounds)| ==> ValidPick(RaveLog(rounds)[i])
  {
    if rounds != [] {
      var init, last := rounds[..|rounds| - 1], rounds[|rounds| - 1];
      RaveRounds(init);
      assert ValidPicks(rounds[|rounds| - 1]);
      var log := RaveLog(init) + last;
      forall i | 0 <= i < |log| ensures ValidPick(log[i]) {
        if i >= |RaveLog(init)| {
          assert log[i] == last[i - |RaveLog(init)|];
        }
      }
    }
  }
}
