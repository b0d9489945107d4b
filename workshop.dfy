/** The workshop controller: the state behind the LED and thermocouple demo, with its
    fast LED tick, its slow temperature tick and the small setters used by the
    parameter tree.

    The output expander is represented by the ghost `log` of every `output(pin, level)`
    call; `samples` is the ghost history of every temperature reading. The random picks
    of rave mode and the thermocouple reading are parameters of the ticks. */
module Adapter {
  import opened Outputs
  import Traffic
  import Rave
  import Thermometer
  import opened RollingAverage

  const COMMAND_MODE := "command"
  const RAVE_MODE := "rave"
  const TRAFFIC_MODE := "traffic"
  const THERMOMETER_MODE := "thermometer"

  /** Index of each bound in `tempBounds`. */
  const LOWER := 0
  const UPPER := 1

  class Workshop {
    // LED levels as last commanded, indexed by pin.
    var ledStates: array<int>
    ghost var log: seq<Write>

    // Thermocouple sampling and the rolling average.
    var avgTemp: real
    var avgTempCalc: array<real>
    var avgCount: nat
    var tenCountSwitch: bool
    var tempCount: nat
    ghost var samples: seq<real>
    var tempTaskEnable: bool
    var tempBounds: array<real>

    // The LED task.
    var taskMode: string
    var ledTaskEnable: bool
    var ledTaskInterval: real
    /** Whether a periodic callback for the LED task has ever been created. */
    var ledTimerCreated: bool
    var raveIoloopCounter: nat
    var trafficWaitCounter: nat
    var trafficLoopCounter: nat

    /** The LED mirror matches the level last sent to each pin. */
    ghost predicate LedsValid()
      reads this`ledStates, this`log, ledStates
    {
      && ledStates.Length == PIN_COUNT
      && forall p :: 0 <= p < PIN_COUNT ==> ledStates[p] == LastLevel(log, p)
    }

    /** The sampler's buffer, cursor, switch, count and published average are those
        of the sample history. */
    ghost predicate SamplerValid()
      reads this`avgTempCalc, this`samples, this`tempCount, this`avgCount,
            this`tenCountSwitch, this`avgTemp, avgTempCalc
    {
      && avgTempCalc.Length == WINDOW
      && tempCount == |samples|
      && avgCount == Slot(|samples|)
      && tenCountSwitch == (WINDOW <= |samples|)
      && (forall i :: 0 <= i < WINDOW ==> avgTempCalc[i] == Window(samples)[i])
      && avgTemp == Average(samples)
    }

    ghost predicate Valid()
      reads this, ledStates, avgTempCalc, tempBounds
    {
      && LedsValid()
      && SamplerValid()
      && tempBounds.Length == 2
      && avgTempCalc != tempBounds
      && trafficWaitCounter < Traffic.CYCLE
      // the LED task is only ever enabled by creating its periodic callback
      && (ledTaskEnable ==> ledTimerCreated)
    }

    constructor (ledTaskEnable: bool, ledTaskInterval: real, tempTaskEnable: bool)
      ensures Valid()
      ensures fresh(ledStates) && fresh(avgTempCalc) && fresh(tempBounds)
      ensures log == [Write(GREEN, 0), Write(YELLOW, 0), Write(RED, 0)]
      ensures ledStates[..] == [0, 0, 0]
      ensures samples == [] && avgTemp == 0.0 && tempCount == 0 && avgCount == 0 && !tenCountSwitch
      ensures avgTempCalc[..] == seq(WINDOW, _ => 0.0)
      ensures tempBounds[..] == [Thermometer.DEFAULT_LOWER, Thermometer.DEFAULT_UPPER]
      ensures taskMode == COMMAND_MODE
      ensures raveIoloopCounter == 0 && trafficWaitCounter == 0 && trafficLoopCounter == 0
      ensures this.ledTaskEnable == ledTaskEnable && ledTimerCreated == ledTaskEnable
      ensures this.ledTaskInterval == ledTaskInterval && this.tempTaskEnable == tempTaskEnable
    {
      // Every pin is configured as an output and driven low.
      ghost var writes: seq<Write> := [];
      var pin := 0;
      while pin < PIN_COUNT
        invariant 0 <= pin <= PIN_COUNT
        invariant writes == seq(pin, p => Write(p, 0))
      {
        writes := writes + [Write(pin, 0)];
        pin := pin + 1;
      }
      log := writes;
      ledStates := new int[PIN_COUNT](_ => 0);

      avgTemp := 0.0;
      avgTempCalc := new real[WINDOW](_ => 0.0);
      avgCount := 0;
      tenCountSwitch := false;
      this.tempTaskEnable := tempTaskEnable;
      var bounds := new real[2];
      bounds[LOWER], bounds[UPPER] := Thermometer.DEFAULT_LOWER, Thermometer.DEFAULT_UPPER;
      tempBounds := bounds;

      taskMode := COMMAND_MODE;
      this.ledTaskEnable := ledTaskEnable;
      this.ledTaskInterval := ledTaskInterval;
      ledTimerCreated := false;

      raveIoloopCounter := 0;
      trafficWaitCounter := 0;
      trafficLoopCounter := 0;
      tempCount := 0;
      samples := [];
      new;
      assert log == [Write(GREEN, 0)] + [Write(YELLOW, 0)] + [Write(RED, 0)];
      forall p | 0 <= p < PIN_COUNT
        ensures LastLevel(log, p) == 0
      {
        LastLevelAfterWrite([], Write(GREEN, 0), p);
        LastLevelAfterWrite([Write(GREEN, 0)], Write(YELLOW, 0), p);
        LastLevelAfterWrite([Write(GREEN, 0)] + [Write(YELLOW, 0)], Write(RED, 0), p);
      }
      forall i | 0 <= i < WINDOW {
        ZerosAreZero(WINDOW, i);
      }
      assert avgTempCalc[..] == Window(samples);
      if ledTaskEnable {
        StartLedTask();
      }
    }

    /** Store a new LED task mode; any string is accepted, and one that names no mode
        makes the fast tick do nothing. */
    method SetTaskMode(mode: string)
      modifies this`taskMode
      ensures taskMode == mode
    {
      taskMode := mode;
    }

    /** Set an LED from the parameter tree: record the level, then send it to the pin. */
    method SetLedState(led: int, state: int)
      requires LedsValid() && IsPin(led)
      modifies this`log, ledStates
      ensures LedsValid()
      ensures log == old(log) + [Write(led, state)]
      ensures ledStates[led] == state
      ensures forall p :: 0 <= p < PIN_COUNT && p != led ==> ledStates[p] == old(ledStates[p])
    {
      ledStates[led] := state;
      log := log + [Write(led, state)];
      forall p | 0 <= p < PIN_COUNT {
        LastLevelAfterWrite(old(log), Write(led, state), p);
      }
    }

    /** Set an LED from the ticks: send the level to the pin, then record it. */
    method UpdateLed(led: int, state: int)
      requires LedsValid() && IsPin(led)
      modifies this`log, ledStates
      ensures LedsValid()
      ensures log == old(log) + [Write(led, state)]
      ensures ledStates[led] == state
      ensures forall p :: 0 <= p < PIN_COUNT && p != led ==> ledStates[p] == old(ledStates[p])
    {
      log := log + [Write(led, state)];
      ledStates[led] := state;
      forall p | 0 <= p < PIN_COUNT {
        LastLevelAfterWrite(old(log), Write(led, state), p);
      }
    }

    /** Overwrite one temperature bound; the bounds are not kept in order. */
    method SetTempBounds(bound: int, temp: real)
      requires Valid() && (bound == LOWER || bound == UPPER)
      modifies tempBounds
      ensures Valid()
      ensures tempBounds[bound] == temp
      ensures tempBounds[1 - bound] == old(tempBounds[1 - bound])
    {
      tempBounds[bound] := temp;
    }

    /** Create and start the periodic callback of the LED task. */
    method StartLedTask()
      modifies this`ledTaskEnable, this`ledTimerCreated
      ensures ledTaskEnable && ledTimerCreated
    {
      ledTaskEnable := true;
      ledTimerCreated := true;
    }

    /** Stop the LED task. The enable flag is cleared first; stopping fails (`ok` is
        false) when no periodic callback was ever created. */
    method StopLedTask() returns (ok: bool)
      modifies this`ledTaskEnable
      ensures !ledTaskEnable
      ensures ok == ledTimerCreated
    {
      ledTaskEnable := false;
      ok := ledTimerCreated;
    }

    /** Start or stop the LED task, doing nothing when it is already as requested.
        Stopping through here never meets the missing-callback failure. */
    method SetLedTaskEnable(enable: bool)
      requires Valid()
      modifies this`ledTaskEnable, this`ledTimerCreated
      ensures Valid()
      ensures ledTaskEnable == enable
      ensures ledTimerCreated == (old(ledTimerCreated) || enable)
    {
      if enable != ledTaskEnable {
        if enable {
          StartLedTask();
        } else {
          var ok := StopLedTask();
          assert ok;
        }
      }
    }

    /** The fast LED tick. `picks` stands for the three `(randint(0, 2), randint(0, 1))`
        draws of a rave tick and is not used in the other modes. */
    method LedIoloopCallback(picks: seq<Write>)
      requires Valid()
      requires taskMode == RAVE_MODE ==> Rave.ValidPicks(picks)
      modifies this`log, ledStates, this`raveIoloopCounter, this`trafficWaitCounter,
               this`trafficLoopCounter
      ensures Valid()
      ensures taskMode == RAVE_MODE ==>
                && log == old(log) + picks
                && raveIoloopCounter == old(raveIoloopCounter) + 1
                && trafficWaitCounter == old(trafficWaitCounter)
                && trafficLoopCounter == old(trafficLoopCounter)
      ensures taskMode == TRAFFIC_MODE ==>
                && log == old(log) + Traffic.TickWrites(old(trafficWaitCounter) + 1)
                && Traffic.Phase(trafficWaitCounter, trafficLoopCounter) ==
                   Traffic.Step(Traffic.Phase(old(trafficWaitCounter), old(trafficLoopCounter)))
                && raveIoloopCounter == old(raveIoloopCounter)
      ensures taskMode != RAVE_MODE && taskMode != TRAFFIC_MODE ==>
                && log == old(log) && ledStates[..] == old(ledStates[..])
                && raveIoloopCounter == old(raveIoloopCounter)
                && trafficWaitCounter == old(trafficWaitCounter)
                && trafficLoopCounter == old(trafficLoopCounter)
    {
      if taskMode == RAVE_MODE {
        RaveTick(picks);
      }
      if taskMode == TRAFFIC_MODE {
        TrafficTick();
      }
    }

    /** Rave mode: send the three picks to the LEDs in order and count the tick. */
    method RaveTick(picks: seq<Write>)
      requires LedsValid() && Rave.ValidPicks(picks)
      modifies this`log, ledStates, this`raveIoloopCounter
      ensures LedsValid()
      ensures log == old(log) + picks
      ensures raveIoloopCounter == old(raveIoloopCounter) + 1
    {
      var i := 0;
      while i < Rave.PICKS_PER_TICK
        invariant 0 <= i <= Rave.PICKS_PER_TICK
        invariant LedsValid()
        invariant log == old(log) + picks[..i]
        invariant raveIoloopCounter == old(raveIoloopCounter)
      {
        UpdateLed(picks[i].pin, picks[i].level);
        assert picks[..i + 1] == picks[..i] + [picks[i]];
        i := i + 1;
      }
      assert picks[..Rave.PICKS_PER_TICK] == picks;
      raveIoloopCounter := raveIoloopCounter + 1;
    }

    /** Traffic mode: raise the wait counter, then change the lights at 2, 14, 22 and
        34, or start the cycle over and count it at 39. */
    method TrafficTick()
      requires LedsValid() && trafficWaitCounter < Traffic.CYCLE
      modifies this`log, ledStates, this`trafficWaitCounter, this`trafficLoopCounter
      ensures LedsValid() && trafficWaitCounter < Traffic.CYCLE
      ensures log == old(log) + Traffic.TickWrites(old(trafficWaitCounter) + 1)
      ensures Traffic.Phase(trafficWaitCounter, trafficLoopCounter) ==
              Traffic.Step(Traffic.Phase(old(trafficWaitCounter), old(trafficLoopCounter)))
    {
      trafficWaitCounter := trafficWaitCounter + 1;
      if trafficWaitCounter == 2 {
        UpdateLed(YELLOW, 0);
        UpdateLed(RED, 1);
      } else if trafficWaitCounter == 14 {
        UpdateLed(YELLOW, 1);
      } else if trafficWaitCounter == 22 {
        UpdateLed(RED, 0);
        UpdateLed(YELLOW, 0);
        UpdateLed(GREEN, 1);
      } else if trafficWaitCounter == 34 {
        UpdateLed(GREEN, 0);
        UpdateLed(YELLOW, 1);
      } else if trafficWaitCounter == Traffic.CYCLE {
        trafficWaitCounter := 0;
        trafficLoopCounter := trafficLoopCounter + 1;
      }
    }

    /** The slow temperature tick: record `temperature` in the rolling average, count
        it, and in thermometer mode show on the LEDs where it lies between the bounds. */
    method TempIoloopCallback(temperature: real)
      requires Valid()
      modifies this`avgTemp, avgTempCalc, this`avgCount, this`tenCountSwitch,
               this`tempCount, this`samples, this`log, ledStates
      ensures Valid()
      ensures samples == old(samples) + [temperature]
      ensures taskMode == THERMOMETER_MODE ==>
                && log == old(log) + Thermometer.IndicatorWrites(temperature, tempBounds[LOWER], tempBounds[UPPER])
                && forall p :: 0 <= p < PIN_COUNT ==>
                     ledStates[p] ==
                     if Thermometer.Indicator(temperature, tempBounds[LOWER], tempBounds[UPPER]) ==
                        Thermometer.Some(p) then 1 else 0
      ensures taskMode != THERMOMETER_MODE ==> log == old(log) && ledStates[..] == old(ledStates[..])
    {
      RecordSample(temperature);
      if taskMode == THERMOMETER_MODE {
        ShowTemperature(temperature, tempBounds[LOWER], tempBounds[UPPER]);
      }
    }

    /** The rolling-average half of the slow tick: write the cursor's slot, advance the
        cursor, sum the buffer and divide by the number of samples it holds. */
    method RecordSample(temperature: real)
      requires SamplerValid()
      modifies this`avgTemp, avgTempCalc, this`avgCount, this`tenCountSwitch,
               this`tempCount, this`samples
      ensures SamplerValid()
      ensures samples == old(samples) + [temperature]
      ensures avgTemp == Mean(Sum(avgTempCalc[..]), if tenCountSwitch then WINDOW else tempCount)
      ensures avgCount == if old(avgCount) == WINDOW - 1 then 0 else old(avgCount) + 1
      ensures tempCount == old(tempCount) + 1
    {
      assert avgTempCalc[..] == Window(samples);
      avgTempCalc[avgCount] := temperature;
      WindowAppend(samples, temperature);
      samples := samples + [temperature];
      assert avgTempCalc[..] == Window(samples);
      avgCount := avgCount + 1;
      var total := BufferSum();
      ghost var n := |samples|;
      ghost var mean := Mean(total, Divisor(n));
      assert Average(samples) == mean by {
        BufferAverage(samples);
      }
      CursorAdvance(n - 1);
      if tenCountSwitch {
        avgTemp := total / 10.0;
        if avgCount == 10 {
          avgCount := 0;
        }
      } else {
        CursorBelow(n - 1);
        if avgCount < 10 {
          avgTemp := Divide(total, avgCount);
        } else {
          tenCountSwitch := true;
          avgTemp := total / 10.0;
          avgCount := 0;
        }
      }
      assert avgTemp == mean;
      tempCount := tempCount + 1;
    }

    /** `total / count` for a count the rolling average can divide by. */
    static method Divide(total: real, count: int) returns (q: real)
      requires 0 < count <= WINDOW
      ensures q == Mean(total, count)
    {
      q := total / count as real;
      MeanIsQuotient(total, count);
    }

    /** The sum of every slot of the buffer, taken in slot order. */
    method BufferSum() returns (total: real)
      ensures total == Sum(avgTempCalc[..])
    {
      total := 0.0;
      var i := 0;
      while i < avgTempCalc.Length
        invariant 0 <= i <= avgTempCalc.Length
        invariant total == Sum(avgTempCalc[..i])
      {
        SumAppend(avgTempCalc[..i], avgTempCalc[i]);
        assert avgTempCalc[..i + 1] == avgTempCalc[..i] + [avgTempCalc[i]];
        total := total + avgTempCalc[i];
        i := i + 1;
      }
      assert avgTempCalc[..i] == avgTempCalc[..];
    }

    /** The thermometer half of the slow tick: clear the three LEDs, then light yellow
        below the lower bound, green strictly between the bounds, red above the upper. */
    method ShowTemperature(temperature: real, lower: real, upper: real)
      requires LedsValid()
      modifies this`log, ledStates
      ensures LedsValid()
      ensures log == old(log) + Thermometer.IndicatorWrites(temperature, lower, upper)
      ensures forall p :: 0 <= p < PIN_COUNT ==>
                ledStates[p] == if Thermometer.Indicator(temperature, lower, upper) ==
                                   Thermometer.Some(p) then 1 else 0
    {
      UpdateLed(RED, 0);
      UpdateLed(YELLOW, 0);
      UpdateLed(GREEN, 0);
      if temperature < lower {
        UpdateLed(YELLOW, 1);
      } else if temperature < upper && temperature > lower {
        UpdateLed(GREEN, 1);
      } else if temperature > upper {
        UpdateLed(RED, 1);
      }
      forall p | 0 <= p < PIN_COUNT {
        Thermometer.IndicatorLevels(old(log), temperature, lower, upper, p);
      }
    }
  }
}
