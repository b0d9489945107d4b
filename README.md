# Workshop controller model

A Dafny model of the `Workshop` controller of the SPItest LED and thermocouple demo
(`src/spitest/adapter.py`). The controller owns three LEDs on an MCP23008 output
expander (GREEN = 0, YELLOW = 1, RED = 2), a MAX31856 thermocouple, and two periodic
callbacks:

- the **fast LED tick** (`LED_ioloop_callback`) runs the `task_mode` state machine:
  - `rave`: three random LED writes;
  - `traffic`: a 39-tick traffic-light cycle;
  - any other mode: nothing.
- the **slow temperature tick** (`temp_ioloop_callback`):
  - keeps a rolling average over a ten-slot circular buffer;
  - in `thermometer` mode, shows with one LED where the temperature lies between two
    bounds.

Layout:

- `outputs.dfy` (module `Outputs`): pin constants, the output writes, and `LastLevel`.
  - The output device is modelled as the sequence of `output(pin, level)` calls made to it.
  - `LastLevel` is the level a pin shows after a sequence of writes.
- `traffic.dfy` (module `Traffic`): the traffic automaton as a pure step function.
  - `Run` is `n` ticks of it.
  - The lemmas prove the counter bounds and the exact writes of one 39-tick cycle.
- `rave.dfy` (module `Rave`): the writes of rave ticks.
  - The random picks are inputs.
- `thermometer.dfy` (module `Thermometer`): which LED a temperature lights, and the
  writes of a thermometer tick.
- `rolling_average.dfy` (module `RollingAverage`): the reference rolling average
  (`Average`, the mean of the last `min(n, 10)` samples) and the buffer the controller
  builds (`Window`).
  - `WindowSum` and `BufferAverage` prove that summing the buffer and dividing by the
    controller's divisor gives the reference average.
- `workshop.dfy` (module `Adapter`): the `Workshop` class.
  - Its fields are those of the source: `ledStates` and `avgTempCalc` are arrays updated
    in place.
  - Ghost fields hold the output log (`log`) and the sample history (`samples`).
  - `Valid()` ties the fields to the pure definitions:
    - every `ledStates[p]` is the level last written to pin `p`;
    - the buffer is `Window(samples)`;
    - the cursor is `|samples| mod 10`;
    - the switch is set exactly when ten samples have been taken;
    - `tempCount` is the number of samples;
    - `avgTemp` is `Average(samples)`;
    - the traffic counter is below 39.

The thermocouple reading and the rave picks are parameters of the ticks. Temperatures
are `real`.

## Model

| member | source | states |
|---|---|---|
| Outputs.LastLevelAppend | src/spitest/adapter.py:355-360 | after more writes, a pin shows the last of the new writes to it, or its earlier level if none of them touch it |
| Outputs.LastLevelAfterWrite | src/spitest/adapter.py:355-360 | one write sets the level of its own pin and leaves every other pin as it was |
| Adapter.Workshop.constructor | src/spitest/adapter.py:149-189 | every pin is driven low once, in pin order, and `led_states` is all zero; the buffer is ten zeros; the bounds are 21.5 and 22.0; the mode is `command`; all counters are zero; the LED task is started when enabled; the invariant holds |
| Adapter.Workshop.SetTaskMode | src/spitest/adapter.py:259-261 | any string becomes the mode |
| Adapter.Workshop.SetLedState | src/spitest/adapter.py:263-266 | the chosen LED's state becomes the level and exactly that write is sent; the other LEDs keep their state; the mirror invariant is kept |
| Adapter.Workshop.UpdateLed | src/spitest/adapter.py:355-360 | the write is sent and the chosen LED's state becomes its level; the other LEDs keep their state; the mirror invariant is kept |
| Adapter.Workshop.SetTempBounds | src/spitest/adapter.py:268-269 | one bound is overwritten with no ordering check; the other is unchanged |
| Adapter.Workshop.StartLedTask | src/spitest/adapter.py:334-345 | the enable flag is set and a periodic callback exists |
| Adapter.Workshop.StopLedTask | src/spitest/adapter.py:350-353 | the enable flag is cleared; stopping succeeds exactly when a periodic callback was ever created |
| Adapter.Workshop.SetLedTaskEnable | src/spitest/adapter.py:323-331 | the enable flag ends as requested; a callback is created only when turning the task on; stopping through here never fails |
| Adapter.Workshop.LedIoloopCallback | src/spitest/adapter.py:362-397 | rave: the three picks are written in order and the rave counter goes up by one; traffic: the writes are `TickWrites` of the raised counter and the counters take one `Step`; any other mode: no write and no field changes; the invariant (counter below 39) is kept |
| Adapter.Workshop.RaveTick | src/spitest/adapter.py:367-370 | exactly the three picks are written, in order, and the rave counter goes up by exactly one |
| Adapter.Workshop.TrafficTick | src/spitest/adapter.py:373-394 | the counter is raised and then tested; the writes and new counters are those of `Traffic.TickWrites` and `Traffic.Step`; the counter stays in 0..38 |
| Adapter.Workshop.TempIoloopCallback | src/spitest/adapter.py:414-455 | the sample is appended to the history in every mode and the invariant is kept, so `temp_count` is the number of samples, `avg_temp` is the rolling average and the switch is set exactly from the tenth sample on; thermometer mode: the writes are `IndicatorWrites` and exactly the indicated LED is on; other modes: no write and the LEDs are untouched |
| Adapter.Workshop.RecordSample | src/spitest/adapter.py:422-441 | the buffer is the window of the extended history; `avg_temp` is the buffer sum divided by 10 once the switch is set and by the sample count before; the cursor moves one slot and wraps from 9 to 0 |
| Adapter.Workshop.BufferSum | src/spitest/adapter.py:426-427 | the loop's total is the sum of all ten slots |
| Adapter.Workshop.ShowTemperature | src/spitest/adapter.py:443-455 | all three LEDs are cleared, then only the indicated LED, if any, is lit; afterwards every LED's state is 1 if it is the indicated one and 0 otherwise |
| Traffic.Step | src/spitest/adapter.py:373-394 | one tick raises the total count of ticks the two counters record (`loops * 39 + wait`) by exactly one; `StepInRange` proves the range and the wrap |
| Traffic.TickWrites | src/spitest/adapter.py:376-391 | a tick writes something exactly when the raised counter is 2, 14, 22 or 34; every write is to a valid pin with level 0 or 1 |
| Traffic.StepInRange | src/spitest/adapter.py:373-394 | from a counter in 0..38 the counter stays in 0..38 and moves one place round the cycle; the loop counter goes up by one exactly when the counter was 38 |
| Traffic.RunAppend | src/spitest/adapter.py:373-394 | `a` ticks followed by `b` ticks are `a + b` ticks, writes concatenated |
| Traffic.RunQuiet | src/spitest/adapter.py:376-391 | ticks that reach no switch value write nothing and only advance the counter |
| Traffic.PhaseAfter | src/spitest/adapter.py:373-394 | after `n` ticks the counter is `(w + n) mod 39` and the loop counter has grown by `(w + n) div 39` |
| Traffic.Cycle | src/spitest/adapter.py:373-394 | from counter 0, 39 ticks return the counter to 0, add exactly one loop, and write exactly YELLOW←0, RED←1, YELLOW←1, RED←0, YELLOW←0, GREEN←1, GREEN←0, YELLOW←1 |
| Traffic.KthTick | src/spitest/adapter.py:376-391 | within a cycle from 0, the k-th tick adds exactly `TickWrites(k)`, which is empty unless k is 2, 14, 22 or 34 |
| Rave.RaveRounds | src/spitest/adapter.py:367-370 | N rave ticks make exactly 3N writes, each to pin 0..2 with level 0..1 |
| Thermometer.Indicator | src/spitest/adapter.py:449-455 | YELLOW iff t < lower; GREEN iff lower < t < upper; RED iff t > upper and t >= lower; the result is always a valid pin |
| Thermometer.IndicatorLevels | src/spitest/adapter.py:445-455 | after a thermometer tick, whatever the LEDs showed before, the indicated LED shows 1 and every other LED shows 0 |
| Thermometer.IndicatorWrites | src/spitest/adapter.py:445-455 | every write of a thermometer tick goes to a valid pin with level 0 or 1 |
| Thermometer.AtMostOneLit | src/spitest/adapter.py:445-455 | no two LEDs are lit after a thermometer tick |
| Thermometer.UnlitIff | src/spitest/adapter.py:449-455 | no LED is lit exactly when the bounds are ordered and the temperature equals one of them |
| Thermometer.InvertedBounds | src/spitest/adapter.py:449-455 | with upper < lower, green never lights and yellow or red always does |
| Thermometer.DefaultBoundsExamples | src/spitest/adapter.py:177 | with the default bounds, 21.0 lights yellow, 21.75 green and 22.5 red |
| RollingAverage.Slot | src/spitest/adapter.py:424-425 | the write cursor is always a slot index 0..9 |
| RollingAverage.SlotIsMod | src/spitest/adapter.py:424-439 | the cursor after `n` samples is `n mod 10` |
| RollingAverage.SlotsDiffer | src/spitest/adapter.py:424-439 | samples fewer than ten apart are written to different slots |
| RollingAverage.CursorAdvance | src/spitest/adapter.py:429-439 | the cursor moves to the next slot and wraps from 9 to 0 |
| RollingAverage.Recent | src/spitest/adapter.py:422-439 | the rolling average covers `min(n, 10)` samples |
| RollingAverage.RecentFilling | src/spitest/adapter.py:429-435 | until ten samples have been taken, every sample is averaged |
| RollingAverage.AverageOfRecent | src/spitest/adapter.py:422-439 | the rolling average is the mean of the recent samples |
| RollingAverage.Divisor | src/spitest/adapter.py:429-439 | after at least one sample the divisor is between 1 and 10 |
| RollingAverage.MeanIsQuotient | src/spitest/adapter.py:429-439 | `Mean` is the plain quotient |
| RollingAverage.Window | src/spitest/adapter.py:424-425 | the buffer after any history of samples, from the all-zero start of line 173, has exactly ten slots; its contents are stated by `WindowUnwritten` (unwritten slots are 0), `WindowHolds` (each recent sample is in its cursor's slot) and `WindowSum` (its sum is the recent samples' sum) |
| RollingAverage.WindowUnwritten | src/spitest/adapter.py:173 | slots not yet written still hold 0 |
| RollingAverage.WindowHolds | src/spitest/adapter.py:424-425 | each of the last ten samples is in the slot its cursor value selected |
| RollingAverage.WindowAppend | src/spitest/adapter.py:424 | a sample overwrites exactly the slot under the cursor |
| RollingAverage.EvictedSlot | src/spitest/adapter.py:424 | once the buffer is full, the cursor points at the sample taken ten samples earlier |
| RollingAverage.WindowDeltaFilling | src/spitest/adapter.py:424-427 | while the buffer fills, a new sample adds itself to the buffer sum |
| RollingAverage.WindowDeltaFull | src/spitest/adapter.py:424-427 | once the buffer is full, a new sample replaces the one taken ten samples earlier in the buffer sum |
| RollingAverage.RecentDeltaFull | src/spitest/adapter.py:422-439 | once ten samples have been taken, a new sample enters the last ten and the oldest leaves |
| RollingAverage.WindowSum | src/spitest/adapter.py:422-427 | the sum of all ten slots is the sum of the last `min(n, 10)` samples |
| RollingAverage.BufferAverage | src/spitest/adapter.py:426-439 | the buffer sum divided by the divisor is the rolling average |
| RollingAverage.AverageBeforeFull | src/spitest/adapter.py:434-435 | while fewer than ten samples have been taken, the average is the mean of all samples |
| RollingAverage.AverageWhenFull | src/spitest/adapter.py:429-439 | from the tenth sample on, the average is the mean of the last ten samples |
| RollingAverage.AverageOfConstant | src/spitest/adapter.py:422-439 | a constant reading gives that reading as the average, however many samples there are |

## Left out

- The `WorkshopAdapter` HTTP handlers and the JSON decoding are web glue around a
  framework that is not part of this model.
- The `ParameterTree` wiring of the getters and setters is left out: the tree is a
  foreign library.
  - Its `enable` leaf holds a boolean, not the `set_LED_task_enable` setter, so the LED
    task cannot be enabled through the tree at all.
  - Only the setters themselves are modelled.
- Tornado's `PeriodicCallback` scheduling and the real-time intervals are left out.
  - The callback's existence is the boolean `ledTimerCreated`.
  - The ticks are methods that a caller invokes.
- `start_LED_task` called while a callback already runs starts a second callback; this is
  not modelled, and the old one is not tracked.
- `set_LED_task_interval`, `start_temp_task`, `stop_temp_task` and `cleanup` are left out:
  they only store a float or start and stop a timer.
- `background_thread_task` and its counter `background_thread_counter` (set to 0 in `__init__`) are left out: the task is never launched and nothing else reads the counter.
- `get_server_uptime` (wall clock) and the version information are left out.
- The MCP23008 and MAX31856 drivers are left out.
  - The expander is the ghost write log.
  - The thermocouple reading is the `temperature` parameter.
  - The source reads the sensor twice per slow tick, once for a log message; only the
    reading it uses is modelled.
- Logging and printing are left out.
- Python floats are modelled as exact `real` numbers, so rounding in the average is not
  modelled.
- `random.randint` is not modelled: the three rave picks are a parameter, required to be
  in range only in rave mode.
- Adapter.Workshop.SetLedState requires a pin index 0..2 and Adapter.Workshop.UpdateLed
  does too; Python would also accept negative indexes or raise `IndexError`, but every
  caller passes a pin constant.
- Adapter.Workshop.SetTempBounds requires the index 0 or 1, the only values its callers
  pass.
- Adapter.Workshop.SetLedState takes the level as an integer; the `int(state)` conversion
  of other Python values is not modelled.
