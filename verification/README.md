# Project Bionic choreography core in Dafny

A model of the servo choreography of Project Bionic, a twelve-servo walking
robot driven by an Arduino-style sketch. The model covers:

- the angle array and its fixed per-channel limits table;
- the gate `setAngle`, through which every write passes;
- the synchronised ramp `incrementServo`;
- the field splitter `getValue`;
- the seven maneuvers (`resetServos`, `stopRobot`, `startRobot`,
  `forwardRobot`, `backwardRobot`, `rightRobot`, `leftRobot`);
- the dispatch of a serial line in `serialEvent`;
- the `setup`/`loop` schedule;
- the integer part of `pulseWidth`.

Modules, one per concern:

| module | file | models |
|---|---|---|
| `Wrappers` | wrappers.dfy | `Option` |
| `Servos` | servos.dfy | channels, `limits`, `servoValues`, `setAngle` |
| `Arith` | arith.dfy | division and multiplication facts the ramp proofs use |
| `Pulse` | pulse.dfy | Arduino `map` and the tick conversion of `pulseWidth` |
| `Ramp` | ramp.dfy | `incrementServo` as pure passes and as a method with the firmware's loop |
| `Fields` | fields.dfy | `getValue` as the firmware's loop, against an independent split/join reference |
| `Maneuvers` | maneuvers.dfy | the maneuvers as step lists run by one interpreter |
| `Commands` | commands.dfy | `String::trim` and the decision chain of `serialEvent` |
| `Schedule` | schedule.dfy | `setup` and the counter-driven `loop` |

A maneuver is a list of steps:

- `Set(id, angle)`: one write through the gate.
- `Pause(ms)`: a delay, which changes nothing.
- `RampTo(targets, speed, inc)`: one call of the ramp.

`Maneuvers.Execute` runs a list and returns `None` when a ramp in it would
never end.

`Ramp.Reachable` says that one row can finish: its channel is already on
target, or else its target is legal, its distance is a multiple of the
step, and its first step is legal. With a step of at least 1 and valid,
distinct channels, the ramp terminates exactly when every row is
reachable. That is `Ramp.RampFeasible`:

- If every row is reachable, the ramp ends at `Ramp.Overwrite`: every
  listed channel on target and the rest untouched (`Ramp.RampRun`).
- If one row is not, no pass ever reports completion
  (`Ramp.NeverCompletes`).

Outside those conditions the loop can still end. A step of 0 with every
row already on target is one example: one pass completes. `Execute` does
not follow those cases (see "Left out").

### Where the code differs from what one might expect

- The ramp does not clamp. A channel whose distance is not a multiple of the
  step either overshoots and then oscillates (`Ramp.OvershootOscillates`),
  or stalls when the gate rejects the overshooting step
  (`Ramp.RejectedStepStalls`). Either way the ramp never ends
  (`Ramp.NeverCompletes`).
- Channels finish at different passes. A channel that reaches its target
  stays there while the others continue, and the ramp runs
  max(1, widest distance / step) passes.
- A line that is not a keyword is never ignored. "banana" has no second
  field, and with Arduino's `toInt` both fields read 0. That write is
  legal, so it drives body joint 0 to 0 degrees
  (`Commands.GarbageWritesChannelZero`).
- Keywords are compared with `strcmp`, which stops at a NUL character, so
  "start\0x" starts the robot (`Commands.NulEndsKeyword`).
- Only "start", "stop" and "backward" are serial keywords. Forward, left and
  right run only from `loop`.
- `stopRobot` ramps the segments in unit steps. From the firmware's initial
  array (all zeros) segment 5's first step, to 1 degree, is below its limit
  of 20, so stop run before any reset never returns
  (`Maneuvers.StopFromInitial`).
- `FREQUENCY` is 100.
- `pulseWidth` truncates with `int()` rather than rounding, and Arduino's
  `map` truncates toward zero (`Pulse.NegativeAngleTruncates`).

## Model

| member | source | states |
|---|---|---|
| Servos.SetAngle | Project_Bionic/src/main.cpp:50-62 | accepted exactly when the channel is 0..11 and the angle lies within that channel's limits; when accepted, only that channel changes and it becomes the angle; when rejected, nothing changes |
| Servos.SetAngleIdempotent | Project_Bionic/src/main.cpp:50-62 | repeating a write gives the same acceptance and the same array as writing once |
| Servos.SetAnglePreservesSafe | Project_Bionic/src/main.cpp:50-62 | once every channel is within its limits, any write, accepted or not, keeps it so |
| Servos.SetAngleNeverBreaksChannel | Project_Bionic/src/main.cpp:50-62 | a channel within its limits stays within them after any write |
| Servos.InitialLimits | Project_Bionic/src/main.cpp:24-34 | the initial all-zero array breaks the limits of channels 5, 7, 8 and 10 and of no other channel |
| Pulse.TruncDiv | Project_Bionic/src/main.cpp:40 | the quotient is truncated toward zero: for a non-negative dividend it is the floor, for a negative one the ceiling |
| Pulse.PulseMonotone | Project_Bionic/src/main.cpp:39-44 | a larger angle never gives a shorter pulse nor fewer ticks |
| Pulse.PulseOfAngle | Project_Bionic/src/main.cpp:40 | for a non-negative angle the pulse above 600 µs is 2000 * angle / 180 rounded down |
| Pulse.PulseWidth | Project_Bionic/src/main.cpp:39-44 | the tick count of `pulseWidth`: Arduino `map` of the angle onto 600..2600 µs, then scaled to the 100 Hz, 12-bit counter, both truncated; its range is stated by `Pulse.PulseRange` and its monotonicity by `Pulse.PulseMonotone` |
| Pulse.PulseRange | Project_Bionic/src/main.cpp:39-44 | 0 and 180 degrees map to 600 and 2600 µs; angles between map between them, to 245..1064 ticks, inside the 12-bit counter |
| Pulse.NegativeAngleTruncates | Project_Bionic/src/main.cpp:40 | -1 degree maps to 589 µs, the truncated quotient rather than the floored 588 |
| Ramp.Nudge | Project_Bionic/src/main.cpp:87-91 | one visit moves the channel one unclamped step toward its target when that step passes the gate, and otherwise leaves it |
| Ramp.PassEffect | Project_Bionic/src/main.cpp:85-95 | with distinct channels, a pass visits each listed channel once and leaves the rest alone; its flag is set exactly when every listed channel is on target at the end |
| Ramp.NudgeReachable | Project_Bionic/src/main.cpp:87-91 | from a reachable angle a visit takes exactly one step, shortens the distance by the step and keeps the channel reachable |
| Ramp.NudgeUnreachable | Project_Bionic/src/main.cpp:87-91 | from an unreachable angle every visit leaves the channel unreachable |
| Ramp.PassProgress | Project_Bionic/src/main.cpp:83-96 | an unfinished pass from a feasible state keeps it feasible and strictly shrinks the remaining travel, so the loop terminates |
| Ramp.RampRun | Project_Bionic/src/main.cpp:83-96 | repeating passes until one completes ends at the reference result: listed channels on target, others untouched |
| Ramp.NeverCompletes | Project_Bionic/src/main.cpp:83-96 | with a step of at least 1 and valid, distinct channels, one unreachable row keeps every pass, however many have run, from completing |
| Ramp.OvershootOscillates | Project_Bionic/src/main.cpp:87-91 | a channel at 10 ramped to 15 by 10 goes to 20 and back to 10, each pass unfinished |
| Ramp.RejectedStepStalls | Project_Bionic/src/main.cpp:87-91 | channel 3 at 70 ramped to 75 by 10 stays at 70, because the gate rejects 80, and the pass is unfinished |
| Ramp.IterAdvanced | Project_Bionic/src/main.cpp:83-96 | after n passes every listed channel has moved n steps toward its target, stopping at it, and the others are untouched |
| Ramp.IterReached | Project_Bionic/src/main.cpp:83-96 | after n >= 1 passes all listed channels are on target exactly when n is at least max(1, widest distance / step) |
| Ramp.IterComplete | Project_Bionic/src/main.cpp:93 | the flag of pass n + 1 is set exactly when that pass is the last one needed |
| Ramp.IterFinal | Project_Bionic/src/main.cpp:83-96 | after exactly the needed number of passes the array is the ramp's result, and those passes cover the widest distance |
| Ramp.IncrementServo | Project_Bionic/src/main.cpp:80-97 | on a feasible table, the loop ends with every listed channel on target and the others unchanged, after max(1, widest distance / step) passes; it keeps channels within limits |
| Fields.SplitPiecesPlain | Project_Bionic/src/main.cpp:71 | no piece of the reference split contains the separator |
| Fields.ScanSpec | Project_Bionic/src/main.cpp:70-77 | the loop, run from a state meeting its invariant, ends with the bounds of field `index` of the reference split when the text has that field, and with at most `index` fields found otherwise |
| Fields.GetValue | Project_Bionic/src/main.cpp:64-78 | the result is field `index` of the reference split, with the separator-or-last-character rule, or "" when there is no such field |
| Fields.SplitJoin | Project_Bionic/src/main.cpp:64-78 | splitting text joined from separator-free pieces gives the pieces back |
| Fields.FieldsJoin | Project_Bionic/src/main.cpp:71-74 | the loop's fields of such text are the pieces, when the last piece is not empty |
| Fields.GetValueJoin | Project_Bionic/src/main.cpp:64-78 | on text joined from separator-free fields whose last field is not empty, field k is returned for k within range, and "" beyond |
| Fields.GetValueEmpty | Project_Bionic/src/main.cpp:68-77 | empty text yields "" for every index |
| Fields.TrailingSeparatorKept | Project_Bionic/src/main.cpp:71-74 | a trailing separator stays in the last field: "a " gives field 0 = "a " and field 1 = "" |
| Commands.Trim | Project_Bionic/src/main.cpp:322 | only whitespace is removed: the result is the slice of the line left after dropping whitespace before and after it, and it neither starts nor ends with whitespace |
| Commands.TrimPadding | Project_Bionic/src/main.cpp:322 | non-empty text that neither starts nor ends with whitespace, padded on both sides with whitespace, trims back to itself |
| Commands.TrimIdempotent | Project_Bionic/src/main.cpp:322 | trimming twice is trimming once |
| Commands.PaddedStop | Project_Bionic/src/main.cpp:321-322 | the line " stop\r\n" trims to "stop" |
| Commands.SerialEvent | Project_Bionic/src/main.cpp:319-342 | one line read: trimmed, then run as start, stop or backward when its text before any NUL character equals that keyword, and otherwise as one gated write of its two fields; the effects are stated by `Commands.StartCommand`, `Commands.StopCommand`, `Commands.BackwardCommand` and `Commands.WriteCommand` |
| Commands.Parse | Project_Bionic/src/main.cpp:324-338 | a line is the start, stop or backward command exactly when its text before the first NUL character equals that keyword, as `String ==` compares with `strcmp` |
| Commands.CTextIs | Project_Bionic/src/main.cpp:324-332 | a line compares equal to a keyword exactly when it is the keyword, or the keyword followed by a NUL character and anything after it |
| Commands.NulEndsKeyword | Project_Bionic/src/main.cpp:324-326 | the line "start\0x" runs start: the comparison stops at the NUL character |
| Commands.WriteCommand | Project_Bionic/src/main.cpp:333-338 | a line whose trimmed text before any NUL character is no keyword performs exactly one gated write, of `toInt` of field 1 to channel `toInt` of field 0, and nothing else |
| Commands.TwoFieldLine | Project_Bionic/src/main.cpp:333-337 | a line trimming to "a b", two space-free fields, whose text before any NUL character is no keyword, writes `toInt(b)` to channel `toInt(a)` through the gate |
| Commands.PlainTwoFieldLine | Project_Bionic/src/main.cpp:333-337 | a NUL-free line trimming to "a b", two space-free fields and no keyword, writes `toInt(b)` to channel `toInt(a)` through the gate |
| Commands.OneWordLine | Project_Bionic/src/main.cpp:333-337 | a NUL-free line trimming to one word that is no keyword writes `toInt("")` to channel `toInt` of that word through the gate |
| Commands.FiveThirty | Project_Bionic/src/main.cpp:333-337 | "5 30" moves segment 5 to 30 degrees |
| Commands.GarbageWritesChannelZero | Project_Bionic/src/main.cpp:333-337 | "banana" is not ignored: both fields read 0 and body joint 0 is driven to 0 degrees |
| Commands.StartCommand | Project_Bionic/src/main.cpp:324-326 | a line whose trimmed text before any NUL character is "start" stands the robot up from any state |
| Commands.StopCommand | Project_Bionic/src/main.cpp:327-329 | a line whose trimmed text before any NUL character is "stop" returns exactly when its segment ramp terminates, and then leaves the resting pose |
| Commands.BackwardCommand | Project_Bionic/src/main.cpp:330-332 | a line whose trimmed text before any NUL character is "backward" walks the robot into the backward stance from any state |
| Maneuvers.Execute | Project_Bionic/src/main.cpp:50-62 | runs a step list: a `Set` goes through the gate, a `Pause` changes nothing, a `RampTo` is the ramp of lines 80-97 and yields `None` on a table that is not feasible; `Maneuvers.ExecutePreservesSafe` states what it preserves and `Ramp.RampRun` what a ramp leaves |
| Maneuvers.ExecutePreservesSafe | Project_Bionic/src/main.cpp:99-317 | no list of steps, and so no maneuver, takes a state with every channel in limits out of its limits |
| Maneuvers.HomeAndStandingSafe | Project_Bionic/src/main.cpp:24-28 | the resting and standing poses lie within every channel's limits |
| Maneuvers.PoseWritesLegal | Project_Bionic/src/main.cpp:99-165 | every literal write of reset, stop and start lies within its channel's limits, so none is rejected |
| Maneuvers.StopRampAccepted | Project_Bionic/src/main.cpp:125-127 | with the segments within their limits, the gate accepts every step of stop's segment ramp, in every pass |
| Ramp.FeasibleStepsAccepted | Project_Bionic/src/main.cpp:83-96 | on a feasible table, every pass keeps the table feasible and every step it takes passes the gate |
| Maneuvers.GaitWritesLegal | Project_Bionic/src/main.cpp:167-317 | every literal write of forward, backward, right and left lies within its channel's limits, so none is rejected |
| Maneuvers.ResetSteps | Project_Bionic/src/main.cpp:99-120 | the writes and delays of `resetServos` in order; their effect is stated by `Maneuvers.ResetFromAny` |
| Maneuvers.StopSteps | Project_Bionic/src/main.cpp:122-142 | the unit segment ramp and then the claw and body writes of `stopRobot`; their effect is stated by `Maneuvers.StopEffect` |
| Maneuvers.StartSteps | Project_Bionic/src/main.cpp:144-165 | the body, claw and segment writes of `startRobot`; their effect is stated by `Maneuvers.StartFromAny` |
| Maneuvers.ForwardSteps | Project_Bionic/src/main.cpp:167-205 | the two strokes of `forwardRobot`; their effect is stated by `Maneuvers.ForwardFromAny` |
| Maneuvers.BackwardSteps | Project_Bionic/src/main.cpp:207-245 | the two strokes of `backwardRobot`; their effect is stated by `Maneuvers.BackwardFromAny` |
| Maneuvers.RightSteps | Project_Bionic/src/main.cpp:247-281 | the swing and ramp angles of `rightRobot`; their effect is stated by `Maneuvers.RightFromAny` |
| Maneuvers.LeftSteps | Project_Bionic/src/main.cpp:283-317 | the swing and ramp angles of `leftRobot`; their effect is stated by `Maneuvers.LeftFromAny` |
| Maneuvers.ResetFromAny | Project_Bionic/src/main.cpp:99-120 | reset ends in the resting pose 10, 70, 20, 65, 0, 90, 0, 90, 20, 60, 10, 80 from any state |
| Maneuvers.ResetEstablishesSafe | Project_Bionic/src/main.cpp:99-120 | reset brings every channel within its limits from any state, the initial array included |
| Maneuvers.StartFromAny | Project_Bionic/src/main.cpp:144-165 | start ends in the standing pose 60, 20, 80, 20, 60, 30, 60, 30, 60, 30, 50, 30 from any state |
| Maneuvers.StopEffect | Project_Bionic/src/main.cpp:122-142 | stop ends exactly when its unit segment ramp terminates, and then in the resting pose |
| Maneuvers.StopFromLegalSegments | Project_Bionic/src/main.cpp:122-142 | stop ends in the resting pose from any state whose segments are within their limits |
| Maneuvers.StopFromInitial | Project_Bionic/src/main.cpp:125-127 | stop run on the initial array never ends: no pass of its ramp ever completes |
| Maneuvers.StartThenStop | Project_Bionic/src/main.cpp:122-165 | start followed by stop returns any state to the resting pose |
| Maneuvers.ForwardFromAny | Project_Bionic/src/main.cpp:167-205 | forward ends with body 80, 70, 30, 15, segments 60, 30, 60, 30 and claws unchanged, from any state |
| Maneuvers.BackwardFromAny | Project_Bionic/src/main.cpp:207-245 | backward ends with body 20, 20, 80, 55, segments 60, 30, 60, 30 and claws unchanged, from any state |
| Maneuvers.TurnFromAny | Project_Bionic/src/main.cpp:247-317 | a turn with legal angles ends with the body at its ramp targets, segments 60, 30, 60, 30 and claws unchanged |
| Maneuvers.RightFromAny | Project_Bionic/src/main.cpp:247-281 | right ends with body 60, 40, 60, 50, segments 60, 30, 60, 30 and claws unchanged, from any state |
| Maneuvers.LeftFromAny | Project_Bionic/src/main.cpp:283-317 | left ends with body 40, 30, 50, 25, segments 60, 30, 60, 30 and claws unchanged, from any state |
| Schedule.Choose | Project_Bionic/src/main.cpp:361-397 | no maneuver runs exactly when the counter is 50 or more; start runs exactly when it is 0 |
| Schedule.Loop | Project_Bionic/src/main.cpp:360-399 | from 50 on a call changes nothing; below 50 a call that returns advances the counter by one |
| Schedule.LoopRuns | Project_Bionic/src/main.cpp:360-397 | below 50 every call returns, leaving the chosen maneuver's pose |
| Schedule.MoveFromAny | Project_Bionic/src/main.cpp:361-397 | each maneuver the loop can choose ends from any state: start standing, a gait in its stance |
| Schedule.RunFromZero | Project_Bionic/src/main.cpp:360-399 | from counter 0, the first n <= 50 calls all return and leave the counter at n and the last maneuver's pose |
| Schedule.IdleAfterFifty | Project_Bionic/src/main.cpp:391-399 | from 50 on, any number of calls leaves the robot unchanged |
| Schedule.Setup | Project_Bionic/src/main.cpp:345-357 | `setup` runs reset on the initial all-zero array; its result is stated by `Schedule.SetupRests` |
| Schedule.SetupRests | Project_Bionic/src/main.cpp:345-357 | setup leaves the resting pose |
| Schedule.Settled | Project_Bionic/src/main.cpp:345-399 | after setup, 50 or more calls leave body 20, 20, 80, 55, segments 60, 30, 60, 30, claws 60, 30, 50, 30 and the counter at 50 |

## Left out

- Hardware and I/O are not modelled: the PWM driver (`pwm.begin`, `setPWMFreq`, `setPWM`), I2C, `Serial`, `debugMsg`, `pinMode` and `digitalWrite`. A rejected write's diagnostic line is represented only by the gate's `accepted` flag.
- `delay` and the ramp's `speed` argument only affect timing. A `Pause` step changes nothing, and `speed` is carried in `RampTo` but unused.
- Pulse.PulseWidth: the float conversion of the duty is modelled as the exact rational quotient truncated toward zero. Float rounding of that quotient is not modelled.
- Arduino's `String::toInt` is foreign library code. It is a function parameter of `Commands.Parse`, constrained only where a lemma says so, and the narrowing of its `long` result to `int` is part of that parameter, as is where its `atol` stops reading, a NUL character included.
- The `while (Serial.available())` loop and `readString`'s timeout are not modelled. `Commands.SerialEvent` handles one line as read.
- `Maneuvers.Execute` yields `None` for every ramp whose table is not feasible. For a step of at least 1 and valid, distinct channels these are exactly the ramps that never end. It also yields `None` for a step below 1 or for repeated or invalid channels, even where the firmware's loop would end, for example a step of 0 with every row already on target. No maneuver passes such a table.
- Ramp.IncrementServo: requires a feasible table. With a step of at least 1 and valid, distinct channels, any other table makes the firmware's loop run forever (`Ramp.NeverCompletes`), and a method that must return cannot express that. The method does not cover a step below 1 or repeated or invalid channels, where the loop may or may not end.
- On the board `serialEvent` runs between calls of `loop`. The schedule lemmas (`Schedule.RunFromZero`, `Schedule.Settled` and the rest) describe the robot with no serial line arriving between calls.
- Fields.GetValue: the index is a natural number. The firmware takes a C `int`, but it is only ever called with 0 and 1.
- Integer widths are not modelled. Angles, pulse widths and ticks stay far below 32-bit bounds, and the intermediate `map` product fits in Arduino's `long`.
- `src/main.cpp`, an earlier revision with one hard-wired PWM write, is not part of this model.
