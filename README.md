# auto-roast in Dafny

auto-roast drives a FreshRoast SR800 coffee roaster open-loop. A
microcontroller runs the firmware. A servo presses the roaster's mode
button and a stepper motor turns its adjustment knob. Byte commands arrive
over a serial line. The firmware never sees the roaster's display: it keeps
a *believed* state (display mode, fan and power levels, roast start, last
click) and updates that belief after every action. This project models that
firmware core, its earlier revisions and a few small desktop-side pieces,
and proves properties of them.

What the model covers, file by file:

- `autoroast.dfy` (`AutoRoast`)
  - The display-mode cycle: `ControlMode`, `Next`, `String` and
    `TerminationChar`.
  - `ClicksTo`: the number of clicks after which `GoToMode`'s loop stops.
  - main.go declares the same enumeration and `Next` again; the model keeps
    one copy.
- `pins.dfy` (`Pins`)
  - Pin writes and the 4-row and 8-row coil tables.
- `stepper.dfy` (`FirmwareStepper`)
  - The phase-keeping stepper driver: a class with the `currentStep` field
    and the log of pin writes.
  - Every method is proved against spec functions, and the modular facts
    are proved about those functions.
- `device.dfy` (`FirmwareDevice`)
  - The firmware `Device` as a class whose fields mirror the Go struct.
  - The servo is a trace of `Press`/`Rest` moves. Its failures come from a
    script the caller chooses.
  - The stepper is the real `Stepper` object. The counts it receives are
    recorded.
  - Each method is tied to a pure function on `DeviceState`. The lemmas
    state what each operation does.
  - Time is an integer `now` in milliseconds, passed in by the caller.
- `calls.dfy` (`ControllerCalls`)
  - The methods of the `Controller` interface as a `Call` datatype.
  - The error messages, and `b2i`.
- `serial.dfy` (`Serial`)
  - The serial input is a finite sequence of reads, each a byte with its
    arrival time or a failed read.
  - `Frames` cuts that sequence into commands: flag byte plus exactly
    `InputSize` argument bytes, skipping failed reads and non-flag bytes.
  - `ReadFrame` is the argument loop.
- `firmware_commands.dfy` (`FirmwareCommands`)
  - Every closure of firmware/commands/commands.go as a function from its
    input to the calls it makes and the error it returns.
  - The command table, the help text and the flag map.
- `firmware_run.dfy` (`FirmwareRun`)
  - The `Run` loop driving a `Device`.
  - Each call is given its meaning on the device's state.
  - `Run` over a stream is proved equal to running every frame in order.
  - `FixFanResync`/`FixPowerResync` compose the `f`/`p` closures with
    `Device.SetFan`/`SetPower`. They show the believed level is restored,
    while the knob moves by the difference from the fixed value.
- `legacy_commands.dfy` (`LegacyCommands`)
  - The older commands.go: its closures, compared one by one with the
    firmware's.
  - Its `RunCommands` loop and `readLine`.
  - The sequences `F1P1 D` and `D f5 p6 D` worked through.
- `early_state.dfy` (`EarlyState`)
  - The first `State` of main.go: a class whose stubs change nothing.
- `working_stepper.dfy` (`WorkingStepperDriver`)
  - The phase-less `WorkingStepper` of controller/stepper.go.
  - Its pin writes are proved to be `4·|n|` one-coil rows that do not depend
    on history.
- `probes.dfy` (`Probes`)
  - `ParseProbes` of twchart/client.go as a loop, proved against the pure
    `Parse`.
  - Splitting, trimming, the integer scan and the error order are given
    their own lemmas.
- `roast_stage.dfy` (`RoastStage`)
  - The roast stages of ui/state.go: order, names and commands.
- `log_writer.dfy` (`LogWriter`)
  - `RoasterUI.Write`: the log-byte filter that works in place on the
    caller's array, and the text it appends.

`Device.Move` is modelled as written. Before deciding whether to backstep,
it adds the variable `backsteps` to the rounded count while `backsteps` is
still 0. So the stepper first receives the rounded count unchanged. When
`StepsPerIncrement / BackstepRatio` truncates to a non-zero `k`, a second
call follows: `-k` for a non-negative count, `+k` for a negative one
(`FirmwareDevice.StepperCalls`).

## Model

| member | source | states |
|---|---|---|
| AutoRoast.Ordinal | autoroast.go:8-13 | the iota order: values 0..3, 0 exactly for Unknown |
| AutoRoast.FromOrdinal | autoroast.go:8-13 | inverse of the iota order on 0..3 |
| AutoRoast.Next | autoroast.go:31-36 | never Unknown; the underlying integer goes from n to n mod 3 + 1, so Timer wraps to Fan and Unknown goes to Fan |
| AutoRoast.Name | autoroast.go:15-28 | "Fan", "Power", "Timer" for the three modes, and "Unknown" exactly for Unknown |
| AutoRoast.NextCycle | autoroast.go:31-36 | on a real mode, one or two clicks never return to it and three always do |
| AutoRoast.NextOfEachMode | main.go:23-28 | Fan→Power→Timer→Fan, and Unknown→Fan |
| AutoRoast.ClicksTo | firmware/device/controller.go:133-137 | clicks of the `GoToMode` loop: at most 3, at most 2 from a real mode, 0 exactly when already there; that many `Next`s reach the target |
| AutoRoast.ClicksToNext | firmware/device/controller.go:133-137 | each click brings the display one click nearer the target |
| AutoRoast.ClicksToIsLeast | firmware/device/controller.go:133-137 | no shorter run of clicks reaches the target |
| AutoRoast.NextNShift | firmware/device/controller.go:133-137 | k+1 clicks from m are k clicks from Next(m) |
| Pins.PatternWrites | firmware/controller/stepper.go:79-81 | one step sets the four pins in wiring order, four writes |
| Pins.PatternsWrites | firmware/controller/stepper.go:106-116 | a run of steps writes four pins per row |
| Pins.FullStepOneCoil | firmware/controller/stepper.go:60-65 | every full-step row energises exactly one coil |
| Pins.HalfStepCoilCounts | firmware/controller/stepper.go:48-57 | even half-step rows energise one coil, odd rows two |
| Pins.HalfStepAdjacentRows | firmware/controller/stepper.go:48-57 | cyclically adjacent half-step rows differ in exactly one coil |
| FirmwareStepper.EffectiveStepDelay | firmware/controller/stepper.go:30-32 | a zero delay is replaced by the 2000 µs default, any other kept |
| FirmwareStepper.SequenceLen | firmware/controller/stepper.go:85-88 | 8 exactly for half-step mode, 4 for every other mode |
| FirmwareStepper.Succ | firmware/controller/stepper.go:90 | the forward phase stays in [0, len) |
| FirmwareStepper.Pred | firmware/controller/stepper.go:101 | the backward phase stays in [0, len) |
| FirmwareStepper.Advance | firmware/controller/stepper.go:107-110 | k forward steps keep the phase in [0, len) |
| FirmwareStepper.Retreat | firmware/controller/stepper.go:111-114 | k backward steps keep the phase in [0, len) |
| FirmwareStepper.ForwardWrites | firmware/controller/stepper.go:107-110 | k forward steps write 4·k pins |
| FirmwareStepper.BackwardWrites | firmware/controller/stepper.go:111-114 | k backward steps write 4·k pins |
| FirmwareStepper.MoveWrites | firmware/controller/stepper.go:106-116 | Move(n) writes 4·\|n\| pins, none for Move(0) |
| FirmwareStepper.MovePhase | firmware/controller/stepper.go:106-116 | the phase after Move(n) stays in [0, len) |
| FirmwareStepper.PhaseAfter | firmware/controller/stepper.go:106-116 | the phase after a run of moves stays in [0, len) |
| FirmwareStepper.MovesSnoc | firmware/controller/stepper.go:106-116 | one more move continues from the phase the earlier ones left and appends its writes |
| FirmwareStepper.MovePhaseIsModulo | firmware/controller/stepper.go:84-116 | after Move(n) the phase is (old + n) mod len, Euclidean |
| FirmwareStepper.PhaseAfterIsSum | firmware/controller/stepper.go:84-116 | after any run of moves from phase 0 the phase is their sum mod len |
| FirmwareStepper.SuccIsModulo | firmware/controller/stepper.go:90 | a forward step is (cs + 1) mod len |
| FirmwareStepper.PredIsModulo | firmware/controller/stepper.go:101 | a backward step is (cs − 1 + len) mod len |
| FirmwareStepper.AdvanceIsModulo | firmware/controller/stepper.go:107-110 | k forward steps are (c + k) mod len |
| FirmwareStepper.RetreatIsModulo | firmware/controller/stepper.go:111-114 | k backward steps are (c − k) mod len |
| FirmwareStepper.StepsAreInverse | firmware/controller/stepper.go:84-104 | a forward and a backward step undo each other, in either order |
| FirmwareStepper.MoveThenBack | firmware/controller/stepper.go:106-116 | from any phase in the table, MovePhase of Move(n) then Move(−n) is the phase started from |
| FirmwareStepper.Stepper.constructor | firmware/controller/stepper.go:34-39 | the pins, mode and delay given, phase 0, nothing written |
| FirmwareStepper.Stepper.ApplyStep | firmware/controller/stepper.go:68-82 | writes the four pins of the active table's row at the current phase; other modes use the full-step table |
| FirmwareStepper.Stepper.StepForward | firmware/controller/stepper.go:84-93 | phase to its successor mod len, then that row written |
| FirmwareStepper.Stepper.StepBackward | firmware/controller/stepper.go:95-104 | phase to its predecessor mod len, then that row written |
| FirmwareStepper.Stepper.StepForwardTimes | firmware/controller/stepper.go:107-110 | the loop of n forward steps: phase advanced n, writes of those n rows |
| FirmwareStepper.Stepper.StepBackwardTimes | firmware/controller/stepper.go:111-114 | the loop of n backward steps: phase retreated n, writes of those n rows |
| FirmwareStepper.Stepper.Move | firmware/controller/stepper.go:106-116 | \|n\| steps, forward for n > 0 and backward otherwise; phase and writes as `MovePhase`/`MoveWrites` |
| FirmwareStepper.NewStepper | firmware/controller/stepper.go:25-44 | fails exactly for a mode other than Full or Half; otherwise pins and mode kept, delay defaulted, phase 0 |
| FirmwareDevice.ClickOnceEffect | firmware/device/controller.go:85-106 | a click presses once and leaves the believed mode alone |
| FirmwareDevice.ClickOnceMoves | firmware/device/controller.go:90-104 | a click is a failed press, or a press and a failed release, or both succeeding; only the last stamps `lastClick` |
| FirmwareDevice.ClickOnce | firmware/device/controller.go:85-106 | no contract of its own; its meaning is fixed by `ClickOnceEffect` and `ClickOnceMoves`, and `Device.ClickButton` is proved against it |
| FirmwareDevice.Rearm | firmware/device/controller.go:118-127 | no contract of its own; the re-arm test (started, and more than 3 s since the last click); `GoToModeEffect` states its use |
| FirmwareDevice.ModeClick | firmware/device/controller.go:133-137 | no contract of its own; one loop click; its meaning is fixed by `ModeClicksEffect` |
| FirmwareDevice.ModeClicks | firmware/device/controller.go:133-137 | no contract of its own; k loop clicks; `ModeClicksMode`/`ModeClicksPresses` state what they do, and `Device.CycleTo` is proved against it |
| FirmwareDevice.ModeClicksMode | firmware/device/controller.go:133-137 | k loop clicks advance the believed mode k times |
| FirmwareDevice.ModeClicksPresses | firmware/device/controller.go:133-137 | k loop clicks press the button k times |
| FirmwareDevice.ModeClicksEffect | firmware/device/controller.go:133-137 | both of the above together |
| FirmwareDevice.GoToModeEffect | firmware/device/controller.go:109-140 | Unknown: no change, false; otherwise ends on the target after the re-arm click when due and the fewest mode clicks, and returns true exactly when it pressed |
| FirmwareDevice.GoToPanel | firmware/device/controller.go:109-140 | no contract of its own; its meaning is fixed by `GoToModeEffect`, and `Device.GoToMode` is proved against it |
| FirmwareDevice.Round | firmware/device/controller.go:255 | nearest integer, ties away from zero |
| FirmwareDevice.Trunc | firmware/device/controller.go:261 | float-to-int conversion toward zero |
| FirmwareDevice.ScaleIsProduct | firmware/device/controller.go:253 | the repeated-addition scaling is n·StepsPerIncrement |
| FirmwareDevice.RoundedMoveExact | firmware/device/controller.go:253-256 | rounded count plus new remainder equals n·SPI plus old remainder, and the remainder is within ±1/2 |
| FirmwareDevice.RoundedMove | firmware/device/controller.go:253-256 | no contract of its own; the rounded count and new remainder; `RoundedMoveExact` states their exact sum and the ±1/2 bound |
| FirmwareDevice.StepperCalls | firmware/device/controller.go:258-277 | the stepper first gets the rounded count unchanged; a second call of ∓k follows exactly when BackstepRatio > 0 and k ≠ 0 (+k for a negative count) |
| FirmwareDevice.BackstepCounts | firmware/device/controller.go:259-269 | the count and backstep as the code computes them give exactly `StepperCalls` |
| FirmwareDevice.KnobMoveEffect | firmware/device/controller.go:252-280 | Move logs the increment, sends `StepperCalls` of the rounded count, and keeps the exact remainder within ±1/2 |
| FirmwareDevice.KnobMove | firmware/device/controller.go:252-280 | no contract of its own; its meaning is fixed by `KnobMoveEffect`, and `Device.Move` is proved against it |
| FirmwareDevice.RoundedRunBalances | firmware/device/controller.go:253-256 | over a run, rounded counts plus final remainder equal the scaled increments plus starting remainder |
| FirmwareDevice.RoundedRunConserves | firmware/device/controller.go:253-256 | over any run, Σ counts + r_final = (Σ n)·SPI + r0: rounding loses nothing |
| FirmwareDevice.RoundedRun | firmware/device/controller.go:253-256 | the counts of a run, one per increment; `RoundedRunBalances`/`RoundedRunConserves` state that rounding loses nothing |
| FirmwareDevice.KnobRunRemainder | firmware/device/controller.go:252-277 | a run of Moves leaves the rounded run's remainder, logs the increments in order, and sends the stepper exactly `StepperCalls` of each of the rounded run's counts, in order |
| FirmwareDevice.KnobRun | firmware/device/controller.go:252-280 | no contract of its own; a run of Moves; its meaning is fixed by `KnobRunRemainder` |
| FirmwareDevice.CallsOf | firmware/device/controller.go:258-277 | no contract of its own; the stepper calls of a run of counts; `KnobRunRemainder` states they are what a run of Moves sends |
| FirmwareDevice.Delta | firmware/device/controller.go:202-210 | stored + delta is the level for 2..8, 12 for level 9 and −2 for level 1 |
| FirmwareDevice.DeltaExamples | firmware/device/controller.go:204-210 | 6→9 moves 6, 0→1 moves −2, 5→5 moves 0 |
| FirmwareDevice.ModeMoveEffect | firmware/device/controller.go:149-179 | MoveFan/MovePower/MoveTimer (and IncreaseTime) end in their mode, log the one increment, and leave fan, power and the roast start unchanged |
| FirmwareDevice.ModeMoveState | firmware/device/controller.go:149-179 | no contract of its own; its meaning is fixed by `ModeMoveEffect`, and the Move* methods are proved against it |
| FirmwareDevice.SetFanEffect | firmware/device/controller.go:192-215 | outside 1..9 nothing changes; otherwise fan becomes f, power unchanged, mode Fan, one move of Delta(f, fan) |
| FirmwareDevice.SetFanState | firmware/device/controller.go:192-215 | no contract of its own; its meaning is fixed by `SetFanEffect`, and `Device.SetFan` is proved against it |
| FirmwareDevice.SetPowerEffect | firmware/device/controller.go:218-240 | outside 1..9 nothing changes; otherwise power becomes p, fan unchanged, mode Power, one move of Delta(p, power) |
| FirmwareDevice.SetPowerState | firmware/device/controller.go:218-240 | no contract of its own; its meaning is fixed by `SetPowerEffect`, and `Device.SetPower` is proved against it |
| FirmwareDevice.StartResult | firmware/device/controller.go:68-77 | refused exactly when fan or power is 0, leaving the state; otherwise only startTime becomes now |
| FirmwareDevice.LevelStr | firmware/device/controller.go:304-306 | the letter then one character, the level's digit for levels up to 9 |
| FirmwareDevice.InitialState | firmware/device/controller.go:54-64 | mode Fan, fan and power 0, not started, never clicked, not verbose, no remainder |
| FirmwareDevice.Device.constructor | firmware/device/controller.go:54-64 | the device's state is `InitialState` and its stepper is consistent |
| FirmwareDevice.Device.SetAngle | firmware/device/controller.go:90-102 | one servo move, recorded, with the scripted outcome |
| FirmwareDevice.Device.ClickButton | firmware/device/controller.go:85-106 | the panel after it is `ClickOnce` of the panel before |
| FirmwareDevice.Device.GoToMode | firmware/device/controller.go:109-140 | panel and result are `GoToPanel` of the panel before |
| FirmwareDevice.Device.CycleTo | firmware/device/controller.go:133-137 | the loop makes exactly `ClicksTo` clicks, each advancing the mode |
| FirmwareDevice.Device.FixControlMode | firmware/device/controller.go:143-145 | only the believed mode changes |
| FirmwareDevice.Device.FixFan | firmware/device/controller.go:187-189 | only the fan changes |
| FirmwareDevice.Device.FixPower | firmware/device/controller.go:182-184 | only the power changes |
| FirmwareDevice.Device.MicroStep | firmware/device/controller.go:308-310 | one stepper call of n |
| FirmwareDevice.Device.Move | firmware/device/controller.go:252-280 | the knob state becomes `KnobMove` of the old one |
| FirmwareDevice.Device.Drive | firmware/device/controller.go:259-277 | the stepper receives exactly `StepperCalls` of the rounded count |
| FirmwareDevice.Device.MoveFan | firmware/device/controller.go:149-157 | the state becomes `ModeMoveState(Fan, i)`: levels untouched |
| FirmwareDevice.Device.MovePower | firmware/device/controller.go:161-169 | the state becomes `ModeMoveState(Power, i)` |
| FirmwareDevice.Device.MoveTimer | firmware/device/controller.go:173-179 | the state becomes `ModeMoveState(Timer, i)` |
| FirmwareDevice.Device.IncreaseTime | firmware/device/controller.go:243-249 | the state becomes `ModeMoveState(Timer, 5)` |
| FirmwareDevice.Device.SetFan | firmware/device/controller.go:192-215 | the state becomes `SetFanState` of the old one |
| FirmwareDevice.Device.SetPower | firmware/device/controller.go:218-240 | the state becomes `SetPowerState` of the old one |
| FirmwareDevice.Device.Start | firmware/device/controller.go:68-77 | state and result are `StartResult` |
| FirmwareDevice.Device.Verbose | firmware/device/controller.go:290-293 | verbose is switched on |
| FirmwareDevice.Device.Settings | firmware/device/controller.go:313-315 | the believed (fan, power) |
| FirmwareDevice.Device.Ts | firmware/device/controller.go:296-301 | "[-]" before the start, otherwise the elapsed time in brackets |
| FirmwareDevice.Device.DebugLine | firmware/device/controller.go:283-287 | the timestamp, "F" and "P" with the levels as digits, then " mode=" and the mode's name |
| FirmwareDevice.New | firmware/device/controller.go:36-65 | fails exactly when the stepper mode is invalid or a configured servo cannot be created or set to base, with the matching error; otherwise the initial state |
| ControllerCalls.Message | firmware/commands/commands.go:52 | "invalid input: " plus the argument bytes, "invalid input", or Start's refusal text |
| ControllerCalls.Chars | firmware/commands/commands.go:52 | `string(bytes)`: same length, each byte as a character |
| ControllerCalls.B2i | firmware/commands/commands.go:289-295 | '1'..'9' give 1..9, every other byte 0 (the unsigned wrap below '0' included) |
| ControllerCalls.B2iDigits | commands.go:255-261 | sample bytes: '1', '5', '9', '0', '+', 0 |
| ControllerCalls.B2iOfDigit | firmware/commands/commands.go:289-295 | b2i inverts writing a level 1..9 as its digit |
| FirmwareCommands.Position | firmware/commands/commands.go:316-322 | below 16 for a registered flag, 16 otherwise |
| FirmwareCommands.Lookup | firmware/commands/commands.go:330-333 | found exactly for the 16 registered flags |
| FirmwareCommands.LookupFindsEveryRow | firmware/commands/commands.go:297-322 | every registered row is found under its own flag |
| FirmwareCommands.RowFound | firmware/commands/commands.go:320-322 | row i: at position i, found, and after Help it is table row i − 1 |
| FirmwareCommands.RegisteredFlagsDistinct | firmware/commands/commands.go:297-318 | all flags distinct, none of the table's is Help's |
| FirmwareCommands.Sizes | firmware/commands/commands.go:335 | the argument count of every registered flag and of nothing else |
| FirmwareCommands.SetFanRun | firmware/commands/commands.go:43-57 | '-'/'+' move the fan by ∓1, a digit sets it, anything else is "invalid input: …" with no call |
| FirmwareCommands.SetPowerRun | firmware/commands/commands.go:63-77 | likewise for the power |
| FirmwareCommands.ModeOf | firmware/commands/commands.go:84-92 | 'F', 'P', 'T' name their mode, and exactly those bytes do |
| FirmwareCommands.SetModeRun | firmware/commands/commands.go:83-95 | one GoToMode of that mode (Unknown for any other byte), never an error |
| FirmwareCommands.StartRun | firmware/commands/commands.go:110-112 | calls Start and returns its error |
| FirmwareCommands.FixFanRun | firmware/commands/commands.go:145-152 | Settings, FixFan(b2i), then SetFan of the earlier fan; no error |
| FirmwareCommands.FixPowerRun | firmware/commands/commands.go:158-165 | Settings, FixPower(b2i), then SetPower of the earlier power; no error |
| FirmwareCommands.FanTest | firmware/commands/commands.go:202-205 | 20 calls alternating SetFan(5), SetFan(4) |
| FirmwareCommands.TestRun | firmware/commands/commands.go:171-209 | '1' or no byte: toggles, F1/P1, toggles; '2': `FanTest(10)`, i.e. SetFan(5), SetFan(4) ten times; else nothing; never an error, only SetFan/SetPower |
| FirmwareCommands.StepRun | firmware/commands/commands.go:215-228 | a sign other than '+'/'-' is "invalid input" with no call; otherwise Move(±b2i) |
| FirmwareCommands.InitRun | firmware/commands/commands.go:243-249 | FixFan then FixPower of the two digits, nothing else |
| FirmwareCommands.MicroStepRun | firmware/commands/commands.go:255-266 | no '[' is "invalid input"; '[D' MicroStep(5), '[C' MicroStep(−5), else nothing |
| FirmwareCommands.ExecuteOutcomes | firmware/commands/commands.go:98-140 | C, D, V, T, R and H make their one call (none for H); an error other than Start's comes with no call |
| FirmwareCommands.ExecuteAnswers | firmware/commands/commands.go:145-165 | only f and p depend on the Settings answer, only S on Start's |
| FirmwareCommands.Execute | firmware/commands/commands.go:18-285 | no contract of its own; the closure under each flag; the per-closure members above and `ExecuteOutcomes`/`ExecuteAnswers` state what each does |
| FirmwareCommands.FlagString | firmware/commands/commands.go:276-281 | a printable flag as itself, any other as "0x" and two upper-case hex digits |
| FirmwareCommands.FlagStrings | firmware/commands/commands.go:276-281 | ESC prints as "0x1B", every other table flag as itself |
| FirmwareCommands.HelpLines | firmware/commands/commands.go:273-285 | the heading, then one "flag: description" line per table row, in order |
| FirmwareCommands.BuildCommandMap | firmware/commands/commands.go:316-322 | the map holds exactly the registered flags, each with its row |
| FirmwareRun.RunFramesStep | firmware/commands/commands.go:324-350 | one more frame runs on the state the earlier ones left; its error is added to theirs |
| FirmwareRun.RunFramesAppend | firmware/commands/commands.go:324-350 | running a+b is running a then b, with the errors of both in order: an error never stops the loop |
| FirmwareRun.RunFrames | firmware/commands/commands.go:324-350 | no contract of its own; its meaning is fixed by `RunFramesStep`/`RunFramesAppend`, and `Run` is proved against it |
| FirmwareRun.FixFanResync | firmware/commands/commands.go:145-152 | `f` on a device: no error; with a fan in 1..9 the fan is restored, mode Fan, and the knob moves Delta(fan, b2i); with fan 0 only the fan field changes |
| FirmwareRun.FixPowerResync | firmware/commands/commands.go:158-165 | `p` likewise for the power |
| FirmwareRun.Perform | firmware/commands/commands.go:18-33 | one interface call on the device has the effect `ApplyCall` gives it |
| FirmwareRun.ApplyCall | firmware/device/controller.go:68-315 | no contract of its own; the meaning of each Controller call on the state; `Perform` and its parts prove the Device methods equal it |
| FirmwareRun.PerformLevel | firmware/device/controller.go:149-249 | the same for the knob-turning calls |
| FirmwareRun.PerformStepper | firmware/device/controller.go:252-310 | the same for Move and MicroStep |
| FirmwareRun.PerformPanel | firmware/device/controller.go:109-145 | the same for the mode, click, fix, start and report calls |
| FirmwareRun.PerformAll | firmware/commands/commands.go:346 | a closure's calls in order |
| FirmwareRun.ApplyCalls | firmware/commands/commands.go:346 | no contract of its own; calls in order; `PerformAll` proves the device does the same |
| FirmwareRun.Dispatch | firmware/commands/commands.go:346-349 | one frame on the device is `StepFrame`: the closure runs with the device's own answers |
| FirmwareRun.StepFrame | firmware/commands/commands.go:346-349 | no contract of its own; one frame; `Dispatch` proves the device does the same, and `FixFanResync`/`FixPowerResync` state it for f and p |
| FirmwareRun.Serve | firmware/commands/commands.go:346-349 | one iteration keeps the device equal to `RunFrames` of the frames so far |
| FirmwareRun.Run | firmware/commands/commands.go:315-351 | after the stream, the device and printed errors are `RunFrames` of its frames |
| Serial.Collect | firmware/commands/commands.go:335-344 | exactly n bytes, failed reads skipped, ending on a good read; none when the stream ends first |
| Serial.CollectBytes | firmware/commands/commands.go:335-344 | the collected bytes are the bytes read; none exactly when too few arrive |
| Serial.FramesFrom | firmware/commands/commands.go:324-346 | every frame has a registered flag and exactly its argument count |
| Serial.Frames | firmware/commands/commands.go:324-346 | the same for the whole stream |
| Serial.NoFlagsNoFrames | firmware/commands/commands.go:324-334 | failed reads and non-flag bytes make no frame |
| Serial.SkipPrefix | firmware/commands/commands.go:324-334 | skipped reads at the front change nothing |
| Serial.ReadFrame | firmware/commands/commands.go:336-344 | the argument loop collects exactly what `Collect` says |
| Serial.FramesAtFlag | firmware/commands/commands.go:330-346 | a flag with its arguments makes one frame, then the rest |
| Serial.FramesAtCut | firmware/commands/commands.go:330-344 | a flag whose arguments never arrive ends the frames |
| Serial.ReadCommand | firmware/commands/commands.go:330-346 | reads the next frame and keeps the position on `Frames` |
| LegacyCommands.LegacyPosition | commands.go:203-217 | below 13 for a table flag, 13 otherwise |
| LegacyCommands.LegacyLookup | commands.go:232-235 | found exactly for the 13 table flags |
| LegacyCommands.LegacyLookupFindsEveryRow | commands.go:203-217 | every row found under its flag; the flags are distinct |
| LegacyCommands.LegacySizes | commands.go:237 | the argument count of every table flag and of nothing else |
| LegacyCommands.LegacyAgainstFirmware | commands.go:18-200 | F, P, M, C, S, D, V, T, Z act as the firmware's; A is the firmware's s; f/p make only the fix call |
| LegacyCommands.LegacyFixOnly | commands.go:114-131 | f/p: exactly one FixFan/FixPower of b2i, no move, no error |
| LegacyCommands.LegacyStepEffect | commands.go:175-192 | A: a bad sign errors with no call, otherwise Move(±b2i) |
| LegacyCommands.LegacyExecute | commands.go:18-200 | no contract of its own; the closure under each flag; `LegacyAgainstFirmware`, `LegacyFixOnly` and `LegacyStepEffect` state what each does |
| LegacyCommands.LegacyRunFramesStep | commands.go:226-252 | one more frame appends its calls and error |
| LegacyCommands.LegacyRunFramesAppend | commands.go:226-252 | running a+b gives a's then b's calls and errors: an error never stops the loop |
| LegacyCommands.LegacyRunFrames | commands.go:226-252 | no contract of its own; its meaning is fixed by `LegacyRunFramesStep`/`LegacyRunFramesAppend`, and `RunCommands` is proved against it |
| LegacyCommands.BuildLegacyMap | commands.go:220-224 | the map holds exactly the table flags with their rows |
| LegacyCommands.RunCommands | commands.go:219-253 | calls and errors of running every frame of the stream, in order |
| LegacyCommands.LineFrom | commands.go:263-276 | ends just after a newline read, and the line holds no newline |
| LegacyCommands.LineFromBytes | commands.go:263-276 | the line is every byte read before the first newline; none exactly when no newline arrives |
| LegacyCommands.ReadLine | commands.go:263-276 | the loop returns the line and position `LineFrom` gives |
| LegacyCommands.LegacyFramesSetBoth | commands.go:226-246 | typing `F1P1 D` makes three frames; the space is skipped |
| LegacyCommands.LegacyExampleSetBoth | commands.go:18-57 | `F1P1 D` sets fan 1, power 1 and prints the state, with no error |
| LegacyCommands.LegacyFramesFix | commands.go:226-246 | typing `D f5 p6 D` makes four frames |
| LegacyCommands.LegacyExampleFix | commands.go:114-131 | `D f5 p6 D` prints, fixes fan 5 and power 6 without moving, prints |
| EarlyState.State.constructor | main.go:87-96 | mode Fan, fan 1, power 1, both clocks at now |
| EarlyState.State.ClickButton | main.go:100-104 | mode becomes Next(mode), which is returned |
| EarlyState.State.FixControlMode | main.go:112-114 | only the mode changes |
| EarlyState.State.MoveFan | main.go:118-123 | returns the believed fan, changes nothing |
| EarlyState.State.MovePower | main.go:127-131 | returns the believed power, changes nothing |
| EarlyState.State.FixPower | main.go:141-143 | only the power changes |
| EarlyState.State.FixFan | main.go:146-148 | only the fan changes |
| EarlyState.State.GoToMode | main.go:106-110 | no ensures and no `modifies`: the stub changes nothing |
| EarlyState.State.MoveTimer | main.go:133-139 | no ensures and no `modifies`: the stub changes nothing |
| EarlyState.State.SetFan | main.go:150-155 | no ensures and no `modifies`: the stub only prints |
| EarlyState.State.SetPower | main.go:156-159 | no ensures and no `modifies`: the stub changes nothing |
| EarlyState.ClickCycle | main.go:99-159 | three clicks from a new State show Power, Timer, Fan; the stubs leave the fixed levels 5 and 6 |
| WorkingStepperDriver.PatternsWritesAppend | controller/stepper.go:72-77 | writing two runs of rows is writing each in turn |
| WorkingStepperDriver.MovePatternsShape | controller/stepper.go:60-91 | Move(n) drives 4·\|n\| rows, none for 0: rows 0,1,2,3 repeated forward, 3,2,1,0 backward |
| WorkingStepperDriver.MovePatterns | controller/stepper.go:60-91 | no contract of its own; the rows Move drives; its meaning is fixed by `MovePatternsShape`, and `WorkingStepper.Move` is proved against it |
| WorkingStepperDriver.MoveOneCoil | controller/stepper.go:52-57 | every row Move drives energises one coil |
| WorkingStepperDriver.MoveBackwardIsRepeat | controller/stepper.go:60-70 | Move(−k) is k backward sweeps |
| WorkingStepperDriver.MoveForwardTwice | controller/stepper.go:24-26 | no phase is kept: Move(a) then Move(b) writes what Move(a+b) writes |
| WorkingStepperDriver.MoveBackwardTwice | controller/stepper.go:60-70 | the same backward |
| WorkingStepperDriver.WorkingStepper.constructor | controller/stepper.go:28-36 | Pin1..Pin4 in order, nothing written |
| WorkingStepperDriver.WorkingStepper.Step | controller/stepper.go:72-77 | the four pins set to row idx |
| WorkingStepperDriver.WorkingStepper.StepForward | controller/stepper.go:79-84 | rows 0 to 3 in order |
| WorkingStepperDriver.WorkingStepper.StepBackward | controller/stepper.go:86-91 | rows 3 down to 0 |
| WorkingStepperDriver.WorkingStepper.SweepOnce | controller/stepper.go:61-64 | one sweep in the chosen direction |
| WorkingStepperDriver.WorkingStepper.Move | controller/stepper.go:60-70 | the writes of `MovePatterns(n)` |
| Probes.IndexOf | twchart/client.go:123 | the first occurrence of the character, none exactly when absent |
| Probes.Split | twchart/client.go:121 | at least one piece |
| Probes.SplitPiecesLackSep | twchart/client.go:121 | no piece holds a comma |
| Probes.JoinSplit | twchart/client.go:121 | joining the pieces with commas gives the input back |
| Probes.SplitWhole | twchart/client.go:121 | input without a comma is one piece |
| Probes.SplitAt | twchart/client.go:121 | the first comma ends the first piece |
| Probes.SplitFirst | twchart/client.go:123-126 | none exactly without '='; otherwise cut at the first '=' |
| Probes.TrimLeftDrops | twchart/client.go:127-128 | leading trim removes a prefix of white space only |
| Probes.TrimRightDrops | twchart/client.go:127-128 | trailing trim removes a suffix of white space only |
| Probes.TrimSpaceIsSlice | twchart/client.go:127-128 | the trimmed text is a slice with only white space cut off both ends |
| Probes.TrimSpaceEnds | twchart/client.go:127-128 | a non-empty trimmed text starts and ends with non-space |
| Probes.TrimSpace | twchart/client.go:127-128 | no contract of its own; its meaning is fixed by `TrimSpaceIsSlice` and `TrimSpaceEnds` |
| Probes.DigitPrefixIsLongest | twchart/client.go:131 | the longest leading run of digits |
| Probes.ScanIntMeaning | twchart/client.go:131 | succeeds exactly when a digit follows the optional sign; the value is that of the longest digit run, negated after '-' |
| Probes.ScanInt | twchart/client.go:131 | no contract of its own; its meaning is fixed by `ScanIntMeaning` |
| Probes.ParseEntryNoEquals | twchart/client.go:123-126 | "invalid probe entry" of the entry exactly when it has no '=' |
| Probes.ParseEntryCut | twchart/client.go:123-135 | a probe named by the trimmed tail when the trimmed head scans above the none position, else "invalid probe position" of the trimmed head |
| Probes.ParseEntryAccepted | twchart/client.go:127-135 | a scanned position above none gives the probe |
| Probes.ParseEntry | twchart/client.go:123-135 | no contract of its own; its meaning is fixed by `ParseEntryNoEquals`, `ParseEntryCut` and `ParseEntryAccepted` |
| Probes.CutIsFirst | twchart/client.go:123 | the cut is at the first '=' |
| Probes.Gather | twchart/client.go:122-137 | on success one probe per piece |
| Probes.Parsed | twchart/client.go:122-135 | each piece parsed on its own, in order |
| Probes.GatherOk | twchart/client.go:122-137 | success exactly when every piece parses, with the probes in order |
| Probes.GatherErr | twchart/client.go:124-134 | the first failing piece's error is returned |
| Probes.GatherStopsAt | twchart/client.go:124-134 | pieces after an error do not matter |
| Probes.ParseProbes | twchart/client.go:119-138 | the loop returns `Parse` of the input |
| Probes.ParseAccepts | twchart/client.go:119-138 | success exactly when every comma piece is accepted |
| Probes.ParseInOrder | twchart/client.go:135-137 | on success one probe per piece, in input order |
| Probes.ParseFirstError | twchart/client.go:124-134 | the error is that of the first failing piece |
| Probes.Parse | twchart/client.go:119-138 | no contract of its own; its meaning is fixed by `ParseAccepts`, `ParseInOrder` and `ParseFirstError`, and `ParseProbes` is proved against it |
| Probes.ScanDigit | twchart/client.go:131 | one digit scans to its value |
| Probes.TrimPlain | twchart/client.go:127-128 | text with non-space ends is unchanged |
| Probes.TrimPadded | twchart/client.go:127-128 | one space each side is removed |
| Probes.ParseEntryDigit | twchart/client.go:123-135 | "d=Name" with d in 1..9 is the probe (Name, d) |
| Probes.ParseTwo | twchart/client.go:118-138 | "d1=N1,d2=N2" parses to [(N1, d1), (N2, d2)], e.g. "1=Ambient,2=Beans" |
| Probes.ParseNoEquals | twchart/client.go:123-126 | a piece without '=' fails the whole list with its text |
| Probes.ParseEmpty | twchart/client.go:121-126 | the empty input is refused |
| Probes.ParsePadded | twchart/client.go:123-135 | " d = Name " parses to (Name, d): the first '=' cuts, both sides are trimmed |
| Probes.ParseNoPosition | twchart/client.go:130-134 | position 0 is "invalid probe position" |
| RoastStage.Ordinal | ui/state.go:5-12 | the iota order 0..5, 0 exactly for none and 5 exactly for Done |
| RoastStage.FromOrdinal | ui/state.go:5-12 | inverse of the order on 0..5 |
| RoastStage.Following | ui/state.go:31-37 | Done stays Done; every other stage goes to the next integer |
| RoastStage.Advance | ui/state.go:31-37 | no contract of its own; k applications of `next`; `AdvanceFromStart` gives its closed form |
| RoastStage.AdvanceFromStart | ui/state.go:31-37 | from none, k applications of `next` reach stage min(k, 5) |
| RoastStage.FollowingFixedPoint | ui/state.go:31-37 | Done is the only fixed point |
| RoastStage.Name | ui/state.go:14-29 | the five stage names, "Unknown" exactly for none |
| RoastStage.NamesDistinct | ui/state.go:14-29 | different stages have different names |
| RoastStage.Command | ui/state.go:39-55 | empty exactly for none; Preheat "I11\nS\nPREHEAT", then ROASTING, FC, COOL, DONE |
| LogWriter.Clean | ui/ui.go:196-201 | the filter never lengthens |
| LogWriter.CleanKeepsOnlyKept | ui/ui.go:196-201 | no newline or termination character survives |
| LogWriter.CleanIdentity | ui/ui.go:196-201 | the filter keeps a buffer whole exactly when it has no dropped byte |
| LogWriter.CleanAppend | ui/ui.go:196-201 | filtering is chunk by chunk, order preserved |
| LogWriter.CleanIdempotent | ui/ui.go:196-201 | filtering twice is filtering once |
| LogWriter.LoggedLine | ui/ui.go:202-207 | nothing appended exactly when nothing is kept; otherwise the kept bytes and one final newline |
| LogWriter.Logged | ui/ui.go:202-211 | no contract of its own; the appended text; its meaning is fixed by `LoggedLine` |
| LogWriter.NothingKept | ui/ui.go:202-204 | the filter is empty exactly when no byte is kept |
| LogWriter.CompactedShape | ui/ui.go:196-205 | the buffer keeps its length and starts with the kept bytes |
| LogWriter.Compacted | ui/ui.go:196-205 | no contract of its own; the caller's buffer after Write; `CompactedShape` states its shape |
| LogWriter.KeepInPlace | ui/ui.go:196-201 | the loop overwrites the first k bytes of p with the kept bytes and leaves the rest |
| LogWriter.RoasterUI.constructor | ui/ui.go:29-31 | no log entry, no text |
| LogWriter.RoasterUI.Write | ui/ui.go:190-214 | returns len(p); with no log entry changes nothing; otherwise p is compacted in place and the log gets `Logged(p)` |

## Left out

- Sleeps and real clocks. Delays are dropped and time is a `now` parameter.
  A frame runs at the time its last byte arrived, and one command runs at a
  single instant.
- The stepper driver's pin `Configure` calls, the servo and the serial port
  are hardware, recorded as traces.
  - A servo `SetAngle` failure comes from a scripted sequence.
  - Whether `servo.New` succeeds is a parameter of `New`.
- `machine.Serial.ReadByte` is a finite sequence of reads. Go's dispatch
  loops never end; the model stops where the stream ends. A command whose
  arguments never arrive leaves the device waiting, modelled as the end of
  the run.
- float32 arithmetic in `Device.Move` is modelled on reals.
  - `math.Round` is nearest with ties away from zero.
  - `StepsPerIncrement × n` is `Scale` (repeated addition), equal to the
    product by `ScaleIsProduct`.
- Int32 overflow is not modelled: `int32(f) - int32(d.fan)`, `-steps` on
  MinInt32, `int32(v) * s`. Levels and counts are unbounded integers.
- `Duration.String` formatting: `Device.Ts` takes the elapsed-time text as
  a parameter.
- Everything that only prints is not modelled. That covers the verbose log
  lines, `Debug`'s `println` (its text is `DebugLine`), `H`'s output (its
  text is `HelpLines`) and the "error:" line. The model records the errors
  in order instead.
- The commands.go `Controller` is not shown in the repository, and nor is
  its answer to `Start`.
  - Its closures are modelled as call traces on the firmware-style call set
    plus `FullRev`.
  - `S` records its call with no error.
- `RunCommands` and `readLine` read from `machine.Serial` directly. In the
  model they take the read sequence as a parameter.
- main.go's `NewState` builds an easystepper and a servo array, which are
  hardware, so their errors are not modelled.
  - Its `GoToMode`, `MoveTimer`, `SetFan` and `SetPower` change nothing. The
    model has them as methods with no `modifies` and no post-condition.
  - The `stepper`, `servo` and `lastDirection` fields are not used by any
    method and are left out.
- `NewWorkingStepper` configures the pins and never fails; the `Configure`
  calls are not modelled.
- Probes.ScanInt: `fmt.Sscanf("%d")` is modelled as an optional sign
  followed by the longest run of decimal digits.
  - With the `%d` verb Go reads no base prefix and no `_` separator, so
    `0x10` scans as 0 and `1_0` as 1; the model gives the same.
  - Overflow of the position type is not modelled.
  - A trailing text after the digits is accepted, as `Sscanf` does.
- ControllerCalls.Chars: a byte 0x80..0xFF becomes the character
  U+0080..U+00FF, while Go's `string(input)` keeps the raw byte. So the
  "invalid input: " text differs from Go's for non-ASCII arguments.
- Probes.TrimSpace trims ASCII white space only, not Unicode spaces.
- Probes.ParseProbes returns `Err` where Go returns a nil slice with an
  error.
  - The `%q` quoting in the error text is not modelled; an error carries the
    raw piece or position text.
  - `ProbePositionNone` comes from the twchart library, which is not part of
    this model. It is taken to be 0.
- Probes.ParseTwo and Probes.ParsePadded state the "1=Name,2=Name" examples
  over variables (digit and name) rather than over the literal strings.
- The remaining twchart/client.go functions are HTTP calls and are not
  modelled.
- `RoasterUI.Write`: `fyne.Do` runs the append asynchronously; the model
  appends at once.
  - The `CursorRow` auto-scroll is not modelled.
  - The log entry's text is modelled as bytes.
- The rest of ui/ui.go is fyne layout, and the stage button's timers are
  goroutines; neither is modelled.
- `ControlMode` and `state` values outside their enumerations are not
  modelled: Go's `default` branches are only reachable through them.
