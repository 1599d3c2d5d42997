/** The firmware's open-loop model of the roaster (firmware/device/controller.go).
    The `Device` believes it knows the display mode, the fan and power
    levels, whether a roast has started and when the button was last
    clicked. It acts on the roaster through a servo that presses the mode
    button and a stepper that turns the adjustment knob.

    The servo's moves are recorded as a trace, and its failures come from a
    script that the caller chooses. The real stepper object is kept; the
    counts passed to it are recorded, and its phase and pin writes are
    tied to them.
    Time is an integer `now` in milliseconds, passed in by the caller. */
module FirmwareDevice {
  import opened Base
  import opened AutoRoast
  import opened Pins
  import opened FirmwareStepper

  /** `CalibrationConfig` (firmware/device/configs.go). The servo angles and
      delays are integers; the two float32 ratios are reals. */
  datatype CalibrationConfig = CalibrationConfig(
    servoBasePosition: int,
    servoClickPosition: int,
    servoPressDelay: int,
    servoResetDelay: int,
    stepsPerIncrement: real,
    delayAfterStepperMove: int,
    backstepRatio: real)

  /** `ServoConfig`: the servo's pin and PWM channel. The zero value means
      that no servo is fitted. */
  datatype ServoConfig = ServoConfig(pin: Pin, pwm: nat)

  const NoServo := ServoConfig(0, 0)

  /** One move of the servo that presses the roaster's button. */
  datatype ServoMove =
    | Press(ok: bool)   // to ServoClickPosition; ok when SetAngle succeeded
    | Rest(ok: bool)    // back to ServoBasePosition

  /** The outcome of the next servo `SetAngle`: a `true` at the head of the
      script is a failure, and an exhausted script always succeeds. */
  function ServoAttempt(script: seq<bool>): (bool, seq<bool>)
  {
    if script == [] then (true, []) else (!script[0], script[1..])
  }

  /** How many button presses the servo trace holds. */
  function Presses(servo: seq<ServoMove>): nat
  {
    if servo == [] then 0
    else Presses(servo[..|servo| - 1]) + (if servo[|servo| - 1].Press? then 1 else 0)
  }

  /** One more servo move adds one press exactly when it is a press. */
  lemma PressesSnoc(servo: seq<ServoMove>, m: ServoMove)
    ensures Presses(servo + [m]) == Presses(servo) + (if m.Press? then 1 else 0)
  {
    assert (servo + [m])[..|servo|] == servo;
  }

  /** What clicking the mode button touches: the mode the device believes
      the display shows, the servo's coming outcomes, its trace so far and
      the time of the last complete click (None is Go's zero time). */
  datatype Panel = Panel(
    mode: ControlMode,
    servoScript: seq<bool>,
    servo: seq<ServoMove>,
    lastClick: Option<int>)

  /** What turning the knob touches: the rounding remainder, every count
      passed to the stepper's `Move`, and every increment asked of `Move`. */
  datatype Knob = Knob(remainder: real, stepperCalls: seq<int>, moves: seq<int>)

  /** Everything the device believes, with the hardware traces. */
  datatype DeviceState = DeviceState(
    panel: Panel,
    fan: nat,
    power: nat,
    startTime: Option<int>,      // None is Go's zero time: not started
    verbose: bool,
    knob: Knob)

  /** `ClickButton`: press the button and release it. `lastClick` moves to
      `now` only when both servo moves succeed; a failed move ends the
      click. */
  function ClickOnce(p: Panel, now: int): Panel
  {
    var (pressed, script1) := ServoAttempt(p.servoScript);
    if !pressed then
      p.(servoScript := script1, servo := p.servo + [Press(false)])
    else
      var (released, script2) := ServoAttempt(script1);
      if !released then
        p.(servoScript := script2, servo := p.servo + [Press(true), Rest(false)])
      else
        p.(servoScript := script2, servo := p.servo + [Press(true), Rest(true)], lastClick := Some(now))
  }

  /** A click is one press, followed by a release unless the press failed;
      only a click whose two moves both succeed stamps `lastClick`, and the
      believed mode does not change. */
  lemma ClickOnceEffect(p: Panel, now: int)
    ensures ClickOnce(p, now).mode == p.mode
    ensures Presses(ClickOnce(p, now).servo) == Presses(p.servo) + 1
  {
    ClickOnceMoves(p, now);
  }

  /** The servo moves of a click, and when it stamps `lastClick`. */
  lemma ClickOnceMoves(p: Panel, now: int)
    ensures Presses(ClickOnce(p, now).servo) == Presses(p.servo) + 1
    ensures ClickOnce(p, now).servo == p.servo + [Press(false)]
         || ClickOnce(p, now).servo == p.servo + [Press(true), Rest(false)]
         || ClickOnce(p, now).servo == p.servo + [Press(true), Rest(true)]
    ensures ClickOnce(p, now).lastClick
         == if ClickOnce(p, now).servo == p.servo + [Press(true), Rest(true)] then Some(now) else p.lastClick
  {
    var (pressed, script1) := ServoAttempt(p.servoScript);
    PressesSnoc(p.servo, Press(pressed));
    if pressed {
      var (released, script2) := ServoAttempt(script1);
      PressesSnoc(p.servo + [Press(true)], Rest(released));
      assert p.servo + [Press(true)] + [Rest(released)] == p.servo + [Press(true), Rest(released)];
    }
  }

  /** Whether `GoToMode` first re-arms the display's select mode: a roast
      is running and more than 3 s have passed since the last click (the
      zero time is long ago). */
  predicate Rearm(p: Panel, startTime: Option<int>, now: int)
  {
    startTime.Some? && (p.lastClick.None? || now - p.lastClick.value > 3000)
  }

  /** One click of the `GoToMode` loop: click, then advance the believed mode. */
  function ModeClick(p: Panel, now: int): Panel
  {
    ClickOnce(p, now).(mode := Next(p.mode))
  }

  /** `k` clicks of the `GoToMode` loop. */
  function ModeClicks(p: Panel, k: nat, now: int): Panel
  {
    if k == 0 then p else ModeClick(ModeClicks(p, k - 1, now), now)
  }

  /** `k` clicks advance the believed mode `k` times. */
  lemma {:induction false} ModeClicksMode(p: Panel, k: nat, now: int)
    ensures ModeClicks(p, k, now).mode == NextN(p.mode, k)
  {
    if k > 0 {
      ModeClicksMode(p, k - 1, now);
    }
  }

  /** `k` clicks press `k` times. */
  lemma {:induction false} ModeClicksPresses(p: Panel, k: nat, now: int)
    ensures Presses(ModeClicks(p, k, now).servo) == Presses(p.servo) + k
  {
    if k > 0 {
      var q := ModeClicks(p, k - 1, now);
      ModeClicksPresses(p, k - 1, now);
      ClickOnceEffect(q, now);
      assert ModeClicks(p, k, now).servo == ClickOnce(q, now).servo;
    }
  }

  /** `k` clicks advance the believed mode `k` times and press `k` times. */
  lemma ModeClicksEffect(p: Panel, k: nat, now: int)
    ensures ModeClicks(p, k, now).mode == NextN(p.mode, k)
    ensures Presses(ModeClicks(p, k, now).servo) == Presses(p.servo) + k
  {
    ModeClicksMode(p, k, now);
    ModeClicksPresses(p, k, now);
  }

  /** `GoToMode`: the panel after it and whether it clicked. */
  function GoToPanel(p: Panel, startTime: Option<int>, target: ControlMode, now: int): (Panel, bool)
  {
    if target == Unknown then (p, false)
    else
      var armed := if Rearm(p, startTime, now) then ClickOnce(p, now) else p;
      if armed.mode == target then (armed, Rearm(p, startTime, now))
      else (ModeClicks(armed, ClicksTo(armed.mode, target), now), true)
  }

  /** `GoToMode` ignores Unknown; otherwise it ends on the target after the
      re-arming click (when due) and the fewest clicks from the believed
      mode, and it reports a click exactly when it pressed the button. */
  lemma GoToModeEffect(p: Panel, startTime: Option<int>, target: ControlMode, now: int)
    ensures target == Unknown ==> GoToPanel(p, startTime, target, now) == (p, false)
    ensures target != Unknown ==> GoToPanel(p, startTime, target, now).0.mode == target
    ensures target != Unknown ==>
      Presses(GoToPanel(p, startTime, target, now).0.servo)
      == Presses(p.servo) + (if Rearm(p, startTime, now) then 1 else 0) + ClicksTo(p.mode, target)
    ensures GoToPanel(p, startTime, target, now).1
        <==> Presses(GoToPanel(p, startTime, target, now).0.servo) > Presses(p.servo)
  {
    if target != Unknown {
      var armed := if Rearm(p, startTime, now) then ClickOnce(p, now) else p;
      ClickOnceEffect(p, now);
      ModeClicksEffect(armed, ClicksTo(armed.mode, target), now);
    }
  }

  /** Go's `math.Round`: to the nearest integer, ties away from zero. */
  function Round(x: real): (n: int)
    ensures -0.5 <= x - n as real <= 0.5
    ensures x - n as real == 0.5 ==> x < 0.0
    ensures x - n as real == -0.5 ==> x > 0.0
  {
    if x >= 0.0 then (x + 0.5).Floor else -((-x + 0.5).Floor)
  }

  /** Go's conversion of a float to an integer: toward zero. */
  function Trunc(x: real): (n: int)
    ensures 0.0 <= x ==> 0.0 <= n as real <= x < n as real + 1.0
    ensures x < 0.0 ==> n as real - 1.0 < x <= n as real <= 0.0
  {
    if x >= 0.0 then x.Floor else -((-x).Floor)
  }

  /** `n` times `c`, written as repeated addition so that the solver can
      reason about it linearly; `ScaleIsProduct` shows it is the product. */
  function Scale(n: int, c: real): real
    decreases if n < 0 then -n else n
  {
    if n == 0 then 0.0 else if n > 0 then Scale(n - 1, c) + c else Scale(n + 1, c) - c
  }

  /** `Scale` is multiplication. */
  lemma {:induction false} ScaleIsProduct(n: int, c: real)
    ensures Scale(n, c) == n as real * c
    decreases if n < 0 then -n else n
  {
    if n > 0 {
      ScaleIsProduct(n - 1, c);
      Distribute(n - 1, 1, c);
    } else if n < 0 {
      ScaleIsProduct(n + 1, c);
      Distribute(n + 1, -1, c);
    }
  }

  /** The rounded step count of `Move(n)` and the new remainder: Go's
      `float32(n)*StepsPerIncrement + remainder`, rounded. */
  function RoundedMove(spi: real, r: real, n: int): (int, real)
  {
    var raw := Scale(n, spi) + r;
    (Round(raw), raw - Round(raw) as real)
  }

  /** The step count and the remainder add up to the exact request, and
      the remainder is at most half a step. */
  lemma RoundedMoveExact(spi: real, r: real, n: int)
    ensures RoundedMove(spi, r, n).0 as real + RoundedMove(spi, r, n).1 == Scale(n, spi) + r
    ensures -0.5 <= RoundedMove(spi, r, n).1 <= 0.5
  {
  }

  /** The backstep count, when `BackstepRatio` is positive. */
  function Backsteps(cal: CalibrationConfig): int
    requires cal.backstepRatio > 0.0
  {
    Trunc(cal.stepsPerIncrement / cal.backstepRatio)
  }

  /** The counts `Move` passes to the stepper for a rounded count `m`, as
      the code is written: the overshoot is added while the backstep
      variable is still 0, so `m` goes out unchanged and the backstep
      follows on its own. */
  function StepperCalls(cal: CalibrationConfig, m: int): (calls: seq<int>)
    ensures 1 <= |calls| <= 2 && calls[0] == m
    ensures |calls| == 2 <==> cal.backstepRatio > 0.0 && Backsteps(cal) != 0
    ensures |calls| == 2 ==> calls[1] == (if m < 0 then Backsteps(cal) else -Backsteps(cal))
  {
    if cal.backstepRatio > 0.0 then
      var k := Backsteps(cal);
      var backsteps := if m < 0 then k else -k;
      if backsteps != 0 then [m, backsteps] else [m]
    else [m]
  }

  /** The counts `Move` computes for a rounded count `move`: the count
      itself, with the overshoot added while the backstep variable still
      holds 0, and the backstep, 0 for none. */
  method BackstepCounts(cal: CalibrationConfig, move: int) returns (count: int, backsteps: int)
    ensures (if backsteps != 0 then [count, backsteps] else [count]) == StepperCalls(cal, move)
  {
    count := move;
    backsteps := 0;
    if cal.backstepRatio > 0.0 {
      var numBacksteps := Trunc(cal.stepsPerIncrement / cal.backstepRatio);
      if count < 0 {
        count := count - backsteps;
        backsteps := numBacksteps;
      } else {
        count := count + backsteps;
        backsteps := -numBacksteps;
      }
    }
  }

  /** `Move(n)`: round, keep the remainder, drive the stepper. */
  function KnobMove(k: Knob, cal: CalibrationConfig, n: int): Knob
  {
    var mr := RoundedMove(cal.stepsPerIncrement, k.remainder, n);
    Knob(mr.1, k.stepperCalls + StepperCalls(cal, mr.0), k.moves + [n])
  }

  /** The stepper gets the rounded count (and the backstep), the increment
      is logged, and the new remainder is what rounding left over. */
  lemma KnobMoveEffect(k: Knob, cal: CalibrationConfig, n: int)
    ensures KnobMove(k, cal, n).moves == k.moves + [n]
    ensures KnobMove(k, cal, n).stepperCalls
         == k.stepperCalls + StepperCalls(cal, RoundedMove(cal.stepsPerIncrement, k.remainder, n).0)
    ensures RoundedMove(cal.stepsPerIncrement, k.remainder, n).0 as real + KnobMove(k, cal, n).remainder
         == n as real * cal.stepsPerIncrement + k.remainder
    ensures -0.5 <= KnobMove(k, cal, n).remainder <= 0.5
  {
    RoundedMoveExact(cal.stepsPerIncrement, k.remainder, n);
    ScaleIsProduct(n, cal.stepsPerIncrement);
  }

  /** `KnobMove` in terms of the rounded count and remainder it uses. */
  lemma KnobMoveParts(k: Knob, cal: CalibrationConfig, n: int, m: int, r: real)
    requires m == Round(Scale(n, cal.stepsPerIncrement) + k.remainder)
    requires r == Scale(n, cal.stepsPerIncrement) + k.remainder - m as real
    ensures KnobMove(k, cal, n) == Knob(r, k.stepperCalls + StepperCalls(cal, m), k.moves + [n])
  {
  }

  /** The rounded counts and the final remainder of a run of `Move` calls
      starting from remainder `r`. */
  function RoundedRun(spi: real, r: real, ns: seq<int>): (run: (seq<int>, real))
    ensures |run.0| == |ns|
  {
    if ns == [] then ([], r)
    else
      var run := RoundedRun(spi, r, ns[..|ns| - 1]);
      var mr := RoundedMove(spi, run.1, ns[|ns| - 1]);
      (run.0 + [mr.0], mr.1)
  }

  /** `StepsPerIncrement` times each increment of a run, added up. */
  function Scaled(ns: seq<int>, c: real): real
  {
    if ns == [] then 0.0 else Scaled(ns[..|ns| - 1], c) + Scale(ns[|ns| - 1], c)
  }

  /** Scaling each increment is scaling their sum. */
  lemma {:induction false} ScaledIsProduct(ns: seq<int>, c: real)
    ensures Scaled(ns, c) == Sum(ns) as real * c
  {
    if ns != [] {
      ScaledIsProduct(ns[..|ns| - 1], c);
      ScaleIsProduct(ns[|ns| - 1], c);
      Distribute(Sum(ns[..|ns| - 1]), ns[|ns| - 1], c);
    }
  }

  /** Multiplication by a real distributes over a sum of integers. */
  lemma Distribute(a: int, b: int, c: real)
    ensures (a + b) as real * c == a as real * c + b as real * c
  {
  }

  /** Over any run, the rounded counts plus the final remainder are the
      scaled increments plus the starting remainder. */
  lemma {:induction false} RoundedRunBalances(spi: real, r: real, ns: seq<int>)
    ensures Sum(RoundedRun(spi, r, ns).0) as real + RoundedRun(spi, r, ns).1 == Scaled(ns, spi) + r
  {
    if ns != [] {
      var run := RoundedRun(spi, r, ns[..|ns| - 1]);
      var mr := RoundedMove(spi, run.1, ns[|ns| - 1]);
      RoundedRunBalances(spi, r, ns[..|ns| - 1]);
      RoundedMoveExact(spi, run.1, ns[|ns| - 1]);
      SumSnoc(run.0, mr.0);
    }
  }

  /** Nothing is lost to rounding: over any run, the rounded counts plus the
      final remainder are the requested increments times StepsPerIncrement
      plus the starting remainder. */
  lemma RoundedRunConserves(spi: real, r: real, ns: seq<int>)
    ensures Sum(RoundedRun(spi, r, ns).0) as real + RoundedRun(spi, r, ns).1 == Sum(ns) as real * spi + r
  {
    RoundedRunBalances(spi, r, ns);
    ScaledIsProduct(ns, spi);
  }

  /** `Sum` of a sequence with one more element. */
  lemma SumSnoc(xs: seq<int>, x: int)
    ensures Sum(xs + [x]) == Sum(xs) + x
  {
    assert (xs + [x])[..|xs|] == xs;
  }

  /** The knob after `Move` after `Move`. */
  function KnobRun(k: Knob, cal: CalibrationConfig, ns: seq<int>): Knob
  {
    if ns == [] then k else KnobMove(KnobRun(k, cal, ns[..|ns| - 1]), cal, ns[|ns| - 1])
  }

  /** The stepper calls `Move` makes for a run of rounded counts, in order. */
  function CallsOf(cal: CalibrationConfig, ms: seq<int>): seq<int>
  {
    if ms == [] then [] else CallsOf(cal, ms[..|ms| - 1]) + StepperCalls(cal, ms[|ms| - 1])
  }

  /** A run of `Move` calls leaves the remainder of the rounded run, logs
      the increments in order, and hands the stepper exactly the calls of
      the rounded run's counts, whose sum `RoundedRunConserves` gives. */
  lemma {:induction false} KnobRunRemainder(k: Knob, cal: CalibrationConfig, ns: seq<int>)
    ensures KnobRun(k, cal, ns).remainder == RoundedRun(cal.stepsPerIncrement, k.remainder, ns).1
    ensures KnobRun(k, cal, ns).moves == k.moves + ns
    ensures KnobRun(k, cal, ns).stepperCalls
         == k.stepperCalls + CallsOf(cal, RoundedRun(cal.stepsPerIncrement, k.remainder, ns).0)
  {
    if ns != [] {
      var front := ns[..|ns| - 1];
      KnobRunRemainder(k, cal, front);
      assert k.moves + front + [ns[|ns| - 1]] == k.moves + ns;
      var run := RoundedRun(cal.stepsPerIncrement, k.remainder, front);
      var mr := RoundedMove(cal.stepsPerIncrement, run.1, ns[|ns| - 1]);
      assert (run.0 + [mr.0])[..|run.0|] == run.0;
      assert CallsOf(cal, run.0 + [mr.0]) == CallsOf(cal, run.0) + StepperCalls(cal, mr.0);
      assert k.stepperCalls + CallsOf(cal, run.0) + StepperCalls(cal, mr.0)
          == k.stepperCalls + (CallsOf(cal, run.0) + StepperCalls(cal, mr.0));
    }
  }

  /** The increment `SetFan`/`SetPower` hands to the move: the difference,
      plus 3 more when going to 9 and 3 fewer when going to 1, to push the
      knob against its end stop. */
  function Delta(level: nat, stored: nat): (d: int)
    ensures 2 <= level <= 8 ==> stored + d == level
    ensures level == 9 ==> stored + d == 12
    ensures level == 1 ==> stored + d == -2
  {
    var d := level - stored;
    var d1 := if level == 9 then d + 3 else d;
    if level == 1 then d1 - 3 else d1
  }

  /** Two cases from the firmware's own comments: 6 to 9 moves 6, 0 to 1 moves -2. */
  lemma DeltaExamples()
    ensures Delta(9, 6) == 6 && Delta(1, 0) == -2 && Delta(5, 5) == 0
  {
  }

  /** `MoveFan`/`MovePower`/`MoveTimer`: go to the mode, then move. */
  function ModeMoveState(s: DeviceState, cal: CalibrationConfig, mode: ControlMode, i: int, now: int): DeviceState
  {
    s.(panel := GoToPanel(s.panel, s.startTime, mode, now).0, knob := KnobMove(s.knob, cal, i))
  }

  /** A mode move ends in that mode, logs the one increment, and leaves
      the believed levels and the roast start alone. */
  lemma ModeMoveEffect(s: DeviceState, cal: CalibrationConfig, mode: ControlMode, i: int, now: int)
    requires mode != Unknown
    ensures ModeMoveState(s, cal, mode, i, now).panel.mode == mode
    ensures ModeMoveState(s, cal, mode, i, now).knob.moves == s.knob.moves + [i]
    ensures ModeMoveState(s, cal, mode, i, now).fan == s.fan
    ensures ModeMoveState(s, cal, mode, i, now).power == s.power
    ensures ModeMoveState(s, cal, mode, i, now).startTime == s.startTime
  {
    GoToModeEffect(s.panel, s.startTime, mode, now);
    KnobMoveEffect(s.knob, cal, i);
  }

  /** `SetFan`: a level outside 1..9 changes nothing; otherwise the fan mode
      is selected, the knob moves by `Delta(f, fan)` and the fan becomes `f`. */
  function SetFanState(s: DeviceState, cal: CalibrationConfig, f: nat, now: int): DeviceState
  {
    if f < 1 || f > 9 then s
    else ModeMoveState(s, cal, Fan, Delta(f, s.fan), now).(fan := f)
  }

  /** `SetFan` in effect: ignored out of range; otherwise the fan ends at
      `f`, on the fan mode, with the one increment `Delta` logged. */
  lemma SetFanEffect(s: DeviceState, cal: CalibrationConfig, f: nat, now: int)
    ensures (f < 1 || f > 9) ==> SetFanState(s, cal, f, now) == s
    ensures 1 <= f <= 9 ==> SetFanState(s, cal, f, now).fan == f
    ensures 1 <= f <= 9 ==> SetFanState(s, cal, f, now).power == s.power
    ensures 1 <= f <= 9 ==> SetFanState(s, cal, f, now).panel.mode == Fan
    ensures 1 <= f <= 9 ==> SetFanState(s, cal, f, now).knob.moves == s.knob.moves + [Delta(f, s.fan)]
  {
    if 1 <= f <= 9 {
      ModeMoveEffect(s, cal, Fan, Delta(f, s.fan), now);
    }
  }

  /** `SetPower`: the same as `SetFan` for the power level. */
  function SetPowerState(s: DeviceState, cal: CalibrationConfig, p: nat, now: int): DeviceState
  {
    if p < 1 || p > 9 then s
    else ModeMoveState(s, cal, Power, Delta(p, s.power), now).(power := p)
  }

  /** `SetPower` in effect, as `SetFanEffect` for the power level. */
  lemma SetPowerEffect(s: DeviceState, cal: CalibrationConfig, p: nat, now: int)
    ensures (p < 1 || p > 9) ==> SetPowerState(s, cal, p, now) == s
    ensures 1 <= p <= 9 ==> SetPowerState(s, cal, p, now).power == p
    ensures 1 <= p <= 9 ==> SetPowerState(s, cal, p, now).fan == s.fan
    ensures 1 <= p <= 9 ==> SetPowerState(s, cal, p, now).panel.mode == Power
    ensures 1 <= p <= 9 ==> SetPowerState(s, cal, p, now).knob.moves == s.knob.moves + [Delta(p, s.power)]
  {
    if 1 <= p <= 9 {
      ModeMoveEffect(s, cal, Power, Delta(p, s.power), now);
    }
  }

  /** `Start`: refused while fan or power is 0, otherwise records the start. */
  function StartResult(s: DeviceState, now: int): (r: (DeviceState, bool))
    ensures r.1 <==> s.fan != 0 && s.power != 0
    ensures !r.1 ==> r.0 == s
    ensures r.1 ==> r.0 == s.(startTime := Some(now))
  {
    if s.fan == 0 || s.power == 0 then (s, false) else (s.(startTime := Some(now)), true)
  }

  /** Go's `levelStr`: the letter, then the byte `level + '0'` (wrapping at 256). */
  function LevelStr(c: char, level: nat): (r: string)
    ensures |r| == 2 && r[0] == c
    ensures level <= 9 ==> '0' <= r[1] <= '9' && r[1] as int - '0' as int == level
  {
    [c, ((level % 256 + '0' as int) % 256) as char]
  }

  /** Why a `New` fails. */
  datatype NewError = StepperFailed | ServoCreateFailed | ServoAngleFailed

  /** The state `New` leaves: mode Fan, both levels 0, not started, never
      clicked, not verbose, no remainder. */
  function InitialState(servoScript: seq<bool>, servo: seq<ServoMove>): (s: DeviceState)
    ensures s.panel.mode == Fan && s.fan == 0 && s.power == 0
    ensures s.startTime == None && s.panel.lastClick == None && !s.verbose && s.knob.remainder == 0.0
    ensures s.panel.servo == servo && s.knob.stepperCalls == [] && s.knob.moves == []
  {
    DeviceState(Panel(Fan, servoScript, servo, None), 0, 0, None, false, Knob(0.0, [], []))
  }

  class Device {
    const stepper: Stepper
    const calibration: CalibrationConfig

    /** The outcomes of the servo's coming `SetAngle` calls. */
    var servoScript: seq<bool>

    var currentControlMode: ControlMode
    var fan: nat
    var power: nat
    var startTime: Option<int>
    var lastClick: Option<int>
    var verbose: bool
    var remainder: real

    /** Every servo move so far. */
    var servo: seq<ServoMove>

    /** Every count passed to the stepper's `Move` so far. */
    var stepperCalls: seq<int>

    /** Every increment given to `Move` so far. */
    ghost var moves: seq<int>

    /** The stepper is consistent, and its phase and pin writes are those of
        the counts it has been given. */
    ghost predicate Valid()
      reads this`stepperCalls, stepper
    {
      stepper.Valid()
      && stepper.currentStep == PhaseAfter(stepper.stepMode, stepperCalls)
      && stepper.writes == MovesWrites(stepper.pins, stepper.stepMode, stepperCalls)
    }

    ghost function PanelState(): Panel
      reads this`currentControlMode, this`servoScript, this`servo, this`lastClick
    {
      Panel(currentControlMode, servoScript, servo, lastClick)
    }

    ghost function KnobState(): Knob
      reads this`remainder, this`stepperCalls, this`moves
    {
      Knob(remainder, stepperCalls, moves)
    }

    ghost function Model(): DeviceState
      reads this
    {
      DeviceState(PanelState(), fan, power, startTime, verbose, KnobState())
    }

    constructor (stepper: Stepper, calibration: CalibrationConfig, servoScript: seq<bool>, servo: seq<ServoMove>)
      requires stepper.Valid() && stepper.currentStep == 0 && stepper.writes == []
      ensures Valid()
      ensures this.stepper == stepper && this.calibration == calibration
      ensures Model() == InitialState(servoScript, servo)
    {
      this.stepper := stepper;
      this.calibration := calibration;
      this.servoScript := servoScript;
      currentControlMode := Fan;
      fan := 0;
      power := 0;
      startTime := None;
      lastClick := None;
      verbose := false;
      remainder := 0.0;
      this.servo := servo;
      stepperCalls := [];
      moves := [];
    }

    /** The servo's `SetAngle`, to the click position when `press` holds
        and to the base position otherwise. */
    method SetAngle(press: bool) returns (ok: bool)
      modifies this`servoScript, this`servo
      ensures (ok, servoScript) == ServoAttempt(old(servoScript))
      ensures servo == old(servo) + [if press then Press(ok) else Rest(ok)]
    {
      ok := servoScript == [] || !servoScript[0];
      if servoScript != [] {
        servoScript := servoScript[1..];
      }
      servo := servo + [if press then Press(ok) else Rest(ok)];
    }

    /** `ClickButton`. */
    method ClickButton(now: int)
      modifies this`servoScript, this`servo, this`lastClick
      ensures PanelState() == ClickOnce(old(PanelState()), now)
    {
      var ok := SetAngle(true);
      if !ok {
        return;
      }
      ok := SetAngle(false);
      if !ok {
        return;
      }
      lastClick := Some(now);
    }

    /** `GoToMode`: click until the display shows `target`. */
    method GoToMode(target: ControlMode, now: int) returns (clicked: bool)
      modifies this`currentControlMode, this`servoScript, this`servo, this`lastClick
      ensures (PanelState(), clicked) == GoToPanel(old(PanelState()), startTime, target, now)
    {
      if target == Unknown {
        return false;
      }
      clicked := false;
      if startTime.Some? {
        if lastClick.None? || now - lastClick.value > 3000 {
          ClickButton(now);
          clicked := true;
        }
      }
      if currentControlMode == target {
        return;
      }
      CycleTo(target, now);
      clicked := true;
    }

    /** The loop of `GoToMode`: click and advance the believed mode until it
        is `target`. */
    method CycleTo(target: ControlMode, now: int)
      requires target != Unknown
      modifies this`currentControlMode, this`servoScript, this`servo, this`lastClick
      ensures PanelState() == ModeClicks(old(PanelState()), ClicksTo(old(currentControlMode), target), now)
    {
      ghost var start := PanelState();
      ghost var total := ClicksTo(currentControlMode, target);
      ghost var i: nat := 0;
      while currentControlMode != target
        invariant PanelState() == ModeClicks(start, i, now)
        invariant i + ClicksTo(currentControlMode, target) == total
        decreases ClicksTo(currentControlMode, target)
      {
        ClicksToNext(currentControlMode, target);
        ghost var before := PanelState();
        ClickButton(now);
        currentControlMode := Next(currentControlMode);
        assert PanelState() == ModeClick(before, now);
        i := i + 1;
      }
      assert ClicksTo(target, target) == 0;
    }

    /** `FixControlMode`: overwrite the believed mode only. */
    method FixControlMode(cm: ControlMode)
      modifies this`currentControlMode
      ensures currentControlMode == cm
    {
      currentControlMode := cm;
    }

    /** `FixFan`: overwrite the believed fan level only. */
    method FixFan(f: nat)
      modifies this`fan
      ensures fan == f
    {
      fan := f;
    }

    /** `FixPower`: overwrite the believed power level only. */
    method FixPower(p: nat)
      modifies this`power
      ensures power == p
    {
      power := p;
    }

    /** `MicroStep`: one direct call of the stepper's `Move`. */
    method MicroStep(n: int)
      requires Valid()
      modifies this`stepperCalls, stepper
      ensures Valid()
      ensures stepperCalls == old(stepperCalls) + [n]
    {
      MovesSnoc(stepper.pins, stepper.stepMode, stepperCalls, n);
      stepper.Move(n);
      stepperCalls := stepperCalls + [n];
    }

    /** `Move`: turn `n` increments into stepper steps, carrying the
        rounding remainder, then drive the stepper. */
    method Move(n: int)
      requires Valid()
      modifies this`remainder, this`stepperCalls, this`moves, stepper
      ensures Valid()
      ensures KnobState() == KnobMove(old(KnobState()), calibration, n)
    {
      var spi := calibration.stepsPerIncrement;
      var rawMove := Scale(n, spi) + remainder;
      var move := Round(rawMove);
      remainder := rawMove - move as real;
      KnobMoveParts(old(KnobState()), calibration, n, move, remainder);
      Drive(move);
      moves := moves + [n];
    }

    /** The stepper half of `Move`: the rounded count, then the backstep
        when `BackstepRatio` is positive. The overshoot is added to the
        count while the backstep variable still holds 0, as in the source. */
    method Drive(move: int)
      requires Valid()
      modifies this`stepperCalls, stepper
      ensures Valid()
      ensures stepperCalls == old(stepperCalls) + StepperCalls(calibration, move)
    {
      ghost var before := stepperCalls;
      var count, backsteps := BackstepCounts(calibration, move);
      MicroStep(count);
      if backsteps != 0 {
        MicroStep(backsteps);
        assert stepperCalls == before + [count, backsteps];
      }
    }

    /** `MoveFan`: select the fan mode, then move; the levels are untouched. */
    method MoveFan(i: int, now: int)
      requires Valid()
      modifies this, stepper
      ensures Valid()
      ensures Model() == ModeMoveState(old(Model()), calibration, Fan, i, now)
    {
      ghost var s := Model();
      var _ := GoToMode(Fan, now);
      ghost var panel := PanelState();
      Move(i);
      assert PanelState() == panel && KnobState() == KnobMove(s.knob, calibration, i);
    }

    /** `MovePower`: select the power mode, then move. */
    method MovePower(i: int, now: int)
      requires Valid()
      modifies this, stepper
      ensures Valid()
      ensures Model() == ModeMoveState(old(Model()), calibration, Power, i, now)
    {
      ghost var s := Model();
      var _ := GoToMode(Power, now);
      ghost var panel := PanelState();
      Move(i);
      assert PanelState() == panel && KnobState() == KnobMove(s.knob, calibration, i);
    }

    /** `MoveTimer`: select the timer mode, then move. */
    method MoveTimer(i: int, now: int)
      requires Valid()
      modifies this, stepper
      ensures Valid()
      ensures Model() == ModeMoveState(old(Model()), calibration, Timer, i, now)
    {
      ghost var s := Model();
      var _ := GoToMode(Timer, now);
      ghost var panel := PanelState();
      Move(i);
      assert PanelState() == panel && KnobState() == KnobMove(s.knob, calibration, i);
    }

    /** `IncreaseTime`: five timer increments. */
    method IncreaseTime(now: int)
      requires Valid()
      modifies this, stepper
      ensures Valid()
      ensures Model() == ModeMoveState(old(Model()), calibration, Timer, 5, now)
    {
      ghost var s := Model();
      var _ := GoToMode(Timer, now);
      ghost var panel := PanelState();
      Move(5);
      assert PanelState() == panel && KnobState() == KnobMove(s.knob, calibration, 5);
    }

    /** `SetFan`. */
    method SetFan(f: nat, now: int)
      requires Valid()
      modifies this, stepper
      ensures Valid()
      ensures Model() == SetFanState(old(Model()), calibration, f, now)
    {
      if f < 1 || f > 9 {
        return;
      }
      var delta := f - fan;
      if f == 9 {
        delta := delta + 3;
      }
      if f == 1 {
        delta := delta - 3;
      }
      assert delta == Delta(f, fan);
      ghost var s := Model();
      MoveFan(delta, now);
      ghost var moved := Model();
      assert moved == ModeMoveState(s, calibration, Fan, Delta(f, s.fan), now);
      fan := f;
      assert Model() == moved.(fan := f);
    }

    /** `SetPower`. */
    method SetPower(p: nat, now: int)
      requires Valid()
      modifies this, stepper
      ensures Valid()
      ensures Model() == SetPowerState(old(Model()), calibration, p, now)
    {
      if p < 1 || p > 9 {
        return;
      }
      var delta := p - power;
      if p == 9 {
        delta := delta + 3;
      }
      if p == 1 {
        delta := delta - 3;
      }
      assert delta == Delta(p, power);
      ghost var s := Model();
      MovePower(delta, now);
      ghost var moved := Model();
      assert moved == ModeMoveState(s, calibration, Power, Delta(p, s.power), now);
      power := p;
      assert Model() == moved.(power := p);
    }

    /** `Start`: `ok` is false for Go's error return. */
    method Start(now: int) returns (ok: bool)
      modifies this`startTime
      ensures (Model(), ok) == StartResult(old(Model()), now)
    {
      if fan == 0 || power == 0 {
        return false;
      }
      startTime := Some(now);
      return true;
    }

    /** `Verbose`: switch verbose logging on. */
    method Verbose()
      modifies this`verbose
      ensures verbose
    {
      verbose := true;
    }

    /** `Settings`: the believed fan and power levels. */
    function Settings(): (r: (nat, nat))
      reads this
      ensures r.0 == fan && r.1 == power
    {
      (fan, power)
    }

    /** `ts`: the log timestamp, "[-]" before the roast starts. How a running
        duration prints is Go's `Duration.String`; it is passed in. */
    function Ts(elapsed: string): (r: string)
      reads this
      ensures startTime.None? ==> r == "[-]"
      ensures startTime.Some? ==> r == "[" + elapsed + "]"
    {
      if startTime.None? then "[-]" else "[" + elapsed + "]"
    }

    /** The line `Debug` prints: the timestamp, then `F` and `P` each with
        its level as a digit, then the mode's name after " mode=". */
    function DebugLine(elapsed: string): (r: string)
      reads this
      ensures var n := |Ts(elapsed)|;
              && |r| == n + 12 + |Name(currentControlMode)|
              && r[..n] == Ts(elapsed) && r[n..n + 2] == " F" && r[n + 3..n + 5] == "/P"
              && r[n + 6..n + 12] == " mode=" && r[n + 12..] == Name(currentControlMode)
      ensures fan <= 9 ==> r[|Ts(elapsed)| + 2] as int - '0' as int == fan
      ensures power <= 9 ==> r[|Ts(elapsed)| + 5] as int - '0' as int == power
    {
      Ts(elapsed) + " " + LevelStr('F', fan) + "/" + LevelStr('P', power) + " mode=" + Name(currentControlMode)
    }
  }

  /** `New`: build the stepper, then, when a servo is configured, create it
      and move it to its base position; any failure is reported. */
  method New(stepperCfg: StepperConfig, servoCfg: ServoConfig, cal: CalibrationConfig,
             servoCreated: bool, servoScript: seq<bool>)
    returns (r: Result<Device, NewError>)
    ensures r.Err? <==> (!ValidStepMode(stepperCfg.stepMode)
                         || (servoCfg != NoServo && (!servoCreated || !ServoAttempt(servoScript).0)))
    ensures r.Err? ==> r.error == if !ValidStepMode(stepperCfg.stepMode) then StepperFailed
                                  else if !servoCreated then ServoCreateFailed
                                  else ServoAngleFailed
    ensures r.Ok? ==> fresh(r.value) && fresh(r.value.stepper) && r.value.Valid()
    ensures r.Ok? ==> r.value.calibration == cal && r.value.stepper.stepMode == stepperCfg.stepMode
    ensures r.Ok? && servoCfg == NoServo ==> r.value.Model() == InitialState(servoScript, [])
    ensures r.Ok? && servoCfg != NoServo ==> r.value.Model() == InitialState(ServoAttempt(servoScript).1, [Rest(true)])
  {
    var stepper := NewStepper(stepperCfg);
    if stepper == null {
      return Err(StepperFailed);
    }
    var script := servoScript;
    var servo: seq<ServoMove> := [];
    if servoCfg != NoServo {
      if !servoCreated {
        return Err(ServoCreateFailed);
      }
      var (ok, rest) := ServoAttempt(script);
      if !ok {
        return Err(ServoAngleFailed);
      }
      script := rest;
      servo := [Rest(true)];
    }
    var d := new Device(stepper, cal, script, servo);
    return Ok(d);
  }
}
