/** The firmware's command loop (`Run` in firmware/commands/commands.go)
    driving the `Device` of firmware/device/controller.go, which is the
    controller firmware/main.go hands it. Each call of the interface is
    given its meaning on the device's state; a frame runs its closure with
    the device's own answers; the loop runs every frame of the stream. */
module FirmwareRun {
  import opened Base
  import opened AutoRoast
  import opened Serial
  import opened ControllerCalls
  import opened FirmwareCommands
  import opened FirmwareDevice

  /** What one controller call does to the device's state at time `now`.
      `Debug` and `Settings` only print or answer. */
  function ApplyCall(s: DeviceState, cal: CalibrationConfig, c: Call, now: int): DeviceState
  {
    match c
    case MoveFan(i) => ModeMoveState(s, cal, Fan, i, now)
    case SetFan(f) => SetFanState(s, cal, f, now)
    case MovePower(i) => ModeMoveState(s, cal, Power, i, now)
    case SetPower(p) => SetPowerState(s, cal, p, now)
    case GoToMode(m) => s.(panel := GoToPanel(s.panel, s.startTime, m, now).0)
    case ClickButton => s.(panel := ClickOnce(s.panel, now))
    case Start => StartResult(s, now).0
    case Debug => s
    case Verbose => s.(verbose := true)
    case IncreaseTime => ModeMoveState(s, cal, Timer, 5, now)
    case Settings => s
    case FixFan(f) => s.(fan := f)
    case FixPower(p) => s.(power := p)
    case MicroStep(n) => s.(knob := s.knob.(stepperCalls := s.knob.stepperCalls + [n]))
    case Move(n) => s.(knob := KnobMove(s.knob, cal, n))
  }

  /** The calls made one after the other. */
  function ApplyCalls(s: DeviceState, cal: CalibrationConfig, calls: seq<Call>, now: int): DeviceState
  {
    if calls == [] then s else ApplyCall(ApplyCalls(s, cal, calls[..|calls| - 1], now), cal, calls[|calls| - 1], now)
  }

  /** A frame the table registers, with its full input. */
  predicate Known(f: Frame)
  {
    Lookup(f.flag).Some? && |f.input| == Lookup(f.flag).value.inputSize
  }

  /** One dispatched frame: the closure runs with the device's answers
      (`Settings` and `Start` are always the first call of the commands
      that ask, so the answers are those of the state before the frame),
      and its calls act on the device. */
  function StepFrame(s: DeviceState, cal: CalibrationConfig, f: Frame): (DeviceState, Option<CommandError>)
    requires Known(f)
  {
    var o := Execute(f.flag, f.input, (s.fan, s.power), StartResult(s, f.at).1);
    (ApplyCalls(s, cal, o.calls, f.at), o.err)
  }

  /** The loop over frames: every frame runs, whatever the ones before it
      returned, and each error is printed. */
  function RunFrames(s: DeviceState, cal: CalibrationConfig, frames: seq<Frame>): (DeviceState, seq<CommandError>)
    requires forall f :: f in frames ==> Known(f)
  {
    if frames == [] then (s, [])
    else
      var before := RunFrames(s, cal, frames[..|frames| - 1]);
      var after := StepFrame(before.0, cal, frames[|frames| - 1]);
      (after.0, before.1 + (if after.1.Some? then [after.1.value] else []))
  }

  /** One more frame at the end of the run: it runs on the state the
      earlier frames left, and its error, if any, is added to theirs. */
  lemma RunFramesStep(s: DeviceState, cal: CalibrationConfig, done: seq<Frame>, f: Frame,
                      before: DeviceState, errors: seq<CommandError>, after: DeviceState, err: Option<CommandError>)
    requires Known(f) && forall g :: g in done ==> Known(g)
    requires (before, errors) == RunFrames(s, cal, done)
    requires (after, err) == StepFrame(before, cal, f)
    ensures RunFrames(s, cal, done + [f]) == (after, errors + if err.Some? then [err.value] else [])
  {
    assert (done + [f])[..|done|] == done;
  }

  /** An error does not stop the loop: the frames after it run on the state
      the earlier ones left, and the errors accumulate. */
  lemma {:induction false} RunFramesAppend(s: DeviceState, cal: CalibrationConfig, a: seq<Frame>, b: seq<Frame>)
    requires forall f :: f in a + b ==> Known(f)
    ensures RunFrames(s, cal, a + b).0 == RunFrames(RunFrames(s, cal, a).0, cal, b).0
    ensures RunFrames(s, cal, a + b).1 == RunFrames(s, cal, a).1 + RunFrames(RunFrames(s, cal, a).0, cal, b).1
    decreases |b|
  {
    if b == [] {
      assert a + b == a;
    } else {
      var b' := b[..|b| - 1];
      assert (a + b)[..|a + b| - 1] == a + b';
      assert (a + b)[|a + b| - 1] == b[|b| - 1];
      RunFramesAppend(s, cal, a, b');
    }
  }

  /** The fix-and-resync commands on a device: `f` resets the believed fan
      to the argument digit and then drives the fan back to the level it
      believed before, so the fan setting is unchanged and the knob turns
      by the difference (with the end-stop allowance). On a device whose
      fan was never set, `SetFan(0)` is refused and only the fix remains. */
  lemma FixFanResync(s: DeviceState, cal: CalibrationConfig, b: byte, now: int)
    ensures var r := StepFrame(s, cal, Frame(FixFanCommand.flag, [b], now));
            r.1 == None && r.0.power == s.power
            && (1 <= s.fan <= 9 ==> r.0.fan == s.fan && r.0.panel.mode == Fan
                                    && r.0.knob.moves == s.knob.moves + [Delta(s.fan, B2i(b))])
            && (s.fan == 0 ==> r.0 == s.(fan := B2i(b)))
  {
    var calls := [Settings, FixFan(B2i(b)), SetFan(s.fan)];
    assert Execute(FixFanCommand.flag, [b], (s.fan, s.power), StartResult(s, now).1).calls == calls;
    assert calls[..2][..1] == [Settings] && calls[..2] == [Settings, FixFan(B2i(b))] && calls[..1] == [Settings];
    assert ApplyCalls(s, cal, calls[..1], now) == s;
    assert ApplyCalls(s, cal, calls[..2], now) == s.(fan := B2i(b));
    SetFanEffect(s.(fan := B2i(b)), cal, s.fan, now);
  }

  /** The same for `p` and the power level. */
  lemma FixPowerResync(s: DeviceState, cal: CalibrationConfig, b: byte, now: int)
    ensures var r := StepFrame(s, cal, Frame(FixPowerCommand.flag, [b], now));
            r.1 == None && r.0.fan == s.fan
            && (1 <= s.power <= 9 ==> r.0.power == s.power && r.0.panel.mode == Power
                                      && r.0.knob.moves == s.knob.moves + [Delta(s.power, B2i(b))])
            && (s.power == 0 ==> r.0 == s.(power := B2i(b)))
  {
    var calls := [Settings, FixPower(B2i(b)), SetPower(s.power)];
    assert Execute(FixPowerCommand.flag, [b], (s.fan, s.power), StartResult(s, now).1).calls == calls;
    assert calls[..2][..1] == [Settings] && calls[..2] == [Settings, FixPower(B2i(b))] && calls[..1] == [Settings];
    assert ApplyCalls(s, cal, calls[..1], now) == s;
    assert ApplyCalls(s, cal, calls[..2], now) == s.(power := B2i(b));
    SetPowerEffect(s.(power := B2i(b)), cal, s.power, now);
  }

  /** A controller call on the device. */
  method Perform(d: Device, c: Call, now: int)
    requires d.Valid()
    modifies d, d.stepper
    ensures d.Valid()
    ensures d.Model() == ApplyCall(old(d.Model()), d.calibration, c, now)
  {
    if c.MoveFan? || c.SetFan? || c.MovePower? || c.SetPower? || c.IncreaseTime? {
      PerformLevel(d, c, now);
    } else if c.MicroStep? || c.Move? {
      PerformStepper(d, c, now);
    } else {
      PerformPanel(d, c, now);
    }
  }

  /** The calls that select a mode and turn the knob. */
  method PerformLevel(d: Device, c: Call, now: int)
    requires d.Valid()
    requires c.MoveFan? || c.SetFan? || c.MovePower? || c.SetPower? || c.IncreaseTime?
    modifies d, d.stepper
    ensures d.Valid()
    ensures d.Model() == ApplyCall(old(d.Model()), d.calibration, c, now)
  {
    match c
    case MoveFan(i) => d.MoveFan(i, now);
    case SetFan(f) => d.SetFan(f, now);
    case MovePower(i) => d.MovePower(i, now);
    case SetPower(p) => d.SetPower(p, now);
    case IncreaseTime => d.IncreaseTime(now);
  }

  /** The calls that drive the stepper directly or through `Move`. */
  method PerformStepper(d: Device, c: Call, now: int)
    requires d.Valid()
    requires c.MicroStep? || c.Move?
    modifies d, d.stepper
    ensures d.Valid()
    ensures d.Model() == ApplyCall(old(d.Model()), d.calibration, c, now)
  {
    match c
    case MicroStep(n) => d.MicroStep(n);
    case Move(n) => d.Move(n);
  }

  /** The calls that click, start, log or overwrite believed values. */
  method PerformPanel(d: Device, c: Call, now: int)
    requires d.Valid()
    requires !(c.MoveFan? || c.SetFan? || c.MovePower? || c.SetPower? || c.IncreaseTime? || c.MicroStep? || c.Move?)
    modifies d, d.stepper
    ensures d.Valid()
    ensures d.Model() == ApplyCall(old(d.Model()), d.calibration, c, now)
  {
    match c
    case GoToMode(m) => var _ := d.GoToMode(m, now);
    case ClickButton => d.ClickButton(now);
    case Start => var _ := d.Start(now);
    case Debug =>
    case Verbose => d.Verbose();
    case Settings => var _ := d.Settings();
    case FixFan(f) => d.FixFan(f);
    case FixPower(p) => d.FixPower(p);
  }

  /** The calls of one closure, in order. */
  method PerformAll(d: Device, calls: seq<Call>, now: int)
    requires d.Valid()
    modifies d, d.stepper
    ensures d.Valid()
    ensures d.Model() == ApplyCalls(old(d.Model()), d.calibration, calls, now)
  {
    for i := 0 to |calls|
      invariant d.Valid()
      invariant d.Model() == ApplyCalls(old(d.Model()), d.calibration, calls[..i], now)
    {
      assert calls[..i + 1][..i] == calls[..i];
      Perform(d, calls[i], now);
    }
    assert calls[..|calls|] == calls;
  }

  /** `cmd.Run(c, in)` for a registered frame, on the device. */
  method Dispatch(d: Device, f: Frame) returns (err: Option<CommandError>)
    requires d.Valid() && Known(f)
    modifies d, d.stepper
    ensures d.Valid()
    ensures (d.Model(), err) == StepFrame(old(d.Model()), d.calibration, f)
  {
    var settings := d.Settings();
    if f.flag == StartCommand.flag {
      var ok := d.Start(f.at);
      var o := Execute(f.flag, f.input, settings, ok);
      assert ApplyCalls(old(d.Model()), d.calibration, o.calls, f.at) == StartResult(old(d.Model()), f.at).0;
      err := o.err;
    } else {
      var o := Execute(f.flag, f.input, settings, true);
      ExecuteAnswers(f.flag, f.input, settings, true, settings, StartResult(old(d.Model()), f.at).1);
      PerformAll(d, o.calls, f.at);
      err := o.err;
    }
  }

  /** The body of `Run`'s loop for one frame: dispatch it and print its
      error, if any. */
  method Serve(d: Device, f: Frame, ghost s0: DeviceState, ghost done: seq<Frame>, errors: seq<CommandError>)
    returns (errors': seq<CommandError>)
    requires d.Valid() && Known(f) && forall g :: g in done ==> Known(g)
    requires (d.Model(), errors) == RunFrames(s0, d.calibration, done)
    modifies d, d.stepper
    ensures d.Valid()
    ensures (d.Model(), errors') == RunFrames(s0, d.calibration, done + [f])
  {
    ghost var before := d.Model();
    var err := Dispatch(d, f);
    errors' := errors;
    if err.Some? {
      errors' := errors' + [err.value];
    }
    assert errors' == errors + if err.Some? then [err.value] else [];
    RunFramesStep(s0, d.calibration, done, f, before, errors, d.Model(), err);
  }

  /** `Run`: build the flag map, then process the stream frame by frame,
      skipping failed reads and unknown bytes and printing each error. The
      loop stops where the stream ends, which on the device means waiting. */
  method Run(d: Device, stream: seq<Read>) returns (errors: seq<CommandError>)
    requires d.Valid()
    modifies d, d.stepper
    ensures d.Valid()
    ensures (d.Model(), errors) == RunFrames(old(d.Model()), d.calibration, Frames(Sizes(), stream))
  {
    var cmdMap := BuildCommandMap();
    errors := [];
    ghost var done: seq<Frame> := [];
    var pos := 0;
    ghost var sizes := Sizes();
    while pos < |stream|
      invariant pos <= |stream|
      invariant Frames(sizes, stream) == done + FramesFrom(sizes, stream, pos)
      invariant forall f :: f in done ==> Known(f)
      invariant d.Valid()
      invariant (d.Model(), errors) == RunFrames(old(d.Model()), d.calibration, done)
      decreases |stream| - pos
    {
      var r := stream[pos];
      if r.Failed? || r.b !in cmdMap {
        pos := pos + 1;
        continue;
      }
      var ok, frame, next := ReadCommand(stream, pos, cmdMap[r.b].inputSize, sizes, done);
      if !ok {
        return;
      }
      errors := Serve(d, frame, old(d.Model()), done, errors);
      done := done + [frame];
      pos := next;
    }
    assert done + [] == done;
  }
}
