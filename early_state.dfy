/** The first revision of the device (main.go): a `State` that only keeps
    its believed mode, fan and power. Most of its methods are placeholders
    that change nothing; the stepper and servo it creates are hardware and
    are not part of this model. */
module EarlyState {
  import opened AutoRoast

  /** main.go's `CalibrationConfig`. */
  datatype EarlyCalibration = EarlyCalibration(
    servoBasePosition: nat, servoClickPosition: nat, stepsPerIncrement: nat, backlashSteps: nat)

  /** The believed state of a `State`: mode, fan and power. */
  datatype Believed = Believed(mode: ControlMode, fan: nat, power: nat)

  class State {
    var calibration: EarlyCalibration
    var currentControlMode: ControlMode
    var fan: nat
    var power: nat
    /** Start and last-click times in ms; `NewState` sets both to now. */
    var startTime: int
    var lastClick: int

    function Believes(): (b: Believed)
      reads this
    {
      Believed(currentControlMode, fan, power)
    }

    /** `NewState`: the display starts in Fan mode with fan and power 1,
        and both clocks at `now`. */
    constructor (cal: EarlyCalibration, now: int)
      ensures Believes() == Believed(Fan, 1, 1)
      ensures calibration == cal && startTime == now && lastClick == now
    {
      calibration := cal;
      currentControlMode := Fan;
      fan := 1;
      power := 1;
      startTime := now;
      lastClick := now;
    }

    /** `ClickButton`: the display advances one mode (no servo yet), and
        the new mode is returned. */
    method ClickButton() returns (m: ControlMode)
      modifies this`currentControlMode
      ensures currentControlMode == Next(old(currentControlMode)) && m == currentControlMode
    {
      currentControlMode := Next(currentControlMode);
      m := currentControlMode;
    }

    /** `GoToMode`: not yet implemented; it changes nothing. */
    method GoToMode(target: ControlMode)
    {
    }

    /** `FixControlMode`: overwrite the believed mode. */
    method FixControlMode(cm: ControlMode)
      modifies this`currentControlMode
      ensures currentControlMode == cm
    {
      currentControlMode := cm;
    }

    /** `MoveFan`: does not move anything yet; it answers the believed fan. */
    method MoveFan(i: int) returns (f: nat)
      ensures f == fan
    {
      f := fan;
    }

    /** `MovePower`: likewise, the believed power. */
    method MovePower(i: int) returns (p: nat)
      ensures p == power
    {
      p := power;
    }

    /** `MoveTimer`: not yet implemented; it changes nothing. */
    method MoveTimer(i: int)
    {
    }

    /** `FixPower`: overwrite the believed power. */
    method FixPower(p: nat)
      modifies this`power
      ensures power == p
    {
      power := p;
    }

    /** `FixFan`: overwrite the believed fan. */
    method FixFan(f: nat)
      modifies this`fan
      ensures fan == f
    {
      fan := f;
    }

    /** `SetFan`: only logs; it changes nothing. */
    method SetFan(f: nat)
    {
    }

    /** `SetPower`: not yet implemented; it changes nothing. */
    method SetPower(p: nat)
    {
    }
  }

  /** Three clicks bring a fresh `State` back to Fan, through Power and
      Timer, and leave fan and power alone; the fixes then set exactly the
      fields they name, and the move stubs report them. */
  method ClickCycle(cal: EarlyCalibration, now: int) returns (seen: seq<ControlMode>, levels: (nat, nat))
    ensures seen == [Power, Timer, Fan]
    ensures levels == (5, 6)
  {
    var s := new State(cal, now);
    var a := s.ClickButton();
    var b := s.ClickButton();
    var c := s.ClickButton();
    seen := [a, b, c];
    assert s.Believes() == Believed(Fan, 1, 1);
    s.FixFan(5);
    s.FixPower(6);
    s.GoToMode(Timer);
    s.SetFan(9);
    s.SetPower(9);
    s.MoveTimer(3);
    var f := s.MoveFan(1);
    var p := s.MovePower(-1);
    levels := (f, p);
  }
}
