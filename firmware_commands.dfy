/** The firmware's byte commands (firmware/commands/commands.go): each
    command is a flag byte, a fixed number of argument bytes and a closure
    over the controller. A closure is modelled as the calls it makes and
    the error it returns; the answers of `Settings` and `Start` are
    parameters. */
module FirmwareCommands {
  import opened Base
  import opened AutoRoast
  import opened ControllerCalls

  /** A row of the command table. */
  datatype CommandInfo = CommandInfo(flag: byte, inputSize: nat, description: string)

  const SetFanCommand := CommandInfo('F' as byte, 1, "Set or adjust the fan speed. Input: '-', '+', or 1-9.")
  const SetPowerCommand := CommandInfo('P' as byte, 1, "Set or adjust the power level. Input: '-', '+', or 1-9.")
  const SetModeCommand := CommandInfo('M' as byte, 1, "Switch control mode. Input: 'F' (Fan), 'P' (Power), 'T' (Timer).")
  const ClickCommand := CommandInfo('C' as byte, 0, "Click the button. This does not change the device's memory of where it is positioned.")
  const StartCommand := CommandInfo('S' as byte, 0, "Start roasting. This sets the timer to track durations of each change.")
  const DebugCommand := CommandInfo('D' as byte, 0, "Print the current state.")
  const VerboseCommand := CommandInfo('V' as byte, 0, "Enable verbose output.")
  const IncreaseTimeCommand := CommandInfo('T' as byte, 0, "Increase the timer value.")
  const FixFanCommand := CommandInfo('f' as byte, 1, "Fix the fan at a specific value and restore target. Input: 1-9.")
  const FixPowerCommand := CommandInfo('p' as byte, 1, "Fix the power at a specific value and restore target. Input: 1-9.")
  const TestCommand := CommandInfo('Z' as byte, 1, "Run test routines. Input: '1' (toggle test), '2' (fan test).")
  const StepCommand := CommandInfo('s' as byte, 2, "Move stepper motor by steps. Input: '+' or '-', then step count (1-9).")
  const FullRevolutionCommand := CommandInfo('R' as byte, 0, "Move stepper motor a full revolution.")
  const InitCommand := CommandInfo('I' as byte, 2, "Initialize fan and power to specific values. Input: fan(1-9), power(1-9).")
  const MicroStepCommand := CommandInfo(0x1B, 2, "Move stepper motor by microsteps. Use left and right arrow keys.")
  const HelpCommand := CommandInfo('H' as byte, 0, "Show all available commands and their descriptions.")

  /** The `commands` table, which the help text lists; `HelpCommand` is
      not in it. */
  const Commands: seq<CommandInfo> := [
    SetFanCommand, SetPowerCommand, SetModeCommand, ClickCommand, StartCommand,
    DebugCommand, VerboseCommand, IncreaseTimeCommand, FixFanCommand, FixPowerCommand,
    TestCommand, StepCommand, FullRevolutionCommand, InitCommand, MicroStepCommand
  ]

  /** The rows `Run` registers in `cmdMap`: the help command, then the
      table. */
  const Registered: seq<CommandInfo> := [HelpCommand] + Commands

  /** No two rows share a flag. */
  predicate FlagsDistinct(cmds: seq<CommandInfo>)
  {
    forall i, j :: 0 <= i < j < |cmds| ==> cmds[i].flag != cmds[j].flag
  }

  /** Where a flag is registered: its index in `Registered`, or 16 for a
      byte that is not a flag. */
  function Position(flag: byte): (k: nat)
    ensures k <= 16
  {
    if flag == 'H' as byte then 0 else if flag == 'F' as byte then 1
    else if flag == 'P' as byte then 2 else if flag == 'M' as byte then 3
    else if flag == 'C' as byte then 4 else if flag == 'S' as byte then 5
    else if flag == 'D' as byte then 6 else if flag == 'V' as byte then 7
    else if flag == 'T' as byte then 8 else if flag == 'f' as byte then 9
    else if flag == 'p' as byte then 10 else if flag == 'Z' as byte then 11
    else if flag == 's' as byte then 12 else if flag == 'R' as byte then 13
    else if flag == 'I' as byte then 14 else if flag == 0x1B then 15
    else 16
  }

  /** The command `cmdMap` holds under a flag. */
  function Lookup(flag: byte): (c: Option<CommandInfo>)
    ensures c.Some? <==> Position(flag) < 16
  {
    if flag == 'H' as byte then Some(HelpCommand) else if flag == 'F' as byte then Some(SetFanCommand)
    else if flag == 'P' as byte then Some(SetPowerCommand) else if flag == 'M' as byte then Some(SetModeCommand)
    else if flag == 'C' as byte then Some(ClickCommand) else if flag == 'S' as byte then Some(StartCommand)
    else if flag == 'D' as byte then Some(DebugCommand) else if flag == 'V' as byte then Some(VerboseCommand)
    else if flag == 'T' as byte then Some(IncreaseTimeCommand) else if flag == 'f' as byte then Some(FixFanCommand)
    else if flag == 'p' as byte then Some(FixPowerCommand) else if flag == 'Z' as byte then Some(TestCommand)
    else if flag == 's' as byte then Some(StepCommand) else if flag == 'R' as byte then Some(FullRevolutionCommand)
    else if flag == 'I' as byte then Some(InitCommand) else if flag == 0x1B then Some(MicroStepCommand)
    else None
  }

  /** Every registered row is found under its own flag at its own index. */
  lemma LookupFindsEveryRow()
    ensures forall i :: 0 <= i < |Registered| ==> Position(Registered[i].flag) == i
    ensures forall i :: 0 <= i < |Registered| ==> Lookup(Registered[i].flag) == Some(Registered[i])
  {
  }

  /** Row `i` of `Registered` is found at position `i`. */
  lemma RowFound(i: nat)
    requires i < |Registered|
    ensures Position(Registered[i].flag) == i && Lookup(Registered[i].flag) == Some(Registered[i])
    ensures i > 0 ==> Registered[i] == Commands[i - 1]
  {
    LookupFindsEveryRow();
  }

  /** The flags of the table are distinct and the help flag is not among
      them, so building `cmdMap` loses no command. */
  lemma RegisteredFlagsDistinct()
    ensures FlagsDistinct(Registered)
    ensures forall i :: 0 <= i < |Commands| ==> Commands[i].flag != HelpCommand.flag
  {
    LookupFindsEveryRow();
  }

  /** The registered flags. */
  const Flags: set<byte> := {
    'H' as byte, 'F' as byte, 'P' as byte, 'M' as byte, 'C' as byte, 'S' as byte, 'D' as byte, 'V' as byte,
    'T' as byte, 'f' as byte, 'p' as byte, 'Z' as byte, 's' as byte, 'R' as byte, 'I' as byte, 0x1B
  }

  /** The input size of each registered flag. */
  function Sizes(): (sizes: map<byte, nat>)
    ensures forall f :: f in sizes <==> Lookup(f).Some?
    ensures forall f :: f in sizes ==> sizes[f] == Lookup(f).value.inputSize
  {
    map f | f in Flags :: Lookup(f).value.inputSize
  }

  /** `F`: '-' and '+' nudge the fan by one increment, a digit 1-9 sets it,
      and any other byte is refused without a call. */
  function SetFanRun(input: seq<byte>): (o: Outcome)
    requires |input| > 0
    ensures input[0] == '-' as byte ==> o == Outcome([MoveFan(-1)], None)
    ensures input[0] == '+' as byte ==> o == Outcome([MoveFan(1)], None)
    ensures IsNonZeroDigit(input[0]) ==> o == Outcome([SetFan(B2i(input[0]))], None)
    ensures o.err.Some? <==> input[0] != '-' as byte && input[0] != '+' as byte && !IsNonZeroDigit(input[0])
    ensures o.err.Some? ==> o == Outcome([], Some(InvalidInputOf(input)))
  {
    var b := input[0];
    if b == '-' as byte then Outcome([MoveFan(-1)], None)
    else if b == '+' as byte then Outcome([MoveFan(1)], None)
    else
      var f := B2i(b);
      if f <= 0 || f > 9 then Outcome([], Some(InvalidInputOf(input)))
      else Outcome([SetFan(f)], None)
  }

  /** `P`: the same for the power level. */
  function SetPowerRun(input: seq<byte>): (o: Outcome)
    requires |input| > 0
    ensures input[0] == '-' as byte ==> o == Outcome([MovePower(-1)], None)
    ensures input[0] == '+' as byte ==> o == Outcome([MovePower(1)], None)
    ensures IsNonZeroDigit(input[0]) ==> o == Outcome([SetPower(B2i(input[0]))], None)
    ensures o.err.Some? <==> input[0] != '-' as byte && input[0] != '+' as byte && !IsNonZeroDigit(input[0])
    ensures o.err.Some? ==> o == Outcome([], Some(InvalidInputOf(input)))
  {
    var b := input[0];
    if b == '-' as byte then Outcome([MovePower(-1)], None)
    else if b == '+' as byte then Outcome([MovePower(1)], None)
    else
      var p := B2i(b);
      if p <= 0 || p > 9 then Outcome([], Some(InvalidInputOf(input)))
      else Outcome([SetPower(p)], None)
  }

  /** The mode an `M` argument names: 'F', 'P', 'T', and Unknown for
      anything else. */
  function ModeOf(b: byte): (m: ControlMode)
    ensures m == Fan <==> b == 'F' as byte
    ensures m == Power <==> b == 'P' as byte
    ensures m == Timer <==> b == 'T' as byte
  {
    if b == 'F' as byte then Fan
    else if b == 'P' as byte then Power
    else if b == 'T' as byte then Timer
    else Unknown
  }

  /** `M`: always one `GoToMode` call and never an error. */
  function SetModeRun(input: seq<byte>): (o: Outcome)
    requires |input| > 0
    ensures o.err.None? && |o.calls| == 1 && o.calls[0].GoToMode?
    ensures o.calls[0].mode == ModeOf(input[0])
  {
    Outcome([GoToMode(ModeOf(input[0]))], None)
  }

  /** `S`: the error is the one `Start` returns. */
  function StartRun(started: bool): (o: Outcome)
    ensures o.calls == [Start]
    ensures o.err.None? <==> started
  {
    Outcome([Start], if started then None else Some(StartRefused))
  }

  /** `f`: read the target from `Settings`, overwrite the believed fan with
      the argument digit, then set the fan back to the target. */
  function FixFanRun(input: seq<byte>, settings: (nat, nat)): (o: Outcome)
    requires |input| > 0
    ensures o.err.None?
    ensures o.calls == [Settings, FixFan(B2i(input[0])), SetFan(settings.0)]
  {
    var v := B2i(input[0]);
    var target := settings.0;
    Outcome([Settings, FixFan(v), SetFan(target)], None)
  }

  /** `p`: the same for the power level. */
  function FixPowerRun(input: seq<byte>, settings: (nat, nat)): (o: Outcome)
    requires |input| > 0
    ensures o.err.None?
    ensures o.calls == [Settings, FixPower(B2i(input[0])), SetPower(settings.1)]
  {
    var v := B2i(input[0]);
    var target := settings.1;
    Outcome([Settings, FixPower(v), SetPower(target)], None)
  }

  /** The six toggles of test routine '1'. */
  const Toggles: seq<Call> := [SetFan(5), SetPower(5), SetFan(9), SetFan(8), SetPower(9), SetPower(8)]

  /** `k` rounds of routine '2': fan 5 then fan 4. */
  function FanTest(k: nat): (calls: seq<Call>)
    ensures |calls| == 2 * k
    ensures forall i :: 0 <= i < |calls| ==> calls[i] == if i % 2 == 0 then SetFan(5) else SetFan(4)
  {
    if k == 0 then [] else FanTest(k - 1) + [SetFan(5), SetFan(4)]
  }

  /** `Z`: routine '1' (the default when there is no argument) runs the
      toggles, resets both levels to 1 and runs them again; '2' alternates
      the fan between 5 and 4 ten times; anything else does nothing. The
      sleeps between calls are not modelled. */
  function TestRun(input: seq<byte>): (o: Outcome)
    ensures o.err.None?
    ensures (input == [] || input[0] == '1' as byte) ==> o.calls == Toggles + [SetFan(1), SetPower(1)] + Toggles
    ensures input != [] && input[0] == '2' as byte ==> o.calls == FanTest(10)
    ensures input != [] && input[0] == '2' as byte ==>
              |o.calls| == 20 && forall i :: 0 <= i < 20 ==> o.calls[i] == if i % 2 == 0 then SetFan(5) else SetFan(4)
    ensures input != [] && input[0] != '1' as byte && input[0] != '2' as byte ==> o.calls == []
    ensures forall c :: c in o.calls ==> c.SetFan? || c.SetPower?
  {
    var test := if |input| > 0 then input[0] else '1' as byte;
    if test == '1' as byte then Outcome(Toggles + [SetFan(1), SetPower(1)] + Toggles, None)
    else if test == '2' as byte then Outcome(FanTest(10), None)
    else Outcome([], None)
  }

  /** `s`: a sign byte and a digit; the stepper moves by the signed digit,
      so a bad digit moves by 0. A bad sign is refused without a call. */
  function StepRun(input: seq<byte>): (o: Outcome)
    requires |input| > 1
    ensures o.err.Some? <==> input[0] != '+' as byte && input[0] != '-' as byte
    ensures o.err.Some? ==> o == Outcome([], Some(InvalidInput))
    ensures input[0] == '+' as byte ==> o.calls == [Move(B2i(input[1]))]
    ensures input[0] == '-' as byte ==> o.calls == [Move(-(B2i(input[1]) as int))]
  {
    var b := input[0];
    if b != '-' as byte && b != '+' as byte then Outcome([], Some(InvalidInput))
    else
      var s := if b == '-' as byte then -1 else 1;
      Outcome([Move(B2i(input[1]) * s)], None)
  }

  /** `I`: overwrite both believed levels, with no movement. */
  function InitRun(input: seq<byte>): (o: Outcome)
    requires |input| > 1
    ensures o == Outcome([FixFan(B2i(input[0])), FixPower(B2i(input[1]))], None)
  {
    var fan := B2i(input[0]);
    var power := B2i(input[1]);
    Outcome([FixFan(fan), FixPower(power)], None)
  }

  /** An escape sequence: the arrow keys ESC '[' 'D' and ESC '[' 'C' turn the
      stepper by 5 microsteps one way or the other. */
  function MicroStepRun(input: seq<byte>): (o: Outcome)
    requires |input| > 1
    ensures o.err.Some? <==> input[0] != '[' as byte
    ensures o.err.Some? ==> o == Outcome([], Some(InvalidInput))
    ensures input[0] == '[' as byte && input[1] == 'D' as byte ==> o.calls == [MicroStep(5)]
    ensures input[0] == '[' as byte && input[1] == 'C' as byte ==> o.calls == [MicroStep(-5)]
    ensures input[0] == '[' as byte && input[1] != 'D' as byte && input[1] != 'C' as byte ==> o.calls == []
  {
    if input[0] != '[' as byte then Outcome([], Some(InvalidInput))
    else if input[1] == 'D' as byte then Outcome([MicroStep(5)], None)
    else if input[1] == 'C' as byte then Outcome([MicroStep(-5)], None)
    else Outcome([], None)
  }

  /** The closure registered under `flag`, given the argument bytes and the
      controller's answers to `Settings` and `Start`. The closures without
      arguments are written out in place. */
  function Execute(flag: byte, input: seq<byte>, settings: (nat, nat), started: bool): (o: Outcome)
    requires Lookup(flag).Some? && |input| == Lookup(flag).value.inputSize
  {
    if flag == SetFanCommand.flag then SetFanRun(input)
    else if flag == SetPowerCommand.flag then SetPowerRun(input)
    else if flag == SetModeCommand.flag then SetModeRun(input)
    else if flag == ClickCommand.flag then Outcome([ClickButton], None)
    else if flag == StartCommand.flag then StartRun(started)
    else if flag == DebugCommand.flag then Outcome([Debug], None)
    else if flag == VerboseCommand.flag then Outcome([Verbose], None)
    else if flag == IncreaseTimeCommand.flag then Outcome([IncreaseTime], None)
    else if flag == FixFanCommand.flag then FixFanRun(input, settings)
    else if flag == FixPowerCommand.flag then FixPowerRun(input, settings)
    else if flag == TestCommand.flag then TestRun(input)
    else if flag == StepCommand.flag then StepRun(input)
    else if flag == FullRevolutionCommand.flag then Outcome([MicroStep(4096)], None)
    else if flag == InitCommand.flag then InitRun(input)
    else if flag == MicroStepCommand.flag then MicroStepRun(input)
    else Outcome([], None)
  }

  /** The commands without arguments make one call (or, for `H`, none) and
      never fail; a command that fails makes no call, except `S`, whose
      error is the answer of its one call. */
  lemma ExecuteOutcomes(flag: byte, input: seq<byte>, settings: (nat, nat), started: bool)
    requires Lookup(flag).Some? && |input| == Lookup(flag).value.inputSize
    ensures var o := Execute(flag, input, settings, started);
            && (flag == ClickCommand.flag ==> o == Outcome([ClickButton], None))
            && (flag == DebugCommand.flag ==> o == Outcome([Debug], None))
            && (flag == VerboseCommand.flag ==> o == Outcome([Verbose], None))
            && (flag == IncreaseTimeCommand.flag ==> o == Outcome([IncreaseTime], None))
            && (flag == FullRevolutionCommand.flag ==> o == Outcome([MicroStep(4096)], None))
            && (flag == HelpCommand.flag ==> o == Outcome([], None))
            && (o.err.Some? && flag != StartCommand.flag ==> o.calls == [])
  {
  }

  /** Only `S` reads the answer of `Start`, and only `f` and `p` read the
      answer of `Settings`. */
  lemma ExecuteAnswers(flag: byte, input: seq<byte>, settings: (nat, nat), started: bool,
                       settings': (nat, nat), started': bool)
    requires Lookup(flag).Some? && |input| == Lookup(flag).value.inputSize
    ensures flag != StartCommand.flag && flag != FixFanCommand.flag && flag != FixPowerCommand.flag
            ==> Execute(flag, input, settings, started) == Execute(flag, input, settings', started')
    ensures flag != StartCommand.flag ==> Execute(flag, input, settings, started) == Execute(flag, input, settings, started')
  {
  }

  const HexDigits: string := "0123456789ABCDEF"

  /** How the help text shows a flag: printable ASCII as itself, anything
      else as two hex digits after "0x". */
  function FlagString(flag: byte): (s: string)
    ensures 32 <= flag <= 126 ==> s == [flag as char]
    ensures !(32 <= flag <= 126) ==> |s| == 4 && s[..2] == "0x"
    ensures !(32 <= flag <= 126) ==> s[2] == HexDigits[flag as int / 16] && s[3] == HexDigits[flag as int % 16]
  {
    if 32 <= flag <= 126 then [flag as char]
    else "0x" + [HexDigits[flag as int / 16]] + [HexDigits[flag as int % 16]]
  }

  /** The escape flag prints as "0x1B"; the others print as themselves. */
  lemma FlagStrings()
    ensures FlagString(MicroStepCommand.flag) == "0x1B"
    ensures forall i :: 0 <= i < |Commands| - 1 ==> FlagString(Commands[i].flag) == [Commands[i].flag as char]
  {
  }

  /** The lines `H` prints: a heading, then one line per table row, in
      table order. */
  function HelpLines(): (lines: seq<string>)
    ensures |lines| == |Commands| + 1 && lines[0] == "Available Commands:"
    ensures forall i :: 0 <= i < |Commands| ==> lines[i + 1] == FlagString(Commands[i].flag) + ": " + Commands[i].description
  {
    ["Available Commands:"] + seq(|Commands|, i requires 0 <= i < |Commands| => FlagString(Commands[i].flag) + ": " + Commands[i].description)
  }

  /** The first loop of `Run`: register the help command, then every row
      of the table under its flag. */
  method BuildCommandMap() returns (cmdMap: map<byte, CommandInfo>)
    ensures forall f :: f in cmdMap <==> Lookup(f).Some?
    ensures forall f :: f in cmdMap ==> Lookup(f) == Some(cmdMap[f])
  {
    RowFound(0);
    cmdMap := map[HelpCommand.flag := HelpCommand];
    for i := 0 to |Commands|
      invariant forall f :: f in cmdMap <==> Position(f) <= i
      invariant forall f :: f in cmdMap ==> Lookup(f) == Some(cmdMap[f])
    {
      RowFound(i + 1);
      cmdMap := cmdMap[Commands[i].flag := Commands[i]];
    }
  }
}
