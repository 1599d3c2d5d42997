/** The older byte commands of commands.go. The controller they drive is
    not part of this model; it is taken to offer the same calls as the
    firmware's `Controller` interface, plus `FullRev`. A closure is again
    the calls it makes and the error it returns. */
module LegacyCommands {
  import opened Base
  import opened AutoRoast
  import opened Serial
  import opened ControllerCalls
  import opened FirmwareCommands

  /** A call of the older controller: one the firmware interface also has,
      or a full stepper revolution. */
  datatype LegacyCall = Current(call: Call) | FullRev

  /** What an older closure did. */
  datatype LegacyOutcome = LegacyOutcome(calls: seq<LegacyCall>, err: Option<CommandError>)

  /** A firmware outcome read as an outcome of the older controller. */
  function Lift(o: Outcome): (l: LegacyOutcome)
    ensures |l.calls| == |o.calls| && l.err == o.err
    ensures forall i :: 0 <= i < |o.calls| ==> l.calls[i] == Current(o.calls[i])
  {
    LegacyOutcome(seq(|o.calls|, i requires 0 <= i < |o.calls| => Current(o.calls[i])), o.err)
  }

  /** A firmware outcome of one call. */
  lemma LiftOne(c: Call, err: Option<CommandError>)
    ensures Lift(Outcome([c], err)) == LegacyOutcome([Current(c)], err)
  {
  }

  /** A row of the older table: a flag and its number of argument bytes. */
  datatype LegacyCommand = LegacyCommand(flag: byte, inputSize: nat)

  const LegacySetFan := LegacyCommand('F' as byte, 1)
  const LegacySetPower := LegacyCommand('P' as byte, 1)
  const LegacySetMode := LegacyCommand('M' as byte, 1)
  const LegacyClick := LegacyCommand('C' as byte, 0)
  const LegacyStart := LegacyCommand('S' as byte, 0)
  const LegacyDebug := LegacyCommand('D' as byte, 0)
  const LegacyVerbose := LegacyCommand('V' as byte, 0)
  const LegacyIncreaseTime := LegacyCommand('T' as byte, 0)
  const LegacyFixFan := LegacyCommand('f' as byte, 1)
  const LegacyFixPower := LegacyCommand('p' as byte, 1)
  const LegacyTest := LegacyCommand('Z' as byte, 1)
  const LegacyStep := LegacyCommand('A' as byte, 2)
  const LegacyFullRevolution := LegacyCommand('R' as byte, 0)

  /** The `commands` table of commands.go, in order. */
  const LegacyTable: seq<LegacyCommand> := [
    LegacySetFan, LegacySetPower, LegacySetMode, LegacyClick, LegacyStart, LegacyDebug, LegacyVerbose,
    LegacyIncreaseTime, LegacyFixFan, LegacyFixPower, LegacyTest, LegacyStep, LegacyFullRevolution
  ]

  /** The index of a flag in the table, or 13 for a byte that is not one. */
  function LegacyPosition(flag: byte): (k: nat)
    ensures k <= 13
  {
    if flag == 'F' as byte then 0 else if flag == 'P' as byte then 1
    else if flag == 'M' as byte then 2 else if flag == 'C' as byte then 3
    else if flag == 'S' as byte then 4 else if flag == 'D' as byte then 5
    else if flag == 'V' as byte then 6 else if flag == 'T' as byte then 7
    else if flag == 'f' as byte then 8 else if flag == 'p' as byte then 9
    else if flag == 'Z' as byte then 10 else if flag == 'A' as byte then 11
    else if flag == 'R' as byte then 12
    else 13
  }

  /** The row `cmdMap` holds under a flag. */
  function LegacyLookup(flag: byte): (c: Option<LegacyCommand>)
    ensures c.Some? <==> LegacyPosition(flag) < 13
  {
    var k := LegacyPosition(flag);
    if k < 13 then Some(LegacyTable[k]) else None
  }

  /** Every row is found under its own flag, so the flags are distinct. */
  lemma LegacyLookupFindsEveryRow()
    ensures forall i :: 0 <= i < |LegacyTable| ==> LegacyPosition(LegacyTable[i].flag) == i
    ensures forall i :: 0 <= i < |LegacyTable| ==> LegacyLookup(LegacyTable[i].flag) == Some(LegacyTable[i])
    ensures forall i, j :: 0 <= i < j < |LegacyTable| ==> LegacyTable[i].flag != LegacyTable[j].flag
  {
    assert forall i :: 0 <= i < |LegacyTable| ==> LegacyPosition(LegacyTable[i].flag) == i;
  }

  const LegacyFlags: set<byte> := {
    'F' as byte, 'P' as byte, 'M' as byte, 'C' as byte, 'S' as byte, 'D' as byte, 'V' as byte,
    'T' as byte, 'f' as byte, 'p' as byte, 'Z' as byte, 'A' as byte, 'R' as byte
  }

  /** The input size of each flag of the table. */
  function LegacySizes(): (sizes: map<byte, nat>)
    ensures forall f :: f in sizes <==> LegacyLookup(f).Some?
    ensures forall f :: f in sizes ==> sizes[f] == LegacyLookup(f).value.inputSize
  {
    map f | f in LegacyFlags :: LegacyLookup(f).value.inputSize
  }

  /** A frame of a registered flag with its full input. */
  predicate LegacyKnown(f: Frame)
  {
    LegacyLookup(f.flag).Some? && |f.input| == LegacyLookup(f.flag).value.inputSize
  }

  /** The closure registered under `flag`; `started` is the controller's
      answer to `Start`. */
  function LegacyExecute(flag: byte, input: seq<byte>, started: bool): (o: LegacyOutcome)
    requires LegacyLookup(flag).Some? && |input| == LegacyLookup(flag).value.inputSize
  {
    if flag == 'F' as byte then Lift(SetFanRun(input))
    else if flag == 'P' as byte then Lift(SetPowerRun(input))
    else if flag == 'M' as byte then Lift(SetModeRun(input))
    else if flag == 'C' as byte then LegacyOutcome([Current(ClickButton)], None)
    else if flag == 'S' as byte then Lift(StartRun(started))
    else if flag == 'D' as byte then LegacyOutcome([Current(Debug)], None)
    else if flag == 'V' as byte then LegacyOutcome([Current(Verbose)], None)
    else if flag == 'T' as byte then LegacyOutcome([Current(IncreaseTime)], None)
    else if flag == 'f' as byte then LegacyOutcome([Current(FixFan(B2i(input[0])))], None)
    else if flag == 'p' as byte then LegacyOutcome([Current(FixPower(B2i(input[0])))], None)
    else if flag == 'Z' as byte then Lift(TestRun(input))
    else if flag == 'A' as byte then Lift(StepRun(input))
    else LegacyOutcome([FullRev], None)
  }

  /** The older closures against the firmware's: `F`, `P`, `M`, `C`, `S`,
      `D`, `V`, `T` and `Z` behave alike, `A` is the firmware's `s`, and
      the older `f` and `p` only make the firmware's fix call, with no
      `Settings` before it and no resync after it. */
  lemma LegacyAgainstFirmware(flag: byte, input: seq<byte>, started: bool, settings: (nat, nat))
    requires LegacyLookup(flag).Some? && |input| == LegacyLookup(flag).value.inputSize
    ensures flag in {'F' as byte, 'P' as byte, 'M' as byte, 'C' as byte, 'S' as byte, 'D' as byte, 'V' as byte, 'T' as byte, 'Z' as byte}
            ==> LegacyExecute(flag, input, started) == Lift(Execute(flag, input, settings, started))
    ensures flag == 'A' as byte ==> LegacyExecute(flag, input, started) == Lift(Execute(StepCommand.flag, input, settings, started))
    ensures flag == 'f' as byte ==> LegacyExecute(flag, input, started).calls == [Current(Execute(flag, input, settings, started).calls[1])]
    ensures flag == 'p' as byte ==> LegacyExecute(flag, input, started).calls == [Current(Execute(flag, input, settings, started).calls[1])]
  {
    if flag in {'C' as byte, 'D' as byte, 'V' as byte, 'T' as byte} {
      var o := Execute(flag, input, settings, started);
      ExecuteOutcomes(flag, input, settings, started);
      assert Lift(o).calls == [Current(o.calls[0])];
    }
  }

  /** `f` and `p` only overwrite a believed level: one call, no movement
      and no error. */
  lemma LegacyFixOnly(flag: byte, b: byte, started: bool)
    requires flag == 'f' as byte || flag == 'p' as byte
    ensures var o := LegacyExecute(flag, [b], started);
            o.err == None && |o.calls| == 1
            && (flag == 'f' as byte ==> o.calls[0] == Current(FixFan(B2i(b))))
            && (flag == 'p' as byte ==> o.calls[0] == Current(FixPower(B2i(b))))
  {
  }

  /** `A`: a sign byte and a digit; a bad sign is refused with no call. */
  lemma LegacyStepEffect(sign: byte, digit: byte, started: bool)
    ensures var o := LegacyExecute('A' as byte, [sign, digit], started);
            && (o.err.Some? <==> sign != '+' as byte && sign != '-' as byte)
            && (o.err.Some? ==> o.calls == [])
            && (sign == '+' as byte ==> o.calls == [Current(Move(B2i(digit)))])
            && (sign == '-' as byte ==> o.calls == [Current(Move(-(B2i(digit) as int)))])
  {
    var o := StepRun([sign, digit]);
    assert Lift(o).calls == if o.calls == [] then [] else [Current(o.calls[0])];
  }

  /** One dispatched frame of the older loop. */
  function LegacyDispatch(f: Frame): (o: LegacyOutcome)
    requires LegacyKnown(f)
  {
    LegacyExecute(f.flag, f.input, true)
  }

  /** The outcome of each frame, in order. */
  function LegacyOutcomes(frames: seq<Frame>): (os: seq<LegacyOutcome>)
    requires forall f :: f in frames ==> LegacyKnown(f)
    ensures |os| == |frames|
  {
    seq(|frames|, i requires 0 <= i < |frames| => LegacyDispatch(frames[i]))
  }

  /** The calls of a run of outcomes one after the other, and the errors
      of those that failed. */
  function Gathered(os: seq<LegacyOutcome>): (r: (seq<LegacyCall>, seq<CommandError>))
    decreases |os|
  {
    if os == [] then ([], [])
    else
      var before := Gathered(os[..|os| - 1]);
      var o := os[|os| - 1];
      (before.0 + o.calls, before.1 + if o.err.Some? then [o.err.value] else [])
  }

  /** One more outcome at the end. */
  lemma GatheredSnoc(os: seq<LegacyOutcome>, o: LegacyOutcome)
    ensures Gathered(os + [o]) == (Gathered(os).0 + o.calls, Gathered(os).1 + if o.err.Some? then [o.err.value] else [])
  {
    assert (os + [o])[..|os|] == os;
  }

  /** Collecting two runs of outcomes is collecting each. */
  lemma {:induction false} GatheredAppend(x: seq<LegacyOutcome>, y: seq<LegacyOutcome>)
    ensures Gathered(x + y).0 == Gathered(x).0 + Gathered(y).0
    ensures Gathered(x + y).1 == Gathered(x).1 + Gathered(y).1
    decreases |y|
  {
    if y == [] {
      assert x + y == x;
    } else {
      var y' := y[..|y| - 1];
      assert (x + y)[..|x + y| - 1] == x + y';
      assert (x + y)[|x + y| - 1] == y[|y| - 1];
      GatheredAppend(x, y');
    }
  }

  /** The dispatch loop over frames: every frame runs, and its calls and
      error are recorded. The older controller's answer to `Start` is not
      known here, so `S` records its call and no error. */
  function LegacyRunFrames(frames: seq<Frame>): (r: (seq<LegacyCall>, seq<CommandError>))
    requires forall f :: f in frames ==> LegacyKnown(f)
  {
    Gathered(LegacyOutcomes(frames))
  }

  /** One more frame at the end of the run. */
  lemma LegacyRunFramesStep(done: seq<Frame>, f: Frame, calls: seq<LegacyCall>, errors: seq<CommandError>)
    requires LegacyKnown(f) && forall g :: g in done ==> LegacyKnown(g)
    requires LegacyRunFrames(done) == (calls, errors)
    ensures var o := LegacyDispatch(f);
            LegacyRunFrames(done + [f]) == (calls + o.calls, errors + if o.err.Some? then [o.err.value] else [])
  {
    var os := LegacyOutcomes(done + [f]);
    assert os[..|done|] == LegacyOutcomes(done);
    assert os[|done|] == LegacyDispatch(f);
  }

  /** An error does not stop the loop: the trace of two runs of frames is
      the two traces one after the other. */
  lemma LegacyRunFramesAppend(a: seq<Frame>, b: seq<Frame>)
    requires forall f :: f in a + b ==> LegacyKnown(f)
    ensures LegacyRunFrames(a + b).0 == LegacyRunFrames(a).0 + LegacyRunFrames(b).0
    ensures LegacyRunFrames(a + b).1 == LegacyRunFrames(a).1 + LegacyRunFrames(b).1
  {
    assert LegacyOutcomes(a + b) == LegacyOutcomes(a) + LegacyOutcomes(b);
    GatheredAppend(LegacyOutcomes(a), LegacyOutcomes(b));
  }

  /** The first loop of `RunCommands`: every row under its flag. */
  method BuildLegacyMap() returns (cmdMap: map<byte, LegacyCommand>)
    ensures forall f :: f in cmdMap <==> LegacyLookup(f).Some?
    ensures forall f :: f in cmdMap ==> LegacyLookup(f) == Some(cmdMap[f])
  {
    LegacyLookupFindsEveryRow();
    cmdMap := map[];
    for i := 0 to |LegacyTable|
      invariant forall f :: f in cmdMap <==> LegacyPosition(f) < i
      invariant forall f :: f in cmdMap ==> LegacyLookup(f) == Some(cmdMap[f])
    {
      cmdMap := cmdMap[LegacyTable[i].flag := LegacyTable[i]];
    }
  }

  /** `RunCommands`: skip failed reads and unknown bytes, read each
      command's arguments, run it and record its calls and error. The
      stream is finite and the loop stops where it ends. */
  method RunCommands(stream: seq<Read>) returns (calls: seq<LegacyCall>, errors: seq<CommandError>)
    ensures (calls, errors) == LegacyRunFrames(Frames(LegacySizes(), stream))
  {
    var cmdMap := BuildLegacyMap();
    calls, errors := [], [];
    ghost var done: seq<Frame> := [];
    ghost var sizes := LegacySizes();
    var pos := 0;
    while pos < |stream|
      invariant pos <= |stream|
      invariant Frames(sizes, stream) == done + FramesFrom(sizes, stream, pos)
      invariant forall f :: f in done ==> LegacyKnown(f)
      invariant LegacyRunFrames(done) == (calls, errors)
      decreases |stream| - pos
    {
      var r := stream[pos];
      if r.Failed? || r.b !in cmdMap {
        pos := pos + 1;
        continue;
      }
      var ok, frame, next := ReadCommand(stream, pos, cmdMap[r.b].inputSize, sizes, done);
      if !ok {
        return;
      }
      var o := LegacyDispatch(frame);
      LegacyRunFramesStep(done, frame, calls, errors);
      calls := calls + o.calls;
      if o.err.Some? {
        errors := errors + [o.err.value];
      } else {
        assert errors + [] == errors;
      }
      done := done + [frame];
      pos := next;
    }
    assert done + [] == done;
  }

  /** The line `readLine` returns from read `pos` on: the bytes before the
      first newline, failed reads skipped, and the position after the
      newline; None when the stream holds no newline, where the device
      would keep waiting. */
  function LineFrom(s: seq<Read>, pos: nat): (r: Option<(seq<byte>, nat)>)
    requires pos <= |s|
    ensures r.Some? ==> pos < r.value.1 <= |s| && s[r.value.1 - 1].Got? && s[r.value.1 - 1].b == '\n' as byte
    ensures r.Some? ==> '\n' as byte !in r.value.0
    decreases |s| - pos
  {
    if pos == |s| then None
    else if s[pos].Got? && s[pos].b == '\n' as byte then Some(([], pos + 1))
    else Shifted(Arrived(s[pos]), LineFrom(s, pos + 1))
  }

  /** The line is everything read before the newline. */
  lemma {:induction false} LineFromBytes(s: seq<Read>, pos: nat)
    requires pos <= |s|
    ensures LineFrom(s, pos).Some? ==> Bytes(s[pos..LineFrom(s, pos).value.1]) == LineFrom(s, pos).value.0 + ['\n' as byte]
    ensures LineFrom(s, pos).None? <==> '\n' as byte !in Bytes(s[pos..])
    decreases |s| - pos
  {
    if pos < |s| {
      assert s[pos..][1..] == s[pos + 1..];
      LineFromBytes(s, pos + 1);
      var r := LineFrom(s, pos);
      if r.Some? {
        assert s[pos..r.value.1][1..] == s[pos + 1..r.value.1];
        if s[pos].Got? && s[pos].b == '\n' as byte {
          assert s[pos + 1..r.value.1] == [];
        }
      }
    } else {
      assert s[pos..] == [];
    }
  }

  /** A read that is not a newline moves onto the line read so far. */
  lemma LineStep(s: seq<Read>, pos: nat, line: seq<byte>)
    requires pos < |s| && !(s[pos].Got? && s[pos].b == '\n' as byte)
    ensures Shifted(line, LineFrom(s, pos)) == Shifted(line + Arrived(s[pos]), LineFrom(s, pos + 1))
  {
    match LineFrom(s, pos + 1) {
      case None =>
      case Some((bs, k)) => assert line + (Arrived(s[pos]) + bs) == line + Arrived(s[pos]) + bs;
    }
  }

  /** `readLine`: append each byte read until a newline. `found` is false
      when the stream ends first. */
  method ReadLine(s: seq<Read>, pos: nat) returns (found: bool, line: seq<byte>, next: nat)
    requires pos <= |s|
    ensures found <==> LineFrom(s, pos).Some?
    ensures found ==> LineFrom(s, pos) == Some((line, next))
  {
    line := [];
    next := pos;
    ShiftedNothing(LineFrom(s, pos));
    while next < |s|
      invariant pos <= next <= |s|
      invariant LineFrom(s, pos) == Shifted(line, LineFrom(s, next))
      decreases |s| - next
    {
      var r := s[next];
      next := next + 1;
      if r.Got? && r.b == '\n' as byte {
        assert line + [] == line;
        return true, line, next;
      }
      ghost var before := line;
      if r.Got? {
        line := line + [r.b];
      }
      LineStep(s, next - 1, before);
      assert line == before + Arrived(r);
    }
    return false, line, next;
  }

  /** The keys `F1P1 D`. */
  const SetBothKeys: seq<byte> := ['F' as byte, '1' as byte, 'P' as byte, '1' as byte, ' ' as byte, 'D' as byte]

  /** Typing `F1P1 D` makes three frames; the space is skipped. */
  lemma LegacyFramesSetBoth(at: int)
    ensures Frames(LegacySizes(), Typed(SetBothKeys, at))
            == [Frame('F' as byte, ['1' as byte], at), Frame('P' as byte, ['1' as byte], at), Frame('D' as byte, [], at)]
  {
    var s := Typed(SetBothKeys, at);
    var sizes := LegacySizes();
    FramesSetBothTail(at);
    assert FramesFrom(sizes, s, 2) == [Frame('P' as byte, ['1' as byte], at), Frame('D' as byte, [], at)];
    assert Collect(s, 2, 0) == Some(([], 2));
    assert Arrived(s[1]) == ['1' as byte] && ['1' as byte] + [] == ['1' as byte];
    assert Collect(s, 1, 1) == Some((['1' as byte], 2));
  }

  /** The last two of them, from the `P` on. */
  lemma FramesSetBothTail(at: int)
    ensures FramesFrom(LegacySizes(), Typed(SetBothKeys, at), 2)
            == [Frame('P' as byte, ['1' as byte], at), Frame('D' as byte, [], at)]
  {
    var s := Typed(SetBothKeys, at);
    var sizes := LegacySizes();
    assert FramesFrom(sizes, s, 6) == [];
    assert Collect(s, 6, 0) == Some(([], 6));
    assert FramesFrom(sizes, s, 5) == [Frame('D' as byte, [], at)];
    assert FramesFrom(sizes, s, 4) == FramesFrom(sizes, s, 5);
    assert Collect(s, 4, 0) == Some(([], 4));
    assert Arrived(s[3]) == ['1' as byte] && ['1' as byte] + [] == ['1' as byte];
    assert Collect(s, 3, 1) == Some((['1' as byte], 4));
  }

  /** ... and those frames set the fan and the power to 1 and print the state. */
  lemma LegacyExampleSetBoth(at: int)
    ensures LegacyRunFrames(Frames(LegacySizes(), Typed(SetBothKeys, at))) == ([Current(SetFan(1)), Current(SetPower(1)), Current(Debug)], [])
  {
    LegacyFramesSetBoth(at);
    LegacyOutcomesSetBoth(at);
    var fan := LegacyOutcome([Current(SetFan(1))], None);
    var power := LegacyOutcome([Current(SetPower(1))], None);
    var debug := LegacyOutcome([Current(Debug)], None);
    GatheredPair(fan, power);
    GatheredSnoc([fan, power], debug);
    var none: seq<CommandError> := [];
    assert none + none == none;
    assert [fan, power] + [debug] == [fan, power, debug];
    assert [Current(SetFan(1))] + [Current(SetPower(1))] + [Current(Debug)]
           == [Current(SetFan(1)), Current(SetPower(1)), Current(Debug)];
  }

  /** The outcomes of the three frames of `F1P1 D`. */
  lemma LegacyOutcomesSetBoth(at: int)
    ensures LegacyOutcomes([Frame('F' as byte, ['1' as byte], at), Frame('P' as byte, ['1' as byte], at), Frame('D' as byte, [], at)])
            == [LegacyOutcome([Current(SetFan(1))], None), LegacyOutcome([Current(SetPower(1))], None),
                LegacyOutcome([Current(Debug)], None)]
  {
    LiftOne(SetFan(1), None);
    LiftOne(SetPower(1), None);
    assert B2i('1' as byte) == 1;
  }

  /** The keys `D f5 p6 D`. */
  const FixKeys: seq<byte> := ['D' as byte, ' ' as byte, 'f' as byte, '5' as byte, ' ' as byte,
                              'p' as byte, '6' as byte, ' ' as byte, 'D' as byte]

  /** Typing `D f5 p6 D` makes four frames ... */
  lemma LegacyFramesFix(at: int)
    ensures Frames(LegacySizes(), Typed(FixKeys, at))
            == [Frame('D' as byte, [], at), Frame('f' as byte, ['5' as byte], at),
                Frame('p' as byte, ['6' as byte], at), Frame('D' as byte, [], at)]
  {
    var s := Typed(FixKeys, at);
    var sizes := LegacySizes();
    FramesFixTail(at);
    assert FramesFrom(sizes, s, 4) == [Frame('p' as byte, ['6' as byte], at), Frame('D' as byte, [], at)];
    assert Collect(s, 4, 0) == Some(([], 4));
    assert Arrived(s[3]) == ['5' as byte] && ['5' as byte] + [] == ['5' as byte];
    assert Collect(s, 3, 1) == Some((['5' as byte], 4));
    assert FramesFrom(sizes, s, 2) == [Frame('f' as byte, ['5' as byte], at)] + FramesFrom(sizes, s, 4);
    assert FramesFrom(sizes, s, 1) == FramesFrom(sizes, s, 2);
    assert Collect(s, 1, 0) == Some(([], 1));
  }

  /** The last two of them, from the space after `f5` on. */
  lemma FramesFixTail(at: int)
    ensures FramesFrom(LegacySizes(), Typed(FixKeys, at), 4)
            == [Frame('p' as byte, ['6' as byte], at), Frame('D' as byte, [], at)]
  {
    var s := Typed(FixKeys, at);
    var sizes := LegacySizes();
    assert FramesFrom(sizes, s, 9) == [];
    assert Collect(s, 9, 0) == Some(([], 9));
    assert FramesFrom(sizes, s, 8) == [Frame('D' as byte, [], at)];
    assert FramesFrom(sizes, s, 7) == FramesFrom(sizes, s, 8);
    assert Collect(s, 7, 0) == Some(([], 7));
    assert Arrived(s[6]) == ['6' as byte] && ['6' as byte] + [] == ['6' as byte];
    assert Collect(s, 6, 1) == Some((['6' as byte], 7));
    assert FramesFrom(sizes, s, 5) == [Frame('p' as byte, ['6' as byte], at)] + FramesFrom(sizes, s, 7);
  }

  /** ... and those frames only overwrite the believed levels, without
      moving the knob back as the firmware's `f` and `p` do. */
  lemma LegacyExampleFix(at: int)
    ensures LegacyRunFrames(Frames(LegacySizes(), Typed(FixKeys, at)))
            == ([Current(Debug), Current(FixFan(5)), Current(FixPower(6)), Current(Debug)], [])
  {
    LegacyFramesFix(at);
    LegacyOutcomesFix(at);
    GatheredFix();
  }

  /** The outcomes of the four frames of `D f5 p6 D`. */
  lemma LegacyOutcomesFix(at: int)
    ensures LegacyOutcomes([Frame('D' as byte, [], at), Frame('f' as byte, ['5' as byte], at),
                            Frame('p' as byte, ['6' as byte], at), Frame('D' as byte, [], at)])
            == [LegacyOutcome([Current(Debug)], None), LegacyOutcome([Current(FixFan(5))], None),
                LegacyOutcome([Current(FixPower(6))], None), LegacyOutcome([Current(Debug)], None)]
  {
    assert B2i('5' as byte) == 5 && B2i('6' as byte) == 6;
  }

  /** Those outcomes gathered: four calls, no error. */
  lemma GatheredFix()
    ensures Gathered([LegacyOutcome([Current(Debug)], None), LegacyOutcome([Current(FixFan(5))], None),
                      LegacyOutcome([Current(FixPower(6))], None), LegacyOutcome([Current(Debug)], None)])
            == ([Current(Debug), Current(FixFan(5)), Current(FixPower(6)), Current(Debug)], [])
  {
    var debug := LegacyOutcome([Current(Debug)], None);
    var fan := LegacyOutcome([Current(FixFan(5))], None);
    var power := LegacyOutcome([Current(FixPower(6))], None);
    GatheredPair(debug, fan);
    GatheredPair(power, debug);
    GatheredAppend([debug, fan], [power, debug]);
    assert [debug, fan] + [power, debug] == [debug, fan, power, debug];
    assert [Current(Debug)] + [Current(FixFan(5))] + ([Current(FixPower(6))] + [Current(Debug)])
           == [Current(Debug), Current(FixFan(5)), Current(FixPower(6)), Current(Debug)];
  }

  /** Two outcomes without errors gathered: their calls in order. */
  lemma GatheredPair(o1: LegacyOutcome, o2: LegacyOutcome)
    requires o1.err.None? && o2.err.None?
    ensures Gathered([o1, o2]) == (o1.calls + o2.calls, [])
  {
    var none: seq<CommandError> := [];
    assert none + none == none;
    GatheredSnoc([], o1);
    assert [] + [o1] == [o1] && [] + o1.calls == o1.calls;
    GatheredSnoc([o1], o2);
    assert [o1] + [o2] == [o1, o2];
  }
}
