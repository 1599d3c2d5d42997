/** The stepper driver of the earlier controller package
    (controller/stepper.go): it keeps no phase and drives the whole
    four-row table on every step, forward or backward. */
module WorkingStepperDriver {
  import opened Pins

  /** The rows one `stepForward` drives: the table top to bottom. */
  const ForwardSweep: seq<Pattern> := FullStepSequence

  /** The rows one `stepBackward` drives: the table bottom to top. */
  const BackwardSweep: seq<Pattern> := [FullStepSequence[3], FullStepSequence[2], FullStepSequence[1], FullStepSequence[0]]

  /** `k` sweeps one after the other. */
  function Repeat(sweep: seq<Pattern>, k: nat): (ps: seq<Pattern>)
    ensures |ps| == k * |sweep|
  {
    if k == 0 then [] else Repeat(sweep, k - 1) + sweep
  }

  /** The rows `Move(n)` drives: |n| sweeps, forward when n is not
      negative. */
  function MovePatterns(n: int): seq<Pattern>
  {
    if n >= 0 then Repeat(ForwardSweep, n) else Repeat(BackwardSweep, -n)
  }

  /** The pin writes of `Move(n)` on the given pins. */
  function MoveWrites(pins: PinQuad, n: int): seq<PinWrite>
  {
    PatternsWrites(pins, MovePatterns(n))
  }

  /** Writing two runs of rows is writing the first, then the second. */
  lemma {:induction false} PatternsWritesAppend(pins: PinQuad, a: seq<Pattern>, b: seq<Pattern>)
    ensures PatternsWrites(pins, a + b) == PatternsWrites(pins, a) + PatternsWrites(pins, b)
    decreases |b|
  {
    if b == [] {
      assert a + b == a;
    } else {
      var b' := b[..|b| - 1];
      assert (a + b)[..|a + b| - 1] == a + b';
      assert (a + b)[|a + b| - 1] == b[|b| - 1];
      PatternsWritesAppend(pins, a, b');
    }
  }

  /** Row `i` of a repeated four-row sweep is row `i mod 4` of the sweep. */
  lemma {:induction false} RepeatAt(sweep: seq<Pattern>, k: nat, i: nat)
    requires |sweep| == 4 && i < 4 * k
    ensures Repeat(sweep, k)[i] == sweep[i % 4]
    decreases k
  {
    if i < 4 * (k - 1) {
      RepeatAt(sweep, k - 1, i);
    } else {
      assert i % 4 == i - 4 * (k - 1);
    }
  }

  /** `Move(n)` drives 4·|n| rows, no row at all for `Move(0)`: forward the
      table rows 0, 1, 2, 3 over and over, backward the rows 3, 2, 1, 0. */
  lemma MovePatternsShape(n: int)
    ensures |MovePatterns(n)| == 4 * (if n >= 0 then n else -n)
    ensures n == 0 ==> MovePatterns(n) == []
    ensures forall i :: 0 <= i < |MovePatterns(n)| ==>
              MovePatterns(n)[i] == FullStepSequence[if n >= 0 then i % 4 else 3 - i % 4]
  {
    forall i | 0 <= i < |MovePatterns(n)|
      ensures MovePatterns(n)[i] == FullStepSequence[if n >= 0 then i % 4 else 3 - i % 4]
    {
      if n >= 0 {
        RepeatAt(ForwardSweep, n, i);
      } else {
        RepeatAt(BackwardSweep, -n, i);
      }
    }
  }

  /** Every row `Move` drives energises exactly one coil. */
  lemma MoveOneCoil(n: int)
    ensures forall i :: 0 <= i < |MovePatterns(n)| ==> OnCount(MovePatterns(n)[i]) == 1
  {
    MovePatternsShape(n);
    FullStepOneCoil();
  }

  /** `a` sweeps then `b` sweeps are `a + b` sweeps. */
  lemma {:induction false} RepeatAdd(sweep: seq<Pattern>, a: nat, b: nat)
    ensures Repeat(sweep, a) + Repeat(sweep, b) == Repeat(sweep, a + b)
    decreases b
  {
    if b == 0 {
      assert Repeat(sweep, a) + [] == Repeat(sweep, a);
    } else {
      RepeatAdd(sweep, a, b - 1);
      assert Repeat(sweep, a) + (Repeat(sweep, b - 1) + sweep) == (Repeat(sweep, a) + Repeat(sweep, b - 1)) + sweep;
    }
  }

  /** A move backward by `k` is `k` backward sweeps, none for k = 0. */
  lemma MoveBackwardIsRepeat(k: nat)
    ensures MovePatterns(-(k as int)) == Repeat(BackwardSweep, k)
  {
  }

  /** Moving `a` steps then `b` steps forward is moving `a + b`: the driver
      has no phase, so a move starts at the first row of its sweep whatever
      came before. */
  lemma MoveForwardTwice(pins: PinQuad, a: nat, b: nat)
    ensures MoveWrites(pins, a) + MoveWrites(pins, b) == MoveWrites(pins, a + b)
  {
    RepeatAdd(ForwardSweep, a, b);
    PatternsWritesAppend(pins, Repeat(ForwardSweep, a), Repeat(ForwardSweep, b));
  }

  /** Likewise backward. */
  lemma MoveBackwardTwice(pins: PinQuad, a: nat, b: nat)
    ensures MoveWrites(pins, -(a as int)) + MoveWrites(pins, -(b as int)) == MoveWrites(pins, -(a + b))
  {
    MoveBackwardIsRepeat(a);
    MoveBackwardIsRepeat(b);
    MoveBackwardIsRepeat(a + b);
    RepeatAdd(BackwardSweep, a, b);
    PatternsWritesAppend(pins, Repeat(BackwardSweep, a), Repeat(BackwardSweep, b));
  }

  /** The writes of `k` sweeps, then one more, are those of `k + 1`. */
  lemma SweepStep(pins: PinQuad, start: seq<PinWrite>, sweep: seq<Pattern>, k: nat)
    ensures start + PatternsWrites(pins, Repeat(sweep, k)) + PatternsWrites(pins, sweep)
            == start + PatternsWrites(pins, Repeat(sweep, k + 1))
  {
    PatternsWritesAppend(pins, Repeat(sweep, k), sweep);
  }

  class WorkingStepper {
    const pins: PinQuad

    /** Every pin write issued so far, oldest first. */
    var writes: seq<PinWrite>

    /** `NewWorkingStepper`: the four configured pins, in order. It never
        fails. */
    constructor (pin1: Pin, pin2: Pin, pin3: Pin, pin4: Pin)
      ensures pins == [pin1, pin2, pin3, pin4] && writes == []
    {
      pins := [pin1, pin2, pin3, pin4];
      writes := [];
    }

    /** `step`: set the four pins to row `idx` of the table. */
    method Step(idx: nat)
      requires idx < 4
      modifies this`writes
      ensures writes == old(writes) + PatternWrites(pins, FullStepSequence[idx])
    {
      writes := writes + [PinWrite(pins[0], FullStepSequence[idx][0])];
      writes := writes + [PinWrite(pins[1], FullStepSequence[idx][1])];
      writes := writes + [PinWrite(pins[2], FullStepSequence[idx][2])];
      writes := writes + [PinWrite(pins[3], FullStepSequence[idx][3])];
    }

    /** `stepForward`: drive rows 0 to 3. */
    method StepForward()
      modifies this`writes
      ensures writes == old(writes) + PatternsWrites(pins, ForwardSweep)
    {
      for i := 0 to 4
        invariant writes == old(writes) + PatternsWrites(pins, ForwardSweep[..i])
      {
        assert ForwardSweep[..i + 1][..i] == ForwardSweep[..i];
        Step(i);
      }
      assert ForwardSweep[..4] == ForwardSweep;
    }

    /** `stepBackward`: drive rows 3 down to 0. */
    method StepBackward()
      modifies this`writes
      ensures writes == old(writes) + PatternsWrites(pins, BackwardSweep)
    {
      var i := 3;
      while i >= 0
        invariant -1 <= i <= 3
        invariant writes == old(writes) + PatternsWrites(pins, BackwardSweep[..3 - i])
      {
        assert BackwardSweep[..4 - i][..3 - i] == BackwardSweep[..3 - i];
        assert BackwardSweep[3 - i] == FullStepSequence[i];
        Step(i);
        i := i - 1;
      }
      assert BackwardSweep[..4] == BackwardSweep;
    }

    /** One sweep of `Move`'s loop. */
    method SweepOnce(forward: bool)
      modifies this`writes
      ensures writes == old(writes) + PatternsWrites(pins, if forward then ForwardSweep else BackwardSweep)
    {
      if forward {
        StepForward();
      } else {
        StepBackward();
      }
    }

    /** `Move`: |steps| whole sweeps, backward when `steps` is negative. */
    method Move(steps: int)
      modifies this`writes
      ensures writes == old(writes) + MoveWrites(pins, steps)
    {
      var forward := true;
      var n := steps;
      if steps < 0 {
        forward := false;
        n := -steps;
      }
      ghost var sweep := if forward then ForwardSweep else BackwardSweep;
      assert MovePatterns(steps) == Repeat(sweep, n);
      ghost var start := writes;
      for k := 0 to n
        invariant writes == start + PatternsWrites(pins, Repeat(sweep, k))
      {
        SweepOnce(forward);
        SweepStep(pins, start, sweep, k);
      }
    }
  }
}
