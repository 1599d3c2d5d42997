/** The firmware's stepper driver (firmware/controller/stepper.go): four
    coil pins driven through a full-step (4-row) or half-step (8-row)
    table, with the current row kept between calls. */
module FirmwareStepper {
  import opened Pins

  const StepModeFull: int := 0
  const StepModeHalf: int := 1

  /** The step delay, in microseconds, used when the configuration gives 0. */
  const DefaultStepDelay: int := 2000

  /** `StepperConfig`: the coil pins, the step mode (any integer, as in Go)
      and the delay after each step in microseconds. */
  datatype StepperConfig = StepperConfig(pins: PinQuad, stepMode: int, stepDelay: int)

  /** Whether `NewStepper` accepts the step mode. */
  predicate ValidStepMode(mode: int)
  {
    mode == StepModeFull || mode == StepModeHalf
  }

  /** The delay `NewStepper` stores: a zero delay is replaced by the default. */
  function EffectiveStepDelay(delay: int): (r: int)
    ensures r != 0
    ensures delay != 0 ==> r == delay
  {
    if delay == 0 then DefaultStepDelay else delay
  }

  /** The length of the step table in use: 8 in half-step mode, 4 otherwise. */
  function SequenceLen(mode: int): (n: nat)
    ensures n == 4 || n == 8
    ensures n == 8 <==> mode == StepModeHalf
  {
    if mode == StepModeHalf then 8 else 4
  }

  /** The row `applyStep` drives for phase `idx`: the half-step table in
      half-step mode, the full-step table in every other mode. */
  function PatternAt(mode: int, idx: int): Pattern
    requires 0 <= idx < SequenceLen(mode)
  {
    if mode == StepModeHalf then HalfStepSequence[idx] else FullStepSequence[idx]
  }

  /** The phase after one forward step: the next row, wrapping to 0 after
      the last. */
  function Succ(p: int, len: nat): (r: int)
    requires 0 <= p < len
    ensures 0 <= r < len
  {
    if p + 1 == len then 0 else p + 1
  }

  /** The phase after one backward step: the previous row, wrapping to the
      last after 0. */
  function Pred(p: int, len: nat): (r: int)
    requires 0 <= p < len
    ensures 0 <= r < len
  {
    if p == 0 then len - 1 else p - 1
  }

  /** The phase reached by `k` forward steps from phase `c`. */
  function Advance(len: nat, c: int, k: nat): (r: int)
    requires 0 <= c < len
    ensures 0 <= r < len
  {
    if k == 0 then c else Succ(Advance(len, c, k - 1), len)
  }

  /** The phase reached by `k` backward steps from phase `c`. */
  function Retreat(len: nat, c: int, k: nat): (r: int)
    requires 0 <= c < len
    ensures 0 <= r < len
  {
    if k == 0 then c else Pred(Retreat(len, c, k - 1), len)
  }

  /** The pin writes of `k` forward steps from phase `c`: the row of each
      phase reached, in order. */
  function ForwardWrites(pins: PinQuad, mode: int, c: int, k: nat): (w: seq<PinWrite>)
    requires 0 <= c < SequenceLen(mode)
    ensures |w| == 4 * k
  {
    if k == 0 then []
    else ForwardWrites(pins, mode, c, k - 1) + PatternWrites(pins, PatternAt(mode, Advance(SequenceLen(mode), c, k)))
  }

  /** The pin writes of `k` backward steps from phase `c`. */
  function BackwardWrites(pins: PinQuad, mode: int, c: int, k: nat): (w: seq<PinWrite>)
    requires 0 <= c < SequenceLen(mode)
    ensures |w| == 4 * k
  {
    if k == 0 then []
    else BackwardWrites(pins, mode, c, k - 1) + PatternWrites(pins, PatternAt(mode, Retreat(SequenceLen(mode), c, k)))
  }

  /** The pin writes of `Move(n)` from phase `c`: forward steps when `n` is
      positive, backward steps (possibly none) otherwise. */
  function MoveWrites(pins: PinQuad, mode: int, c: int, n: int): (w: seq<PinWrite>)
    requires 0 <= c < SequenceLen(mode)
    ensures |w| == 4 * (if n > 0 then n else -n)
  {
    if n > 0 then ForwardWrites(pins, mode, c, n) else BackwardWrites(pins, mode, c, -n)
  }

  /** The sum of a run of step counts. */
  function Sum(steps: seq<int>): int
  {
    if steps == [] then 0 else Sum(steps[..|steps| - 1]) + steps[|steps| - 1]
  }

  /** The phase after `Move(n)` from phase `c`: `n` forward steps when
      positive, `-n` backward steps otherwise. */
  function MovePhase(mode: int, c: int, n: int): (p: int)
    requires 0 <= c < SequenceLen(mode)
    ensures 0 <= p < SequenceLen(mode)
  {
    if n > 0 then Advance(SequenceLen(mode), c, n) else Retreat(SequenceLen(mode), c, -n)
  }

  /** The phase a stepper created at phase 0 holds after the run of `Move`
      calls `steps`. */
  function PhaseAfter(mode: int, steps: seq<int>): (p: int)
    ensures 0 <= p < SequenceLen(mode)
  {
    if steps == [] then 0
    else MovePhase(mode, PhaseAfter(mode, steps[..|steps| - 1]), steps[|steps| - 1])
  }

  /** The pin writes of a run of `Move` calls on a stepper created at
      phase 0, the first call first. */
  function MovesWrites(pins: PinQuad, mode: int, steps: seq<int>): seq<PinWrite>
  {
    if steps == [] then []
    else
      var earlier := steps[..|steps| - 1];
      MovesWrites(pins, mode, earlier) + MoveWrites(pins, mode, PhaseAfter(mode, earlier), steps[|steps| - 1])
  }

  /** One more `Move(n)` moves the phase as `Move` does and appends that
      move's writes. */
  lemma MovesSnoc(pins: PinQuad, mode: int, steps: seq<int>, n: int)
    ensures PhaseAfter(mode, steps + [n]) == MovePhase(mode, PhaseAfter(mode, steps), n)
    ensures MovesWrites(pins, mode, steps + [n])
         == MovesWrites(pins, mode, steps) + MoveWrites(pins, mode, PhaseAfter(mode, steps), n)
  {
    assert (steps + [n])[..|steps|] == steps;
  }

  /** `Move(n)` moves the phase by `n` modulo the table length, which is
      how the source computes it. */
  lemma MovePhaseIsModulo(mode: int, c: int, n: int)
    requires 0 <= c < SequenceLen(mode)
    ensures MovePhase(mode, c, n) == (c + n) % SequenceLen(mode)
  {
    if n > 0 {
      AdvanceIsModulo(SequenceLen(mode), c, n);
    } else {
      RetreatIsModulo(SequenceLen(mode), c, -n);
    }
  }

  /** The phase after a run of moves is their sum modulo the table length. */
  lemma {:induction false} PhaseAfterIsSum(mode: int, steps: seq<int>)
    ensures PhaseAfter(mode, steps) == Sum(steps) % SequenceLen(mode)
  {
    if steps != [] {
      var earlier := steps[..|steps| - 1];
      PhaseAfterIsSum(mode, earlier);
      MovePhaseIsModulo(mode, PhaseAfter(mode, earlier), steps[|steps| - 1]);
      ModAdd(Sum(earlier), steps[|steps| - 1], SequenceLen(mode));
    }
  }

  /** Reducing modulo 4 before adding is reducing after adding. */
  lemma ModAddFour(a: int, b: int)
    ensures (a % 4 + b) % 4 == (a + b) % 4
  {
  }

  /** Reducing modulo 8 before adding is reducing after adding. */
  lemma ModAddEight(a: int, b: int)
    ensures (a % 8 + b) % 8 == (a + b) % 8
  {
  }

  /** Reducing modulo a table length before adding is reducing after adding. */
  lemma ModAdd(a: int, b: int, len: int)
    requires len == 4 || len == 8
    ensures (a % len + b) % len == (a + b) % len
  {
    if len == 4 {
      ModAddFour(a, b);
    } else {
      ModAddEight(a, b);
    }
  }

  /** A phase already inside the table is its own remainder. */
  lemma ModIdentity(x: int, len: int)
    requires (len == 4 || len == 8) && 0 <= x < len
    ensures x % len == x
  {
    if len == 4 {
      assert x % 4 == x;
    } else {
      assert x % 8 == x;
    }
  }

  /** `Succ` is the source's `(p + 1) % len`. */
  lemma SuccIsModulo(p: int, len: nat)
    requires (len == 4 || len == 8) && 0 <= p < len
    ensures Succ(p, len) == (p + 1) % len
  {
    if len == 4 {
      assert (p + 1) % 4 == if p == 3 then 0 else p + 1;
    } else {
      assert (p + 1) % 8 == if p == 7 then 0 else p + 1;
    }
  }

  /** `Pred` is the source's `(p - 1 + len) % len`. */
  lemma PredIsModulo(p: int, len: nat)
    requires (len == 4 || len == 8) && 0 <= p < len
    ensures Pred(p, len) == (p - 1 + len) % len
  {
    if len == 4 {
      assert (p + 3) % 4 == if p == 0 then 3 else p - 1;
    } else {
      assert (p + 7) % 8 == if p == 0 then 7 else p - 1;
    }
  }

  /** `k` forward steps from a phase in the table land on `(c + k) mod len`. */
  lemma {:induction false} AdvanceIsModulo(len: nat, c: int, k: nat)
    requires (len == 4 || len == 8) && 0 <= c < len
    ensures Advance(len, c, k) == (c + k) % len
  {
    if k == 0 {
      ModIdentity(c, len);
    } else {
      AdvanceIsModulo(len, c, k - 1);
      SuccIsModulo(Advance(len, c, k - 1), len);
      ModAdd(c + k - 1, 1, len);
    }
  }

  /** `k` backward steps from a phase in the table land on `(c - k) mod len`. */
  lemma {:induction false} RetreatIsModulo(len: nat, c: int, k: nat)
    requires (len == 4 || len == 8) && 0 <= c < len
    ensures Retreat(len, c, k) == (c - k) % len
  {
    if k == 0 {
      ModIdentity(c, len);
    } else {
      RetreatIsModulo(len, c, k - 1);
      PredIsModulo(Retreat(len, c, k - 1), len);
      ModAdd(c - k + 1, -1 + len, len);
      ModAdd(len, c - k, len);
      ModIdentity(0, len);
    }
  }

  /** `StepBackward` undoes `StepForward` and the other way round. */
  lemma StepsAreInverse(len: nat, c: int)
    requires 0 <= c < len
    ensures Pred(Succ(c, len), len) == c
    ensures Succ(Pred(c, len), len) == c
  {
  }

  /** `Move(n)` followed by `Move(-n)` restores the phase. */
  lemma MoveThenBack(mode: int, c: int, n: int)
    requires 0 <= c < SequenceLen(mode)
    ensures MovePhase(mode, MovePhase(mode, c, n), -n) == c
  {
    var len := SequenceLen(mode);
    MovePhaseIsModulo(mode, c, n);
    MovePhaseIsModulo(mode, MovePhase(mode, c, n), -n);
    ModAdd(c + n, -n, len);
    ModIdentity(c, len);
  }

  class Stepper {
    const pins: PinQuad
    const stepMode: int
    const stepDelay: int

    /** The index of the table row last driven. */
    var currentStep: int

    /** Every pin write issued so far, oldest first. */
    var writes: seq<PinWrite>

    ghost predicate Valid()
      reads this
    {
      0 <= currentStep < SequenceLen(stepMode)
    }

    constructor (pins: PinQuad, stepMode: int, stepDelay: int)
      ensures Valid()
      ensures this.pins == pins && this.stepMode == stepMode && this.stepDelay == stepDelay
      ensures currentStep == 0 && writes == []
    {
      this.pins := pins;
      this.stepMode := stepMode;
      this.stepDelay := stepDelay;
      currentStep := 0;
      writes := [];
    }

    /** `applyStep`: set each pin to the current row of the table in use. */
    method ApplyStep()
      requires Valid()
      modifies this`writes
      ensures writes == old(writes) + PatternWrites(pins, PatternAt(stepMode, currentStep))
    {
      var sequence: Pattern;
      if stepMode == StepModeHalf {
        sequence := HalfStepSequence[currentStep];
      } else {
        sequence := FullStepSequence[currentStep];
      }
      for i := 0 to 4
        invariant writes == old(writes) + PatternWrites(pins, sequence)[..i]
      {
        writes := writes + [PinWrite(pins[i], sequence[i])];
      }
    }

    /** Advance one row, wrapping at the end of the table, and drive it. */
    method StepForward()
      requires Valid()
      modifies this
      ensures Valid()
      ensures currentStep == Succ(old(currentStep), SequenceLen(stepMode))
      ensures writes == old(writes) + PatternWrites(pins, PatternAt(stepMode, currentStep))
    {
      var sequenceLen := 4;
      if stepMode == StepModeHalf {
        sequenceLen := 8;
      }
      SuccIsModulo(currentStep, sequenceLen);
      currentStep := (currentStep + 1) % sequenceLen;
      ApplyStep();
    }

    /** Go back one row, wrapping at the start of the table, and drive it. */
    method StepBackward()
      requires Valid()
      modifies this
      ensures Valid()
      ensures currentStep == Pred(old(currentStep), SequenceLen(stepMode))
      ensures writes == old(writes) + PatternWrites(pins, PatternAt(stepMode, currentStep))
    {
      var sequenceLen := 4;
      if stepMode == StepModeHalf {
        sequenceLen := 8;
      }
      PredIsModulo(currentStep, sequenceLen);
      currentStep := (currentStep - 1 + sequenceLen) % sequenceLen;
      ApplyStep();
    }

    /** The forward loop of `Move`: `n` calls of `StepForward`. */
    method StepForwardTimes(n: nat)
      requires Valid()
      modifies this
      ensures Valid()
      ensures currentStep == Advance(SequenceLen(stepMode), old(currentStep), n)
      ensures writes == old(writes) + ForwardWrites(pins, stepMode, old(currentStep), n)
    {
      ghost var len := SequenceLen(stepMode);
      ghost var c := currentStep;
      var i := 0;
      while i < n
        invariant 0 <= i <= n
        invariant Valid()
        invariant currentStep == Advance(len, c, i)
        invariant writes == old(writes) + ForwardWrites(pins, stepMode, c, i)
      {
        StepForward();
        i := i + 1;
      }
    }

    /** The backward loop of `Move`: `n` calls of `StepBackward`. */
    method StepBackwardTimes(n: nat)
      requires Valid()
      modifies this
      ensures Valid()
      ensures currentStep == Retreat(SequenceLen(stepMode), old(currentStep), n)
      ensures writes == old(writes) + BackwardWrites(pins, stepMode, old(currentStep), n)
    {
      ghost var len := SequenceLen(stepMode);
      ghost var c := currentStep;
      var i := 0;
      while i < n
        invariant 0 <= i <= n
        invariant Valid()
        invariant currentStep == Retreat(len, c, i)
        invariant writes == old(writes) + BackwardWrites(pins, stepMode, c, i)
      {
        StepBackward();
        i := i + 1;
      }
    }

    /** `Move`: take `steps` steps forward when positive, `-steps` backward
        otherwise. */
    method Move(steps: int)
      requires Valid()
      modifies this
      ensures Valid()
      ensures currentStep == MovePhase(stepMode, old(currentStep), steps)
      ensures writes == old(writes) + MoveWrites(pins, stepMode, old(currentStep), steps)
    {
      if steps > 0 {
        StepForwardTimes(steps);
      } else {
        StepBackwardTimes(-steps);
      }
    }
  }

  /** `NewStepper`: reject an unknown step mode, default a zero delay and
      start at phase 0 with nothing driven yet. */
  method NewStepper(cfg: StepperConfig) returns (s: Stepper?)
    ensures s == null <==> !ValidStepMode(cfg.stepMode)
    ensures s != null ==> fresh(s) && s.Valid() && s.currentStep == 0 && s.writes == []
    ensures s != null ==> s.pins == cfg.pins && s.stepMode == cfg.stepMode
    ensures s != null ==> s.stepDelay == EffectiveStepDelay(cfg.stepDelay)
  {
    if cfg.stepMode != StepModeFull && cfg.stepMode != StepModeHalf {
      return null;
    }
    var delay := cfg.stepDelay;
    if delay == 0 {
      delay := DefaultStepDelay;
    }
    s := new Stepper([cfg.pins[0], cfg.pins[1], cfg.pins[2], cfg.pins[3]], cfg.stepMode, delay);
  }
}
