/** Digital output pins as the stepper drivers see them: each step sets
    four coil pins to one row of a sequence table. The hardware is
    represented by the log of pin writes it receives. */
module Pins {

  /** A GPIO pin, identified by its number. */
  type Pin = nat

  /** The four coil pins of a stepper, in wiring order (Go's `[4]machine.Pin`). */
  type PinQuad = s: seq<Pin> | |s| == 4 witness [0, 1, 2, 3]

  /** One row of a step table: the level of each of the four coils. */
  type Pattern = s: seq<bool> | |s| == 4 witness [false, false, false, false]

  /** One call of `Pin.Set`. */
  datatype PinWrite = PinWrite(pin: Pin, level: bool)

  /** The 8-row half-step table of firmware/controller/stepper.go. */
  const HalfStepSequence: seq<Pattern> := [
    [true, false, false, false],
    [true, true, false, false],
    [false, true, false, false],
    [false, true, true, false],
    [false, false, true, false],
    [false, false, true, true],
    [false, false, false, true],
    [true, false, false, true]
  ]

  /** The 4-row full-step table; controller/stepper.go has the same rows. */
  const FullStepSequence: seq<Pattern> := [
    [true, false, false, false],
    [false, true, false, false],
    [false, false, true, false],
    [false, false, false, true]
  ]

  /** How many coils a pattern energises. */
  function OnCount(p: Pattern): nat
  {
    (if p[0] then 1 else 0) + (if p[1] then 1 else 0) + (if p[2] then 1 else 0) + (if p[3] then 1 else 0)
  }

  /** In how many coils two patterns differ. */
  function Differences(a: Pattern, b: Pattern): nat
  {
    (if a[0] != b[0] then 1 else 0) + (if a[1] != b[1] then 1 else 0)
      + (if a[2] != b[2] then 1 else 0) + (if a[3] != b[3] then 1 else 0)
  }

  /** The four writes that drive `pins` to pattern `p`, first pin first. */
  function PatternWrites(pins: PinQuad, p: Pattern): (w: seq<PinWrite>)
    ensures |w| == 4
  {
    [PinWrite(pins[0], p[0]), PinWrite(pins[1], p[1]), PinWrite(pins[2], p[2]), PinWrite(pins[3], p[3])]
  }

  /** The writes that drive `pins` through the patterns `ps` in order. */
  function PatternsWrites(pins: PinQuad, ps: seq<Pattern>): (w: seq<PinWrite>)
    ensures |w| == 4 * |ps|
  {
    if ps == [] then [] else PatternsWrites(pins, ps[..|ps| - 1]) + PatternWrites(pins, ps[|ps| - 1])
  }

  /** Every full-step row energises exactly one coil. */
  lemma FullStepOneCoil()
    ensures forall i :: 0 <= i < |FullStepSequence| ==> OnCount(FullStepSequence[i]) == 1
  {
  }

  /** Half-step row `i` and the row after it (cyclically) differ in one coil. */
  predicate AdjacentHalfStepsDifferByOne(i: nat)
    requires i < 8
  {
    Differences(HalfStepSequence[i], HalfStepSequence[(i + 1) % 8]) == 1
  }

  /** The even half-step rows energise one coil, the odd rows two. */
  lemma HalfStepCoilCounts()
    ensures forall i :: 0 <= i < 8 ==> OnCount(HalfStepSequence[i]) == 1 + i % 2
  {
  }

  /** Cyclically adjacent half-step rows differ in exactly one coil. */
  lemma HalfStepAdjacentRows()
    ensures forall i :: 0 <= i < 8 ==> AdjacentHalfStepsDifferByOne(i)
  {
    assert AdjacentHalfStepsDifferByOne(0) && AdjacentHalfStepsDifferByOne(1);
    assert AdjacentHalfStepsDifferByOne(2) && AdjacentHalfStepsDifferByOne(3);
    assert AdjacentHalfStepsDifferByOne(4) && AdjacentHalfStepsDifferByOne(5);
    assert AdjacentHalfStepsDifferByOne(6) && AdjacentHalfStepsDifferByOne(7);
  }
}
