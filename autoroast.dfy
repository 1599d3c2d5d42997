/** The display modes of the roaster (autoroast.go). The same enumeration
    and `Next` are declared again in main.go; the model keeps one copy. */
module AutoRoast {
  import opened Base

  /** ASCII EOT, which the firmware sends to end a transmission. */
  const TerminationChar: byte := 0x04

  /** The mode the roaster's display is showing. */
  datatype ControlMode = Unknown | Fan | Power | Timer

  /** The enumeration's underlying integer (Go's `iota` order). */
  function Ordinal(m: ControlMode): (n: nat)
    ensures n <= 3
    ensures n == 0 <==> m == Unknown
  {
    match m
    case Unknown => 0
    case Fan => 1
    case Power => 2
    case Timer => 3
  }

  /** The mode whose underlying integer is `n`. */
  function FromOrdinal(n: nat): (m: ControlMode)
    requires n <= 3
    ensures Ordinal(m) == n
  {
    if n == 0 then Unknown else if n == 1 then Fan else if n == 2 then Power else Timer
  }

  /** The mode the display shows after one button click: Timer wraps to
      Fan, every other mode goes to the next integer. */
  function Next(m: ControlMode): (r: ControlMode)
    ensures r != Unknown
    ensures Ordinal(r) == Ordinal(m) % 3 + 1
  {
    if m == Timer then Fan else FromOrdinal(Ordinal(m) + 1)
  }

  /** The display name of a mode. */
  function Name(m: ControlMode): (s: string)
    ensures s == "Unknown" <==> m == Unknown
    ensures m == Fan ==> s == "Fan"
    ensures m == Power ==> s == "Power"
    ensures m == Timer ==> s == "Timer"
  {
    match m
    case Fan => "Fan"
    case Power => "Power"
    case Timer => "Timer"
    case Unknown => "Unknown"
  }

  /** `k` clicks' worth of `Next`. */
  function NextN(m: ControlMode, k: nat): ControlMode
  {
    if k == 0 then m else Next(NextN(m, k - 1))
  }

  /** The three real modes form a cycle of length three. */
  lemma NextCycle(m: ControlMode)
    requires m != Unknown
    ensures Next(m) != m && Next(Next(m)) != m
    ensures Next(Next(Next(m))) == m
  {
  }

  /** The cycle walked from Unknown: Unknown goes to Fan. */
  lemma NextOfEachMode()
    ensures Next(Fan) == Power && Next(Power) == Timer && Next(Timer) == Fan
    ensures Next(Unknown) == Fan
  {
  }

  /** How many clicks take the display from `from` to `target`. */
  function ClicksTo(from: ControlMode, target: ControlMode): (k: nat)
    requires target != Unknown
    ensures k <= 3
    ensures from != Unknown ==> k <= 2
    ensures k == 0 <==> from == target
    ensures NextN(from, k) == target
  {
    if from == Unknown then Ordinal(target)
    else (Ordinal(target) - Ordinal(from) + 3) % 3
  }

  /** One click brings the display one step closer to the target, so
      `ClicksTo` is the least number of clicks that reach it. */
  lemma ClicksToNext(from: ControlMode, target: ControlMode)
    requires target != Unknown && from != target
    ensures ClicksTo(Next(from), target) == ClicksTo(from, target) - 1
  {
  }

  /** No shorter run of clicks reaches the target. */
  lemma {:induction false} ClicksToIsLeast(from: ControlMode, target: ControlMode, j: nat)
    requires target != Unknown && j < ClicksTo(from, target)
    ensures NextN(from, j) != target
    decreases j
  {
    if j > 0 {
      ClicksToNext(from, target);
      NextNShift(from, j - 1);
      ClicksToIsLeast(Next(from), target, j - 1);
    }
  }

  /** `NextN` can also peel its first step. */
  lemma {:induction false} NextNShift(m: ControlMode, k: nat)
    ensures NextN(m, k + 1) == NextN(Next(m), k)
    decreases k
  {
    if k > 0 {
      NextNShift(m, k - 1);
    }
  }
}
