/** The stages of a roast as the desktop interface steps through them
    (ui/state.go): one button moves to the next stage, and entering a
    stage sends that stage's command line. */
module RoastStage {

  /** `state`, in its `iota` order. */
  datatype Stage = NoStage | Preheat | Roasting | FirstCrack | Cooling | Done

  /** The enumeration's underlying integer. */
  function Ordinal(s: Stage): (n: nat)
    ensures n <= 5
    ensures n == 0 <==> s == NoStage
    ensures n == 5 <==> s == Done
  {
    match s
    case NoStage => 0
    case Preheat => 1
    case Roasting => 2
    case FirstCrack => 3
    case Cooling => 4
    case Done => 5
  }

  /** The stage whose underlying integer is `n`. */
  function FromOrdinal(n: nat): (s: Stage)
    requires n <= 5
    ensures Ordinal(s) == n
  {
    if n == 0 then NoStage else if n == 1 then Preheat else if n == 2 then Roasting
    else if n == 3 then FirstCrack else if n == 4 then Cooling else Done
  }

  /** `next`: Done has no next stage; every other stage goes to the next
      integer. */
  function Following(s: Stage): (r: Stage)
    ensures s == Done ==> r == Done
    ensures s != Done ==> Ordinal(r) == Ordinal(s) + 1
  {
    if s == Done then Done else FromOrdinal(Ordinal(s) + 1)
  }

  /** `k` applications of `next`. */
  function Advance(s: Stage, k: nat): Stage
  {
    if k == 0 then s else Following(Advance(s, k - 1))
  }

  /** From no stage, `k` applications of `next` reach stage `min(k, 5)`: Preheat, Roasting,
      First Crack, Cooling, then Done for good. */
  lemma {:induction false} AdvanceFromStart(k: nat)
    ensures Advance(NoStage, k) == FromOrdinal(if k <= 5 then k else 5)
    decreases k
  {
    if k > 0 {
      AdvanceFromStart(k - 1);
    }
  }

  /** Done is the only stage `next` does not move. */
  lemma FollowingFixedPoint(s: Stage)
    ensures Following(s) == s <==> s == Done
  {
  }

  /** `String`: the display name of a stage, "Unknown" for no stage. */
  function Name(s: Stage): (name: string)
    ensures name == "Unknown" <==> s == NoStage
    ensures s == Preheat ==> name == "Preheat"
    ensures s == Roasting ==> name == "Roasting"
    ensures s == FirstCrack ==> name == "First Crack"
    ensures s == Cooling ==> name == "Cooling"
    ensures s == Done ==> name == "Done"
  {
    match s
    case Preheat => "Preheat"
    case Roasting => "Roasting"
    case FirstCrack => "First Crack"
    case Cooling => "Cooling"
    case Done => "Done"
    case NoStage => "Unknown"
  }

  /** Different stages have different names. */
  lemma NamesDistinct(s: Stage, t: Stage)
    ensures Name(s) == Name(t) <==> s == t
  {
  }

  /** `command`: the lines sent on entering a stage. Preheat first fixes
      fan and power at 1 (`I11`) and starts the roast timer (`S`); every
      stage then announces itself. No stage sends nothing. */
  function Command(s: Stage): (c: string)
    ensures c == "" <==> s == NoStage
    ensures s == Preheat ==> c == "I11" + "\n" + "S" + "\n" + "PREHEAT"
    ensures s == Roasting ==> c == "ROASTING"
    ensures s == FirstCrack ==> c == "FC"
    ensures s == Cooling ==> c == "COOL"
    ensures s == Done ==> c == "DONE"
  {
    match s
    case Preheat => "I11\nS\nPREHEAT"
    case Roasting => "ROASTING"
    case FirstCrack => "FC"
    case Cooling => "COOL"
    case Done => "DONE"
    case NoStage => ""
  }
}
