/** The controller surface the byte commands drive (the `Controller`
    interface of firmware/commands/commands.go). A command is modelled by
    the calls it makes, in order, and the error it returns. */
module ControllerCalls {
  import opened Base
  import opened AutoRoast

  /** One call of a `Controller` method. `ReadByte` is the serial input and
      is modelled by the stream the dispatch loop reads. */
  datatype Call =
    | MoveFan(i: int)
    | SetFan(f: nat)
    | MovePower(i: int)
    | SetPower(p: nat)
    | GoToMode(mode: ControlMode)
    | ClickButton
    | Start
    | Debug
    | Verbose
    | IncreaseTime
    | Settings
    | FixFan(f: nat)
    | FixPower(p: nat)
    | MicroStep(n: int)
    | Move(n: int)

  /** The errors a command can return. */
  datatype CommandError =
    | InvalidInputOf(input: seq<byte>)   // "invalid input: " followed by the argument bytes
    | InvalidInput                       // "invalid input"
    | StartRefused                       // the error `Start` returns

  /** What a command did: the calls it made and the error it returned. */
  datatype Outcome = Outcome(calls: seq<Call>, err: Option<CommandError>)

  /** The text Go prints after "error:". */
  function Message(e: CommandError): (m: string)
    ensures e.InvalidInputOf? ==> m == "invalid input: " + Chars(e.input)
    ensures e.InvalidInput? ==> m == "invalid input"
    ensures e.StartRefused? ==> m == "set initial fan/power before starting"
  {
    match e
    case InvalidInputOf(input) => "invalid input: " + Chars(input)
    case InvalidInput => "invalid input"
    case StartRefused => "set initial fan/power before starting"
  }

  /** Go's `string(bytes)` on ASCII bytes. */
  function Chars(bs: seq<byte>): (s: string)
    ensures |s| == |bs|
    ensures forall i :: 0 <= i < |bs| ==> s[i] == bs[i] as char
  {
    if bs == [] then [] else [bs[0] as char] + Chars(bs[1..])
  }

  /** `b2i`: the digit a byte names, with 0 for anything but '1'..'9'.
      Go computes `uint(b - '0')` on bytes, which wraps below '0'; every
      wrapped value is above 9 and so also gives 0. */
  function B2i(b: byte): (v: nat)
    ensures v <= 9
    ensures v != 0 <==> IsNonZeroDigit(b)
    ensures IsNonZeroDigit(b) ==> v == b as int - '0' as int
  {
    var w := (b as int - '0' as int) % 256;
    if w < 1 || w > 9 then 0 else w
  }

  /** `b2i` on each digit byte. */
  lemma B2iDigits()
    ensures B2i('1' as byte) == 1 && B2i('5' as byte) == 5 && B2i('9' as byte) == 9
    ensures B2i('0' as byte) == 0 && B2i('+' as byte) == 0 && B2i(0 as byte) == 0
  {
  }

  /** `b2i` is the inverse of writing a level as a digit. */
  lemma B2iOfDigit(level: nat)
    requires 1 <= level <= 9
    ensures B2i((level + '0' as int) as byte) == level
  {
  }
}
