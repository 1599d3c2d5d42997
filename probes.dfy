/** `ParseProbes` of twchart/client.go: a probe list written as
    "1=Ambient,2=Beans" becomes a list of (name, position) probes. The
    string helpers it calls (`strings.SplitSeq`, `strings.SplitN`,
    `strings.TrimSpace`, `fmt.Sscanf`) are written out as functions. */
module Probes {
  import opened Base

  /** A thermometer probe: its label and its position on the chart. */
  datatype Probe = Probe(name: string, position: int)

  /** Why a probe list was refused, with the offending text. */
  datatype ProbeError =
    | InvalidEntry(entry: string)       // a piece with no '='
    | InvalidPosition(text: string)     // a position that is not a number above none

  /** `twchart.ProbePositionNone`, the position of no probe. The twchart
      library is not part of this model; it is taken to be 0. */
  const ProbePositionNone: int := 0

  /** The index of the first `c` in `s`. */
  function IndexOf(s: string, c: char): (r: Option<nat>)
    ensures r.None? <==> c !in s
    ensures r.Some? ==> r.value < |s| && s[r.value] == c && c !in s[..r.value]
    decreases |s|
  {
    if s == [] then None
    else if s[0] == c then Some(0)
    else
      var rest := IndexOf(s[1..], c);
      if rest.None? then None
      else
        assert s[..rest.value + 1] == [s[0]] + s[1..][..rest.value];
        Some(rest.value + 1)
  }

  /** `strings.SplitSeq(s, sep)`: the pieces between separators, one more
      than there are separators, so an empty string is one empty piece. */
  function Split(s: string, sep: char): (pieces: seq<string>)
    ensures |pieces| >= 1
    decreases |s|
  {
    match IndexOf(s, sep)
    case None => [s]
    case Some(i) => [s[..i]] + Split(s[i + 1..], sep)
  }

  /** No piece holds the separator. */
  lemma {:induction false} SplitPiecesLackSep(s: string, sep: char)
    ensures forall i :: 0 <= i < |Split(s, sep)| ==> sep !in Split(s, sep)[i]
    decreases |s|
  {
    match IndexOf(s, sep)
    case None =>
    case Some(i) =>
      SplitPiecesLackSep(s[i + 1..], sep);
      assert Split(s, sep)[1..] == Split(s[i + 1..], sep);
  }

  /** The pieces put back together with the separator between them. */
  function Join(pieces: seq<string>, sep: char): string
    requires |pieces| >= 1
    decreases |pieces|
  {
    if |pieces| == 1 then pieces[0] else pieces[0] + [sep] + Join(pieces[1..], sep)
  }

  /** Splitting loses nothing: the pieces rejoined are the input. */
  lemma {:induction false} JoinSplit(s: string, sep: char)
    ensures Join(Split(s, sep), sep) == s
    decreases |s|
  {
    match IndexOf(s, sep)
    case None =>
    case Some(i) =>
      JoinSplit(s[i + 1..], sep);
      var pieces := Split(s, sep);
      assert pieces[1..] == Split(s[i + 1..], sep);
      assert s == s[..i] + [sep] + s[i + 1..];
  }

  /** `strings.SplitN(entry, "=", 2)` when it yields two parts: the text
      before the first '=' and everything after it. */
  function SplitFirst(entry: string): (parts: Option<(string, string)>)
    ensures parts.None? <==> '=' !in entry
    ensures parts.Some? ==> entry == parts.value.0 + "=" + parts.value.1 && '=' !in parts.value.0
  {
    match IndexOf(entry, '=')
    case None => None
    case Some(i) =>
      assert entry == entry[..i] + "=" + entry[i + 1..];
      Some((entry[..i], entry[i + 1..]))
  }

  /** The ASCII white space `strings.TrimSpace` removes. */
  predicate IsSpace(c: char)
  {
    c == ' ' || c == '\t' || c == '\n' || c == '\r' || c == '\U{0B}' || c == '\U{0C}'
  }

  /** `strings.TrimSpace`: the text without leading and trailing white
      space. */
  function TrimSpace(s: string): (t: string)
  {
    TrimRight(TrimLeft(s))
  }

  /** Leading white space removed. */
  function TrimLeft(s: string): (t: string)
    ensures |t| <= |s|
    decreases |s|
  {
    if s != [] && IsSpace(s[0]) then TrimLeft(s[1..]) else s
  }

  /** Trailing white space removed. */
  function TrimRight(s: string): (t: string)
    ensures |t| <= |s|
    decreases |s|
  {
    if s != [] && IsSpace(s[|s| - 1]) then TrimRight(s[..|s| - 1]) else s
  }

  /** `TrimLeft` drops a run of white space from the front and stops at the
      first other character. */
  lemma {:induction false} TrimLeftDrops(s: string)
    ensures TrimLeft(s) == s[|s| - |TrimLeft(s)|..]
    ensures forall k :: 0 <= k < |s| - |TrimLeft(s)| ==> IsSpace(s[k])
    ensures TrimLeft(s) != [] ==> !IsSpace(TrimLeft(s)[0])
    decreases |s|
  {
    if s != [] && IsSpace(s[0]) {
      TrimLeftDrops(s[1..]);
      assert forall k :: 1 <= k < |s| ==> s[k] == s[1..][k - 1];
    }
  }

  /** `TrimRight` drops a run of white space from the back and stops at the
      last other character. */
  lemma {:induction false} TrimRightDrops(s: string)
    ensures TrimRight(s) == s[..|TrimRight(s)|]
    ensures forall k :: |TrimRight(s)| <= k < |s| ==> IsSpace(s[k])
    ensures TrimRight(s) != [] ==> !IsSpace(TrimRight(s)[|TrimRight(s)| - 1])
    decreases |s|
  {
    if s != [] && IsSpace(s[|s| - 1]) {
      TrimRightDrops(s[..|s| - 1]);
      assert forall k :: 0 <= k < |s| - 1 ==> s[k] == s[..|s| - 1][k];
    }
  }

  /** What `TrimSpace` keeps is one stretch of the text, and what it drops
      around it is all white space. */
  lemma TrimSpaceIsSlice(s: string)
    ensures exists i, j :: 0 <= i <= j <= |s| && TrimSpace(s) == s[i..j]
                           && (forall k :: 0 <= k < i ==> IsSpace(s[k]))
                           && (forall k :: j <= k < |s| ==> IsSpace(s[k]))
  {
    var l := TrimLeft(s);
    TrimLeftDrops(s);
    TrimRightDrops(l);
    var i := |s| - |l|;
    var j := i + |TrimRight(l)|;
    assert TrimSpace(s) == s[i..j];
    assert forall k :: j <= k < |s| ==> s[k] == l[k - i];
  }

  /** What `TrimSpace` keeps has no white space at either end. */
  lemma TrimSpaceEnds(s: string)
    ensures TrimSpace(s) != [] ==> !IsSpace(TrimSpace(s)[0]) && !IsSpace(TrimSpace(s)[|TrimSpace(s)| - 1])
  {
    var l := TrimLeft(s);
    TrimLeftDrops(s);
    TrimRightDrops(l);
    if TrimRight(l) != [] {
      assert TrimRight(l)[0] == l[0];
    }
  }

  predicate IsDigit(c: char)
  {
    '0' <= c <= '9'
  }

  /** The leading run of decimal digits. */
  function DigitPrefix(s: string): (ds: string)
    ensures |ds| <= |s|
    decreases |s|
  {
    if s != [] && IsDigit(s[0]) then [s[0]] + DigitPrefix(s[1..]) else []
  }

  /** `DigitPrefix` is the longest prefix of digits. */
  lemma {:induction false} DigitPrefixIsLongest(s: string)
    ensures DigitPrefix(s) == s[..|DigitPrefix(s)|]
    ensures forall k :: 0 <= k < |DigitPrefix(s)| ==> IsDigit(s[k])
    ensures |DigitPrefix(s)| < |s| ==> !IsDigit(s[|DigitPrefix(s)|])
    decreases |s|
  {
    if s != [] && IsDigit(s[0]) {
      DigitPrefixIsLongest(s[1..]);
      assert [s[0]] + s[1..][..|DigitPrefix(s[1..])|] == s[..|DigitPrefix(s)|];
    }
  }

  /** The number a run of decimal digits writes, most significant digit
      first. */
  function DecimalValue(ds: string): int
    decreases |ds|
  {
    if ds == [] then 0
    else DecimalValue(ds[..|ds| - 1]) * 10 + (ds[|ds| - 1] as int - '0' as int)
  }

  /** `fmt.Sscanf(text, "%d", &pos)`: an optional sign and at least one
      decimal digit; scanning stops at the first other character. */
  function ScanInt(text: string): (r: Option<int>)
  {
    var negative := text != [] && text[0] == '-';
    var body := if text != [] && (text[0] == '+' || text[0] == '-') then text[1..] else text;
    var ds := DigitPrefix(body);
    if ds == [] then None
    else Some(if negative then -(DecimalValue(ds) as int) else DecimalValue(ds))
  }

  /** A number is scanned exactly when a digit follows the optional sign;
      the digits up to the first other character give its magnitude, the
      sign its sign. */
  lemma ScanIntMeaning(text: string)
    ensures var signed := text != [] && (text[0] == '+' || text[0] == '-');
            var body := if signed then text[1..] else text;
            && (ScanInt(text).Some? <==> body != [] && IsDigit(body[0]))
            && (ScanInt(text).Some? ==>
                  exists n :: 1 <= n <= |body| && (forall k :: 0 <= k < n ==> IsDigit(body[k]))
                              && (n < |body| ==> !IsDigit(body[n]))
                              && ScanInt(text).value == (if text[0] == '-' then -DecimalValue(body[..n]) else DecimalValue(body[..n])))
  {
    var signed := text != [] && (text[0] == '+' || text[0] == '-');
    var body := if signed then text[1..] else text;
    DigitPrefixIsLongest(body);
    if ScanInt(text).Some? {
      var n := |DigitPrefix(body)|;
      assert DigitPrefix(body) == body[..n];
    }
  }

  /** One piece of the list: "position=name", cut at its first '=';
      white space around both halves is dropped. */
  function ParseEntry(entry: string): (r: Result<Probe, ProbeError>)
  {
    match SplitFirst(entry)
    case None => Err(InvalidEntry(entry))
    case Some((a, b)) =>
      var posStr := TrimSpace(a);
      var name := TrimSpace(b);
      var pos := ScanInt(posStr);
      if pos.None? || pos.value <= ProbePositionNone then Err(InvalidPosition(posStr))
      else Ok(Probe(name, pos.value))
  }

  /** A piece is refused as an entry exactly when it has no '=', and the
      error then carries the whole piece. */
  lemma ParseEntryNoEquals(entry: string)
    ensures ParseEntry(entry).Err? && ParseEntry(entry).error.InvalidEntry? <==> '=' !in entry
    ensures ParseEntry(entry).Err? && ParseEntry(entry).error.InvalidEntry? ==> ParseEntry(entry).error == InvalidEntry(entry)
  {
  }

  /** A piece cut at an '=' with none before it is read as position, then
      name: accepted when the position scans as a number above none, and
      refused with the trimmed position text otherwise. */
  lemma ParseEntryCut(entry: string, a: string, b: string)
    requires entry == a + "=" + b && '=' !in a
    ensures var pos := ScanInt(TrimSpace(a));
            ParseEntry(entry) == if pos.Some? && pos.value > ProbePositionNone
                                 then Ok(Probe(TrimSpace(b), pos.value))
                                 else Err(InvalidPosition(TrimSpace(a)))
  {
    CutIsFirst(entry, a, b);
    assert entry[..|a|] == a && entry[|a| + 1..] == b;
  }

  /** The accepting case of `ParseEntryCut`, for a known position. */
  lemma ParseEntryAccepted(entry: string, a: string, b: string, pos: int)
    requires entry == a + "=" + b && '=' !in a
    requires ScanInt(TrimSpace(a)) == Some(pos) && pos > ProbePositionNone
    ensures ParseEntry(entry) == Ok(Probe(TrimSpace(b), pos))
  {
    ParseEntryCut(entry, a, b);
  }

  /** An '=' with none before it is the first one. */
  lemma CutIsFirst(entry: string, a: string, b: string)
    requires entry == a + "=" + b && '=' !in a
    ensures IndexOf(entry, '=') == Some(|a|)
  {
    var i := IndexOf(entry, '=');
    assert entry[|a|] == '=';
    if i.value < |a| {
      assert false;
    } else if i.value > |a| {
      assert false;
    }
  }

  /** The pieces' results in order: the probes of all of them, or the
      error of the first piece that is refused. */
  function Gather(rs: seq<Result<Probe, ProbeError>>): (r: Result<seq<Probe>, ProbeError>)
    ensures r.Ok? ==> |r.value| == |rs|
    decreases |rs|
  {
    if rs == [] then Ok([])
    else
      match Gather(rs[..|rs| - 1])
      case Err(e) => Err(e)
      case Ok(ps) =>
        match rs[|rs| - 1]
        case Err(e) => Err(e)
        case Ok(p) => Ok(ps + [p])
  }

  /** The result of each piece. */
  function Parsed(entries: seq<string>): (rs: seq<Result<Probe, ProbeError>>)
    ensures |rs| == |entries|
    ensures forall i :: 0 <= i < |entries| ==> rs[i] == ParseEntry(entries[i])
  {
    seq(|entries|, i requires 0 <= i < |entries| => ParseEntry(entries[i]))
  }

  /** A list is accepted exactly when every piece is, and then probe `i`
      is the probe of piece `i`. */
  lemma {:induction false} GatherOk(rs: seq<Result<Probe, ProbeError>>)
    ensures Gather(rs).Ok? <==> forall i :: 0 <= i < |rs| ==> rs[i].Ok?
    ensures Gather(rs).Ok? ==> forall i :: 0 <= i < |rs| ==> Gather(rs).value[i] == rs[i].value
    decreases |rs|
  {
    if rs != [] {
      var front := rs[..|rs| - 1];
      GatherOk(front);
      assert forall i :: 0 <= i < |front| ==> front[i] == rs[i];
    }
  }

  /** A refused list reports the first piece that is refused. */
  lemma {:induction false} GatherErr(rs: seq<Result<Probe, ProbeError>>, k: nat)
    requires k < |rs| && rs[k].Err?
    requires forall i :: 0 <= i < k ==> rs[i].Ok?
    ensures Gather(rs) == Err(rs[k].error)
    decreases |rs|
  {
    var front := rs[..|rs| - 1];
    if k < |front| {
      assert front[k] == rs[k];
      assert forall i :: 0 <= i < k ==> front[i] == rs[i];
      GatherErr(front, k);
    } else {
      GatherOk(front);
      assert forall i :: 0 <= i < |front| ==> front[i] == rs[i];
    }
  }

  /** Once a prefix is refused, the rest is not looked at. */
  lemma {:induction false} GatherStopsAt(rs: seq<Result<Probe, ProbeError>>, k: nat)
    requires k < |rs| && Gather(rs[..k + 1]).Err?
    ensures Gather(rs) == Gather(rs[..k + 1])
    decreases |rs| - k
  {
    if k + 1 < |rs| {
      assert rs[..k + 2][..k + 1] == rs[..k + 1];
      GatherStopsAt(rs, k + 1);
    } else {
      assert rs[..k + 1] == rs;
    }
  }

  /** The whole input. */
  function Parse(input: string): Result<seq<Probe>, ProbeError>
  {
    Gather(Parsed(Split(input, ',')))
  }

  /** `ParseProbes`: parse each piece in turn, appending its probe, and
      return the first error with no probes. */
  method ParseProbes(input: string) returns (r: Result<seq<Probe>, ProbeError>)
    ensures r == Parse(input)
  {
    var entries := Split(input, ',');
    ghost var rs := Parsed(entries);
    var probes: seq<Probe> := [];
    for i := 0 to |entries|
      invariant Gather(rs[..i]) == Ok(probes)
    {
      assert rs[..i + 1][..i] == rs[..i];
      assert rs[i] == ParseEntry(entries[i]);
      var entry := entries[i];
      var parts := SplitFirst(entry);
      if parts.None? {
        GatherStopsAt(rs, i);
        return Err(InvalidEntry(entry));
      }
      var posStr := TrimSpace(parts.value.0);
      var name := TrimSpace(parts.value.1);
      var pos := ScanInt(posStr);
      if pos.None? || pos.value <= ProbePositionNone {
        GatherStopsAt(rs, i);
        return Err(InvalidPosition(posStr));
      }
      probes := probes + [Probe(name, pos.value)];
    }
    assert rs[..|entries|] == rs;
    return Ok(probes);
  }

  /** A text without the separator is one piece. */
  lemma SplitWhole(s: string, sep: char)
    requires sep !in s
    ensures Split(s, sep) == [s]
  {
  }

  /** A separator ends the first piece. */
  lemma SplitAt(a: string, sep: char, b: string)
    requires sep !in a
    ensures Split(a + [sep] + b, sep) == [a] + Split(b, sep)
  {
    var s := a + [sep] + b;
    assert s[|a|] == sep && s[..|a|] == a;
    assert IndexOf(s, sep) == Some(|a|);
    assert s[|a| + 1..] == b;
  }

  /** Every piece names a probe. */
  predicate AllAccepted(pieces: seq<string>)
  {
    forall i :: 0 <= i < |pieces| ==> ParseEntry(pieces[i]).Ok?
  }

  /** The probe list is accepted exactly when every piece is. */
  lemma ParseAccepts(input: string)
    ensures Parse(input).Ok? <==> AllAccepted(Split(input, ','))
  {
    var pieces := Split(input, ',');
    var rs := Parsed(pieces);
    assert Parse(input) == Gather(rs);
    GatherOk(rs);
    assert (forall i :: 0 <= i < |rs| ==> rs[i].Ok?) <==> (forall i :: 0 <= i < |pieces| ==> ParseEntry(pieces[i]).Ok?);
  }

  /** An accepted list has one probe per piece, in input order. */
  lemma ParseInOrder(input: string)
    requires Parse(input).Ok?
    ensures |Parse(input).value| == |Split(input, ',')|
    ensures forall i :: 0 <= i < |Split(input, ',')| ==>
              ParseEntry(Split(input, ',')[i]).Ok? && Parse(input).value[i] == ParseEntry(Split(input, ',')[i]).value
  {
    var rs := Parsed(Split(input, ','));
    assert Parse(input) == Gather(rs);
    GatherOk(rs);
  }

  /** A refused list reports the error of its first refused piece. */
  lemma ParseFirstError(input: string, k: nat)
    requires k < |Split(input, ',')| && ParseEntry(Split(input, ',')[k]).Err?
    requires forall i :: 0 <= i < k ==> ParseEntry(Split(input, ',')[i]).Ok?
    ensures Parse(input) == Err(ParseEntry(Split(input, ',')[k]).error)
  {
    var rs := Parsed(Split(input, ','));
    assert Parse(input) == Gather(rs);
    GatherErr(rs, k);
  }

  /** A single digit scans as its value. */
  lemma ScanDigit(d: char)
    requires IsDigit(d)
    ensures ScanInt([d]) == Some(d as int - '0' as int)
  {
    assert [d][1..] == [];
    assert DigitPrefix([d]) == [d];
    assert [d][..0] == [];
    assert DecimalValue([d]) == d as int - '0' as int;
  }

  /** A text with no white space at its ends is kept whole. */
  lemma TrimPlain(s: string)
    requires s != [] && !IsSpace(s[0]) && !IsSpace(s[|s| - 1])
    ensures TrimSpace(s) == s
  {
  }

  /** One blank on each side is dropped. */
  lemma TrimPadded(s: string)
    requires s != [] && !IsSpace(s[0]) && !IsSpace(s[|s| - 1])
    ensures TrimSpace([' '] + s + [' ']) == s
  {
    var p := [' '] + s + [' '];
    assert p[1..] == s + [' '];
    assert TrimLeft(p) == s + [' '];
    assert (s + [' '])[..|s|] == s;
    assert TrimRight(s + [' ']) == s;
  }

  /** A piece "d=name" with a digit d from 1 to 9 names one probe at
      position d. */
  lemma ParseEntryDigit(entry: string, d: char, name: string)
    requires entry == [d] + "=" + name && IsDigit(d) && d != '0'
    requires name != [] && !IsSpace(name[0]) && !IsSpace(name[|name| - 1])
    ensures ParseEntry(entry) == Ok(Probe(name, d as int - '0' as int))
  {
    TrimPlain([d]);
    ScanDigit(d);
    TrimPlain(name);
    ParseEntryAccepted(entry, [d], name, d as int - '0' as int);
  }

  /** A list in the documented form "d1=name1,d2=name2" (the interface's
      default "1=Ambient,2=Beans" is one) gives the two probes in order. */
  lemma ParseTwo(e1: string, d1: char, n1: string, e2: string, d2: char, n2: string)
    requires e1 == [d1] + "=" + n1 && IsDigit(d1) && d1 != '0'
    requires n1 != [] && !IsSpace(n1[0]) && !IsSpace(n1[|n1| - 1]) && ',' !in n1
    requires e2 == [d2] + "=" + n2 && IsDigit(d2) && d2 != '0'
    requires n2 != [] && !IsSpace(n2[0]) && !IsSpace(n2[|n2| - 1]) && ',' !in n2
    ensures Parse(e1 + [','] + e2) == Ok([Probe(n1, d1 as int - '0' as int), Probe(n2, d2 as int - '0' as int)])
  {
    DigitEntryLacksComma(e1, d1, n1);
    DigitEntryLacksComma(e2, d2, n2);
    ParseEntryDigit(e1, d1, n1);
    ParseEntryDigit(e2, d2, n2);
    ParseTwoEntries(e1, e2, Probe(n1, d1 as int - '0' as int), Probe(n2, d2 as int - '0' as int));
  }

  /** A piece "d=name" has a comma only where its name has one. */
  lemma DigitEntryLacksComma(entry: string, d: char, name: string)
    requires entry == [d] + "=" + name && IsDigit(d) && ',' !in name
    ensures ',' !in entry
  {
  }

  /** Two accepted pieces joined by a comma give their two probes. */
  lemma ParseTwoEntries(e1: string, e2: string, p1: Probe, p2: Probe)
    requires ',' !in e1 && ',' !in e2
    requires ParseEntry(e1) == Ok(p1) && ParseEntry(e2) == Ok(p2)
    ensures Parse(e1 + [','] + e2) == Ok([p1, p2])
  {
    ParseTwoPieces(e1, e2);
    GatherTwo(p1, p2);
  }

  /** A list of two pieces gathers the two pieces' results. */
  lemma ParseTwoPieces(e1: string, e2: string)
    requires ',' !in e1 && ',' !in e2
    ensures Parse(e1 + [','] + e2) == Gather([ParseEntry(e1), ParseEntry(e2)])
  {
    SplitTwo(e1, e2);
    assert Parsed([e1, e2]) == [ParseEntry(e1), ParseEntry(e2)];
  }

  /** Two pieces without the separator, joined by it, split back. */
  lemma SplitTwo(e1: string, e2: string)
    requires ',' !in e1 && ',' !in e2
    ensures Split(e1 + [','] + e2, ',') == [e1, e2]
  {
    SplitAt(e1, ',', e2);
    SplitWhole(e2, ',');
  }

  /** A list of one piece is read as that piece. */
  lemma OneEntry(input: string)
    requires Split(input, ',') == [input]
    ensures Parse(input) == match ParseEntry(input)
                            case Ok(p) => Ok([p])
                            case Err(e) => Err(e)
  {
    assert Parsed([input]) == [ParseEntry(input)];
    GatherOne(ParseEntry(input));
  }

  /** One result gathered. */
  lemma GatherOne(r: Result<Probe, ProbeError>)
    ensures Gather([r]) == match r
                           case Ok(p) => Ok([p])
                           case Err(e) => Err(e)
  {
    assert [r][..0] == [];
    match r
    case Ok(p) => assert [] + [p] == [p];
    case Err(_) =>
  }

  /** Two accepted pieces gathered. */
  lemma GatherTwo(p1: Probe, p2: Probe)
    ensures Gather([Ok(p1), Ok(p2)]) == Ok([p1, p2])
  {
    var rs: seq<Result<Probe, ProbeError>> := [Ok(p1), Ok(p2)];
    assert rs[..1] == [Ok(p1)];
    GatherOne(Ok(p1));
    assert [p1] + [p2] == [p1, p2];
  }

  /** A list without '=' is refused whole; the empty list is one. */
  lemma ParseNoEquals(input: string)
    requires ',' !in input && '=' !in input
    ensures Parse(input) == Err(InvalidEntry(input))
  {
    SplitWhole(input, ',');
    ParseEntryNoEquals(input);
    OneEntry(input);
  }

  /** The empty list is refused: its one piece has no '='. */
  lemma ParseEmpty()
    ensures Parse("") == Err(InvalidEntry(""))
  {
    ParseNoEquals("");
  }

  /** Only the first '=' cuts, so a name may hold '=', and white space
      around the position and the name is dropped. */
  lemma ParsePadded(d: char, name: string)
    requires IsDigit(d) && d != '0'
    requires name != [] && !IsSpace(name[0]) && !IsSpace(name[|name| - 1]) && ',' !in name
    ensures Parse([' ', d, ' ', '=', ' '] + name + [' ']) == Ok([Probe(name, d as int - '0' as int)])
  {
    var input := [' ', d, ' ', '=', ' '] + name + [' '];
    PaddedEntry(input, d, name);
    PaddedLacksComma(input, d, name);
    ParseOne(input, Probe(name, d as int - '0' as int));
  }

  /** The piece " d = name " names one probe at position d. */
  lemma PaddedEntry(entry: string, d: char, name: string)
    requires entry == [' ', d, ' ', '=', ' '] + name + [' '] && IsDigit(d) && d != '0'
    requires name != [] && !IsSpace(name[0]) && !IsSpace(name[|name| - 1])
    ensures ParseEntry(entry) == Ok(Probe(name, d as int - '0' as int))
  {
    var a := [' '] + [d] + [' '];
    var b := [' '] + name + [' '];
    assert entry == a + "=" + b;
    TrimPadded([d]);
    ScanDigit(d);
    TrimPadded(name);
    ParseEntryAccepted(entry, a, b, d as int - '0' as int);
  }

  /** The padded piece has a comma only where its name has one. */
  lemma PaddedLacksComma(entry: string, d: char, name: string)
    requires entry == [' ', d, ' ', '=', ' '] + name + [' '] && IsDigit(d) && ',' !in name
    ensures ',' !in entry
  {
  }

  /** A list of one accepted piece gives its one probe. */
  lemma ParseOne(entry: string, p: Probe)
    requires ',' !in entry && ParseEntry(entry) == Ok(p)
    ensures Parse(entry) == Ok([p])
  {
    SplitWhole(entry, ',');
    OneEntry(entry);
  }

  /** A position of none is refused with its text. */
  lemma ParseNoPosition(name: string)
    requires ',' !in name
    ensures Parse("0=" + name) == Err(InvalidPosition("0"))
  {
    var input := "0=" + name;
    assert input == "0" + "=" + name;
    assert ',' !in input;
    SplitWhole(input, ',');
    ParseEntryCut(input, "0", name);
    TrimPlain("0");
    ScanDigit('0');
    OneEntry(input);
  }
}
