/** The serial input of the command loops: a stream of read attempts, cut
    into frames of one flag byte and a fixed number of argument bytes. Both
    dispatch loops (firmware/commands/commands.go and commands.go) read it
    the same way; the stream is finite here, where the device would wait
    for further bytes. Positions are indices of reads in the stream. */
module Serial {
  import opened Base

  /** One `ReadByte` call: a byte read at time `at` (ms), or an error. */
  datatype Read = Got(b: byte, at: int) | Failed

  /** A dispatched command: its flag, its argument bytes and the time of
      the last byte read for it. */
  datatype Frame = Frame(flag: byte, input: seq<byte>, at: int)

  /** The byte one read contributes. */
  function Arrived(r: Read): (bs: seq<byte>)
    ensures |bs| == (if r.Got? then 1 else 0)
  {
    if r.Got? then [r.b] else []
  }

  /** The bytes successfully read from `s`, in order. */
  function Bytes(s: seq<Read>): seq<byte>
  {
    if s == [] then [] else Arrived(s[0]) + Bytes(s[1..])
  }

  /** The argument loop: read from `pos` until `n` bytes have arrived,
      skipping failed reads. The bytes and the position after the last
      read consumed, or None when the stream ends first. */
  function Collect(s: seq<Read>, pos: nat, n: nat): (r: Option<(seq<byte>, nat)>)
    requires pos <= |s|
    ensures r.Some? ==> |r.value.0| == n && pos <= r.value.1 <= |s|
    ensures r.Some? && n == 0 ==> r.value.1 == pos
    ensures r.Some? && n > 0 ==> pos < r.value.1 && s[r.value.1 - 1].Got?
    decreases |s| - pos
  {
    if n == 0 then Some(([], pos))
    else if pos == |s| then None
    else
      var rest := Collect(s, pos + 1, n - |Arrived(s[pos])|);
      if rest.None? then None
      else Some((Arrived(s[pos]) + rest.value.0, rest.value.1))
  }

  /** `Collect` takes the shortest run of reads holding `n` successful
      ones, and fails exactly when the rest of the stream holds fewer. */
  lemma {:induction false} CollectBytes(s: seq<Read>, pos: nat, n: nat)
    requires pos <= |s|
    ensures Collect(s, pos, n).Some? ==> Collect(s, pos, n).value.0 == Bytes(s[pos..Collect(s, pos, n).value.1])
    ensures Collect(s, pos, n).None? <==> |Bytes(s[pos..])| < n
    decreases |s| - pos
  {
    if n > 0 && pos < |s| {
      var m := n - |Arrived(s[pos])|;
      CollectBytes(s, pos + 1, m);
      assert s[pos..][1..] == s[pos + 1..];
      var rest := Collect(s, pos + 1, m);
      if rest.Some? {
        assert s[pos..rest.value.1][1..] == s[pos + 1..rest.value.1];
      }
    } else if n > 0 {
      assert s[pos..] == [];
    } else {
      assert s[pos..pos] == [];
    }
  }

  /** The frames the loop dispatches from read `pos` on: a read that fails
      or a byte that is not a known flag is skipped; a flag takes the next
      `sizes[flag]` bytes; a frame the stream ends inside is never
      dispatched. */
  function FramesFrom(sizes: map<byte, nat>, s: seq<Read>, pos: nat): (frames: seq<Frame>)
    requires pos <= |s|
    ensures forall f :: f in frames ==> f.flag in sizes && |f.input| == sizes[f.flag]
    decreases |s| - pos
  {
    if pos == |s| then []
    else if s[pos].Failed? || s[pos].b !in sizes then FramesFrom(sizes, s, pos + 1)
    else
      match Collect(s, pos + 1, sizes[s[pos].b])
      case None => []
      case Some((args, next)) => [Frame(s[pos].b, args, s[next - 1].at)] + FramesFrom(sizes, s, next)
  }

  /** The frames of a whole stream. */
  function Frames(sizes: map<byte, nat>, s: seq<Read>): (frames: seq<Frame>)
    ensures forall f :: f in frames ==> f.flag in sizes && |f.input| == sizes[f.flag]
  {
    FramesFrom(sizes, s, 0)
  }

  /** A read that is skipped. */
  predicate Skipped(sizes: map<byte, nat>, r: Read)
  {
    r.Failed? || r.b !in sizes
  }

  /** Bytes that are not flags, and failed reads, produce nothing. */
  lemma {:induction false} NoFlagsNoFrames(sizes: map<byte, nat>, s: seq<Read>, pos: nat)
    requires pos <= |s|
    requires forall i :: pos <= i < |s| ==> Skipped(sizes, s[i])
    ensures FramesFrom(sizes, s, pos) == []
    decreases |s| - pos
  {
    if pos < |s| {
      assert Skipped(sizes, s[pos]);
      NoFlagsNoFrames(sizes, s, pos + 1);
    }
  }

  /** Skipped reads in front change nothing: the frames of the stream are
      those from the first read that is not skipped. */
  lemma {:induction false} SkipPrefix(sizes: map<byte, nat>, s: seq<Read>, pos: nat)
    requires pos <= |s|
    requires forall i :: 0 <= i < pos ==> Skipped(sizes, s[i])
    ensures Frames(sizes, s) == FramesFrom(sizes, s, pos)
    decreases pos
  {
    if pos > 0 {
      assert Skipped(sizes, s[pos - 1]);
      assert FramesFrom(sizes, s, pos - 1) == FramesFrom(sizes, s, pos);
      SkipPrefix(sizes, s, pos - 1);
    }
  }

  /** The reads that make up the stream of `bs`, one successful read per
      byte, all at time `at`. */
  function Typed(bs: seq<byte>, at: int): (s: seq<Read>)
    ensures |s| == |bs|
    ensures forall i :: 0 <= i < |s| ==> s[i] == Got(bs[i], at)
  {
    if bs == [] then [] else [Got(bs[0], at)] + Typed(bs[1..], at)
  }

  /** `Collect` after the bytes `pre` have been read. */
  function Shifted(pre: seq<byte>, r: Option<(seq<byte>, nat)>): Option<(seq<byte>, nat)>
  {
    match r
    case None => None
    case Some((bs, next)) => Some((pre + bs, next))
  }

  /** Nothing read yet. */
  lemma ShiftedNothing(r: Option<(seq<byte>, nat)>)
    ensures Shifted([], r) == r
  {
    match r
    case None =>
    case Some((bs, next)) => assert [] + bs == bs;
  }

  /** One read of the argument loop: the bytes so far, then the byte of
      the read at `next`, then the rest. */
  lemma CollectStep(s: seq<Read>, pos: nat, next: nat, n: nat, pre: seq<byte>, post: seq<byte>, left: nat)
    requires pos <= next < |s| && |pre| < n && post == pre + Arrived(s[next]) && left == n - |post|
    requires Collect(s, pos, n) == Shifted(pre, Collect(s, next, n - |pre|))
    ensures Collect(s, pos, n) == Shifted(post, Collect(s, next + 1, left))
  {
    match Collect(s, next + 1, left)
    case None =>
    case Some((bs, k)) => assert pre + (Arrived(s[next]) + bs) == post + bs;
  }

  /** The argument loop of `Run`: fill a buffer of `n` bytes from the reads
      starting at `pos`, skipping failed reads. `ok` is false when the
      stream runs out first, where the device would keep waiting. */
  method ReadFrame(s: seq<Read>, pos: nat, n: nat) returns (ok: bool, input: seq<byte>, next: nat)
    requires pos <= |s|
    ensures ok <==> Collect(s, pos, n).Some?
    ensures ok ==> Collect(s, pos, n) == Some((input, next))
  {
    var buffer := new byte[n];
    var i := 0;
    next := pos;
    ShiftedNothing(Collect(s, pos, n));
    while i < n
      invariant 0 <= i <= n && pos <= next <= |s|
      invariant Collect(s, pos, n) == Shifted(buffer[..i], Collect(s, next, n - i))
      decreases |s| - next, n - i
    {
      if next == |s| {
        return false, [], next;
      }
      ghost var before := buffer[..i];
      if s[next].Got? {
        buffer[i] := s[next].b;
        i := i + 1;
      }
      assert buffer[..i] == before + Arrived(s[next]);
      CollectStep(s, pos, next, n, before, buffer[..i], n - i);
      next := next + 1;
    }
    assert buffer[..] == buffer[..i] + [];
    return true, buffer[..], next;
  }

  /** The frames from a known flag at read `pos` whose arguments were all
      read: its frame, then those after its last argument. */
  lemma FramesAtFlag(sizes: map<byte, nat>, s: seq<Read>, pos: nat, input: seq<byte>, next: nat)
    requires pos < |s| && s[pos].Got? && s[pos].b in sizes
    requires Collect(s, pos + 1, sizes[s[pos].b]) == Some((input, next))
    ensures pos < next <= |s| && s[next - 1].Got?
    ensures FramesFrom(sizes, s, pos) == [Frame(s[pos].b, input, s[next - 1].at)] + FramesFrom(sizes, s, next)
  {
  }

  /** The frames from a known flag at read `pos` whose arguments the
      stream does not hold: none. */
  lemma FramesAtCut(sizes: map<byte, nat>, s: seq<Read>, pos: nat)
    requires pos < |s| && s[pos].Got? && s[pos].b in sizes
    requires Collect(s, pos + 1, sizes[s[pos].b]).None?
    ensures FramesFrom(sizes, s, pos) == []
  {
  }

  /** One frame of a dispatch loop: the flag at read `pos` is known and
      takes `n` argument bytes; read them. `ok` is false when the stream
      ends first, and then every frame of the stream has been seen. */
  method ReadCommand(s: seq<Read>, pos: nat, n: nat, ghost sizes: map<byte, nat>, ghost done: seq<Frame>)
    returns (ok: bool, frame: Frame, next: nat)
    requires pos < |s| && s[pos].Got? && s[pos].b in sizes && sizes[s[pos].b] == n
    requires Frames(sizes, s) == done + FramesFrom(sizes, s, pos)
    ensures !ok ==> Frames(sizes, s) == done
    ensures ok ==> pos < next <= |s| && frame.flag == s[pos].b && |frame.input| == n
    ensures ok ==> Frames(sizes, s) == (done + [frame]) + FramesFrom(sizes, s, next)
  {
    var input;
    ok, input, next := ReadFrame(s, pos + 1, n);
    if !ok {
      FramesAtCut(sizes, s, pos);
      assert done + [] == done;
      return false, Frame(s[pos].b, [], 0), pos + 1;
    }
    FramesAtFlag(sizes, s, pos, input, next);
    frame := Frame(s[pos].b, input, s[next - 1].at);
    ghost var rest := FramesFrom(sizes, s, next);
    assert done + ([frame] + rest) == (done + [frame]) + rest;
  }
}
