/** The desktop interface as a log sink (ui/ui.go): `RoasterUI.Write`
    receives the controller's log bytes, drops newlines and the
    termination character, and appends what is left as one line to the
    log entry. The filter works in place on the caller's buffer. */
module LogWriter {
  import opened Base
  import opened AutoRoast

  const Newline: byte := 0x0A

  /** The bytes `Write` keeps. */
  predicate Kept(b: byte)
  {
    b != Newline && b != TerminationChar
  }

  /** The kept bytes of `s`, in order. */
  function Clean(s: seq<byte>): (c: seq<byte>)
    ensures |c| <= |s|
    decreases |s|
  {
    if s == [] then []
    else Clean(s[..|s| - 1]) + (if Kept(s[|s| - 1]) then [s[|s| - 1]] else [])
  }

  /** The text one `Write` appends: the kept bytes ended by one newline,
      or nothing when no byte is kept. */
  function Logged(s: seq<byte>): seq<byte>
  {
    if Clean(s) == [] then [] else Clean(s) + [Newline]
  }

  /** The caller's buffer after `Write`: the kept bytes moved to the front;
      the newline appended to them lands in the next byte when there is
      room; every other byte is as it was. */
  function Compacted(s: seq<byte>): seq<byte>
  {
    var c := Clean(s);
    if c != [] && |c| < |s| then c + [Newline] + s[|c| + 1..] else c + s[|c|..]
  }

  /** No newline and no termination character survives the filter. */
  lemma {:induction false} CleanKeepsOnlyKept(s: seq<byte>)
    ensures forall k :: 0 <= k < |Clean(s)| ==> Kept(Clean(s)[k])
    decreases |s|
  {
    if s != [] {
      CleanKeepsOnlyKept(s[..|s| - 1]);
    }
  }

  /** The filter drops nothing else: a buffer of kept bytes passes whole,
      and one holding a dropped byte does not. */
  lemma {:induction false} CleanIdentity(s: seq<byte>)
    ensures Clean(s) == s <==> forall k :: 0 <= k < |s| ==> Kept(s[k])
    decreases |s|
  {
    if s != [] {
      var front := s[..|s| - 1];
      CleanIdentity(front);
      if Kept(s[|s| - 1]) {
        assert s == front + [s[|s| - 1]];
        if Clean(s) == s {
          assert Clean(front) == front;
        }
      } else {
        assert |Clean(s)| < |s|;
      }
      assert forall k :: 0 <= k < |front| ==> front[k] == s[k];
    }
  }

  /** Filtering two chunks is filtering each. */
  lemma {:induction false} CleanAppend(a: seq<byte>, b: seq<byte>)
    ensures Clean(a + b) == Clean(a) + Clean(b)
    decreases |b|
  {
    if b == [] {
      assert a + b == a;
    } else {
      var b' := b[..|b| - 1];
      assert (a + b)[..|a + b| - 1] == a + b';
      assert (a + b)[|a + b| - 1] == b[|b| - 1];
      CleanAppend(a, b');
    }
  }

  /** Filtering twice is filtering once. */
  lemma CleanIdempotent(s: seq<byte>)
    ensures Clean(Clean(s)) == Clean(s)
  {
    CleanKeepsOnlyKept(s);
    CleanIdentity(Clean(s));
  }

  /** A logged line holds exactly the kept bytes and ends with the one
      newline `Write` adds; filtering it again gives back what was kept. */
  lemma LoggedLine(s: seq<byte>)
    ensures Logged(s) == [] <==> forall k :: 0 <= k < |s| ==> !Kept(s[k])
    ensures Logged(s) != [] ==> (Logged(s)[|Logged(s)| - 1] == Newline
                                 && forall k :: 0 <= k < |Logged(s)| - 1 ==> Kept(Logged(s)[k]))
    ensures Clean(Logged(s)) == Clean(s)
  {
    CleanKeepsOnlyKept(s);
    CleanIdempotent(s);
    NothingKept(s);
    if Clean(s) != [] {
      CleanAppend(Clean(s), [Newline]);
      assert [Newline][..0] == [];
      assert Clean([Newline]) == [];
      assert Clean(s) + [] == Clean(s);
    }
  }

  /** The filter is empty exactly when no byte is kept. */
  lemma {:induction false} NothingKept(s: seq<byte>)
    ensures Clean(s) == [] <==> forall k :: 0 <= k < |s| ==> !Kept(s[k])
    decreases |s|
  {
    if s != [] {
      var front := s[..|s| - 1];
      NothingKept(front);
      assert forall k :: 0 <= k < |front| ==> front[k] == s[k];
    }
  }

  /** The buffer keeps its length, and starts with the kept bytes. */
  lemma CompactedShape(s: seq<byte>)
    ensures |Compacted(s)| == |s|
    ensures Compacted(s)[..|Clean(s)|] == Clean(s)
  {
  }

  /** The loop of `Write`: each kept byte is copied down to the next
      free slot at the front of `p`; returns how many were kept. */
  method KeepInPlace(p: array<byte>) returns (k: nat)
    modifies p
    ensures k == |Clean(old(p[..]))| <= p.Length
    ensures p[..k] == Clean(old(p[..])) && p[k..] == old(p[..])[k..]
  {
    ghost var s := p[..];
    k := 0;
    for i := 0 to p.Length
      invariant k <= i
      invariant p[..k] == Clean(s[..i])
      invariant p[k..] == s[k..]
    {
      assert s[..i + 1][..i] == s[..i];
      assert Clean(s[..i + 1]) == Clean(s[..i]) + (if Kept(s[i]) then [s[i]] else []);
      assert p[i] == p[k..][i - k] == s[i];
      ghost var before := p[..k];
      ghost var after := p[k + 1..];
      var v := p[i];
      if v != Newline && v != TerminationChar {
        p[k] := v;
        assert p[..k + 1] == before + [v];
        assert p[k + 1..] == after == s[k + 1..];
        k := k + 1;
      }
    }
    assert s[..p.Length] == s;
  }

  class RoasterUI {
    /** Whether the window's log entry exists yet. */
    var hasLogEntry: bool
    /** The log entry's text, as bytes. */
    var logText: seq<byte>

    /** `NewRoasterUI`: no log entry yet. */
    constructor ()
      ensures !hasLogEntry && logText == []
    {
      hasLogEntry := false;
      logText := [];
    }

    /** `Write`: always reports the whole buffer written. With no log entry
        it does nothing; otherwise it compacts the kept bytes to the front
        of `p` and appends them, with a newline, to the log text. */
    method Write(p: array<byte>) returns (n: nat)
      modifies p, this`logText
      ensures n == p.Length
      ensures !hasLogEntry ==> p[..] == old(p[..]) && logText == old(logText)
      ensures hasLogEntry ==> p[..] == Compacted(old(p[..])) && logText == old(logText) + Logged(old(p[..]))
    {
      if !hasLogEntry {
        return p.Length;
      }
      ghost var s := p[..];
      var k := KeepInPlace(p);
      ghost var c := Clean(s);
      assert p[..k] == c;
      if k == 0 {
        assert p[..] == p[..0] + p[0..];
        return p.Length;
      }
      var text := p[..k] + [Newline];
      assert text == Logged(s);
      if k < p.Length {
        ghost var rest := p[k + 1..];
        assert rest == s[k + 1..];
        p[k] := Newline;
        assert p[..k] == c;
        assert p[k + 1..] == rest;
        assert p[..] == p[..k] + [Newline] + p[k + 1..];
      } else {
        assert p[..] == p[..k] + p[k..];
      }
      logText := logText + text;
      return p.Length;
    }
  }
}
