/** The stream writer that prefixes lines and stops at a byte limit. */
module CappedWriter {
  type byte = x: int | 0 <= x < 256

  const NEWLINE: byte := 10

  // ---------- what should be seen ----------

  /** Whether a line is open after s, given whether one was open before. */
  function Mid(before: bool, s: seq<byte>): bool {
    if s == [] then before else s[|s| - 1] != NEWLINE
  }

  /** Each line of s with the prefix in front of it. */
  function Render(prefix: seq<byte>, mid: bool, s: seq<byte>): seq<byte>
    decreases |s|
  {
    if s == [] then [] else (if mid then [] else prefix) + [s[0]] + Render(prefix, s[0] != NEWLINE, s[1..])
  }

  lemma {:induction false} RenderConcat(prefix: seq<byte>, mid: bool, a: seq<byte>, b: seq<byte>)
    ensures Render(prefix, mid, a + b) == Render(prefix, mid, a) + Render(prefix, Mid(mid, a), b)
    decreases |a|
  {
    if a == [] {
      assert a + b == b;
    } else {
      var first := (if mid then [] else prefix) + [a[0]];
      var left, right := Render(prefix, a[0] != NEWLINE, a[1..]), Render(prefix, Mid(mid, a), b);
      assert (a + b)[1..] == a[1..] + b;
      RenderConcat(prefix, a[0] != NEWLINE, a[1..], b);
      assert Mid(a[0] != NEWLINE, a[1..]) == Mid(mid, a);
      Associates(first, left, right);
    }
  }

  lemma Associates(a: seq<byte>, b: seq<byte>, c: seq<byte>)
    ensures a + (b + c) == (a + b) + c
  {
  }

  // A piece of one line: no newline except perhaps at its end.
  predicate OneLine(s: seq<byte>) {
    forall i | 0 <= i < |s| - 1 :: s[i] != NEWLINE
  }

  lemma {:induction false} RenderOneLine(prefix: seq<byte>, mid: bool, s: seq<byte>)
    requires OneLine(s) && s != []
    ensures Render(prefix, mid, s) == (if mid then [] else prefix) + s
    decreases |s|
  {
    assert s == [s[0]] + s[1..];
    if |s| == 1 {
      assert Render(prefix, s[0] != NEWLINE, s[1..]) == [];
    } else {
      RenderOneLine(prefix, true, s[1..]);
    }
  }

  function Take(s: seq<byte>, n: int): seq<byte> {
    if n <= 0 then [] else if n < |s| then s[..n] else s
  }

  /** Below the limit, one more piece adds the prefix if a line starts, and as much of the piece as fits. */
  lemma RenderMore(prefix: seq<byte>, was: seq<byte>, chunk: seq<byte>, cap: int)
    requires OneLine(chunk) && chunk != [] && |was| < cap
    ensures var sent := if |chunk| > cap - |was| then chunk[..cap - |was|] else chunk;
            Render(prefix, false, Take(was + chunk, cap)) ==
            (Render(prefix, false, Take(was, cap)) + if Mid(false, was) then [] else prefix) + sent
  {
    var sent := if |chunk| > cap - |was| then chunk[..cap - |was|] else chunk;
    assert Take(was + chunk, cap) == was + sent;
    RenderConcat(prefix, false, was, sent);
    RenderOneLine(prefix, Mid(false, was), sent);
  }

  /** Where a write begins a new piece: at its start and after each newline. */
  predicate PieceAt(p: seq<byte>, j: nat) {
    j < |p| && (j == 0 || p[j - 1] == NEWLINE)
  }

  /** Every piece that begins in the first n bytes begins before the limit. */
  predicate NoneLate(p: seq<byte>, n: nat, limit: int) {
    forall j | 0 <= j < n && PieceAt(p, j) :: j < limit
  }

  // A piece runs from where it begins to just after its newline, or to the end of the write.
  lemma NextPiece(was: seq<byte>, p: seq<byte>, at: nat, end: nat, cap: int)
    requires PieceAt(p, at) && 0 < end <= |p| - at
    requires forall k | 0 <= k < end - 1 :: p[at..][k] != NEWLINE
    requires p[at..][end - 1] == NEWLINE || at + end == |p|
    ensures (was + p[..at]) + p[at..][..end] == was + p[..at + end] && p[at..][end..] == p[at + end..]
    ensures NoneLate(p, at, cap - |was|) && |was| + at < cap ==> NoneLate(p, at + end, cap - |was|)
    ensures at + end < |p| ==> PieceAt(p, at + end)
  {
    assert p[..at + end] == p[..at] + p[at..][..end];
    forall j | at < j < at + end ensures !PieceAt(p, j) {
      assert p[at..][j - 1 - at] == p[j - 1];
    }
  }

  lemma RestOf(was: seq<byte>, p: seq<byte>, at: nat)
    requires at <= |p|
    ensures (was + p[..at]) + p[at..] == was + p
  {
    assert p[..at] + p[at..] == p;
  }

  lemma WholePiece(was: seq<byte>, p: seq<byte>)
    ensures was + p[..0] == was && p[0..] == p && p[..|p|] == p
  {
  }

  // ---------- the writer ----------

  class CappedWriter {
    const cap: int
    const prefix: seq<byte>
    const notice: seq<byte>
    var sink: seq<byte>
    var midLine: bool
    var remaining: int
    var truncated: bool
    ghost var input: seq<byte>   // everything written so far

    constructor (cap: int, prefix: seq<byte>, notice: seq<byte>)
      ensures Valid() && this.cap == cap && this.prefix == prefix && this.notice == notice
      ensures input == [] && sink == [] && !truncated
    {
      this.cap, this.prefix, this.notice := cap, prefix, notice;
      sink, midLine, remaining, truncated, input := [], false, cap, false, [];
    }

    /**
     * What has been sent depends only on all the input so far: the first cap bytes, rendered, and
     * then the notice if it was given.
     */
    ghost predicate Valid()
      reads this
    {
      && sink == Sent()
      && (remaining > 0 ==> remaining == cap - |input| && !truncated && midLine == Mid(false, input))
      && (remaining <= 0 ==> |input| >= cap)
    }

    ghost function Sent(): seq<byte>
      reads this
    {
      var body := Render(prefix, false, Take(input, cap));
      if truncated then body + notice else body
    }

    /** Relay one piece of a line, as far as the limit goes. */
    method Relay(chunk: seq<byte>, ends: bool)
      requires Valid() && remaining > 0 && chunk != [] && OneLine(chunk) && ends == (chunk[|chunk| - 1] == NEWLINE)
      modifies this
      ensures Valid() && input == old(input) + chunk && truncated == old(truncated)
    {
      RenderMore(prefix, input, chunk, cap);
      if !midLine { sink := sink + prefix; }
      midLine := !ends;
      var sent := if |chunk| > remaining then chunk[..remaining] else chunk;
      remaining := remaining - |sent|;
      sink := sink + sent;
      input := input + chunk;
    }

    /**
     * A write is always reported whole. The notice is given when some piece begins at or past the
     * limit, and at most once.
     */
    method Write(p: seq<byte>) returns (n: nat)
      requires Valid()
      modifies this
      ensures Valid() && n == |p| && input == old(input) + p
      ensures truncated <==> old(truncated) || !NoneLate(p, |p|, cap - old(|input|))
    {
      n := |p|;
      var rest := p;
      ghost var at := 0;
      WholePiece(old(input), p);
      while rest != []
        invariant 0 <= at <= |p| && rest == p[at..]
        invariant Valid() && input == old(input) + p[..at] && truncated == old(truncated)
        invariant at < |p| ==> PieceAt(p, at)
        invariant NoneLate(p, at, cap - old(|input|))
        decreases |rest|
      {
        var end := Step(rest);
        if end == 0 {
          RestOf(old(input), p, at);
          return;
        }
        NextPiece(old(input), p, at, end, cap);
        rest, at := rest[end..], at + end;
      }
      WholePiece(old(input), p);
    }

    /** Refuse everything at the limit, with 0; before it, relay up to and including the first newline. */
    method Step(rest: seq<byte>) returns (end: nat)
      requires Valid() && rest != []
      modifies this
      ensures Valid() && end <= |rest| && (end == 0 <==> old(|input|) >= cap)
      ensures end == 0 ==> truncated && input == old(input) + rest
      ensures end > 0 ==> truncated == old(truncated) && input == old(input) + rest[..end]
      ensures end > 0 ==> rest[end - 1] == NEWLINE || end == |rest|
      ensures forall k | 0 <= k < end - 1 :: rest[k] != NEWLINE
    {
      if remaining <= 0 {
        Refuse(rest);
        return 0;
      }
      var i := IndexOf(rest, NEWLINE);
      end := if i < 0 then |rest| else i + 1;
      Relay(rest[..end], i >= 0);
    }

    method Refuse(rest: seq<byte>)
      requires Valid() && remaining <= 0
      modifies this
      ensures Valid() && truncated && input == old(input) + rest && old(|input|) >= cap
    {
      if !truncated {
        truncated := true;
        sink := sink + notice;
      }
      ghost var was := input;
      input := input + rest;
      assert Take(input, cap) == Take(was, cap);
    }

    method IndexOf(s: seq<byte>, b: byte) returns (i: int)
      ensures -1 <= i < |s| && (i >= 0 ==> s[i] == b)
      ensures forall k | 0 <= k < (if i < 0 then |s| else i) :: s[k] != b
    {
      i := 0;
      while i < |s|
        invariant 0 <= i <= |s| && forall k | 0 <= k < i :: s[k] != b
      {
        if s[i] == b { return; }
        i := i + 1;
      }
      i := -1;
    }
  }

  // ---------- a whole stream, however it is cut into writes ----------

  function Flat(chunks: seq<seq<byte>>): seq<byte> {
    if chunks == [] then [] else chunks[0] + Flat(chunks[1..])
  }

  /** Whether some write of the stream begins a piece at or past the limit. */
  predicate Noticed(chunks: seq<seq<byte>>, before: nat, cap: int)
    decreases |chunks|
  {
    chunks != [] &&
    (!NoneLate(chunks[0], |chunks[0]|, cap - before) || Noticed(chunks[1..], before + |chunks[0]|, cap))
  }

  lemma NextChunk(was: seq<byte>, chunks: seq<seq<byte>>, i: nat, cap: int)
    requires i < |chunks|
    ensures was + Flat(chunks[i..]) == (was + chunks[i]) + Flat(chunks[i + 1..])
    ensures Noticed(chunks[i..], |was|, cap) <==>
            !NoneLate(chunks[i], |chunks[i]|, cap - |was|) || Noticed(chunks[i + 1..], |was| + |chunks[i]|, cap)
  {
    assert chunks[i..][0] == chunks[i] && chunks[i..][1..] == chunks[i + 1..];
    Associates(was, chunks[i], Flat(chunks[i + 1..]));
  }

  method WriteAll(cap: int, prefix: seq<byte>, notice: seq<byte>, chunks: seq<seq<byte>>) returns (sink: seq<byte>)
    ensures sink == Render(prefix, false, Take(Flat(chunks), cap)) + if Noticed(chunks, 0, cap) then notice else []
  {
    var w := new CappedWriter(cap, prefix, notice);
    for i := 0 to |chunks|
      invariant w.Valid() && w.cap == cap && w.prefix == prefix && w.notice == notice
      invariant w.input + Flat(chunks[i..]) == Flat(chunks)
      invariant w.truncated || Noticed(chunks[i..], |w.input|, cap) <==> Noticed(chunks, 0, cap)
    {
      NextChunk(w.input, chunks, i, cap);
      var n := w.Write(chunks[i]);
    }
    assert w.input + [] == w.input;
    sink := w.sink;
  }

  /** The notice is given only when something was dropped. */
  lemma {:induction false} NoticeMeansCut(chunks: seq<seq<byte>>, before: nat, cap: int)
    requires Noticed(chunks, before, cap)
    ensures before + |Flat(chunks)| > cap
    decreases |chunks|
  {
    if NoneLate(chunks[0], |chunks[0]|, cap - before) {
      NoticeMeansCut(chunks[1..], before + |chunks[0]|, cap);
    }
  }

  /** Something can be dropped without notice: one write that is a single piece longer than the limit. */
  lemma CutWithoutNotice(p: seq<byte>, cap: int)
    requires OneLine(p) && 0 < cap < |p|
    ensures |Take(Flat([p]), cap)| < |Flat([p])| && !Noticed([p], 0, cap)
  {
    assert [p][1..] == [] && p + [] == p;
    assert !Noticed([], |p|, cap);
  }

  /** The notice is given exactly when some write begins a piece at or past the limit. */
  lemma {:induction false} NoticedIff(chunks: seq<seq<byte>>, before: nat, cap: int)
    ensures Noticed(chunks, before, cap) <==>
            exists i, j :: 0 <= i < |chunks| && PieceAt(chunks[i], j) && before + |Flat(chunks[..i])| + j >= cap
    decreases |chunks|
  {
    if chunks != [] {
      var rest, b := chunks[1..], before + |chunks[0]|;
      NoticedIff(rest, b, cap);
      forall i | 0 <= i < |rest| ensures b + |Flat(rest[..i])| == before + |Flat(chunks[..i + 1])| {
        assert chunks[..i + 1][1..] == rest[..i] && chunks[..i + 1][0] == chunks[0];
      }
      assert Flat(chunks[..0]) == [];
      if Noticed(rest, b, cap) {
        var i, j :| 0 <= i < |rest| && PieceAt(rest[i], j) && b + |Flat(rest[..i])| + j >= cap;
        assert PieceAt(chunks[i + 1], j) && before + |Flat(chunks[..i + 1])| + j >= cap;
      }
      if !NoneLate(chunks[0], |chunks[0]|, cap - before) {
        var j :| 0 <= j < |chunks[0]| && PieceAt(chunks[0], j) && j >= cap - before;
        assert PieceAt(chunks[0], j) && before + |Flat(chunks[..0])| + j >= cap;
      }
      if i, j :| 0 <= i < |chunks| && PieceAt(chunks[i], j) && before + |Flat(chunks[..i])| + j >= cap {
        if i > 0 { assert PieceAt(rest[i - 1], j) && b + |Flat(rest[..i - 1])| + j >= cap; }
      }
    }
  }
}
