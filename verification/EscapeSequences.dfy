/** The client's escape detector on the raw input stream. */
module EscapeSequences {
  import opened Prelude

  const TILDE: Byte := 126
  const LF: Byte := 10
  const CR: Byte := 13
  const LETTER_D: Byte := 100
  const DOT: Byte := 46

  datatype Action = Nothing | Detach | Close

  datatype State = LineStart | MidLine | Tilde

  predicate IsNewline(b: Byte) {
    b == CR || b == LF
  }

  function AfterByte(b: Byte): State {
    if IsNewline(b) then LineStart else MidLine
  }

  /** What feeding bytes yields: the next state, the bytes to forward, the action. */
  datatype Fed = Fed(state: State, out: Bytes, action: Action)

  function Feed1(s: State, b: Byte): Fed {
    match s
    case Tilde =>
      if b == LETTER_D then Fed(LineStart, [], Detach)
      else if b == DOT then Fed(LineStart, [], Close)
      else if b == TILDE then Fed(MidLine, [TILDE], Nothing)
      else Fed(AfterByte(b), [TILDE, b], Nothing)
    case LineStart => if b == TILDE then Fed(Tilde, [], Nothing) else Fed(AfterByte(b), [b], Nothing)
    case MidLine => Fed(AfterByte(b), [b], Nothing)
  }

  /** Feeding stops at the first action; the bytes after it are dropped. */
  function FeedAll(s: State, p: Bytes): Fed
    decreases |p|
  {
    if p == [] then Fed(s, [], Nothing)
    else
      var first := Feed1(s, p[0]);
      if first.action != Nothing then first
      else
        After(first.out, FeedAll(first.state, p[1..]))
  }

  class EscapeDetector {
    var state: State

    constructor ()
      ensures state == LineStart
    {
      state := LineStart;
    }

    method FeedByte(b: Byte) returns (out: Bytes, action: Action)
      modifies this
      ensures Fed(state, out, action) == Feed1(old(state), b)
    {
      out, action := [], Nothing;
      match state {
        case Tilde =>
          if b == LETTER_D {
            state := LineStart;
            action := Detach;
          } else if b == DOT {
            state := LineStart;
            action := Close;
          } else if b == TILDE {
            out := [TILDE];
            state := MidLine;
          } else {
            out := [TILDE, b];
            state := if IsNewline(b) then LineStart else MidLine;
          }
        case LineStart =>
          if b == TILDE {
            state := Tilde;
          } else {
            out := [b];
            if !IsNewline(b) {
              state := MidLine;
            }
          }
        case MidLine =>
          out := [b];
          if IsNewline(b) {
            state := LineStart;
          }
      }
    }

    /** Consumes raw bytes; when an action fires the bytes after it are discarded. */
    method Feed(p: Bytes) returns (out: Bytes, action: Action)
      modifies this
      ensures Fed(state, out, action) == FeedAll(old(state), p)
    {
      out, action := [], Nothing;
      assert p[0..] == p;
      for i := 0 to |p|
        invariant FeedAll(old(state), p) == After(out, FeedAll(state, p[i..]))
      {
        assert p[i..][0] == p[i] && p[i..][1..] == p[i + 1..];
        ghost var before := state;
        var more, fired := FeedByte(p[i]);
        AfterTwice(out, more, FeedAll(state, p[i + 1..]));
        out := out + more;
        if fired != Nothing {
          return out, fired;
        }
      }
      assert p[|p|..] == [] && out + [] == out;
    }
  }

  function After(out: Bytes, rest: Fed): Fed {
    rest.(out := out + rest.out)
  }

  lemma AfterTwice(a: Bytes, b: Bytes, rest: Fed)
    ensures After(a, After(b, rest)) == After(a + b, rest)
  {
    assert a + (b + rest.out) == a + b + rest.out;
  }

  lemma {:induction false} FeedConcat(s: State, a: Bytes, b: Bytes)
    ensures FeedAll(s, a + b) ==
      var first := FeedAll(s, a);
      if first.action != Nothing then first
      else After(first.out, FeedAll(first.state, b))
    decreases |a|
  {
    if a == [] {
      assert a + b == b;
      assert [] + FeedAll(s, b).out == FeedAll(s, b).out;
    } else {
      assert (a + b)[1..] == a[1..] + b;
      var first := Feed1(s, a[0]);
      if first.action == Nothing {
        FeedConcat(first.state, a[1..], b);
        var mid := FeedAll(first.state, a[1..]);
        AfterTwice(first.out, mid.out, FeedAll(mid.state, b));
      }
    }
  }

  function Flattened(chunks: seq<Bytes>): Bytes {
    if chunks == [] then [] else chunks[0] + Flattened(chunks[1..])
  }

  /** Feeding chunk by chunk until an action fires. */
  function FeedChunks(s: State, chunks: seq<Bytes>): Fed
    decreases |chunks|
  {
    if chunks == [] then Fed(s, [], Nothing)
    else
      var first := FeedAll(s, chunks[0]);
      if first.action != Nothing then first
      else After(first.out, FeedChunks(first.state, chunks[1..]))
  }

  /** How the terminal happens to split the input makes no difference. */
  lemma {:induction false} ChunkingIsInvisible(s: State, chunks: seq<Bytes>)
    ensures FeedChunks(s, chunks) == FeedAll(s, Flattened(chunks))
    decreases |chunks|
  {
    if chunks != [] {
      FeedConcat(s, chunks[0], Flattened(chunks[1..]));
      ChunkingIsInvisible(FeedAll(s, chunks[0]).state, chunks[1..]);
    }
  }

  /** The stream with every tilde at the start of a line doubled. */
  function Doubled(p: Bytes, lineStart: bool): Bytes {
    if p == [] then []
    else (if lineStart && p[0] == TILDE then [TILDE, TILDE] else [p[0]]) + Doubled(p[1..], IsNewline(p[0]))
  }

  function Between(lineStart: bool): State {
    if lineStart then LineStart else MidLine
  }

  lemma HeadReadsBack(b: Byte, lineStart: bool)
    ensures
      var head := if lineStart && b == TILDE then [TILDE, TILDE] else [b];
      FeedAll(Between(lineStart), head) == Fed(Between(IsNewline(b)), [b], Nothing)
  {
    var s := Between(lineStart);
    if lineStart && b == TILDE {
      assert [TILDE, TILDE] == [TILDE] + [TILDE];
      FeedConcat(s, [TILDE], [TILDE]);
      OneByte(s, TILDE);
      OneByte(Tilde, TILDE);
      assert [] + [TILDE] == [TILDE];
    } else {
      OneByte(s, b);
    }
  }

  lemma OneByte(s: State, b: Byte)
    ensures FeedAll(s, [b]) == Feed1(s, b)
  {
    assert [b][1..] == [];
    assert Feed1(s, b).out + [] == Feed1(s, b).out;
  }

  /** Doubling is undone by feeding: the original bytes come out and no action fires. */
  lemma {:induction false} DoubledReadsBack(p: Bytes, lineStart: bool)
    ensures FeedAll(Between(lineStart), Doubled(p, lineStart)).out == p
    ensures FeedAll(Between(lineStart), Doubled(p, lineStart)).action == Nothing
    decreases |p|
  {
    if p != [] {
      var b := p[0];
      var head := if lineStart && b == TILDE then [TILDE, TILDE] else [b];
      var s := Between(lineStart);
      HeadReadsBack(b, lineStart);
      FeedConcat(s, head, Doubled(p[1..], IsNewline(b)));
      DoubledReadsBack(p[1..], IsNewline(b));
      assert p == [b] + p[1..];
    }
  }

  /** Position i starts an escape: a tilde that begins a line, then d or a dot. */
  predicate EscapeAt(p: Bytes, i: nat) {
    && i + 1 < |p| && p[i] == TILDE && (i == 0 || p[i - 1] in {CR, LF})
    && (p[i + 1] == LETTER_D || p[i + 1] == DOT)
  }

  /** The state after a prefix, read off its last two bytes. */
  function StateAt(p: Bytes, n: nat): State
    requires n <= |p|
  {
    if n == 0 || IsNewline(p[n - 1]) then LineStart
    else if p[n - 1] == TILDE && (n == 1 || IsNewline(p[n - 2])) then Tilde
    else MidLine
  }

  lemma {:induction false} QuietPrefix(p: Bytes, n: nat)
    requires n <= |p| && forall i :: 0 <= i && i + 1 < n ==> !EscapeAt(p, i)
    ensures FeedAll(LineStart, p[..n]).action == Nothing
    ensures FeedAll(LineStart, p[..n]).state == StateAt(p, n)
    decreases n
  {
    if n > 0 {
      QuietPrefix(p, n - 1);
      assert n > 1 ==> !EscapeAt(p, n - 2);
      NextState(p, n - 1);
      assert p[..n] == p[..n - 1] + [p[n - 1]];
      FeedConcat(LineStart, p[..n - 1], [p[n - 1]]);
      OneByte(StateAt(p, n - 1), p[n - 1]);
    }
  }

  lemma NextState(p: Bytes, n: nat)
    requires n < |p| && (n > 0 ==> !EscapeAt(p, n - 1))
    ensures Feed1(StateAt(p, n), p[n]).state == StateAt(p, n + 1) && Feed1(StateAt(p, n), p[n]).action == Nothing
  {
  }

  /** An action fires exactly when some line starts with an escape, and it is the action
      of the first such line; what went out before it is what the bytes ahead of that
      escape produce, and the detector is back at a line start. */
  lemma ActionAtFirstEscape(p: Bytes)
    ensures FeedAll(LineStart, p).action == Nothing <==> forall i :: 0 <= i < |p| ==> !EscapeAt(p, i)
    ensures forall i: nat :: EscapeAt(p, i) && (forall j :: 0 <= j < i ==> !EscapeAt(p, j)) ==>
      && FeedAll(LineStart, p).action == (if p[i + 1] == LETTER_D then Detach else Close)
      && FeedAll(LineStart, p).out == FeedAll(LineStart, p[..i]).out
      && FeedAll(LineStart, p).state == LineStart
  {
    forall i: nat | EscapeAt(p, i) && (forall j :: 0 <= j < i ==> !EscapeAt(p, j))
      ensures FeedAll(LineStart, p).action == (if p[i + 1] == LETTER_D then Detach else Close)
      ensures FeedAll(LineStart, p).out == FeedAll(LineStart, p[..i]).out
      ensures FeedAll(LineStart, p).state == LineStart
    {
      FirstEscape(p, i);
    }
    if n: nat :| n < |p| && EscapeAt(p, n) {
      var i := FirstIndex(p, n);
    } else {
      QuietPrefix(p, |p|);
      assert p[..|p|] == p;
    }
  }

  /** The stream with the second tilde of every pair that starts a line left out. */
  function Undoubled(p: Bytes, lineStart: bool): Bytes
    decreases |p|
  {
    if p == [] then []
    else if lineStart && |p| >= 2 && p[0] == TILDE && p[1] == TILDE then [TILDE] + Undoubled(p[2..], false)
    else [p[0]] + Undoubled(p[1..], p[0] in {CR, LF})
  }

  /** A tilde still held back. */
  function Held(s: State): Bytes {
    if s.Tilde? then [TILDE] else []
  }

  /** A tilde that starts a line and the byte after it, when they are no escape. */
  lemma HeldPair(b: Byte, tail: Bytes)
    requires b != LETTER_D && b != DOT
    ensures
      var rest := b in {CR, LF};
      && FeedAll(LineStart, [TILDE, b] + tail) == After(Feed1(Tilde, b).out, FeedAll(Between(rest), tail))
      && Undoubled([TILDE, b] + tail, true) == Feed1(Tilde, b).out + Undoubled(tail, rest)
  {
    var p := [TILDE, b] + tail;
    assert p[1..] == [b] + tail && p[2..] == tail && ([b] + tail)[1..] == tail;
    assert FeedAll(LineStart, p) == After([], FeedAll(Tilde, [b] + tail));
    assert [TILDE] + ([b] + Undoubled(tail, b in {CR, LF})) == [TILDE, b] + Undoubled(tail, b in {CR, LF});
  }

  /** Any other byte goes out as it is. */
  lemma PlainHead(b: Byte, tail: Bytes, lineStart: bool)
    requires !(lineStart && b == TILDE)
    ensures
      var rest := b in {CR, LF};
      && FeedAll(Between(lineStart), [b] + tail) == After([b], FeedAll(Between(rest), tail))
      && Undoubled([b] + tail, lineStart) == [b] + Undoubled(tail, rest)
  {
    assert ([b] + tail)[1..] == tail;
  }

  lemma {:induction false} QuietOut(p: Bytes, lineStart: bool)
    requires FeedAll(Between(lineStart), p).action == Nothing
    ensures
      var r := FeedAll(Between(lineStart), p);
      r.out + Held(r.state) == Undoubled(p, lineStart)
    decreases |p|
  {
    if p != [] {
      var b := p[0];
      if lineStart && b == TILDE {
        if |p| >= 2 {
          QuietPair(p);
          assert p == [TILDE, p[1]] + p[2..];
          HeldPair(p[1], p[2..]);
          QuietOut(p[2..], p[1] in {CR, LF});
        }
      } else {
        assert p == [b] + p[1..];
        PlainHead(b, p[1..], lineStart);
        QuietOut(p[1..], b in {CR, LF});
      }
    }
  }

  lemma QuietPair(p: Bytes)
    requires |p| >= 2 && p[0] == TILDE && FeedAll(LineStart, p).action == Nothing
    ensures p[1] != LETTER_D && p[1] != DOT
  {
    assert p[1..][0] == p[1];
  }

  /** Nothing typed is lost. Without an escape, what goes out, and a tilde if one is still
      held, is the stream less the second tilde of each pair that starts a line; with one,
      it is that of the bytes ahead of the first. */
  lemma OutputIsUndoubled(p: Bytes)
    ensures (forall i :: 0 <= i < |p| ==> !EscapeAt(p, i)) ==>
      var r := FeedAll(LineStart, p);
      r.out + Held(r.state) == Undoubled(p, true) && (r.state.Tilde? <==> StateAt(p, |p|).Tilde?)
    ensures forall i: nat :: EscapeAt(p, i) && (forall j :: 0 <= j < i ==> !EscapeAt(p, j)) ==>
      FeedAll(LineStart, p).out == Undoubled(p[..i], true)
  {
    if forall i :: 0 <= i < |p| ==> !EscapeAt(p, i) {
      QuietStream(p);
    }
    forall i: nat | EscapeAt(p, i) && (forall j :: 0 <= j < i ==> !EscapeAt(p, j))
      ensures FeedAll(LineStart, p).out == Undoubled(p[..i], true)
    {
      OutputToEscape(p, i);
    }
  }

  lemma QuietStream(p: Bytes)
    requires forall i :: 0 <= i < |p| ==> !EscapeAt(p, i)
    ensures
      var r := FeedAll(LineStart, p);
      r.out + Held(r.state) == Undoubled(p, true) && (r.state.Tilde? <==> StateAt(p, |p|).Tilde?)
  {
    QuietPrefix(p, |p|);
    assert p[..|p|] == p;
    QuietOut(p, true);
  }

  lemma OutputToEscape(p: Bytes, i: nat)
    requires EscapeAt(p, i) && forall j :: 0 <= j < i ==> !EscapeAt(p, j)
    ensures FeedAll(LineStart, p).out == Undoubled(p[..i], true)
  {
    FirstEscape(p, i);
    QuietPrefix(p, i);
    QuietOut(p[..i], true);
  }

  lemma FirstIndex(p: Bytes, n: nat) returns (i: nat)
    requires EscapeAt(p, n)
    ensures EscapeAt(p, i) && forall j :: 0 <= j < i ==> !EscapeAt(p, j)
  {
    i := 0;
    while !EscapeAt(p, i)
      invariant i <= n && forall j :: 0 <= j < i ==> !EscapeAt(p, j)
      decreases n - i
    {
      i := i + 1;
    }
  }

  lemma FirstEscape(p: Bytes, i: nat)
    requires EscapeAt(p, i) && forall j :: 0 <= j < i ==> !EscapeAt(p, j)
    ensures FeedAll(LineStart, p).action == (if p[i + 1] == LETTER_D then Detach else Close)
    ensures FeedAll(LineStart, p).out == FeedAll(LineStart, p[..i]).out
    ensures FeedAll(LineStart, p).state == LineStart
  {
    QuietPrefix(p, i);
    var rest := p[i..];
    assert p == p[..i] + rest;
    FeedConcat(LineStart, p[..i], rest);
    assert rest[0] == TILDE && rest[1..][0] == p[i + 1];
    var r := FeedAll(LineStart, rest);
    assert r == After([], FeedAll(Tilde, rest[1..]));
    assert r.out == [] && FeedAll(LineStart, p[..i]).out + [] == FeedAll(LineStart, p[..i]).out;
  }
}
