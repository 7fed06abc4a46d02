/**
 Joining an argument list into one shell command line, against an independent model of
 how a POSIX shell splits a line into words: escape character, single quotes, token
 recognition on blanks, and quote removal (sections 2.2.1, 2.2.2, 2.3 and 2.6.7 of the
 POSIX.1-2017 Shell Command Language).
 */
module ShellQuote {
  import opened Prelude

  // ---------------------------------------------------------------------------
  // The shell.

  datatype Mode = Plain | Quoted | Escaped

  /** Finished words, the word under construction if one has begun, and the mode. */
  datatype Lexer = Lexer(words: seq<string>, word: Option<string>, mode: Mode)

  /** Characters with a meaning of their own outside quotes: operators, expansions,
      other quoting, patterns, comments, tildes and newlines. */
  predicate Special(c: char) {
    c in "|&;<>()$`\"\\' \t\n*?[#~"
  }

  function Grown(x: Lexer, s: string): Lexer {
    x.(word := Some((if x.word.Some? then x.word.value else "") + s))
  }

  function Delimited(x: Lexer): Lexer {
    if x.word.Some? then x.(words := x.words + [x.word.value], word := None) else x
  }

  /** One character. A character whose meaning lies outside these sections stops the
      split. */
  function Lex1(x: Lexer, c: char): Option<Lexer> {
    match x.mode
    case Escaped => if c == '\n' then Some(x.(mode := Plain)) else Some(Grown(x, [c]).(mode := Plain))
    case Quoted => if c == '\'' then Some(x.(mode := Plain)) else Some(Grown(x, [c]))
    case Plain =>
      if c == '\\' then Some(x.(mode := Escaped))
      else if c == '\'' then Some(Grown(x, "").(mode := Quoted))
      else if c == ' ' || c == '\t' then Some(Delimited(x))
      else if Special(c) then None
      else Some(Grown(x, [c]))
  }

  function LexAll(x: Lexer, s: string): Option<Lexer>
    decreases |s|
  {
    if s == "" then Some(x)
    else
      match Lex1(x, s[0])
      case None => None
      case Some(y) => LexAll(y, s[1..])
  }

  /** The words of a command line; None when it is not a plain list of words. */
  function PosixSplit(line: string): Option<seq<string>> {
    match LexAll(Lexer([], None, Plain), line)
    case None => None
    case Some(x) => if x.mode.Plain? then Some(Delimited(x).words) else None
  }

  lemma {:induction false} LexConcat(x: Lexer, a: string, b: string)
    ensures LexAll(x, a + b) ==
      match LexAll(x, a) case None => None case Some(y) => LexAll(y, b)
    decreases |a|
  {
    if a == "" {
      assert a + b == b;
    } else {
      assert (a + b)[1..] == a[1..] + b;
      if Lex1(x, a[0]).Some? {
        LexConcat(Lex1(x, a[0]).value, a[1..], b);
      }
    }
  }

  // ---------------------------------------------------------------------------
  // The printer.

  predicate SafeChar(c: char) {
    'a' <= c <= 'z' || 'A' <= c <= 'Z' || '0' <= c <= '9' || c in "@%+=:,./_-"
  }

  /** Words that need no quoting. */
  predicate ShellSafe(s: string) {
    s != "" && forall i :: 0 <= i < |s| ==> SafeChar(s[i])
  }

  /** Every quote replaced by: close, escaped quote, reopen. */
  function QuotesReplaced(s: string): string {
    if s == "" then ""
    else (if s[0] == '\'' then "'\\''" else [s[0]]) + QuotesReplaced(s[1..])
  }

  function Word(a: string): string {
    if ShellSafe(a) then a else "'" + QuotesReplaced(a) + "'"
  }

  function JoinedBy(parts: seq<string>, sep: string): string {
    if parts == [] then ""
    else if |parts| == 1 then parts[0]
    else JoinedBy(parts[..|parts| - 1], sep) + sep + parts[|parts| - 1]
  }

  // ---------------------------------------------------------------------------
  // The printer read back by the shell.

  lemma GrownTwice(x: Lexer, s: string, t: string)
    ensures Grown(Grown(x, s), t) == Grown(x, s + t)
  {
    var w := if x.word.Some? then x.word.value else "";
    assert w + s + t == w + (s + t);
  }

  lemma SafeIsPlain(c: char)
    requires SafeChar(c)
    ensures !Special(c) && c != '\\' && c != '\'' && c != ' ' && c != '\t'
  {
  }

  lemma {:induction false} SafeReadsBack(x: Lexer, a: string)
    requires x.mode.Plain? && forall i :: 0 <= i < |a| ==> SafeChar(a[i])
    ensures LexAll(x, a) == Some(if a == "" then x else Grown(x, a))
    decreases |a|
  {
    if a != "" {
      SafeIsPlain(a[0]);
      SafeReadsBack(Grown(x, [a[0]]), a[1..]);
      GrownTwice(x, [a[0]], a[1..]);
      assert a == [a[0]] + a[1..];
      assert a[1..] == "" ==> a == [a[0]];
    }
  }

  lemma QuoteReadsBack(x: Lexer)
    requires x.mode.Quoted?
    ensures LexAll(x, "'\\''") == Some(Grown(x, "'"))
  {
    var s := "'\\''";
    var y := x.(mode := Plain);
    assert s[1..] == "\\''" && s[1..][1..] == "''" && s[1..][1..][1..] == "'" && s[1..][1..][1..][1..] == "";
    assert LexAll(x, s) == LexAll(y, s[1..]);
    assert LexAll(y, s[1..]) == LexAll(y.(mode := Escaped), s[1..][1..]);
    var z := Grown(y, "'");
    assert LexAll(y.(mode := Escaped), s[1..][1..]) == LexAll(z, "'");
    assert z.word.value + "" == z.word.value;
    assert Lex1(z, '\'') == Some(z.(mode := Quoted));
    assert LexAll(z, "'") == LexAll(z.(mode := Quoted), "'"[1..]);
  }

  lemma {:induction false} QuotedReadsBack(x: Lexer, a: string)
    requires x.mode.Quoted? && x.word.Some?
    ensures LexAll(x, QuotesReplaced(a)) == Some(Grown(x, a))
    decreases |a|
  {
    if a == "" {
      assert x.word.value + "" == x.word.value;
    } else {
      var head := if a[0] == '\'' then "'\\''" else [a[0]];
      var y := Grown(x, [a[0]]);
      if a[0] == '\'' {
        QuoteReadsBack(x);
      } else {
        assert head[1..] == "";
      }
      assert LexAll(x, head) == Some(y);
      LexConcat(x, head, QuotesReplaced(a[1..]));
      QuotedReadsBack(y, a[1..]);
      GrownTwice(x, [a[0]], a[1..]);
      assert a == [a[0]] + a[1..];
    }
  }

  /** One printed word reads back as exactly that word, whatever it contains. */
  lemma WordReadsBack(x: Lexer, a: string)
    requires x.mode.Plain? && x.word.None?
    ensures LexAll(x, Word(a)) == Some(x.(word := Some(a)))
  {
    if ShellSafe(a) {
      SafeReadsBack(x, a);
      assert "" + a == a;
    } else {
      var y := x.(word := Some(""), mode := Quoted);
      assert LexAll(x, "'") == Some(y) by {
        assert "'"[1..] == "" && "" + "" == "";
      }
      LexConcat(x, "'", QuotesReplaced(a) + "'");
      assert "'" + QuotesReplaced(a) + "'" == "'" + (QuotesReplaced(a) + "'");
      QuotedReadsBack(y, a);
      assert "" + a == a;
      var z := Grown(y, a);
      LexConcat(y, QuotesReplaced(a), "'");
      assert LexAll(z, "'") == Some(z.(mode := Plain)) by {
        assert "'"[1..] == "";
      }
    }
  }

  function Words(argv: seq<string>): seq<string> {
    seq(|argv|, i requires 0 <= i < |argv| => Word(argv[i]))
  }

  lemma {:induction false} WordsReadBack(argv: seq<string>)
    requires argv != []
    ensures LexAll(Lexer([], None, Plain), JoinedBy(Words(argv), " "))
      == Some(Lexer(argv[..|argv| - 1], Some(argv[|argv| - 1]), Plain))
    decreases |argv|
  {
    var x := Lexer([], None, Plain);
    var n := |argv| - 1;
    var parts := Words(argv);
    if n == 0 {
      WordReadsBack(x, argv[0]);
    } else {
      var init := argv[..n];
      assert parts[..n] == Words(init);
      WordsReadBack(init);
      var y := Lexer(init[..n - 1], Some(init[n - 1]), Plain);
      LexConcat(x, JoinedBy(Words(init), " "), " ");
      assert LexAll(y, " ") == Some(Lexer(init, None, Plain)) by {
        assert " "[1..] == "" && init[..n - 1] + [init[n - 1]] == init;
      }
      LexConcat(x, JoinedBy(Words(init), " ") + " ", parts[n]);
      WordReadsBack(Lexer(init, None, Plain), argv[n]);
    }
  }

  lemma JoinSplits(argv: seq<string>)
    ensures PosixSplit(JoinedBy(Words(argv), " ")) == Some(argv)
  {
    if argv != [] {
      WordsReadBack(argv);
      var n := |argv| - 1;
      assert argv[..n] + [argv[n]] == argv;
    }
  }

  /** Joins argv into one command line. A POSIX shell splits the result back into
      exactly argv, for every argument list. */
  method ShellJoin(argv: seq<string>) returns (line: string)
    ensures line == JoinedBy(Words(argv), " ")
    ensures PosixSplit(line) == Some(argv)
  {
    line := "";
    for i := 0 to |argv|
      invariant line == JoinedBy(Words(argv[..i]), " ")
    {
      var a := argv[i];
      var part := a;
      if !ShellSafe(a) {
        part := "'" + QuotesReplaced(a) + "'";
      }
      ghost var parts := Words(argv[..i + 1]);
      assert parts[..i] == Words(argv[..i]);
      line := if i == 0 then part else line + " " + part;
    }
    assert argv[..|argv|] == argv;
    JoinSplits(argv);
  }

  /** Different argument lists print differently. */
  lemma JoinIsInjective(a: seq<string>, b: seq<string>)
    requires JoinedBy(Words(a), " ") == JoinedBy(Words(b), " ")
    ensures a == b
  {
    JoinSplits(a);
    JoinSplits(b);
  }
}
