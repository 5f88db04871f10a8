/** The line loop of `IRC::readIO`: what one read brings is cut into lines, and each
    is parsed; a line that comes in two reads is not put together. */
module ReadLoop {
  import opened Codec
  import opened Text
  import opened Tokenizer

  function ParseAll(lines: seq<string>): seq<Line> {
    if lines == [] then [] else [ParseLine(lines[0])] + ParseAll(lines[1..])
  }

  /** The messages of one read, in the order in which they are dispatched. */
  function Messages(sbuf: string): seq<Line> {
    ParseAll(Tokens(sbuf, LINE_ENDS))
  }

  method ReadIO(sbuf: string) returns (ms: seq<Line>)
    ensures ms == Messages(sbuf)
  {
    ms := [];
    var line, rest := StringTok(sbuf, LINE_ENDS);
    while line != ""
      invariant ms + ParseAll(LinesFrom((line, rest))) == Messages(sbuf)
      decreases |line| + |rest|
    {
      var m := Message.Parse(line);
      ParseNext(ms, line, rest);
      ms := ms + [Line(m.cmd, m.args)];
      line, rest := StringTok(rest, LINE_ENDS);
    }
    assert ms + [] == ms;
  }

  function LinesFrom(t: (string, string)): seq<string> {
    if t.0 == "" then [] else [t.0] + Tokens(t.1, LINE_ENDS)
  }

  lemma ParseNext(ms: seq<Line>, line: string, rest: string)
    requires line != ""
    ensures ms + ParseAll(LinesFrom((line, rest))) == ms + [ParseLine(line)] + ParseAll(LinesFrom(Tok(rest, LINE_ENDS)))
  {
    assert ([line] + Tokens(rest, LINE_ENDS))[1..] == Tokens(rest, LINE_ENDS);
  }

  // ---------------------------------------------------------------- two reads

  lemma {:induction false} ParseAppend(a: seq<string>, b: seq<string>)
    ensures ParseAll(a + b) == ParseAll(a) + ParseAll(b)
  {
    if a == [] {
      assert a + b == b;
    } else {
      assert (a + b)[1..] == a[1..] + b;
      ParseAppend(a[1..], b);
    }
  }

  lemma {:induction false} ParseLength(a: seq<string>)
    ensures |ParseAll(a)| == |a|
  {
    if a != [] {
      ParseLength(a[1..]);
    }
  }

  /** Two reads bring the messages of the whole if and only if the cut is at a line
      break; otherwise a line becomes two messages. */
  lemma TwoReads(a: string, b: string)
    ensures Messages(a + b) == Messages(a) + Messages(b) <==> CutsClean(a, b, LINE_ENDS)
    ensures !CutsClean(a, b, LINE_ENDS) ==> |Messages(a) + Messages(b)| == |Messages(a + b)| + 1
  {
    CleanCut(a, b, LINE_ENDS);
    ParseAppend(Tokens(a, LINE_ENDS), Tokens(b, LINE_ENDS));
    ParseLength(Tokens(a, LINE_ENDS));
    ParseLength(Tokens(b, LINE_ENDS));
    ParseLength(Tokens(a + b, LINE_ENDS));
  }

  // ---------------------------------------------------------------- printed lines

  predicate Unbroken(s: string) {
    forall c :: c in s ==> c != '\r' && c != '\n'
  }

  lemma EndsAre(c: char)
    ensures c in LINE_ENDS <==> c == '\r' || c == '\n'
  {}

  /** A line and its end are one token. */
  lemma OneToken(line: string)
    requires Unbroken(line)
    ensures Tokens(line + "\r\n", LINE_ENDS) == if line == "" then [] else [line]
  {
    assert Tokens("\n", LINE_ENDS) == [] && Tokens("\r\n", LINE_ENDS) == [];
    if line == "" {
      assert line + "\r\n" == "\r\n";
    } else {
      TokensOfRun(line, "\r\n", LINE_ENDS);
    }
  }

  lemma {:induction false} ArgsFromText(s: string)
    ensures forall a, c :: a in ParseArgs(s) && c in a ==> c in s || c == ' '
    decreases |s|
  {
    var t := Tok(s, SPACE);
    TokFromText(s);
    if t.0 != "" && t.0[0] != ':' {
      ArgsFromText(t.1);
    }
  }

  lemma TokFromText(s: string)
    ensures forall c :: c in Tok(s, SPACE).0 || c in Tok(s, SPACE).1 ==> c in s
  {
    SkipFromText(s);
  }

  lemma {:induction false} SkipFromText(s: string)
    ensures forall c :: c in Skip(s, SPACE) ==> c in s
  {
    if s != "" && s[0] in SPACE {
      SkipFromText(s[1..]);
    }
  }

  /** What is parsed of a text without line ends is printed without any. */
  lemma ParsedIsUnbroken(s: string)
    requires Unbroken(s)
    ensures Unbroken(FormatLine(ParseLine(s)))
  {
    var t := Tok(s, SPACE);
    TokFromText(s);
    ArgsFromText(t.1);
    UpperIsUnbroken(t.0);
    PrintsUnbroken(ParseArgs(t.1));
  }

  lemma UpperIsUnbroken(s: string)
    requires Unbroken(s)
    ensures Unbroken(Upper(s))
  {
    UpperIs(s);
    forall i | 0 <= i < |s|
      ensures Upper(s)[i] != '\r' && Upper(s)[i] != '\n'
    {
      assert SameLetter(Upper(s)[i], s[i]) && s[i] in s;
    }
  }

  lemma {:induction false} PrintsUnbroken(args: seq<string>)
    requires forall a, c :: a in args && c in a ==> c != '\r' && c != '\n'
    ensures Unbroken(FormatArgs(args))
  {
    if args != [] {
      PrintsUnbroken(args[1..]);
      assert args[0] in args;
    }
  }

  /** A message that is printed with its end is read as exactly that message if and only
      if it survives, has a command and holds no line end. */
  lemma LineIsRead(l: Line)
    ensures Messages(FormatLine(l) + "\r\n") == [l] <==> LineSurvives(l) && l.cmd != "" && Unbroken(FormatLine(l))
  {
    var line := FormatLine(l);
    if Messages(line + "\r\n") == [l] {
      OneLineParsed(line + "\r\n", l);
    }
    if Unbroken(line) {
      OneToken(line);
      LineRoundTrip(l);
      if line != "" {
        assert [ParseLine(line)] + ParseAll([]) == [ParseLine(line)];
      }
    }
    if l.cmd == "" && LineSurvives(l) {
      assert line == "";
    }
  }

  lemma OneLineParsed(sbuf: string, l: Line)
    requires Messages(sbuf) == [l]
    ensures Tokens(sbuf, LINE_ENDS) != [] && ParseLine(Tokens(sbuf, LINE_ENDS)[0]) == l && Unbroken(FormatLine(l))
  {
    var t, lines := Tok(sbuf, LINE_ENDS), Tokens(sbuf, LINE_ENDS);
    assert lines != [] && lines[0] == t.0;
    assert ParseAll(lines)[0] == ParseLine(lines[0]);
    forall c | c in t.0
      ensures c != '\r' && c != '\n'
    {
      EndsAre(c);
    }
    ParsedIsUnbroken(t.0);
  }

  /** The messages, one after another, each with its end. */
  function Sent(ls: seq<Line>): string {
    if ls == [] then "" else FormatLine(ls[0]) + "\r\n" + Sent(ls[1..])
  }

  /** However many there are, they are read as they were sent. */
  lemma {:induction false} LinesAreRead(ls: seq<Line>)
    requires forall l :: l in ls ==> LineSurvives(l) && l.cmd != "" && Unbroken(FormatLine(l))
    ensures Messages(Sent(ls)) == ls
  {
    if ls != [] {
      var first := FormatLine(ls[0]) + "\r\n";
      LineIsRead(ls[0]);
      LinesAreRead(ls[1..]);
      assert first[|first| - 1] == '\n';
      EndsAre('\n');
      TwoReads(first, Sent(ls[1..]));
      assert ls == [ls[0]] + ls[1..];
    }
  }
}
