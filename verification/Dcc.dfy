/** The DCC SEND line: `DCCServer::listen_cb` prints it, `DCCGet::parseDCCSEND` reads
    it, and the file name between quotes is put together by `rebuildWithQuotes`. */
module Dcc {
  import opened Basics
  import opened Codec
  import opened Decimal
  import opened Tokenizer

  const SOH: char := 1 as char
  const MAX_ADDR: nat := 0xFFFF_FFFF
  const MAX_PORT: nat := 0xFFFF
  const MAX_SSIZE: nat := 0x7FFF_FFFF_FFFF_FFFF

  datatype Parsed =
    | Refused
    | OutOfBounds
    | Offer(filename: string, addr: nat, port: nat, size: int)

  // ---------------------------------------------------------------- the line

  function Numbers(addr: nat, port: nat, size: nat): string {
    Show(addr) + " " + (if size == 0 then Show(port) else Show(port) + " " + Show(size))
  }

  function SendLine(filename: string, addr: nat, port: nat, size: nat): string {
    [SOH] + "DCC SEND \"" + filename + "\" " + Numbers(addr, port, size) + [SOH]
  }

  function Sanitised(s: string): string {
    seq(|s|, i requires 0 <= i < |s| => if s[i] == '"' then '\'' else s[i])
  }

  /** `listen_cb`, past the sockets. The copy without quotes is made, but the line
      carries the name as it was. */
  method Listen(filename: string, addr: nat, port: nat, size: nat) returns (line: string, copy: string)
    ensures line == SendLine(filename, addr, port, size)
    ensures copy == Sanitised(filename)
  {
    copy := Sanitise(filename);
    var numbers := Show(addr) + " " + Show(port);
    NumbersAre(addr, port, size);
    if size != 0 {
      numbers := numbers + " " + Show(size);
    }
    line := [SOH] + "DCC SEND \"" + filename + "\" " + numbers + [SOH];
  }

  /** The loop that makes the copy. */
  method Sanitise(filename: string) returns (copy: string)
    ensures copy == Sanitised(filename)
  {
    copy := filename;
    for c := 0 to |copy|
      invariant |copy| == |filename|
      invariant forall i :: 0 <= i < c ==> copy[i] == Sanitised(filename)[i]
      invariant forall i :: c <= i < |copy| ==> copy[i] == filename[i]
    {
      if copy[c] == '"' {
        copy := copy[c := '\''];
      }
    }
  }

  // ---------------------------------------------------------------- reading it

  function Inner(line: string): string
    requires line != ""
  {
    if |line| == 1 then "" else line[1..|line| - 1]
  }

  function Read(line: string): Parsed {
    if line == "" || line[0] != SOH || Last(line) != SOH then Refused
    else
      var args := Rebuild(Tokens(Inner(line), SPACE));
      if args.None? then OutOfBounds else OfArgs(args.value)
  }

  function OfArgs(args: seq<string>): Parsed {
    if |args| == 6 && args[0] == "DCC" && args[1] == "SEND" then
      Offer(args[2], ReadUnsigned(args[3], MAX_ADDR), ReadUnsigned(args[4], MAX_PORT), ReadSigned(args[5], MAX_SSIZE))
    else Refused
  }

  /** `parseDCCSEND`. */
  method ParseDccSend(line: string) returns (r: Parsed)
    ensures r == Read(line)
  {
    if line == "" || line[0] != SOH || line[|line| - 1] != SOH {
      return Refused;
    }
    var rest := if |line| == 1 then "" else line[1..|line| - 1];
    var args := Words(rest);
    var ok := args.RebuildWithQuotes();
    if !ok {
      return OutOfBounds;
    }
    if |args.args| == 6 && args.args[0] == "DCC" && args.args[1] == "SEND" {
      return Offer(args.args[2], ReadUnsigned(args.args[3], MAX_ADDR), ReadUnsigned(args.args[4], MAX_PORT),
                   ReadSigned(args.args[5], MAX_SSIZE));
    }
    return Refused;
  }

  /** Its loop, in which `addArg` never raises MalformedMessage. */
  method Words(line: string) returns (m: Message)
    ensures fresh(m) && m.args == Tokens(line, SPACE)
  {
    m := new Message("");
    var word, rest := StringTok(line, SPACE);
    assert [] + Tokens(line, SPACE) == Tokens(line, SPACE);
    while word != ""
      invariant fresh(m) && !Spaced(word) && (m.args == [] || !Spaced(m.args[|m.args| - 1]))
      invariant Tokens(line, SPACE) == m.args + TokensFrom((word, rest))
      decreases |word| + |rest|
    {
      WordTaken(m.args, word, rest);
      var ok := m.AddArg(word);
      assert ok;
      word, rest := StringTok(rest, SPACE);
    }
    assert m.args + [] == m.args;
  }

  lemma WordTaken(args: seq<string>, word: string, rest: string)
    requires word != ""
    ensures args + TokensFrom((word, rest)) == args + [word] + TokensFrom(Tok(rest, SPACE))
  {
    Associative(args, [word], Tokens(rest, SPACE));
  }

  function TokensFrom(t: (string, string)): seq<string> {
    if t.0 == "" then [] else [t.0] + Tokens(t.1, SPACE)
  }

  // ---------------------------------------------------------------- which names come back

  /** No space at the start, after another space or after a quote. */
  predicate NameSurvives(f: string) {
    forall i :: 0 <= i < |f| && f[i] == ' ' ==> i > 0 && f[i - 1] != ' ' && f[i - 1] != '"'
  }

  /** What the quoted run becomes when the text after its opening quote is `x`. */
  function JoinText(x: string): Option<(string, seq<string>)> {
    var w := Run(x, SPACE);
    Join(w, Tokens(if |w| < |x| then x[|w| + 1..] else "", SPACE))
  }

  lemma {:induction false} JoinPrefix(p: string, w: string, rest: seq<string>)
    requires w != ""
    ensures var j := Join(w, rest);
            Join(p + w, rest) == if j.None? then None else Some((p + j.value.0, j.value.1))
    decreases |rest|
  {
    assert Last(p + w) == Last(w) && (p + w)[..|p + w| - 1] == p + w[..|w| - 1];
    if Last(w) != '"' && rest != [] {
      assert p + w + " " + rest[0] == p + (w + " " + rest[0]);
      JoinPrefix(p, w + " " + rest[0], rest[1..]);
    }
  }

  lemma JoinTextIs(w: string, tail: string)
    requires !Spaced(w) && (tail == "" || tail[0] == ' ')
    ensures JoinText(w + tail) == Join(w, Tokens(if tail == "" then "" else tail[1..], SPACE))
  {
    RunOf(w, tail, SPACE);
    assert tail != "" ==> (w + tail)[|w| + 1..] == tail[1..];
  }

  lemma JoinStep(w: string, a: string, rest: seq<string>)
    requires w != "" && Last(w) != '"' && a != ""
    ensures Join(w, [a] + rest) == Join(w + " " + a, rest)
  {
    assert ([a] + rest)[1..] == rest;
  }

  lemma JoinTextTok(x: string)
    ensures JoinText(Skip(x, SPACE)) == Join(Tok(x, SPACE).0, Tokens(Tok(x, SPACE).1, SPACE))
  {}

  lemma JoinNextWord(w: string, x: string)
    requires w != "" && !Spaced(w) && Last(w) != '"' && Tok(x, SPACE).0 != ""
    ensures var j := JoinText(Skip(x, SPACE));
            JoinText(w + " " + x) == if j.None? then None else Some((w + " " + j.value.0, j.value.1))
  {
    var t := Tok(x, SPACE);
    assert w + " " + x == w + (" " + x) && (" " + x)[1..] == x;
    JoinTextIs(w, " " + x);
    JoinStep(w, t.0, Tokens(t.1, SPACE));
    JoinPrefix(w + " ", t.0, Tokens(t.1, SPACE));
    JoinTextTok(x);
  }

  lemma {:induction false} SkipQuoted(y: string, q: string)
    requires q != "" && q[0] != ' '
    ensures Skip(y + q, SPACE) == Skip(y, SPACE) + q
  {
    if y != "" && y[0] == ' ' {
      assert (y + q)[1..] == y[1..] + q;
      SkipQuoted(y[1..], q);
    } else {
      assert y == "" ==> y + q == q;
    }
  }

  /** The joined name is the name itself exactly when it survives, and is never longer. */
  lemma {:induction false} JoinedName(f: string, tail: string)
    requires f == "" || f[0] != ' '
    ensures var j := JoinText(f + "\" " + tail);
            && j.Some? && |j.value.0| <= |f|
            && (j.value.0 == f <==> NameSurvives(f))
            && (NameSurvives(f) ==> j.value.1 == Tokens(tail, SPACE))
    decreases |f|
  {
    var w := Run(f, SPACE);
    if |w| == |f| {
      LastWord(f, tail);
    } else {
      var y := f[|w| + 1..];
      assert f == w + " " + y;
      if Last(w) == '"' {
        QuoteBeforeSpace(w, y, tail);
      } else {
        JoinedMore(w, y, tail);
        JoinedName(Skip(y, SPACE), tail);
        SurvivesAfter(w, y);
      }
    }
  }

  lemma LastWord(f: string, tail: string)
    requires !Spaced(f)
    ensures JoinText(f + "\" " + tail) == Some((f, Tokens(tail, SPACE)))
  {
    var w := f + "\"";
    assert f + "\" " + tail == w + (" " + tail);
    RunOf(w, " " + tail, SPACE);
    assert (w + (" " + tail))[|w| + 1..] == tail && w[..|w| - 1] == f;
  }

  lemma QuoteBeforeSpace(w: string, y: string, tail: string)
    requires w != "" && !Spaced(w) && Last(w) == '"'
    ensures var j := JoinText(w + " " + y + "\" " + tail); j.Some? && j.value.0 == w[..|w| - 1]
    ensures !NameSurvives(w + " " + y)
  {
    var x := " " + y + "\" " + tail;
    assert w + " " + y + "\" " + tail == w + x;
    RunOf(w, x, SPACE);
    assert (w + " " + y)[|w|] == ' ' && (w + " " + y)[|w| - 1] == '"';
  }

  lemma JoinedMore(w: string, y: string, tail: string)
    requires w != "" && !Spaced(w) && Last(w) != '"'
    ensures var j := JoinText(Skip(y, SPACE) + "\" " + tail);
            JoinText(w + " " + y + "\" " + tail) == if j.None? then None else Some((w + " " + j.value.0, j.value.1))
  {
    var q := "\" " + tail;
    QuoteLast(w, y, Skip(y, SPACE), tail);
    SkipQuoted(y, q);
    JoinNextWord(w, y + q);
  }

  lemma QuoteLast(w: string, y: string, z: string, tail: string)
    ensures w + " " + y + "\" " + tail == w + " " + (y + ("\" " + tail))
    ensures z + "\" " + tail == z + ("\" " + tail)
  {}

  lemma SurvivesAfter(w: string, y: string)
    requires w != "" && !Spaced(w) && Last(w) != '"'
    ensures NameSurvives(w + " " + y) <==> Skip(y, SPACE) == y && NameSurvives(y)
  {
    var f := w + " " + y;
    assert f[|w| - 1] == Last(w) && Last(w) in w;
    assert forall k :: 0 <= k < |w| ==> f[k] == w[k] && w[k] in w;
    if NameSurvives(f) {
      forall i | 0 <= i < |y| && y[i] == ' '
        ensures i > 0 && y[i - 1] != ' ' && y[i - 1] != '"'
      {
        assert f[|w| + 1 + i] == ' ' && f[|w| + i] == (" " + y)[i];
      }
    }
    if Skip(y, SPACE) == y && NameSurvives(y) {
      forall i | 0 <= i < |f| && f[i] == ' '
        ensures i > 0 && f[i - 1] != ' ' && f[i - 1] != '"'
      {
        if i > |w| {
          assert y[i - |w| - 1] == ' ' && f[i - 1] == (" " + y)[i - |w| - 1];
        }
      }
    }
  }

  // ---------------------------------------------------------------- the round trip

  lemma QuotedTokens(w: string, tail: string)
    requires !Spaced(w) && (tail == "" || tail[0] == ' ')
    ensures Tokens("\"" + (w + tail), SPACE) == ["\"" + w] + Tokens(if tail == "" then "" else tail[1..], SPACE)
  {
    assert "\"" + (w + tail) == ("\"" + w) + tail;
    TokensOfRun("\"" + w, tail, SPACE);
  }

  lemma RebuildQuoted(x: string)
    ensures Rebuild(Tokens("\"" + x, SPACE)) ==
              var j := JoinText(x); if j.None? then None else Cons(j.value.0, Rebuild(j.value.1))
  {
    var w := Run(x, SPACE);
    assert x == w + x[|w|..];
    RebuildQuotedAt(w, x[|w|..]);
  }

  lemma RebuildQuotedAt(w: string, tail: string)
    requires !Spaced(w) && (tail == "" || tail[0] == ' ')
    ensures Rebuild(Tokens("\"" + (w + tail), SPACE)) ==
              var j := JoinText(w + tail); if j.None? then None else Cons(j.value.0, Rebuild(j.value.1))
  {
    QuotedTokens(w, tail);
    RebuildOpening(w, Tokens(if tail == "" then "" else tail[1..], SPACE));
    JoinTextIs(w, tail);
  }

  lemma RebuildOpening(w: string, rest: seq<string>)
    requires !Spaced(w)
    ensures Rebuild(["\"" + w] + rest) ==
              var j := Join(w, rest); if j.None? then None else Cons(j.value.0, Rebuild(j.value.1))
  {
    assert ("\"" + w)[1..] == w && (["\"" + w] + rest)[1..] == rest;
  }

  lemma LineTokens(x: string)
    ensures Tokens("DCC SEND \"" + x, SPACE) == ["DCC"] + (["SEND"] + Tokens("\"" + x, SPACE))
  {
    assert "DCC SEND \"" + x == "DCC" + " " + ("SEND" + " " + ("\"" + x));
    FirstWord("DCC", "SEND" + " " + ("\"" + x));
    FirstWord("SEND", "\"" + x);
  }

  lemma RebuildFirst(a: string, ts: seq<string>)
    requires !Opens(a)
    ensures Rebuild([a] + ts) == Cons(a, Rebuild(ts))
  {
    assert ([a] + ts)[1..] == ts;
  }

  /** What the arguments of a line become, whatever follows the opening quote. */
  lemma RebuildLine(x: string)
    ensures Rebuild(Tokens("DCC SEND \"" + x, SPACE)) ==
              var j := JoinText(x);
              if j.None? then None else Cons("DCC", Cons("SEND", Cons(j.value.0, Rebuild(j.value.1))))
  {
    var ts := Tokens("\"" + x, SPACE);
    LineTokens(x);
    RebuildFirst("DCC", ["SEND"] + ts);
    RebuildFirst("SEND", ts);
    RebuildQuoted(x);
  }

  lemma NumberWords(a: string, p: string, z: string)
    requires Word(a) && Word(p) && Word(z)
    ensures Tokens(a + " " + p, SPACE) == [a, p]
    ensures Tokens(a + " " + (p + " " + z), SPACE) == [a, p, z]
  {
    TwoWords(a, p);
    TwoWords(p, z);
    FirstWord(a, p + " " + z);
  }

  lemma ShowIsWord(n: nat)
    ensures Word(Show(n)) && !Opens(Show(n))
  {
    assert Show(n)[0] in Show(n);
  }

  lemma {:induction false} RebuildPlain(args: seq<string>)
    requires forall a :: a in args ==> !Opens(a)
    ensures Rebuild(args) == Some(args)
  {
    if args != [] {
      RebuildPlain(args[1..]);
      assert args == [args[0]] + args[1..];
    }
  }

  lemma InnerOfLine(filename: string, addr: nat, port: nat, size: nat)
    ensures var line := SendLine(filename, addr, port, size);
            && line != "" && line[0] == SOH && Last(line) == SOH
            && Inner(line) == "DCC SEND \"" + (filename + "\" " + Numbers(addr, port, size))
  {
    var line := SendLine(filename, addr, port, size);
    assert line == [SOH] + ("DCC SEND \"" + (filename + "\" " + Numbers(addr, port, size))) + [SOH];
  }

  lemma NumbersRead(addr: nat, port: nat, size: nat)
    requires addr <= MAX_ADDR && port <= MAX_PORT
    ensures ReadUnsigned(Show(addr), MAX_ADDR) == addr && ReadUnsigned(Show(port), MAX_PORT) == port
    ensures ReadSigned(Show(size), MAX_SSIZE) == size <==> size <= MAX_SSIZE
  {
    ReadOfShow(addr, MAX_ADDR);
    ReadOfShow(port, MAX_PORT);
    ReadOfShow(size, MAX_SSIZE);
  }

  function NumberArgs(addr: nat, port: nat, size: nat): seq<string> {
    if size == 0 then [Show(addr), Show(port)] else [Show(addr), Show(port), Show(size)]
  }

  lemma NumbersStay(addr: nat, port: nat, size: nat)
    ensures Rebuild(Tokens(Numbers(addr, port, size), SPACE)) == Some(NumberArgs(addr, port, size))
  {
    ShowIsWord(addr);
    ShowIsWord(port);
    ShowIsWord(size);
    NumberTokens(Show(addr), Show(port), Show(size), size == 0, Numbers(addr, port, size), NumberArgs(addr, port, size));
    RebuildPlain(NumberArgs(addr, port, size));
  }

  lemma NumberTokens(a: string, p: string, z: string, short: bool, text: string, args: seq<string>)
    requires Word(a) && Word(p) && Word(z)
    requires text == a + " " + (if short then p else p + " " + z) && args == if short then [a, p] else [a, p, z]
    ensures Tokens(text, SPACE) == args
  {
    NumberWords(a, p, z);
  }

  lemma ArgsRead(name: string, addr: nat, port: nat, size: nat)
    requires addr <= MAX_ADDR && port <= MAX_PORT
    ensures var r := OfArgs(["DCC"] + (["SEND"] + ([name] + NumberArgs(addr, port, size))));
            r == Offer(name, addr, port, size) <==> 0 < size <= MAX_SSIZE
  {
    NumbersRead(addr, port, size);
  }

  lemma ArgsName(name: string, rest: seq<string>)
    ensures var r := OfArgs(["DCC"] + (["SEND"] + ([name] + rest))); r.Offer? ==> r.filename == name
  {}

  /** The receiver reads what was printed exactly when the name survives and the
      size is neither zero, which is not printed, nor beyond the receiver's type. */
  lemma DccRoundTrip(filename: string, addr: nat, port: nat, size: nat)
    requires addr <= MAX_ADDR && port <= MAX_PORT
    ensures Read(SendLine(filename, addr, port, size)) == Offer(filename, addr, port, size)
        <==> NameSurvives(filename) && 0 < size <= MAX_SSIZE
  {
    var numbers := Numbers(addr, port, size);
    var x := filename + "\" " + numbers;
    InnerOfLine(filename, addr, port, size);
    RebuildLine(x);
    if filename != "" && filename[0] == ' ' {
      assert JoinText(x).None?;
    } else {
      JoinedName(filename, numbers);
      NumbersStay(addr, port, size);
      var j := JoinText(x).value;
      if NameSurvives(filename) {
        ArgsRead(filename, addr, port, size);
      } else if Rebuild(j.1).Some? {
        ArgsName(j.0, Rebuild(j.1).value);
      }
    }
  }

  // ---------------------------------------------------------------- reading out of bounds

  /** Read from outside of quotes, the words come to one that is just an opening quote. */
  predicate LoneOpening(ws: seq<string>)
    decreases |ws|
  {
    ws != [] &&
    if !Opens(ws[0]) then LoneOpening(ws[1..])
    else ws[0] == "\"" || (if Last(ws[0]) == '"' then LoneOpening(ws[1..]) else LoneInside(ws[1..]))
  }

  /** The same, from inside of quotes, which the next word that ends in a quote closes. */
  predicate LoneInside(ws: seq<string>)
    decreases |ws|
  {
    ws != [] && if ws[0] != "" && Last(ws[0]) == '"' then LoneOpening(ws[1..]) else LoneInside(ws[1..])
  }

  /** Among the words of the name as it is quoted is an opening quote alone. */
  predicate LoneOpeningQuote(filename: string) {
    LoneOpening(Tokens("\"" + filename + "\"", SPACE))
  }

  predicate NoEmpty(ws: seq<string>) {
    forall i :: 0 <= i < |ws| ==> ws[i] != ""
  }

  lemma {:induction false} JoinCloses(w: string, rest: seq<string>)
    requires w != "" && NoEmpty(rest)
    ensures var j := Join(w, rest);
            && j.Some? && NoEmpty(j.value.1)
            && (LoneOpening(j.value.1) <==> if Last(w) == '"' then LoneOpening(rest) else LoneInside(rest))
    decreases |rest|
  {
    if Last(w) != '"' && rest != [] {
      assert Last(w + " " + rest[0]) == Last(rest[0]);
      JoinCloses(w + " " + rest[0], rest[1..]);
    }
  }

  /** Putting quoted words together fails exactly at such a quote. */
  lemma {:induction false} RebuildFails(ws: seq<string>)
    requires NoEmpty(ws)
    ensures Rebuild(ws).None? <==> LoneOpening(ws)
    decreases |ws|
  {
    if ws != [] {
      if Opens(ws[0]) {
        var w := ws[0][1..];
        assert ws[0] == ['"'] + w;
        if w != "" {
          assert Last(ws[0]) == Last(w);
          JoinCloses(w, ws[1..]);
          RebuildFails(Join(w, ws[1..]).value.1);
        }
      } else {
        RebuildFails(ws[1..]);
      }
    }
  }

  lemma {:induction false} TokensNotEmpty(s: string)
    ensures NoEmpty(Tokens(s, SPACE))
    decreases |s|
  {
    var t := Tok(s, SPACE);
    if t.0 != "" {
      TokensNotEmpty(t.1);
    }
  }

  predicate NoQuote(w: string) {
    w != "" && w[0] != '"' && Last(w) != '"'
  }

  predicate NoQuotes(ws: seq<string>) {
    forall i :: 0 <= i < |ws| ==> NoQuote(ws[i])
  }

  /** Words without quotes at the end change nothing. */
  lemma {:induction false} LoneBefore(ws: seq<string>, ns: seq<string>)
    requires NoQuotes(ns)
    ensures LoneOpening(ws + ns) <==> LoneOpening(ws)
    ensures LoneInside(ws + ns) <==> LoneInside(ws)
    decreases |ws|
  {
    if ws == [] {
      assert ws + ns == ns;
      NoneThere(ns);
    } else {
      assert (ws + ns)[0] == ws[0] && (ws + ns)[1..] == ws[1..] + ns;
      LoneBefore(ws[1..], ns);
    }
  }

  lemma {:induction false} NoneThere(ns: seq<string>)
    requires NoQuotes(ns)
    ensures !LoneOpening(ns) && !LoneInside(ns)
  {
    if ns != [] {
      NoneThere(ns[1..]);
    }
  }

  /** The words of the line: those of the quoted name, and the numbers. */
  lemma LineWords(filename: string, numbers: string)
    ensures Tokens("\"" + (filename + "\" " + numbers), SPACE)
         == Tokens("\"" + filename + "\"", SPACE) + Tokens(numbers, SPACE)
  {
    var quoted := "\"" + filename + "\"";
    QuotedText(filename, numbers);
    CleanCut(quoted, " " + numbers, SPACE);
    SkipOne(numbers, SPACE, ' ');
    SameTok(" " + numbers, numbers);
  }

  lemma QuotedText(filename: string, numbers: string)
    ensures "\"" + (filename + "\" " + numbers) == "\"" + filename + "\"" + (" " + numbers)
  {}

  lemma SameTok(a: string, b: string)
    requires Tok(a, SPACE) == Tok(b, SPACE)
    ensures Tokens(a, SPACE) == Tokens(b, SPACE)
  {}

  lemma LoneInLine(ws: seq<string>)
    ensures LoneOpening(["DCC"] + (["SEND"] + ws)) <==> LoneOpening(ws)
  {
    assert (["DCC"] + (["SEND"] + ws))[1..] == ["SEND"] + ws && (["SEND"] + ws)[1..] == ws;
  }

  lemma NumbersHaveNoQuotes(addr: nat, port: nat, size: nat)
    ensures NoQuotes(Tokens(Numbers(addr, port, size), SPACE))
  {
    DigitsAreNoQuotes(addr);
    DigitsAreNoQuotes(port);
    DigitsAreNoQuotes(size);
    ThreePlain(Show(addr), Show(port), Show(size));
  }

  lemma ThreePlain(a: string, p: string, z: string)
    requires Word(a) && Word(p) && Word(z) && NoQuote(a) && NoQuote(p) && NoQuote(z)
    ensures NoQuotes(Tokens(a + " " + p, SPACE)) && NoQuotes(Tokens(a + " " + (p + " " + z), SPACE))
  {
    NumberWords(a, p, z);
  }

  lemma DigitsAreNoQuotes(n: nat)
    ensures Word(Show(n)) && NoQuote(Show(n))
  {
    ShowIsWord(n);
    assert Show(n)[0] in Show(n) && Last(Show(n)) in Show(n);
  }

  /** The receiver reads out of bounds if and only if an opening quote stands alone
      among the words of the quoted name. */
  lemma OutOfBoundsIff(filename: string, addr: nat, port: nat, size: nat)
    ensures Read(SendLine(filename, addr, port, size)) == OutOfBounds <==> LoneOpeningQuote(filename)
  {
    var numbers := Numbers(addr, port, size);
    var x := filename + "\" " + numbers;
    var ws := Tokens("\"" + x, SPACE);
    InnerOfLine(filename, addr, port, size);
    LineTokens(x);
    TokensNotEmpty("DCC SEND \"" + x);
    RebuildFails(["DCC"] + (["SEND"] + ws));
    LoneInLine(ws);
    LineWords(filename, numbers);
    NumbersHaveNoQuotes(addr, port, size);
    LoneBefore(Tokens("\"" + filename + "\"", SPACE), Tokens(numbers, SPACE));
  }

  /** So it does for a name that starts with a space ... */
  lemma LeadingSpace(filename: string)
    requires filename != "" && filename[0] == ' '
    ensures LoneOpeningQuote(filename)
  {
    var rest := filename[1..] + "\"";
    assert "\"" + filename + "\"" == "\"" + " " + rest;
    FirstWord("\"", rest);
  }

  /** ... and for one in which a word ends in a quote and the next is a quote. */
  lemma QuoteAfterQuote(a: string, b: string)
    requires !Spaced(a)
    ensures LoneOpeningQuote(a + "\" \" " + b)
  {
    var first, rest := "\"" + a + "\"", b + "\"";
    QuoteTwice(a, b);
    FirstWord(first, "\"" + " " + rest);
    FirstWord("\"", rest);
    assert ([first] + (["\""] + Tokens(rest, SPACE)))[1..] == ["\""] + Tokens(rest, SPACE);
  }

  lemma QuoteTwice(a: string, b: string)
    ensures "\"" + (a + "\" \" " + b) + "\"" == "\"" + a + "\"" + " " + ("\"" + " " + (b + "\""))
  {}

  /** Had the copy without quotes been sent, quotes would no longer matter. */
  lemma SanitisedSurvives(f: string)
    ensures NameSurvives(Sanitised(f)) <==> forall i :: 0 <= i < |f| && f[i] == ' ' ==> i > 0 && f[i - 1] != ' '
  {
    forall i | 0 <= i < |f|
      ensures Sanitised(f)[i] == ' ' <==> f[i] == ' '
      ensures Sanitised(f)[i] != '"'
    {}
  }

  // ---------------------------------------------------------------- the characters of the line

  /** What stands behind the name: the numbers in decimal, the size only if it is known. */
  lemma NumbersAre(addr: nat, port: nat, size: nat)
    ensures Numbers(addr, port, 0) == Show(addr) + " " + Show(port)
    ensures size > 0 ==> Numbers(addr, port, size) == Show(addr) + " " + Show(port) + " " + Show(size)
  {
    Spread(Show(addr), Show(port), Show(size));
  }

  lemma Spread(a: string, b: string, c: string)
    ensures a + " " + (b + " " + c) == a + " " + b + " " + c
  {}

  /** The line between its two characters 1: the name stands between quotes. */
  lemma LineIs(filename: string, addr: nat, port: nat, size: nat, inner: string)
    requires inner == "DCC SEND \"" + filename + "\" " + Numbers(addr, port, size)
    ensures SendLine(filename, addr, port, size) == [1 as char] + inner + [1 as char]
  {
    Framed([SOH], "DCC SEND \"", filename, "\" ", Numbers(addr, port, size));
  }

  lemma Framed(end: string, a: string, b: string, c: string, d: string)
    ensures end + a + b + c + d + end == end + (a + b + c + d) + end
  {}

  /** Only the quotes are changed, into apostrophes. */
  lemma SanitisedIs(s: string, i: nat)
    requires i < |s|
    ensures |Sanitised(s)| == |s| && Sanitised(s)[i] as int == if s[i] as int == 34 then 39 else s[i] as int
  {}

  /** An offer is a line between two characters 1 whose words, the quoted ones put together,
      are just six, the first two "DCC" and "SEND". */
  lemma OffersAre(line: string)
    ensures Read(line).Offer? <==>
              && line != "" && line[0] as int == 1 && line[|line| - 1] as int == 1
              && Rebuild(Tokens(Inner(line), SPACE)).Some?
              && var args := Rebuild(Tokens(Inner(line), SPACE)).value;
                 |args| == 6 && args[0] == "DCC" && args[1] == "SEND"
    ensures MAX_ADDR == 4294967295 && MAX_PORT == 65535 && MAX_SSIZE == 9223372036854775807
  {}
}
