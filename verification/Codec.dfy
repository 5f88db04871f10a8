/** `irc::Message`: the lines of section 2.3.1 of RFC 2812, printed, parsed and rebuilt. */
module Codec {
  import opened Basics
  import opened Text
  import opened Tokenizer

  /** The part of a message that a line carries when there is no sender and no receiver. */
  datatype Line = Line(cmd: string, args: seq<string>)

  /** `Message::StoredEntity`, resolved to the name that is printed. */
  datatype Stored = Unset | Named(name: string)

  // ---------------------------------------------------------------- printing

  predicate Spaced(s: string) {
    ' ' in s
  }

  function Trailing(a: string): bool {
    Spaced(a) || (a != "" && a[0] == ':')
  }

  function FormatArg(a: string): string {
    " " + (if Trailing(a) then ":" else "") + a
  }

  function FormatArgs(args: seq<string>): (r: string)
    ensures r == "" || r[0] == ' '
  {
    if args == [] then "" else FormatArg(args[0]) + FormatArgs(args[1..])
  }

  function FormatLine(l: Line): string {
    l.cmd + FormatArgs(l.args)
  }

  function Head(sender: Stored, receiver: Stored, cmd: string): string {
    (if sender.Named? then ":" + sender.name + " " else "") + cmd
    + (if receiver.Named? then " " + receiver.name else "")
  }

  // ---------------------------------------------------------------- parsing

  function ParseArgs(s: string): seq<string>
    decreases |s|
  {
    var t := Tok(s, SPACE);
    if t.0 == "" then []
    else if t.0[0] == ':' then [Rest(t)]
    else [t.0] + ParseArgs(t.1)
  }

  /** The trailing argument: the token without its colon and all that follows. */
  function Rest(t: (string, string)): string
    requires t.0 != ""
  {
    t.0[1..] + (if t.1 == "" then "" else " " + t.1)
  }

  function ParseLine(s: string): Line {
    var t := Tok(s, SPACE);
    if t.0 == "" then Line("", []) else Line(Upper(t.0), ParseArgs(t.1))
  }

  /** The arguments still to come when the loop holds the token `t.0`. */
  function ArgsFrom(t: (string, string)): seq<string> {
    if t.0 == "" then []
    else if t.0[0] == ':' then [Rest(t)]
    else [t.0] + ParseArgs(t.1)
  }

  /** What the loop of `parse` ends with when it holds `cmd`, `args` and the token `t.0`. */
  function Finish(cmd: string, args: seq<string>, t: (string, string)): Line {
    if cmd != "" then Line(cmd, args + ArgsFrom(t))
    else if t.0 == "" then Line("", [])
    else Line(Upper(t.0), ParseArgs(t.1))
  }

  // ---------------------------------------------------------------- quotes

  function Last(s: string): char
    requires s != ""
  {
    s[|s| - 1]
  }

  /** The words that follow an opening quote are joined up to the one that ends in
      a quote, or to the end of the arguments. `None` is the source's read before
      the beginning of an empty word. */
  function Join(w: string, rest: seq<string>): (r: Option<(string, seq<string>)>)
    ensures r.Some? ==> |r.value.1| <= |rest|
    decreases |rest|
  {
    if w == "" then None
    else if Last(w) == '"' then Some((w[..|w| - 1], rest))
    else if rest == [] then Some((w, []))
    else if rest[0] == "" then None
    else Join(w + " " + rest[0], rest[1..])
  }

  predicate Opens(a: string) {
    a != "" && a[0] == '"' && !Spaced(a)
  }

  /** `rebuildWithQuotes`. */
  function Rebuild(args: seq<string>): Option<seq<string>>
    decreases |args|
  {
    if args == [] then Some([])
    else if Opens(args[0]) then
      var j := Join(args[0][1..], args[1..]);
      if j.None? then None else Cons(j.value.0, Rebuild(j.value.1))
    else Cons(args[0], Rebuild(args[1..]))
  }

  function Cons(a: string, r: Option<seq<string>>): Option<seq<string>> {
    if r.None? then None else Some([a] + r.value)
  }

  // ---------------------------------------------------------------- the class

  class Message {
    var cmd: string
    var sender: Stored
    var receiver: Stored
    var args: seq<string>

    constructor (cmd: string)
      ensures this.cmd == cmd && sender == Unset && receiver == Unset && args == []
    {
      this.cmd, sender, receiver, args := cmd, Unset, Unset, [];
    }

    /** Refused, with MalformedMessage, after an argument that has a space. */
    method AddArg(s: string) returns (ok: bool)
      modifies this`args
      ensures ok <==> old(args) == [] || !Spaced(old(args)[|old(args)| - 1])
      ensures args == if ok then old(args) + [s] else old(args)
    {
      if args != [] && Spaced(args[|args| - 1]) {
        return false;
      }
      args := args + [s];
      return true;
    }

    /** Refused, with MalformedMessage, when it is not the last and the last has a space. */
    method SetArg(i: nat, s: string) returns (ok: bool)
      requires i <= |args|
      modifies this`args
      ensures i == |old(args)| ==> (ok <==> i == 0 || !Spaced(old(args)[i - 1]))
      ensures i < |old(args)| ==> (ok <==> i + 1 == |old(args)| || !Spaced(old(args)[|old(args)| - 1]))
      ensures !ok ==> args == old(args)
      ensures ok ==> args == old(args)[..i] + [s] + (if i < |old(args)| then old(args)[i + 1..] else [])
    {
      if i == |args| {
        ok := AddArg(s);
        return;
      }
      if i + 1 < |args| && Spaced(args[|args| - 1]) {
        return false;
      }
      args := args[i := s];
      return true;
    }

    /** `format`. */
    method Format() returns (buf: string)
      ensures buf == Head(sender, receiver, cmd) + FormatArgs(args) + "\r\n"
    {
      buf := "";
      if sender.Named? {
        buf := ":" + sender.name + " ";
      }
      buf := buf + cmd;
      if receiver.Named? {
        buf := buf + " " + receiver.name;
      }
      assert buf == Head(sender, receiver, cmd) && args[0..] == args;
      for it := 0 to |args|
        invariant buf + FormatArgs(args[it..]) == Head(sender, receiver, cmd) + FormatArgs(args)
      {
        FormatStep(buf, args, it);
        buf := buf + " ";
        if Spaced(args[it]) || (args[it] != "" && args[it][0] == ':') {
          buf := buf + ":";
        }
        buf := buf + args[it];
      }
      assert buf + FormatArgs([]) == buf;
      buf := buf + "\r\n";
    }

    /** `parse`, which never meets MalformedMessage. */
    static method Parse(input: string) returns (m: Message)
      ensures fresh(m) && m.sender == Unset && m.receiver == Unset
      ensures Line(m.cmd, m.args) == ParseLine(input)
    {
      m := new Message("");
      var s, line := StringTok(input, SPACE);
      while s != ""
        invariant fresh(m) && m.sender == Unset && m.receiver == Unset && !Spaced(s)
        invariant m.CanTake() && ParseLine(input) == Finish(m.cmd, m.args, (s, line))
        decreases |s| + |line|
      {
        var stop := m.Take(s, line);
        if stop {
          return;
        }
        s, line := StringTok(line, SPACE);
      }
      assert m.args + [] == m.args;
    }

    predicate CanTake()
      reads this
    {
      (cmd == "" ==> args == []) && (args == [] || !Spaced(args[|args| - 1]))
    }

    /** What `parse` does with one token: the first is the command, one that starts
        with a colon takes all that follows and is the last. */
    method Take(s: string, line: string) returns (stop: bool)
      requires s != "" && !Spaced(s) && CanTake()
      modifies this`cmd, this`args
      ensures stop ==> Line(cmd, args) == Finish(old(cmd), old(args), (s, line))
      ensures !stop ==>
                CanTake() && Finish(cmd, args, Tok(line, SPACE)) == Finish(old(cmd), old(args), (s, line))
    {
      stop := false;
      if cmd == "" {
        cmd := Upper(s);
        assert [] + ParseArgs(line) == ParseArgs(line);
      } else if s[0] == ':' {
        var ok := AddArg(s[1..] + (if line == "" then "" else " " + line));
        assert ok;
        stop := true;
      } else {
        var ok := AddArg(s);
        assert ok;
        assert old(args) + [s] + ArgsFrom(Tok(line, SPACE)) == old(args) + ([s] + ParseArgs(line));
      }
    }

    /** `rebuildWithQuotes`, in place; not `ok` is a read out of bounds. */
    method RebuildWithQuotes() returns (ok: bool)
      modifies this`args
      ensures ok <==> Rebuild(old(args)).Some?
      ensures ok ==> args == Rebuild(old(args)).value
    {
      var s := 0;
      assert args[0..] == args;
      PrependNothing(Rebuild(args));
      while s < |args|
        invariant s <= |args|
        invariant Rebuild(old(args)) == Prepend(args[..s], Rebuild(args[s..]))
        decreases |args| - s
      {
        RebuildStep(args, s);
        if Opens(args[s]) {
          ok := JoinAt(s);
          if !ok {
            return;
          }
        }
        s := s + 1;
      }
      assert args[s..] == [] && args[..s] == args;
      return true;
    }

    /** One quoted run, from its opening quote. */
    method JoinAt(s: nat) returns (ok: bool)
      requires s < |args| && Opens(args[s])
      modifies this`args
      ensures ok <==> Join(old(args)[s][1..], old(args)[s + 1..]).Some?
      ensures ok ==> var j := Join(old(args)[s][1..], old(args)[s + 1..]).value;
                     args == old(args)[..s] + [j.0] + j.1
    {
      ghost var j := Join(args[s][1..], args[s + 1..]);
      ghost var front := args[..s];
      var next := s;
      args := args[s := args[s][1..]];
      while true
        invariant Joining(args, s, next, front, j)
        decreases |args|, s + 1 - next
      {
        if args[next] == "" {
          return false;
        }
        if Last(args[next]) == '"' {
          JoinEnds(args, s, next, front, j);
          break;
        }
        JoinMoves(args, s, next, front, j);
        if next == s {
          next := next + 1;
        } else {
          args := args[..next] + args[next + 1..];
        }
        if next == |args| {
          break;
        }
        args := args[s := args[s] + " " + args[next]];
      }
      if Last(args[s]) == '"' {
        args := args[s := args[s][..|args[s]| - 1]];
      }
      if next < |args| && next != s {
        args := args[..next] + args[next + 1..];
      }
      return true;
    }
  }

  /** The quoted run at `s` while `next` is its last word so far: the words up to it are
      joined at `s`, and `j` is what is to come of it. */
  predicate Joining(args: seq<string>, s: nat, next: nat, front: seq<string>, j: Option<(string, seq<string>)>) {
    && s <= next <= s + 1 && next < |args| && args[..s] == front
    && (next == s ==> j == Join(args[s], args[s + 1..]))
    && (next > s && args[next] == "" ==> j.None?)
    && (next > s && args[next] != "" ==>
          args[s] != "" && Last(args[s]) == Last(args[next]) && j == Join(args[s], args[next + 1..]))
  }

  /** The arguments once the next word is there to be joined. */
  function Advanced(args: seq<string>, s: nat, next: nat): seq<string>
    requires next < |args|
  {
    if next == s then args else args[..next] + args[next + 1..]
  }

  lemma JoinMoves(args: seq<string>, s: nat, next: nat, front: seq<string>, j: Option<(string, seq<string>)>)
    requires Joining(args, s, next, front, j) && args[next] != "" && Last(args[next]) != '"'
    ensures var a := Advanced(args, s, next);
            && s < |a| && a[s] == args[s] && a[s] != "" && Last(a[s]) != '"'
            && (if |a| == s + 1 then j == Some((a[s], [])) && a == front + [a[s]]
                else Joining(a[s := a[s] + " " + a[s + 1]], s, s + 1, front, j))
  {
    var a := Advanced(args, s, next);
    assert a[s + 1..] == if next == s then args[s + 1..] else args[next + 1..];
    if |a| > s + 1 {
      JoinsOne(a, s, front, j);
    }
  }

  lemma JoinsOne(a: seq<string>, s: nat, front: seq<string>, j: Option<(string, seq<string>)>)
    requires s + 1 < |a| && a[..s] == front && a[s] != "" && Last(a[s]) != '"' && j == Join(a[s], a[s + 1..])
    ensures Joining(a[s := a[s] + " " + a[s + 1]], s, s + 1, front, j)
  {
    var b := a[s := a[s] + " " + a[s + 1]];
    assert a[s + 1..][0] == a[s + 1] && a[s + 1..][1..] == a[s + 2..] && b[s + 2..] == a[s + 2..];
    assert b[..s] == front;
  }

  lemma JoinEnds(args: seq<string>, s: nat, next: nat, front: seq<string>, j: Option<(string, seq<string>)>)
    requires Joining(args, s, next, front, j) && args[next] != "" && Last(args[next]) == '"'
    ensures args[s] != "" && Last(args[s]) == '"' && j.Some?
    ensures var a := args[s := args[s][..|args[s]| - 1]];
            (if next == s then a else a[..next] + a[next + 1..]) == front + [j.value.0] + j.value.1
  {}

  lemma FormatStep(buf: string, args: seq<string>, it: nat)
    requires it < |args|
    ensures buf + FormatArgs(args[it..])
         == buf + " " + (if Trailing(args[it]) then ":" else "") + args[it] + FormatArgs(args[it + 1..])
  {
    assert args[it..][1..] == args[it + 1..];
  }

  // ---------------------------------------------------------------- round trip

  predicate Word(s: string) {
    s != "" && !Spaced(s)
  }

  /** A word and one space: the receiver cannot tell it from the word. */
  predicate WordAndSpace(s: string) {
    s != "" && Last(s) == ' ' && !Spaced(s[..|s| - 1])
  }

  /** Only the last argument may have spaces or start with a colon. */
  predicate ArgsSurvive(args: seq<string>) {
    && (forall i :: 0 <= i < |args| - 1 ==> args[i] != "" && !Trailing(args[i]))
    && (args != [] ==> args[|args| - 1] != "" && !WordAndSpace(args[|args| - 1]))
  }

  predicate LineSurvives(l: Line) {
    l == Line("", []) || (Word(l.cmd) && Upper(l.cmd) == l.cmd && ArgsSurvive(l.args))
  }

  lemma ParseSkipsSpace(s: string)
    ensures ParseArgs(" " + s) == ParseArgs(s)
  {
    SkipOne(s, SPACE, ' ');
  }

  lemma ParseNothing()
    ensures ParseArgs("") == []
  {}

  lemma ParsePlain(a: string, tail: string)
    requires a != "" && !Trailing(a) && (tail == "" || tail[0] == ' ')
    ensures ParseArgs(" " + a + tail) == [a] + ParseArgs(tail)
  {
    TokensOfRun(a, tail, SPACE);
    assert " " + a + tail == " " + (a + tail);
    ParseSkipsSpace(a + tail);
    if tail != "" {
      assert tail == " " + tail[1..];
      ParseSkipsSpace(tail[1..]);
    }
  }

  /** The word before the first space, as an argument that takes all that follows. */
  function Taken(t: string): string {
    if WordAndSpace(t) then t[..|t| - 1] else t
  }

  lemma ParseColon(w: string, tail: string)
    requires !Spaced(w) && (tail == "" || tail[0] == ' ')
    ensures ParseArgs(":" + w + tail) == [w + (if |tail| <= 1 then "" else tail)]
  {
    TokensOfRun(":" + w, tail, SPACE);
    assert (":" + w)[1..] == w;
    if tail != "" {
      assert tail == " " + tail[1..];
    }
  }

  lemma ParseLastWord(w: string)
    requires !Spaced(w)
    ensures ParseArgs(":" + w) == [Taken(w)]
  {
    ParseColon(w, "");
    assert ":" + w + "" == ":" + w && w + "" == w;
    assert w != "" ==> Last(w) in w;
  }

  lemma ParseLastWords(w: string, rest: string)
    requires !Spaced(w)
    ensures ParseArgs(":" + (w + " " + rest)) == [Taken(w + " " + rest)]
  {
    ParseColon(w, " " + rest);
    TakenAll(w, rest);
    assert ":" + w + (" " + rest) == ":" + (w + " " + rest);
    assert w + (if rest == "" then "" else " " + rest) == if rest == "" then w else w + " " + rest;
  }

  lemma ParseTrailing(t: string)
    ensures ParseArgs(" :" + t) == [Taken(t)]
  {
    var w := Run(t, SPACE);
    RunCuts(t);
    ParseSkipsSpace(":" + t);
    if |w| == |t| {
      ParseLastWord(w);
    } else {
      ParseLastWords(w, t[|w| + 1..]);
    }
  }

  lemma RunCuts(t: string)
    ensures var w := Run(t, SPACE); t == if |w| == |t| then w else w + " " + t[|w| + 1..]
    ensures " :" + t == " " + (":" + t)
  {}

  lemma TakenAll(w: string, rest: string)
    requires !Spaced(w)
    ensures Taken(w + " " + rest) == if rest == "" then w else w + " " + rest
  {
    var t := w + " " + rest;
    assert t[|w|] == ' ';
    if rest == "" {
      assert t[..|t| - 1] == w;
    } else {
      assert t[..|t| - 1][|w|] == ' ';
    }
  }

  lemma FormatFirst(a: string, tail: string)
    ensures FormatArg(a) + tail == if Trailing(a) then " :" + (a + tail) else " " + a + tail
    ensures a == "" ==> FormatArg(a) + tail == " " + tail
  {}

  /** What the first of the arguments becomes. */
  lemma ParseFormatted(args: seq<string>)
    requires args != []
    ensures var a, tail := args[0], FormatArgs(args[1..]);
            ParseArgs(FormatArgs(args)) ==
              if a == "" then ParseArgs(tail)
              else if Trailing(a) then [Taken(a + tail)]
              else [a] + ParseArgs(tail)
  {
    var a, tail := args[0], FormatArgs(args[1..]);
    FormatFirst(a, tail);
    if a == "" {
      ParseSkipsSpace(tail);
    } else if Trailing(a) {
      ParseTrailing(a + tail);
    } else {
      ParsePlain(a, tail);
    }
  }

  lemma {:induction false} NoMoreThanSent(args: seq<string>)
    ensures |ParseArgs(FormatArgs(args))| <= |args|
  {
    if args == [] {
      ParseNothing();
    } else {
      ParseFormatted(args);
      NoMoreThanSent(args[1..]);
    }
  }

  lemma {:induction false} ArgsRoundTrip(args: seq<string>)
    ensures ParseArgs(FormatArgs(args)) == args <==> ArgsSurvive(args)
  {
    if args == [] {
      ParseNothing();
    } else {
      ParseFormatted(args);
      NoMoreThanSent(args[1..]);
      ArgsRoundTrip(args[1..]);
      if |args| == 1 {
        ParseNothing();
        assert args[0] + FormatArgs([]) == args[0];
        assert args == [args[0]];
      } else {
        SurviveFirst(args);
        assert args == [args[0]] + args[1..];
      }
    }
  }

  lemma SurviveFirst(args: seq<string>)
    requires |args| > 1
    ensures ArgsSurvive(args) <==> args[0] != "" && !Trailing(args[0]) && ArgsSurvive(args[1..])
  {
    if args[0] != "" && !Trailing(args[0]) && ArgsSurvive(args[1..]) {
      forall i | 0 <= i < |args| - 1
        ensures args[i] != "" && !Trailing(args[i])
      {
        if i > 0 {
          assert args[1..][i - 1] == args[i];
        }
      }
    }
    if ArgsSurvive(args) {
      forall i | 0 <= i < |args[1..]| - 1
        ensures args[1..][i] != "" && !Trailing(args[1..][i])
      {
        assert args[1..][i] == args[i + 1];
      }
    }
  }

  /** Exactly the lines of `LineSurvives` come back as they were printed. */
  lemma LineRoundTrip(l: Line)
    ensures ParseLine(FormatLine(l)) == l <==> LineSurvives(l)
  {
    if Word(l.cmd) {
      ParseCommand(l.cmd, FormatArgs(l.args));
      ArgsRoundTrip(l.args);
    } else {
      ParsedCommandIsWord(FormatLine(l));
    }
  }

  lemma ParseCommand(cmd: string, tail: string)
    requires Word(cmd) && (tail == "" || tail[0] == ' ')
    ensures ParseLine(cmd + tail) == Line(Upper(cmd), ParseArgs(tail))
  {
    TokensOfRun(cmd, tail, SPACE);
    if tail != "" {
      assert tail == " " + tail[1..];
      ParseSkipsSpace(tail[1..]);
    }
  }

  lemma ParsedCommandIsWord(s: string)
    ensures Word(ParseLine(s).cmd) || ParseLine(s) == Line("", [])
  {
    var w := Tok(s, SPACE).0;
    UpperKeepsSpaces(w);
  }

  lemma UpperKeepsSpaces(s: string)
    ensures Spaced(Upper(s)) <==> Spaced(s)
  {
    if Spaced(s) {
      var i :| 0 <= i < |s| && s[i] == ' ';
      assert Upper(s)[i] == ' ';
    }
  }

  function Prepend(done: seq<string>, r: Option<seq<string>>): Option<seq<string>> {
    if r.None? then None else Some(done + r.value)
  }

  lemma RebuildStep(args: seq<string>, s: nat)
    requires s < |args|
    ensures !Opens(args[s]) ==> Prepend(args[..s], Rebuild(args[s..])) == Prepend(args[..s + 1], Rebuild(args[s + 1..]))
    ensures Opens(args[s]) ==>
              var j := Join(args[s][1..], args[s + 1..]);
              Prepend(args[..s], Rebuild(args[s..]))
              == if j.None? then None else Prepend(args[..s] + [j.value.0], Rebuild(j.value.1))
  {
    assert args[s..][0] == args[s] && args[s..][1..] == args[s + 1..];
    assert args[..s + 1] == args[..s] + [args[s]];
    PrependCons(args[..s], args[s], Rebuild(args[s + 1..]));
    if Opens(args[s]) {
      var j := Join(args[s][1..], args[s + 1..]);
      if j.Some? {
        PrependCons(args[..s], j.value.0, Rebuild(j.value.1));
      }
    }
  }

  lemma PrependNothing(r: Option<seq<string>>)
    ensures Prepend([], r) == r
  {
    if r.Some? {
      assert [] + r.value == r.value;
    }
  }

  lemma PrependCons(done: seq<string>, a: string, r: Option<seq<string>>)
    ensures Prepend(done, Cons(a, r)) == Prepend(done + [a], r)
  {
    if r.Some? {
      assert done + ([a] + r.value) == done + [a] + r.value;
    }
  }
}
