/** A reader of whole lines, written from the grammar of section 2.3.1 of RFC 2812, and
    exactly which of the lines that `Message::format` prints it reads back. */
module WholeLine {
  import opened Basics
  import opened Codec
  import opened Text

  /** What a line says: who it is from, the command, and its parameters. */
  datatype Whole = Whole(prefix: Option<string>, cmd: string, params: seq<string>)

  // ---------------------------------------------------------------- the reader

  /** The characters before the first space. */
  function UpTo(s: string): (r: string)
    ensures |r| <= |s| && r == s[..|r|] && ' ' !in r
    ensures |r| < |s| ==> s[|r|] == ' '
  {
    if s == "" || s[0] == ' ' then "" else [s[0]] + UpTo(s[1..])
  }

  /** Each parameter stands behind one space; one with a colon is the last and takes
      everything. */
  function Params(s: string): Option<seq<string>>
    decreases |s|
  {
    if s == "" then Some([])
    else if s[0] != ' ' then None
    else if |s| > 1 && s[1] == ':' then Some([s[2..]])
    else
      var w := UpTo(s[1..]);
      if w == "" then None else First(w, Params(s[|w| + 1..]))
  }

  function First(w: string, rest: Option<seq<string>>): Option<seq<string>> {
    if rest.None? then None else Some([w] + rest.value)
  }

  /** The command and the parameters. */
  function Command(prefix: Option<string>, s: string): Option<Whole> {
    var w := UpTo(s);
    if w == "" then None
    else
      var params := Params(s[|w|..]);
      if params.None? then None else Some(Whole(prefix, w, params.value))
  }

  /** A line that starts with a colon has a prefix, which ends at a space. */
  function ReadBody(s: string): Option<Whole> {
    if s != "" && s[0] == ':' then
      var w := UpTo(s[1..]);
      if w == "" || |w| + 1 == |s| then None else Command(Some(w), s[|w| + 2..])
    else Command(None, s)
  }

  predicate OneLine(s: string) {
    '\r' !in s && '\n' !in s && '\0' !in s
  }

  /** A line with its end. */
  function ReadWhole(s: string): Option<Whole> {
    if |s| < 2 || s[|s| - 2..] != "\r\n" || !OneLine(s[..|s| - 2]) then None else ReadBody(s[..|s| - 2])
  }

  // ---------------------------------------------------------------- what comes back

  /** What `format` prints. */
  function Printed(sender: Stored, receiver: Stored, cmd: string, args: seq<string>): string {
    Head(sender, receiver, cmd) + FormatArgs(args) + "\r\n"
  }

  /** What it should be read as: the receiver is the first parameter. */
  function Meant(sender: Stored, receiver: Stored, cmd: string, args: seq<string>): Whole {
    Whole(if sender.Named? then Some(sender.name) else None, cmd,
          (if receiver.Named? then [receiver.name] else []) + args)
  }

  /** Only the last may have spaces or start with a colon, and none is empty. */
  predicate ArgsReadable(args: seq<string>) {
    && (forall i :: 0 <= i < |args| ==> args[i] != "")
    && (forall i :: 0 <= i < |args| - 1 ==> ' ' !in args[i] && args[i][0] != ':')
  }

  predicate ArgsOneLine(args: seq<string>) {
    forall i :: 0 <= i < |args| ==> OneLine(args[i])
  }

  predicate Readable(sender: Stored, receiver: Stored, cmd: string, args: seq<string>) {
    && (sender.Named? ==> sender.name != "" && ' ' !in sender.name && OneLine(sender.name))
    && (receiver.Named? ==>
          receiver.name != "" && ' ' !in receiver.name && receiver.name[0] != ':' && OneLine(receiver.name))
    && cmd != "" && ' ' !in cmd && (sender.Unset? ==> cmd[0] != ':') && OneLine(cmd)
    && ArgsReadable(args) && ArgsOneLine(args)
  }

  // ---------------------------------------------------------------- words

  lemma {:induction false} UpToOf(w: string, tail: string)
    requires ' ' !in w && (tail == "" || tail[0] == ' ')
    ensures UpTo(w + tail) == w && (w + tail)[|w|..] == tail
  {
    if w == "" {
      assert w + tail == tail;
    } else {
      assert (w + tail)[1..] == w[1..] + tail;
      UpToOf(w[1..], tail);
    }
  }

  /** The first word of a text with a space is not that text. */
  lemma {:induction false} UpToOther(w: string, tail: string)
    requires ' ' in w
    ensures UpTo(w + tail) != w
  {}

  lemma {:induction false} OneLineAppend(a: string, b: string)
    ensures OneLine(a + b) <==> OneLine(a) && OneLine(b)
  {}

  // ---------------------------------------------------------------- parameters

  /** A plain word behind a space. */
  lemma ParamFirst(w: string, tail: string)
    requires tail == "" || tail[0] == ' '
    ensures w != "" && ' ' !in w && w[0] != ':' ==> Params(" " + w + tail) == First(w, Params(tail))
    ensures w == "" ==> Params(" " + w + tail) == None
    ensures w != "" && w[0] == ':' ==> Params(" " + w + tail) == Some([w[1..] + tail])
    ensures w != "" && ' ' in w && w[0] != ':' ==>
              Params(" " + w + tail) == None
              || (Params(" " + w + tail).value != [] && Params(" " + w + tail).value[0] != w)
  {
    var s := " " + w + tail;
    assert s[1..] == w + tail;
    if w == "" {
      assert w + tail == tail;
      UpToOf("", tail);
    } else if w[0] == ':' {
      assert s[2..] == w[1..] + tail;
    } else if ' ' in w {
      UpToOther(w, tail);
    } else {
      UpToOf(w, tail);
      assert s[|w| + 1..] == tail;
    }
  }

  lemma ParamColon(a: string, tail: string)
    ensures Params(" :" + (a + tail)) == Some([a + tail])
  {
    assert (" :" + (a + tail))[2..] == a + tail;
  }

  /** The first of the printed arguments. */
  lemma PrintedFirst(args: seq<string>)
    requires args != []
    ensures var a, tail := args[0], FormatArgs(args[1..]);
            FormatArgs(args) == if Trailing(a) then " :" + (a + tail) else " " + a + tail
  {
    FormatFirst(args[0], FormatArgs(args[1..]));
  }

  lemma {:induction false} ParamsBack(args: seq<string>)
    ensures Params(FormatArgs(args)) == Some(args) <==> ArgsReadable(args)
  {
    if args != [] {
      var a, tail := args[0], FormatArgs(args[1..]);
      PrintedFirst(args);
      ParamsBack(args[1..]);
      ReadableFirst(args);
      if Trailing(a) {
        ParamColon(a, tail);
        LastOnly(args);
      } else {
        ParamFirst(a, tail);
        assert args == [a] + args[1..];
      }
    }
  }

  lemma LastOnly(args: seq<string>)
    requires args != [] && Trailing(args[0])
    ensures [args[0] + FormatArgs(args[1..])] == args <==> |args| == 1
  {
    if |args| == 1 {
      assert args[1..] == [] && args[0] + FormatArgs([]) == args[0];
      assert args == [args[0]];
    }
  }

  lemma ReadableFirst(args: seq<string>)
    requires args != []
    ensures ArgsReadable(args) <==>
              && args[0] != "" && (|args| > 1 ==> !Trailing(args[0])) && ArgsReadable(args[1..])
  {
    if args[0] != "" && (|args| > 1 ==> !Trailing(args[0])) && ArgsReadable(args[1..]) {
      forall i | 0 <= i < |args|
        ensures args[i] != "" && (i < |args| - 1 ==> ' ' !in args[i] && args[i][0] != ':')
      {
        assert i > 0 ==> args[i] == args[1..][i - 1];
      }
    }
    if ArgsReadable(args) {
      forall i | 0 <= i < |args[1..]|
        ensures args[1..][i] != "" && (i < |args[1..]| - 1 ==> ' ' !in args[1..][i] && args[1..][i][0] != ':')
      {
        assert args[1..][i] == args[i + 1];
      }
    }
  }

  // ---------------------------------------------------------------- the whole line

  /** What is printed behind the command. */
  function Behind(receiver: Stored, args: seq<string>): (r: string)
    ensures r == "" || r[0] == ' '
  {
    if receiver.Named? then " " + receiver.name + FormatArgs(args) else FormatArgs(args)
  }

  function All(receiver: Stored, args: seq<string>): seq<string> {
    if receiver.Named? then [receiver.name] + args else args
  }

  lemma BehindBack(receiver: Stored, args: seq<string>)
    ensures Params(Behind(receiver, args)) == Some(All(receiver, args)) <==>
              && (receiver.Named? ==> receiver.name != "" && ' ' !in receiver.name && receiver.name[0] != ':')
              && ArgsReadable(args)
  {
    ParamsBack(args);
    if receiver.Named? {
      ParamFirst(receiver.name, FormatArgs(args));
      Single(receiver.name, args);
    }
  }

  lemma Single(w: string, args: seq<string>)
    ensures w != "" ==> [w[1..] + FormatArgs(args)] != [w] + args
    ensures forall other :: [w] + other == [w] + args ==> other == args
  {
    assert |[w] + args| == 1 + |args| && ([w] + args)[0] == w;
    if w != "" && args == [] {
      assert |w[1..] + FormatArgs(args)| < |w|;
      assert ([w[1..] + FormatArgs(args)])[0] != w;
    }
    forall other | [w] + other == [w] + args
      ensures other == args
    {
      assert ([w] + other)[1..] == ([w] + args)[1..];
    }
  }

  lemma CommandBack(prefix: Option<string>, cmd: string, receiver: Stored, args: seq<string>)
    ensures Command(prefix, cmd + Behind(receiver, args)) == Some(Whole(prefix, cmd, All(receiver, args))) <==>
              && cmd != "" && ' ' !in cmd
              && (receiver.Named? ==> receiver.name != "" && ' ' !in receiver.name && receiver.name[0] != ':')
              && ArgsReadable(args)
  {
    var tail := Behind(receiver, args);
    if ' ' in cmd {
      UpToOther(cmd, tail);
    } else {
      UpToOf(cmd, tail);
      BehindBack(receiver, args);
    }
  }

  lemma BodyBack(sender: Stored, receiver: Stored, cmd: string, args: seq<string>, body: string)
    requires body == (if sender.Named? then ":" + sender.name + " " else "") + (cmd + Behind(receiver, args))
    ensures ReadBody(body)
            == Some(Whole(if sender.Named? then Some(sender.name) else None, cmd, All(receiver, args))) <==>
              && (sender.Named? ==> sender.name != "" && ' ' !in sender.name)
              && (receiver.Named? ==> receiver.name != "" && ' ' !in receiver.name && receiver.name[0] != ':')
              && cmd != "" && ' ' !in cmd && (sender.Unset? ==> cmd[0] != ':') && ArgsReadable(args)
  {
    var rest := cmd + Behind(receiver, args);
    if sender.Named? {
      PrefixBack(sender.name, rest, body);
      CommandBack(Some(sender.name), cmd, receiver, args);
    } else {
      assert body == rest;
      CommandBack(None, cmd, receiver, args);
    }
  }

  lemma PrefixBack(name: string, rest: string, body: string)
    requires body == ":" + name + " " + rest
    ensures name != "" && ' ' !in name ==> ReadBody(body) == Command(Some(name), rest)
    ensures name == "" || ' ' in name ==> ReadBody(body).None? || ReadBody(body).value.prefix != Some(name)
  {
    assert body[1..] == name + (" " + rest);
    if ' ' in name {
      UpToOther(name, " " + rest);
    } else {
      UpToOf(name, " " + rest);
      assert body[|name| + 2..] == rest;
    }
  }

  lemma {:induction false} ArgsLine(args: seq<string>)
    ensures OneLine(FormatArgs(args)) <==> ArgsOneLine(args)
  {
    if args != [] {
      var a, tail := args[0], FormatArgs(args[1..]);
      PrintedFirst(args);
      ArgsLine(args[1..]);
      OneLineAppend(a, tail);
      OneLineAppend(" :", a + tail);
      OneLineAppend(" ", a);
      OneLineAppend(" " + a, tail);
      OneLineFirst(args);
    }
  }

  lemma OneLineFirst(args: seq<string>)
    requires args != []
    ensures ArgsOneLine(args) <==> OneLine(args[0]) && ArgsOneLine(args[1..])
  {
    if OneLine(args[0]) && ArgsOneLine(args[1..]) {
      forall i | 0 <= i < |args|
        ensures OneLine(args[i])
      {
        assert i > 0 ==> args[i] == args[1..][i - 1];
      }
    }
  }

  lemma BodyLine(sender: Stored, receiver: Stored, cmd: string, args: seq<string>, body: string)
    requires body == (if sender.Named? then ":" + sender.name + " " else "") + (cmd + Behind(receiver, args))
    ensures OneLine(body) <==>
              && (sender.Named? ==> OneLine(sender.name)) && (receiver.Named? ==> OneLine(receiver.name))
              && OneLine(cmd) && ArgsOneLine(args)
  {
    ArgsLine(args);
    if receiver.Named? {
      OneLineAppend(" ", receiver.name);
      OneLineAppend(" " + receiver.name, FormatArgs(args));
    }
    OneLineAppend(cmd, Behind(receiver, args));
    if sender.Named? {
      OneLineAppend(":", sender.name);
      OneLineAppend(":" + sender.name, " ");
    }
    OneLineAppend(if sender.Named? then ":" + sender.name + " " else "", cmd + Behind(receiver, args));
  }

  lemma PrintedBody(sender: Stored, receiver: Stored, cmd: string, args: seq<string>)
    ensures Head(sender, receiver, cmd) + FormatArgs(args)
         == (if sender.Named? then ":" + sender.name + " " else "") + (cmd + Behind(receiver, args))
  {}

  lemma EndTaken(body: string)
    ensures (body + "\r\n")[|body + "\r\n"| - 2..] == "\r\n" && (body + "\r\n")[..|body + "\r\n"| - 2] == body
  {}

  /** A line that is printed is read as its sender, its command, its receiver and its
      arguments if and only if it is readable; without a sender it has no prefix. */
  lemma WholeLineRoundTrip(sender: Stored, receiver: Stored, cmd: string, args: seq<string>)
    ensures ReadWhole(Printed(sender, receiver, cmd, args)) == Some(Meant(sender, receiver, cmd, args))
       <==> Readable(sender, receiver, cmd, args)
  {
    var body := Head(sender, receiver, cmd) + FormatArgs(args);
    EndTaken(body);
    PrintedBody(sender, receiver, cmd, args);
    BodyLine(sender, receiver, cmd, args, body);
    BodyBack(sender, receiver, cmd, args, body);
    assert [] + args == args;
  }

  /** The arguments that this program's own parser gives back are readable. */
  lemma SurvivingIsReadable(args: seq<string>)
    requires ArgsSurvive(args)
    ensures ArgsReadable(args)
  {}
}
