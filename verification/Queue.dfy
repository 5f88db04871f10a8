/** The queue of delayed messages of a conversation, and the receiver that splits
    what it sends into lines again. */
module Queue {
  import opened Basics
  import opened Tokenizer

  /** A line that has to be sent alone. */
  predicate Ctcp(line: string) {
    line != "" && line[0] == 1 as char
  }

  /** What `flush_messages` still sends when it holds `buf`. */
  function FlushFrom(buf: string, q: seq<string>): seq<string>
    decreases |q|
  {
    if q == [] then Held(buf)
    else if Ctcp(q[0]) then Held(buf) + [q[0]] + FlushFrom("", q[1..])
    else FlushFrom(Onto(buf, q[0]), q[1..])
  }

  function Held(buf: string): seq<string> {
    if buf == "" then [] else [buf]
  }

  function Onto(buf: string, line: string): string {
    if buf == "" then line else buf + "\n" + line
  }

  // ---------------------------------------------------------------- groups

  /** How many lines there are before the first CTCP line. */
  function Lead(q: seq<string>): (r: nat)
    ensures r <= |q|
    ensures forall i :: 0 <= i < r ==> !Ctcp(q[i])
    ensures r < |q| ==> Ctcp(q[r])
  {
    if q == [] || Ctcp(q[0]) then 0 else 1 + Lead(q[1..])
  }

  /** A CTCP line is a group of its own, and the lines between two of them are one. */
  function Groups(q: seq<string>): seq<seq<string>>
    decreases |q|
  {
    if q == [] then []
    else if Ctcp(q[0]) then [[q[0]]] + Groups(q[1..])
    else [q[..Lead(q)]] + Groups(q[Lead(q)..])
  }

  function Joined(g: seq<string>): string {
    if g == [] then "" else if |g| == 1 then g[0] else g[0] + "\n" + Joined(g[1..])
  }

  function JoinAll(gs: seq<seq<string>>): seq<string> {
    seq(|gs|, i requires 0 <= i < |gs| => Joined(gs[i]))
  }

  function Flatten(gs: seq<seq<string>>): seq<string> {
    if gs == [] then [] else gs[0] + Flatten(gs[1..])
  }

  predicate NonEmptyLines(q: seq<string>) {
    forall i :: 0 <= i < |q| ==> q[i] != ""
  }

  lemma {:induction false} FlushLead(buf: string, q: seq<string>)
    requires NonEmptyLines(q)
    ensures FlushFrom(buf, q) == FlushFrom(OntoAll(buf, q[..Lead(q)]), q[Lead(q)..])
    decreases |q|
  {
    if q != [] && !Ctcp(q[0]) {
      FlushLead(Onto(buf, q[0]), q[1..]);
      assert q[..Lead(q)][1..] == q[1..][..Lead(q[1..])] && q[1..][Lead(q[1..])..] == q[Lead(q)..];
    } else {
      assert q[..0] == [] && q[0..] == q;
    }
  }

  function OntoAll(buf: string, g: seq<string>): string
    decreases |g|
  {
    if g == [] then buf else OntoAll(Onto(buf, g[0]), g[1..])
  }

  lemma {:induction false} OntoAllJoins(buf: string, g: seq<string>)
    requires NonEmptyLines(g) && buf != ""
    ensures OntoAll(buf, g) == if g == [] then buf else buf + "\n" + Joined(g)
    decreases |g|
  {
    if g != [] {
      OntoAllJoins(Onto(buf, g[0]), g[1..]);
      if |g| > 1 {
        assert buf + "\n" + g[0] + "\n" + Joined(g[1..]) == buf + "\n" + (g[0] + "\n" + Joined(g[1..]));
      }
    }
  }

  lemma GroupText(g: seq<string>)
    requires NonEmptyLines(g) && g != []
    ensures OntoAll("", g) == Joined(g) && Joined(g) != ""
  {
    if |g| > 1 {
      OntoAllJoins(g[0], g[1..]);
    } else {
      assert g[1..] == [];
    }
  }

  /** What is sent is one message a group. */
  lemma {:induction false} FlushIsGroups(q: seq<string>)
    requires NonEmptyLines(q)
    ensures FlushFrom("", q) == JoinAll(Groups(q))
    decreases |q|
  {
    if q != [] {
      if Ctcp(q[0]) {
        FlushIsGroups(q[1..]);
        assert Held("") + [q[0]] + FlushFrom("", q[1..]) == [q[0]] + FlushFrom("", q[1..]);
        assert Joined([q[0]]) == q[0];
        JoinFirst([q[0]], Groups(q[1..]));
      } else {
        var g, rest := q[..Lead(q)], q[Lead(q)..];
        FlushLead("", q);
        GroupText(g);
        FlushHeld(Joined(g), rest);
        FlushIsGroups(rest);
        JoinFirst(g, Groups(rest));
      }
    }
  }

  lemma JoinFirst(g: seq<string>, gs: seq<seq<string>>)
    ensures JoinAll([g] + gs) == [Joined(g)] + JoinAll(gs)
  {}

  lemma FlushHeld(buf: string, rest: seq<string>)
    requires buf != "" && (rest == [] || Ctcp(rest[0]))
    ensures FlushFrom(buf, rest) == [buf] + FlushFrom("", rest)
  {
    if rest != [] {
      assert Held(buf) + [rest[0]] + FlushFrom("", rest[1..]) == [buf] + (Held("") + [rest[0]] + FlushFrom("", rest[1..]));
    }
  }

  /** A CTCP line alone, or other lines. */
  predicate OneGroup(g: seq<string>) {
    g != [] && (|g| == 1 || forall j :: 0 <= j < |g| ==> !Ctcp(g[j]))
  }

  /** Such groups, and never two groups of other lines side by side. */
  predicate Maximal(gs: seq<seq<string>>) {
    gs == [] ||
    (&& OneGroup(gs[0]) && Maximal(gs[1..])
     && (|gs| > 1 ==> gs[1] != [] && (Ctcp(gs[0][0]) || Ctcp(gs[1][0]))))
  }

  lemma GroupsStart(q: seq<string>)
    requires q != []
    ensures Groups(q) != [] && Groups(q)[0] != [] && Groups(q)[0][0] == q[0]
  {}

  /** The groups are the queue cut in pieces: CTCP lines alone, the others together. */
  lemma {:induction false} GroupsArePieces(q: seq<string>)
    ensures Flatten(Groups(q)) == q && Maximal(Groups(q))
    decreases |q|
  {
    if q != [] {
      if Ctcp(q[0]) {
        GroupsArePieces(q[1..]);
        NextGroup([q[0]], q[1..]);
        HeadAndTail(q);
      } else {
        var g, rest := q[..Lead(q)], q[Lead(q)..];
        GroupsArePieces(rest);
        NextGroup(g, rest);
        CutOnce(q, Lead(q));
      }
    }
  }

  lemma NextGroup(g: seq<string>, rest: seq<string>)
    requires OneGroup(g) && Flatten(Groups(rest)) == rest && Maximal(Groups(rest))
    requires Ctcp(g[0]) || rest == [] || Ctcp(rest[0])
    ensures Flatten([g] + Groups(rest)) == g + rest && Maximal([g] + Groups(rest))
  {
    if rest != [] {
      GroupsStart(rest);
    }
    PiecesMore(g, rest);
  }

  lemma PiecesMore(g: seq<string>, rest: seq<string>)
    requires OneGroup(g) && Flatten(Groups(rest)) == rest && Maximal(Groups(rest))
    requires rest != [] ==> Groups(rest) != [] && Groups(rest)[0] != [] && (Ctcp(g[0]) || Ctcp(Groups(rest)[0][0]))
    ensures Flatten([g] + Groups(rest)) == g + rest && Maximal([g] + Groups(rest))
  {
    assert ([g] + Groups(rest))[1..] == Groups(rest);
  }

  // ---------------------------------------------------------------- the receiver

  predicate LineFree(line: string) {
    line != "" && forall c :: c in line ==> c !in LINE_ENDS
  }

  predicate AllLines(q: seq<string>) {
    forall i :: 0 <= i < |q| ==> LineFree(q[i])
  }

  /** The lines that the receiver makes of the messages. */
  function Split(ms: seq<string>): seq<string> {
    if ms == [] then [] else Tokens(ms[0], LINE_ENDS) + Split(ms[1..])
  }

  lemma LineAndMore(line: string, rest: string)
    requires LineFree(line)
    ensures Tokens(line + "\n" + rest, LINE_ENDS) == [line] + Tokens(rest, LINE_ENDS)
  {
    assert line + "\n" + rest == line + ("\n" + rest) && ("\n" + rest)[1..] == rest;
    TokensOfRun(line, "\n" + rest, LINE_ENDS);
  }

  lemma OneLine(line: string)
    requires LineFree(line)
    ensures Tokens(line, LINE_ENDS) == [line]
  {
    assert line + "" == line;
    TokensOfRun(line, "", LINE_ENDS);
    NoLines();
  }

  lemma NoLines()
    ensures Tokens("", LINE_ENDS) == []
  {}

  lemma SplitStep(line: string, text: string, lines: seq<string>)
    requires LineFree(line) && Tokens(text, LINE_ENDS) == lines
    ensures Tokens(line + "\n" + text, LINE_ENDS) == [line] + lines
  {
    LineAndMore(line, text);
  }

  lemma {:induction false} SplitGroup(g: seq<string>)
    requires AllLines(g)
    ensures Tokens(Joined(g), LINE_ENDS) == g
  {
    if g == [] {
      NoLines();
    } else if |g| == 1 {
      OneLine(g[0]);
    } else {
      SplitGroup(g[1..]);
      SplitStep(g[0], Joined(g[1..]), g[1..]);
      assert [g[0]] + g[1..] == g;
    }
  }

  lemma {:induction false} SplitGroups(gs: seq<seq<string>>)
    requires forall i :: 0 <= i < |gs| ==> AllLines(gs[i])
    ensures Split(JoinAll(gs)) == Flatten(gs)
  {
    if gs != [] {
      SplitGroup(gs[0]);
      SplitGroups(gs[1..]);
      JoinFirst(gs[0], gs[1..]);
      assert [gs[0]] + gs[1..] == gs;
    }
  }

  lemma {:induction false} GroupsOfLines(q: seq<string>)
    requires AllLines(q)
    ensures forall i :: 0 <= i < |Groups(q)| ==> AllLines(Groups(q)[i])
    decreases |q|
  {
    if q != [] {
      GroupsOfLines(if Ctcp(q[0]) then q[1..] else q[Lead(q)..]);
    }
  }

  /** Splitting what one flush sends gives back the queue. */
  lemma FlushSplits(q: seq<string>)
    requires AllLines(q)
    ensures Split(FlushFrom("", q)) == q
  {
    FlushIsGroups(q);
    GroupsOfLines(q);
    SplitGroups(Groups(q));
    GroupsArePieces(q);
  }

  lemma {:induction false} SplitAppend(a: seq<string>, b: seq<string>)
    ensures Split(a + b) == Split(a) + Split(b)
  {
    if a == [] {
      assert a + b == b;
    } else {
      assert (a + b)[0] == a[0] && (a + b)[1..] == a[1..] + b;
      SplitAppend(a[1..], b);
      Associative(Tokens(a[0], LINE_ENDS), Split(a[1..]), Split(b));
    }
  }

  // ---------------------------------------------------------------- the entity

  class ConvEntity {
    var enqueued: seq<string>
    /** How many timers are pending. */
    var timers: nat
    /** The arguments of `sendMessage`, in order. */
    ghost var sent: seq<string>

    /** A timer is pending exactly while something waits. */
    ghost predicate Valid()
      reads this
    {
      timers == if enqueued == [] then 0 else 1
    }

    constructor ()
      ensures Valid() && enqueued == [] && sent == []
    {
      enqueued, timers, sent := [], 0, [];
    }

    method SendMessage(text: string)
      modifies this`sent
      ensures sent == old(sent) + [text]
    {
      sent := sent + [text];
    }

    /** `enqueueMessage`. */
    method EnqueueMessage(text: string, delay: nat)
      requires Valid()
      modifies this
      ensures Valid()
      ensures delay != 0 ==> enqueued == old(enqueued) + [text] && sent == old(sent)
      ensures delay == 0 ==> enqueued == old(enqueued) && sent == old(sent) + [text]
    {
      if delay == 0 {
        SendMessage(text);
        return;
      }
      enqueued := enqueued + [text];
      if |enqueued| == 1 {
        timers := timers + 1;
      }
    }

    /** `flush_messages`: the timer fires once. */
    method FlushMessages()
      requires Valid() && timers > 0
      modifies this
      ensures Valid() && enqueued == [] && sent == old(sent) + FlushFrom("", old(enqueued))
    {
      ghost var q, before := enqueued, sent;
      var buf := "";
      while enqueued != []
        invariant timers == old(timers)
        invariant sent + FlushFrom(buf, enqueued) == before + FlushFrom("", q)
        decreases |enqueued|
      {
        if Ctcp(enqueued[0]) {
          CtcpSent(sent, buf, enqueued);
          if buf != "" {
            SendMessage(buf);
            buf := "";
          }
          SendMessage(enqueued[0]);
        } else {
          ghost var held := buf;
          if buf != "" {
            buf := buf + "\n";
          }
          buf := buf + enqueued[0];
          assert buf == Onto(held, enqueued[0]);
        }
        enqueued := enqueued[1..];
      }
      assert sent + [] == sent;
      if buf != "" {
        SendMessage(buf);
      }
      timers := timers - 1;
    }
  }

  lemma CtcpSent(sent: seq<string>, buf: string, q: seq<string>)
    requires q != [] && Ctcp(q[0])
    ensures sent + FlushFrom(buf, q)
         == (if buf == "" then sent else sent + [buf]) + [q[0]] + FlushFrom("", q[1..])
  {
    var tail := FlushFrom("", q[1..]);
    assert sent + (Held(buf) + [q[0]] + tail) == sent + Held(buf) + [q[0]] + tail;
    assert sent + [] == sent;
  }

  /** A line that is sent without a delay overtakes those that wait: the order is kept
      exactly when nothing else waits than the same line. */
  lemma Overtakes(sent: seq<string>, q: seq<string>, text: string)
    requires LineFree(text)
    ensures Split(sent + [text]) + q == Split(sent) + q + [text] <==> forall i :: 0 <= i < |q| ==> q[i] == text
  {
    SplitOne(sent, text);
    var s := Split(sent);
    SameTail(s, q + [text], [text] + q);
    Associative(s, q, [text]);
    Associative(s, [text], q);
    AllTheSame(q, text);
  }

  lemma {:induction false} AllTheSame(q: seq<string>, text: string)
    ensures q + [text] == [text] + q <==> forall i :: 0 <= i < |q| ==> q[i] == text
  {
    if q + [text] == [text] + q {
      forall i | 0 <= i < |q|
        ensures q[i] == text
      {
        EachIsText(q, text, i);
      }
    }
  }

  lemma {:induction false} EachIsText(q: seq<string>, text: string, i: nat)
    requires q + [text] == [text] + q && i < |q|
    ensures q[i] == text
  {
    assert (q + [text])[i] == ([text] + q)[i];
    if i > 0 {
      EachIsText(q, text, i - 1);
    }
  }

  lemma SplitOne(sent: seq<string>, text: string)
    requires LineFree(text)
    ensures Split(sent + [text]) == Split(sent) + [text]
  {
    SplitAppend(sent, [text]);
    OneLine(text);
    assert [text][1..] == [] && Split([]) == [] && [text] + [] == [text];
  }

  lemma SameTail(s: seq<string>, a: seq<string>, b: seq<string>)
    ensures s + a == s + b <==> a == b
  {
    if s + a == s + b {
      assert a == (s + a)[|s|..] == (s + b)[|s|..] == b;
    }
  }

  lemma SentSplits(before: seq<string>, q: seq<string>)
    requires AllLines(q)
    ensures Split(before + FlushFrom("", q)) == Split(before) + q
  {
    SplitAppend(before, FlushFrom("", q));
    FlushSplits(q);
  }

  // ---------------------------------------------------------------- whole runs

  datatype Event = Enqueue(line: string) | Fire

  /** What waits, and what was sent, with a delay throughout. */
  datatype State = State(waiting: seq<string>, sent: seq<string>)

  function After(es: seq<Event>): State {
    if es == [] then State([], [])
    else
      var st, e := After(es[..|es| - 1]), es[|es| - 1];
      if e.Enqueue? then st.(waiting := st.waiting + [e.line])
      else State([], st.sent + FlushFrom("", st.waiting))
  }

  function Enqueued(es: seq<Event>): seq<string> {
    if es == [] then []
    else Enqueued(es[..|es| - 1]) + (if es[|es| - 1].Enqueue? then [es[|es| - 1].line] else [])
  }

  /** Whenever the timers fire, the receiver has got the first of the lines that were
      enqueued, in order, each once, and the others wait. */
  lemma {:induction false} NothingIsLost(es: seq<Event>)
    requires forall i :: 0 <= i < |es| && es[i].Enqueue? ==> LineFree(es[i].line)
    ensures AllLines(After(es).waiting)
    ensures Split(After(es).sent) + After(es).waiting == Enqueued(es)
  {
    if es != [] {
      var front, e := es[..|es| - 1], es[|es| - 1];
      NothingIsLost(front);
      var st := After(front);
      if e.Enqueue? {
        Associative(Split(st.sent), st.waiting, [e.line]);
      } else {
        SentSplits(st.sent, st.waiting);
        assert Split(st.sent) + st.waiting + [] == Split(st.sent) + st.waiting;
      }
    }
  }

  // ---------------------------------------------------------------- what is sent

  /** Plain lines are sent together, a line break between them; one that starts with
      the character 1 is sent alone. */
  lemma LinesAndCtcp(a: string, b: string, c: string)
    requires a != "" && a[0] as int != 1 && b != "" && b[0] as int != 1 && c != "" && c[0] as int == 1
    ensures FlushFrom("", [a, b]) == [a + [10 as char] + b] && FlushFrom("", [a, c, b]) == [a, c, b]
  {
    assert [a, b][1..] == [b] && [b][1..] == [];
    assert [a, c, b][1..] == [c, b] && [c, b][1..] == [b];
    assert FlushFrom(a, [b]) == [a + "\n" + b];
    assert FlushFrom("", [b]) == [b] && FlushFrom(a, [c, b]) == [a] + [c] + [b];
  }

  /** A line with a line break in it is split where it is received: at a carriage return
      or a line feed. */
  lemma SplitAt(a: string, b: string, end: char)
    requires LineFree(a) && LineFree(b) && (end as int == 10 || end as int == 13)
    ensures Split([a + [end] + b]) == [a, b]
  {
    assert end in LINE_ENDS;
    assert a + [end] + b == a + ([end] + b) && ([end] + b)[1..] == b;
    TokensOfRun(a, [end] + b, LINE_ENDS);
    OneLine(b);
    assert [a + [end] + b][1..] == [] && Split([]) == [];
    assert [a] + [b] + [] == [a, b];
  }

  lemma FreeOfLines(line: string)
    ensures LineFree(line) <==> line != "" && forall c :: c in line ==> c as int != 10 && c as int != 13
  {}
}
