/** The protocol between the master of the fork daemon and its children: framing,
    and the transition system of the master. */
module Ipc {
  import opened Basics
  import opened Codec
  import opened Text
  import opened Tokenizer

  /** `sizeof buf - 1`. */
  const PEEK: nat := 511
  const CRLF: string := "\r\n"

  // ---------------------------------------------------------------- framing

  /** What a C function sees of a buffer. */
  function CString(s: string): (r: string)
    ensures |r| <= |s| && r == s[..|r|] && NUL !in r
    ensures |r| < |s| ==> s[|r|] == NUL
  {
    if s == "" || s[0] == NUL then "" else [s[0]] + CString(s[1..])
  }

  predicate CrlfAt(s: string, i: nat) {
    i + 2 <= |s| && s[i] == '\r' && s[i + 1] == '\n'
  }

  /** `strstr(s, "\r\n")`: the first occurrence, or the length. */
  function FindCrlf(s: string): (r: nat)
    ensures r <= |s|
    ensures r < |s| ==> CrlfAt(s, r)
    ensures forall i: nat :: i < r ==> !CrlfAt(s, i)
  {
    if s == "" then 0
    else if CrlfAt(s, 0) then 0
    else
      NoEarlier(s, FindCrlf(s[1..]));
      1 + FindCrlf(s[1..])
  }

  lemma NoEarlier(s: string, r: nat)
    requires s != "" && !CrlfAt(s, 0) && forall i: nat :: i < r ==> !CrlfAt(s[1..], i)
    ensures forall i: nat :: i < r + 1 ==> !CrlfAt(s, i)
  {
    forall i: nat | i < r + 1
      ensures !CrlfAt(s, i)
    {
      if i > 0 {
        assert !CrlfAt(s[1..], i - 1);
      }
    }
  }

  function Peeked(inbox: string): string {
    inbox[..if |inbox| < PEEK then |inbox| else PEEK]
  }

  /** Where `ipc_read` finds the end of the first line, if it does. */
  function Eol(inbox: string): Option<nat> {
    var seen := CString(Peeked(inbox));
    var e := FindCrlf(seen);
    if e < |seen| then Some(e) else None
  }

  /** The message that one call of `ipc_read` takes from what has arrived, and what it leaves. */
  function Next(inbox: string): Option<(Line, string)> {
    var e := Eol(inbox);
    if e.None? then None else Some((ParseLine(inbox[..e.value]), inbox[e.value + 2..]))
  }

  predicate NoCrlf(s: string) {
    forall i: nat :: i < |s| ==> !CrlfAt(s, i)
  }

  lemma FindFirst(s: string, e: nat)
    requires e < |s| && CrlfAt(s, e) && forall i: nat :: i < e ==> !CrlfAt(s, i)
    ensures FindCrlf(s) == e
  {
    var r := FindCrlf(s);
    assert !(r < e) && !(e < r);
  }

  lemma CrlfAgree(s: string, t: string, i: nat)
    requires i + 2 <= |s| <= |t| && s == t[..|s|]
    ensures CrlfAt(s, i) <==> CrlfAt(t, i)
  {}

  /** A line that has arrived whole is taken exactly when it fits in the buffer with
      its end of line and holds no NUL. */
  lemma TakenIff(text: string, rest: string)
    requires NoCrlf(text)
    ensures Eol(text + CRLF + rest) == Some(|text|) <==> |text| + 2 <= PEEK && NUL !in text
    ensures Eol(text + CRLF + rest).Some? ==> Eol(text + CRLF + rest).value == |text|
  {
    var inbox := text + CRLF + rest;
    var view := Peeked(inbox);
    var seen := CString(view);
    var n := |text|;
    assert CrlfAt(inbox, n) && seen == inbox[..|seen|];
    forall i: nat | i < n
      ensures !CrlfAt(inbox, i)
    {
      if i + 1 < n {
        assert !CrlfAt(text, i);
        assert inbox[i] == text[i] && inbox[i + 1] == text[i + 1];
      } else {
        assert inbox[i + 1] == '\r';
      }
    }
    forall i: nat | i + 2 <= |seen|
      ensures CrlfAt(seen, i) <==> CrlfAt(inbox, i)
    {
      CrlfAgree(seen, inbox, i);
    }
    if n + 2 <= PEEK && NUL !in text {
      ReachesEnd(text, rest);
      FindFirst(seen, n);
    }
    var e := FindCrlf(seen);
    if e < |seen| {
      assert e == n;
      assert forall k :: 0 <= k < n ==> text[k] == seen[k];
    }
  }

  lemma ReachesEnd(text: string, rest: string)
    requires |text| + 2 <= PEEK && NUL !in text
    ensures |CString(Peeked(text + CRLF + rest))| >= |text| + 2
  {
    var view := Peeked(text + CRLF + rest);
    var n := |CString(view)|;
    assert |view| >= |text| + 2;
    assert view[|text|] == '\r' && view[|text| + 1] == '\n';
    assert forall k :: 0 <= k < |text| ==> view[k] == text[k] && text[k] in text;
  }

  // ---------------------------------------------------------------- one message

  /** What `ipc_master_send` and `ipc_child_send` write. */
  function Wire(l: Line): string {
    FormatLine(l) + CRLF
  }

  predicate Deliverable(l: Line) {
    LineSurvives(l) && NoCrlf(FormatLine(l)) && NUL !in FormatLine(l) && |FormatLine(l)| + 2 <= PEEK
  }

  /** The next call takes exactly the message that was written, and nothing of what
      follows it, if and only if the message is deliverable. */
  lemma MessageTaken(l: Line, rest: string)
    ensures Next(Wire(l) + rest) == Some((l, rest)) <==> Deliverable(l)
  {
    var text := FormatLine(l);
    var inbox := Wire(l) + rest;
    LineRoundTrip(l);
    if NoCrlf(text) {
      TakenIff(text, rest);
      assert inbox[..|text|] == text && inbox[|text| + 2..] == rest;
    } else {
      CutShort(text, rest);
    }
  }

  lemma CutShort(text: string, rest: string)
    requires !NoCrlf(text)
    ensures var e := Eol(text + CRLF + rest); e.Some? ==> e.value < |text|
  {
    var inbox := text + CRLF + rest;
    var seen := CString(Peeked(inbox));
    var i: nat :| i < |text| && CrlfAt(text, i);
    assert CrlfAt(inbox, i);
    if FindCrlf(seen) < |seen| && i < FindCrlf(seen) {
      CrlfAgree(seen, inbox, i);
    }
  }

  lemma PartWaits(l: Line, part: string)
    requires Deliverable(l) && |part| < |Wire(l)| && part == Wire(l)[..|part|]
    ensures Next(part) == None
  {
    var seen := CString(Peeked(part));
    var text := FormatLine(l);
    forall i: nat | i + 2 <= |seen|
      ensures !CrlfAt(seen, i)
    {
      CrlfAgree(seen, Wire(l), i);
      if i + 1 < |text| {
        assert !CrlfAt(text, i);
        CrlfAgree(text, Wire(l), i);
      } else {
        assert Wire(l)[i + 1] == '\r';
      }
    }
  }

  // ---------------------------------------------------------------- the stream

  /** What happens on one socket: bytes arrive, `ipc_read` is called. */
  datatype Event = Arrive(bytes: string) | Poll

  function Stream(ms: seq<Line>): string {
    if ms == [] then "" else Stream(ms[..|ms| - 1]) + Wire(ms[|ms| - 1])
  }

  function Arrived(es: seq<Event>): string {
    if es == [] then ""
    else Arrived(es[..|es| - 1]) + (if es[|es| - 1].Arrive? then es[|es| - 1].bytes else "")
  }

  /** The unread bytes and the messages that were dispatched. */
  function Receive(es: seq<Event>): (string, seq<Line>) {
    if es == [] then ("", []) else Received(Receive(es[..|es| - 1]), es[|es| - 1])
  }

  function Received(st: (string, seq<Line>), e: Event): (string, seq<Line>) {
    match e
    case Arrive(bytes) => (st.0 + bytes, st.1)
    case Poll =>
      var n := Next(st.0);
      if n.None? then st else (n.value.1, st.1 + [n.value.0])
  }

  predicate Prefix<T(==)>(a: seq<T>, b: seq<T>) {
    |a| <= |b| && a == b[..|a|]
  }

  /** What has been heard is a prefix of what was sent, and the unread bytes are the
      rest of what arrived. */
  predicate Faithful(st: (string, seq<Line>), arrived: string, ms: seq<Line>) {
    Prefix(st.1, ms) && Stream(st.1) + st.0 == arrived
  }

  lemma {:induction false} StreamCut(ms: seq<Line>, n: nat)
    requires n <= |ms|
    ensures |Stream(ms[..n])| <= |Stream(ms)| && Stream(ms[..n]) == Stream(ms)[..|Stream(ms[..n])|]
    ensures n < |ms| ==> Prefix(Stream(ms[..n]) + Wire(ms[n]), Stream(ms))
  {
    if n == |ms| {
      assert ms[..n] == ms;
    } else {
      StreamCut(ms[..|ms| - 1], n);
      assert ms[..|ms| - 1][..n] == ms[..n];
    }
  }

  lemma SamePlace(done: string, w: string, unread: string, whole: string)
    requires Prefix(done + w, whole) && Prefix(done + unread, whole)
    ensures if |unread| < |w| then Prefix(unread, w) else unread == w + unread[|w|..]
  {
    assert forall k :: 0 <= k < |w| ==> w[k] == (done + w)[|done| + k] == whole[|done| + k];
    assert forall k :: 0 <= k < |unread| ==> unread[k] == (done + unread)[|done| + k] == whole[|done| + k];
  }

  lemma PollNothing(st: (string, seq<Line>), arrived: string, ms: seq<Line>)
    requires Faithful(st, arrived, ms) && Prefix(arrived, Stream(ms)) && |st.1| == |ms|
    ensures Next(st.0) == None
  {
    assert st.1 == ms && |st.0| == 0;
  }

  lemma PollPart(st: (string, seq<Line>), arrived: string, ms: seq<Line>)
    requires Faithful(st, arrived, ms) && Prefix(arrived, Stream(ms)) && |st.1| < |ms|
    requires Deliverable(ms[|st.1|]) && |st.0| < |Wire(ms[|st.1|])|
    ensures Next(st.0) == None && arrived != Stream(ms)
  {
    var w := Wire(ms[|st.1|]);
    StreamCut(ms, |st.1|);
    SamePlace(Stream(st.1), w, st.0, Stream(ms));
    PartWaits(ms[|st.1|], st.0);
    assert |arrived| < |Stream(st.1) + w|;
  }

  lemma PollWhole(st: (string, seq<Line>), arrived: string, ms: seq<Line>)
    requires Faithful(st, arrived, ms) && Prefix(arrived, Stream(ms)) && |st.1| < |ms|
    requires Deliverable(ms[|st.1|]) && |st.0| >= |Wire(ms[|st.1|])|
    ensures Faithful(Received(st, Poll), arrived, ms) && |Received(st, Poll).1| == |st.1| + 1
  {
    var m := ms[|st.1|];
    var w := Wire(m);
    StreamCut(ms, |st.1|);
    SamePlace(Stream(st.1), w, st.0, Stream(ms));
    var rest := st.0[|w|..];
    MessageTaken(m, rest);
    StreamMore(st.1, m);
    PrefixMore(st.1, ms);
    Associative(Stream(st.1), w, rest);
  }

  lemma PrefixMore(heard: seq<Line>, ms: seq<Line>)
    requires Prefix(heard, ms) && |heard| < |ms|
    ensures Prefix(heard + [ms[|heard|]], ms)
  {}

  lemma StreamMore(ms: seq<Line>, m: Line)
    ensures Stream(ms + [m]) == Stream(ms) + Wire(m)
  {
    assert (ms + [m])[..|ms|] == ms;
  }

  lemma PollFaithful(st: (string, seq<Line>), arrived: string, ms: seq<Line>)
    requires Faithful(st, arrived, ms) && Prefix(arrived, Stream(ms))
    requires forall m :: m in ms ==> Deliverable(m)
    ensures Faithful(Received(st, Poll), arrived, ms)
    ensures arrived == Stream(ms) && |st.1| < |ms| ==> |Received(st, Poll).1| == |st.1| + 1
  {
    if |st.1| == |ms| {
      PollNothing(st, arrived, ms);
    } else if |st.0| < |Wire(ms[|st.1|])| {
      PollPart(st, arrived, ms);
    } else {
      PollWhole(st, arrived, ms);
    }
  }

  lemma ArriveFaithful(st: (string, seq<Line>), arrived: string, bytes: string, ms: seq<Line>)
    requires Faithful(st, arrived, ms)
    ensures Faithful(Received(st, Arrive(bytes)), arrived + bytes, ms)
  {
    Associative(Stream(st.1), st.0, bytes);
  }

  /** However the bytes are split into arrivals, and whenever `ipc_read` is called,
      the messages dispatched are a prefix of those sent, in order, each once. */
  lemma {:induction false} StreamRefines(es: seq<Event>, ms: seq<Line>)
    requires forall m :: m in ms ==> Deliverable(m)
    requires Prefix(Arrived(es), Stream(ms))
    ensures Faithful(Receive(es), Arrived(es), ms)
  {
    if es != [] {
      var front, e := es[..|es| - 1], es[|es| - 1];
      assert Prefix(Arrived(front), Stream(ms));
      StreamRefines(front, ms);
      var st := Receive(front);
      if e.Arrive? {
        ArriveFaithful(st, Arrived(front), e.bytes, ms);
      } else {
        PollFaithful(st, Arrived(front), ms);
      }
    }
  }

  /** `n` calls of `ipc_read`, one after another. */
  function Polled(st: (string, seq<Line>), n: nat): (string, seq<Line>) {
    if n == 0 then st else Received(Polled(st, n - 1), Poll)
  }

  lemma {:induction false} PollsHear(st: (string, seq<Line>), ms: seq<Line>, n: nat)
    requires forall m :: m in ms ==> Deliverable(m)
    requires Faithful(st, Stream(ms), ms)
    ensures Faithful(Polled(st, n), Stream(ms), ms)
    ensures n <= |ms| ==> |Polled(st, n).1| >= n
  {
    if n > 0 {
      PollsHear(st, ms, n - 1);
      PollFaithful(Polled(st, n - 1), Stream(ms), ms);
    }
  }

  /** Once everything has arrived, as many calls as messages hear everything. */
  lemma AllIsHeard(es: seq<Event>, ms: seq<Line>)
    requires forall m :: m in ms ==> Deliverable(m)
    requires Arrived(es) == Stream(ms)
    ensures Polled(Receive(es), |ms|).1 == ms
  {
    StreamRefines(es, ms);
    PollsHear(Receive(es), ms, |ms|);
    HeardAll(Polled(Receive(es), |ms|), Stream(ms), ms);
  }

  lemma HeardAll(st: (string, seq<Line>), arrived: string, ms: seq<Line>)
    requires Faithful(st, arrived, ms) && |st.1| >= |ms|
    ensures st.1 == ms
  {}

  /** A message that does not fit, or that holds a NUL, is never dispatched and
      blocks everything behind it. */
  lemma {:induction false} StuckForever(text: string, rest: string, es: seq<Event>, st: (string, seq<Line>))
    requires NoCrlf(text) && (|text| + 2 > PEEK || NUL in text)
    requires st.0 == text + CRLF + rest
    ensures ReceiveFrom(st, es).1 == st.1
    decreases |es|
  {
    if es != [] {
      TakenIff(text, rest);
      if es[0].Arrive? {
        assert st.0 + es[0].bytes == text + CRLF + (rest + es[0].bytes);
        StuckForever(text, rest + es[0].bytes, es[1..], Received(st, es[0]));
      } else {
        StuckForever(text, rest, es[1..], st);
      }
    }
  }

  function ReceiveFrom(st: (string, seq<Line>), es: seq<Event>): (string, seq<Line>)
    decreases |es|
  {
    if es == [] then st else ReceiveFrom(Received(st, es[0]), es[1..])
  }

  /** The end of a line, and how much of it the buffer takes. */
  lemma LineEndIs(l: Line)
    ensures Wire(l) == FormatLine(l) + [13 as char, 10 as char] && PEEK == 511 && NUL as int == 0
  {}
}
