/** `coincoin_parse_message` and its helpers on the list of posts in memory. */
module BoardRoom {
  import opened Basics
  import opened Board
  import opened Decimal
  import opened Text

  /** `CoinCoinMessage`, an element of the list. */
  class Message {
    const id: int
    const from: string
    const timestamp: int
    var text: string
    var ref: nat
    var multiple: bool

    /** `coincoin_message_new`, of a well-formed post. */
    constructor (p: Post)
      requires p.Post?
      ensures EntryAt(this) == EntryOf(p)
    {
      id, from, timestamp, text, ref, multiple := p.id, p.from, p.timestamp, p.text, 1, false;
    }
  }

  function EntryAt(m: Message): Entry
    reads m
  {
    Entry(m.id, m.from, m.text, m.timestamp, m.ref, m.multiple)
  }

  function Entries(ms: seq<Message>): (r: seq<Entry>)
    reads set m | m in ms
    ensures |r| == |ms| && forall i :: 0 <= i < |ms| ==> r[i] == EntryAt(ms[i])
  {
    if ms == [] then [] else [EntryAt(ms[0])] + Entries(ms[1..])
  }

  /** The list as it is built, and, newest first, its objects and what they hold. */
  ghost predicate Made(made: seq<Message>, recent: seq<Message>, es: seq<Entry>)
    reads set m | m in recent
  {
    recent == Reversed(made) && Distinct(recent) && es == Entries(recent)
  }

  ghost predicate Distinct(ms: seq<Message>) {
    forall i, j :: 0 <= i < j < |ms| ==> ms[i] != ms[j]
  }

  // ---------------------------------------------------------------- texts

  /** The end of a totoz: behind its closing bracket, or the length. */
  method BracketEnd(s: string, start: nat) returns (end: nat)
    requires start <= |s|
    ensures start <= end <= |s| && end - start == Bracket(s[start..])
  {
    end := start;
    while end < |s| && s[end] != ']'
      invariant start <= end <= |s| && Bracket(s[start..]) == end - start + Bracket(s[end..])
    {
      assert s[end..][1..] == s[end + 1..];
      end := end + 1;
    }
  }

  method ClockEnd(s: string, start: nat) returns (end: nat)
    requires start <= |s|
    ensures start <= end <= |s| && end - start == |ClockRun(s[start..])|
  {
    end := start;
    while end < |s| && ClockChar(s[end])
      invariant start <= end <= |s| && |ClockRun(s[start..])| == end - start + |ClockRun(s[end..])|
    {
      assert s[end..][1..] == s[end + 1..];
      end := end + 1;
    }
  }

  /** The search for the post that shows the clock. */
  method Search(c: Clock, ms: seq<Message>, offset: int) returns (i: nat)
    ensures i == Find(c, Entries(ms), offset)
  {
    i := 0;
    ghost var h := Entries(ms);
    while i < |ms| && !Matches(c, EntryAt(ms[i]), offset)
      invariant i <= |ms| && Find(c, h, offset) == i + Find(c, h[i..], offset)
    {
      assert h[i..][1..] == h[i + 1..];
      i := i + 1;
    }
  }

  method QuoteClock(run: string, super: nat, ms: seq<Message>, offset: int) returns (s: string)
    ensures s == Quoted(run, super, Entries(ms), offset)
  {
    var c := ReadClock(run, super);
    if c.NoClock? {
      return run;
    }
    var i := Search(c, ms, offset);
    s := "";
    if i < |ms| {
      s := ms[i].from + ": ";
    }
    s := s + Blue(run);
  }

  /** `coincoin_message_ref`. */
  method MessageRef(text: string, ms: seq<Message>, offset: int) returns (s: string)
    ensures s == Refer(text, Entries(ms), offset)
  {
    ghost var h := Entries(ms);
    var start := 0;
    s := "";
    assert text[0..] == text;
    while start < |text|
      invariant start <= |text| && s + Refer(text[start..], h, offset) == Refer(text, h, offset)
      decreases |text| - start
    {
      var piece, next := PieceAt(text, start, ms, offset);
      ReferStep(s, text, start, next, h, offset);
      s := s + piece;
      start := next;
    }
    assert start == |text| && s + "" == s;
  }

  /** One turn of its loop. */
  method PieceAt(text: string, start: nat, ms: seq<Message>, offset: int) returns (piece: string, next: nat)
    requires start < |text|
    ensures start < next <= |text|
    ensures (piece, next - start) == Piece(text[start..], Entries(ms), offset)
  {
    ghost var s := text[start..];
    next := start + 1;
    piece := [text[start]];
    if text[start] == '[' && next < |text| && text[next] == ':' {
      var end := BracketEnd(text, start);
      if end < |text| {
        next := end + 1;
        piece := Green(text[start..next]);
        assert s[..end + 1 - start] == text[start..next];
      }
    } else if ClockChar(text[start]) {
      next := ClockEnd(text, start);
      assert s[..next - start] == text[start..next] && s[next - start..] == text[next..];
      piece := QuoteClock(text[start..next], Superscript(text[next..]), ms, offset);
    }
  }

  method WordEnd(s: string, start: nat) returns (next: nat)
    requires start < |s|
    ensures start < next <= |s| && next - start == WordLen(s[start..])
  {
    next := start + 1;
    while next < |s| && s[next] != ' '
      invariant start < next <= |s| && WordLen(s[start..]) == next - start - 1 + WordLen(s[next - 1..])
    {
      assert s[next - 1..][1..] == s[next..];
      next := next + 1;
    }
  }

  method NickEnd(s: string, start: nat) returns (end: nat)
    requires start <= |s|
    ensures start <= end <= |s| && end - start == NickLen(s[start..])
  {
    end := start;
    while end < |s| && s[end] != ':' && s[end] != C2
      invariant start <= end <= |s| && NickLen(s[start..]) == end - start + NickLen(s[end..])
    {
      assert s[end..][1..] == s[end + 1..];
      end := end + 1;
    }
  }

  /** The search for the post of `nick` with that number. */
  method FindNth(nick: string, ref: nat, ms: seq<Message>) returns (m: nat)
    ensures m == Nth(Entries(ms), nick, ref)
  {
    m := 0;
    var found := 0;
    ghost var h, left: int := Entries(ms), ref;
    while m < |ms|
      invariant m <= |ms| && left == ref - found && Nth(h, nick, ref) == m + Nth(h[m..], nick, left)
    {
      NthStep(h, nick, left, m);
      if Lower(ms[m].from) == Lower(nick) {
        found := found + 1;
        left := left - 1;
        if found == ref {
          assert left == 0 && Nth(h, nick, ref) == m;
          return;
        }
      }
      m := m + 1;
    }
  }

  /** Which post the word from `start` to `next` names. */
  method NamedAt(s: string, start: nat, next: nat, ms: seq<Message>) returns (m: nat)
    requires start < next <= |s| && next - start == WordLen(s[start..])
    ensures m == Named(s[start..], Entries(ms))
  {
    ghost var t, n := s[start..], next - start;
    Slices(s, start, next, t);
    if next > start + 2 && next < |s| && s[next - 1] == ':' {
      var end := NickEnd(s, start);
      Slices(s, start, end, t);
      var nick, rest := s[start..end], s[end..];
      m := FindNth(nick, Number(rest), ms);
      NamesSomebody(t, n, end - start, nick, rest, Entries(ms));
    } else {
      m := |ms|;
      NamesNobody(t, n, Entries(ms));
    }
  }

  /** `coincoin_convert_message`, past the stripping of HTML. */
  method ConvertMessage(msg: string, ms: seq<Message>, offset: int) returns (s: string)
    ensures s == Convert(msg, Entries(ms), offset)
  {
    ghost var h := Entries(ms);
    var start := 0;
    s := "";
    assert msg[0..] == msg;
    while start < |msg|
      invariant start <= |msg| && s + Convert(msg[start..], h, offset) == Convert(msg, h, offset)
    {
      var word, next := WordAt(msg, start, ms, offset);
      ConvertStep(s, msg, start, next, h, offset);
      s := s + word;
      start := next;
    }
    assert start == |msg| && s + "" == s;
  }

  method WordAt(msg: string, start: nat, ms: seq<Message>, offset: int) returns (word: string, next: nat)
    requires start < |msg|
    ensures start < next <= |msg|
    ensures (word, next - start) == Word(msg[start..], Entries(ms), offset)
  {
    next := WordEnd(msg, start);
    var m := NamedAt(msg, start, next, ms);
    if m < |ms| {
      word := ClockText(EntryAt(ms[m]), offset);
    } else {
      if next < |msg| {
        next := next + 1;
      }
      word := msg[start..next];
      assert msg[start..][..next - start] == word;
      assert next == |msg| ==> msg[start..] == word;
    }
  }

  // ---------------------------------------------------------------- the room

  class Room {
    const settings: Settings
    /** `CoinCoinAccount::messages`. */
    var messages: seq<Message>
    /** Who is in the chat, but for the account itself. */
    var roster: set<string>

    ghost predicate Valid()
      reads this
    {
      Distinct(messages)
    }

    ghost function History(): seq<Entry>
      reads this, set m | m in messages
    {
      Entries(messages)
    }

    constructor (settings: Settings)
      ensures Valid() && this.settings == settings && History() == [] && roster == {}
    {
      this.settings, messages, roster := settings, [], {};
    }

    method IsKnown(id: int) returns (known: bool)
      ensures known <==> Known(History(), id)
    {
      for iter := 0 to |messages|
        invariant forall i :: 0 <= i < iter ==> messages[i].id != id
      {
        if messages[iter].id == id {
          assert History()[iter].id == id;
          return true;
        }
      }
      return false;
    }

    /** The first loop of `coincoin_parse_message`: the posts before the first known
        one are made into messages, oldest first, and their authors enter. It looks
        for known posts in the old list only, so that the two passes here do the same. */
    method Collect(posts: seq<Post>) returns (made: seq<Message>, ghost recent: seq<Message>, ghost es: seq<Entry>)
      modifies this`roster
      ensures Made(made, recent, es) && forall i :: 0 <= i < |recent| ==> fresh(recent[i])
      ensures es == Recent(posts, old(History())) && History() == old(History())
      ensures roster == old(roster) + (Authors(es) - {settings.self})
    {
      var n := CountNew(posts);
      MadeAreRecent(posts, History(), n);
      made, recent, es := MakeAll(posts, n);
    }

    /** Where the loop stops: at the first post that has been shown already. */
    method CountNew(posts: seq<Post>) returns (n: nat)
      ensures n <= |posts| && forall j :: 0 <= j < n ==> !Known(History(), posts[j].id)
      ensures n == |posts| || Known(History(), posts[n].id)
    {
      n := 0;
      while n < |posts|
        invariant n <= |posts| && forall j :: 0 <= j < n ==> !Known(History(), posts[j].id)
      {
        var known := IsKnown(posts[n].id);
        if known {
          return;
        }
        n := n + 1;
      }
    }

    /** The messages of the first `n` posts. */
    method MakeAll(posts: seq<Post>, n: nat) returns (made: seq<Message>, ghost recent: seq<Message>, ghost es: seq<Entry>)
      requires n <= |posts|
      modifies this`roster
      ensures Made(made, recent, es) && forall i :: 0 <= i < |recent| ==> fresh(recent[i])
      ensures es == MadeOf(posts, n)
      ensures roster == old(roster) + (Authors(es) - {settings.self})
    {
      made, recent, es := [], [], [];
      var post := 0;
      while post < n
        invariant post <= n && Collected(made, recent, es, posts, post, old(roster))
        invariant forall i :: 0 <= i < |recent| ==> fresh(recent[i])
      {
        made, recent, es, post := Take(posts, post, made, recent, es, old(roster));
      }
    }

    /** The messages of the first `k` posts are made, and their authors are in the chat. */
    ghost predicate Collected(made: seq<Message>, recent: seq<Message>, es: seq<Entry>, posts: seq<Post>, k: nat,
                              roster0: set<string>)
      requires k <= |posts|
      reads this, set m | m in recent
    {
      Made(made, recent, es) && es == MadeOf(posts, k) && roster == roster0 + (Authors(es) - {settings.self})
    }

    /** What it does with a post that is not known: nothing, if it is malformed. */
    method Take(posts: seq<Post>, k: nat, made: seq<Message>, ghost recent: seq<Message>, ghost es: seq<Entry>,
                ghost roster0: set<string>)
      returns (made': seq<Message>, ghost recent': seq<Message>, ghost es': seq<Entry>, next: nat)
      requires k < |posts| && Collected(made, recent, es, posts, k, roster0)
      modifies this`roster
      ensures next == k + 1 && Collected(made', recent', es', posts, next, roster0)
      ensures |recent'| >= |recent| && recent'[..|recent|] == recent
      ensures forall i :: |recent| <= i < |recent'| ==> fresh(recent'[i])
    {
      made', recent', es', next := made, recent, es, k + 1;
      if posts[k].Post? {
        made', recent', es' := Make(posts[k], made, recent, es);
        Enter(posts[k].from);
      }
    }

    method Make(p: Post, made: seq<Message>, ghost recent: seq<Message>, ghost es: seq<Entry>)
      returns (made': seq<Message>, ghost recent': seq<Message>, ghost es': seq<Entry>)
      requires p.Post? && Made(made, recent, es)
      ensures |made'| > 0 && fresh(made'[0]) && recent' == recent + [made'[0]] && Made(made', recent', es')
      ensures es' == es + [EntryOf(p)] && Authors(es') == Authors(es) + {p.from}
    {
      var msg := new Message(p);
      EntriesMore(recent, msg);
      AuthorsMore(es, EntryAt(msg));
      made', recent', es' := [msg] + made, recent + [msg], es + [EntryOf(p)];
      assert made'[1..] == made;
    }

    /** The second loop: the new messages are put in front, oldest first. */
    method Flush(made: seq<Message>, ghost recent: seq<Message>, ghost es: seq<Entry>)
      requires Valid() && Made(made, recent, es) && forall i :: 0 <= i < |recent| ==> recent[i] !in messages
      modifies this`messages, set m | m in messages, set m | m in recent
      ensures Valid() && messages == recent + old(messages)
      ensures History() == Flushed(es, old(History()), settings)
    {
      ghost var k, was, last := |recent|, History(), messages;
      ReversedLength(made);
      NothingLeft(es, k);
      NothingLeft(recent, k);
      NothingPlus(last);
      for j := 0 to |made|
        invariant k == |made| - j && |made| == |recent| && Flushing(recent, es, k, was, last)
      {
        ReversedAt(made, j);
        FlushNext(made[j], recent, es, k, was, last);
        k := k - 1;
      }
      FromTheStart(es);
      FromTheStart(recent);
    }

    /** The messages from `k` on are in front of the history, the others wait. */
    ghost predicate Flushing(recent: seq<Message>, es: seq<Entry>, k: nat, was: seq<Entry>, last: seq<Message>)
      reads this, set m | m in messages, set m | m in recent
    {
      && Valid() && k <= |recent| == |es| && messages == recent[k..] + last
      && History() == Flushed(es[k..], was, settings)
      && (forall i :: 0 <= i < k ==> EntryAt(recent[i]) == es[i] && recent[i] !in messages)
    }

    method FlushNext(msg: Message, ghost recent: seq<Message>, ghost es: seq<Entry>, ghost k: nat,
                     ghost was: seq<Entry>, ghost last: seq<Message>)
      requires 0 < k <= |recent| && msg == recent[k - 1] && Distinct(recent) && Flushing(recent, es, k, was, last)
      modifies this`messages, msg, set m | m in messages
      ensures Flushing(recent, es, k - 1, was, last)
    {
      assert es[k - 1..][1..] == es[k..] && [msg] + (recent[k..] + last) == recent[k - 1..] + last;
      FlushOne(msg);
    }

    /** One message: its references are resolved, and it is numbered. */
    method FlushOne(msg: Message)
      requires Valid() && msg !in messages
      modifies this`messages, msg, set m | m in messages
      ensures Valid() && messages == [msg] + old(messages)
      ensures History() == Push(Shown(old(EntryAt(msg)), old(History()), settings), old(History()))
    {
      if !settings.plain {
        msg.text := MessageRef(msg.text, messages, settings.offset);
      }
      assert EntryAt(msg) == Shown(old(EntryAt(msg)), old(History()), settings) && History() == old(History());
      PushMessage(msg);
    }

    method PushMessage(msg: Message)
      requires Valid() && msg !in messages
      modifies this`messages, msg, set m | m in messages
      ensures Valid() && messages == [msg] + old(messages)
      ensures History() == Push(old(EntryAt(msg)), old(History()))
    {
      ghost var goal := Push(EntryAt(msg), History());
      if messages != [] && messages[0].timestamp == msg.timestamp {
        msg.multiple := true;
        messages[0].multiple := true;
        msg.ref := messages[0].ref + 1;
      }
      messages := [msg] + messages;
      assert forall i :: 0 <= i < |messages| ==> EntryAt(messages[i]) == goal[i];
      assert History() == goal;
    }

    /** The third loop: 101 of the old messages stay, and of the authors of the
        others those who have no message left leave. */
    method Purge(last: nat)
      requires Valid() && last <= |messages|
      modifies this`messages, this`roster
      ensures Valid() && History() == old(History())[..Cut(|old(messages)|, last)]
      ensures roster == Left(old(roster), old(History()), Cut(|old(messages)|, last), |old(messages)|, settings.self)
    {
      ghost var chain := messages;
      PurgeLoop(last, History());
      EntriesPrefix(chain, Cut(|chain|, last));
    }

    method PurgeLoop(last: nat, ghost h: seq<Entry>)
      requires Valid() && last <= |messages| && h == History()
      modifies this`messages, this`roster
      ensures messages == old(messages)[..Cut(|old(messages)|, last)]
      ensures roster == Left(old(roster), h, Cut(|h|, last), |h|, settings.self)
    {
      var chain := messages;
      ghost var cut := Cut(|chain|, last);
      var iter, i := last, 0;
      LeftNone(roster, h, cut, settings.self);
      while iter < |chain|
        invariant last <= iter <= |chain| && i == iter - last
        invariant PurgedTo(chain, iter, i, h, cut, old(roster))
        decreases |chain| - iter
      {
        iter, i := PurgeAt(chain, iter, i, h, cut, old(roster));
      }
      assert messages == chain[..cut];
    }

    ghost predicate PurgedTo(chain: seq<Message>, iter: nat, i: nat, h: seq<Entry>, cut: nat, roster0: set<string>)
      requires iter <= |h| && cut <= |h| == |chain|
      reads this
    {
      && messages == (if i <= LAST_MAX then chain else chain[..cut])
      && roster == Left(roster0, h, cut, if iter < cut then cut else iter, settings.self)
    }

    /** What it does with one message; the list is cut behind the 101st. */
    method PurgeAt(chain: seq<Message>, iter: nat, i: nat, ghost h: seq<Entry>, ghost cut: nat, ghost roster0: set<string>)
      returns (iter': nat, i': nat)
      requires i <= iter < |chain| && Entries(chain) == h && cut == Cut(|chain|, iter - i)
      requires PurgedTo(chain, iter, i, h, cut, roster0)
      modifies this`messages, this`roster
      ensures iter' == iter + 1 && i' == i + 1 && PurgedTo(chain, iter', i', h, cut, roster0)
    {
      if i == LAST_MAX {
        messages := chain[..iter + 1];
      } else if i > LAST_MAX {
        LeaveOne(chain, iter, h, cut, roster0);
      }
      iter', i' := iter + 1, i + 1;
    }

    method LeaveOne(chain: seq<Message>, iter: nat, ghost h: seq<Entry>, ghost cut: nat, ghost roster0: set<string>)
      requires Entries(chain) == h && cut <= iter < |chain| && messages == chain[..cut]
      requires roster == Left(roster0, h, cut, iter, settings.self)
      modifies this`roster
      ensures roster == Left(roster0, h, cut, iter + 1, settings.self)
    {
      EntriesPrefix(chain, cut);
      LeftMore(roster0, h, cut, iter, settings.self);
      Leave(chain[iter].from);
    }

    /** The author of a dropped message leaves, unless it has another one. */
    method Leave(from: string)
      modifies this`roster
      ensures roster == old(roster) - ({from} - Authors(History()) - {settings.self})
    {
      if from != settings.self && from in roster {
        var it := 0;
        while it < |messages| && messages[it].from != from
          invariant it <= |messages| && forall j :: 0 <= j < it ==> History()[j].from != from
        {
          it := it + 1;
        }
        if it == |messages| {
          assert from !in Authors(History());
          roster := roster - {from};
        } else {
          assert History()[it] in History();
        }
      }
    }

    /** `coincoin_parse_message`, of the posts of an answer, newest first. */
    method ParseMessage(posts: seq<Post>)
      requires Valid()
      modifies this`messages, this`roster, set m | m in messages
      ensures Valid() && History() == Fetched(posts, old(History()), settings)
      ensures roster == Members(posts, old(History()), old(roster), settings)
    {
      ghost var was := History();
      var made, recent, es := Collect(posts);
      ReversedLength(made);
      Flush(made, recent, es);
      FetchedInSteps(posts, was, old(roster), settings);
      Purge(|made|);
    }

    /** The author enters the chat, if it is not there and is not the account itself. */
    method Enter(from: string)
      modifies this`roster
      ensures roster == old(roster) + ({from} - {settings.self})
    {
      if from != settings.self && from !in roster {
        roster := roster + {from};
      }
    }
  }

  lemma EntriesMore(ms: seq<Message>, m: Message)
    ensures Entries(ms + [m]) == Entries(ms) + [EntryAt(m)]
  {}

  lemma {:induction false} ReversedLength(ms: seq<Message>)
    ensures |Reversed(ms)| == |ms|
  {
    if ms != [] {
      ReversedLength(ms[1..]);
    }
  }

  lemma {:induction false} ReversedAt(ms: seq<Message>, j: nat)
    requires j < |ms|
    ensures |Reversed(ms)| == |ms| && Reversed(ms)[|ms| - 1 - j] == ms[j]
  {
    ReversedLength(ms[1..]);
    if j > 0 {
      ReversedAt(ms[1..], j - 1);
    }
  }

  lemma EntriesPrefix(ms: seq<Message>, n: nat)
    requires n <= |ms|
    ensures Entries(ms[..n]) == Entries(ms)[..n]
  {}

  function Reversed(ms: seq<Message>): seq<Message> {
    if ms == [] then [] else Reversed(ms[1..]) + [ms[0]]
  }
}
