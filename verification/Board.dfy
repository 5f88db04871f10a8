/** The coincoin board: the history of posts, their reference numbers, and the clocks
    by which posts refer to one another. */
module Board {
  import opened Basics
  import opened Decimal
  import opened Text

  /** `CoinCoinMessage`. */
  datatype Entry = Entry(id: int, from: string, text: string, timestamp: int, ref: nat, multiple: bool)

  /** A post of the board's answer; `Malformed` lacks one of its elements. */
  datatype Post = Malformed(id: int) | Post(id: int, from: string, text: string, timestamp: int)

  /** `localtime_r` runs at a fixed offset; `plain` is `no_reformat_messages`. */
  datatype Settings = Settings(self: string, plain: bool, offset: int)

  // ---------------------------------------------------------------- time of day

  const DAY: nat := 86400

  function SecondOfDay(timestamp: int, offset: int): (r: nat)
    ensures r < DAY
  {
    (timestamp + offset) % DAY
  }

  datatype Clock =
    | NoClock
    | Minutes(hour: nat, min: nat)
    | Seconds(hour: nat, min: nat, sec: nat, ref: nat)

  /** The clock of an entry, as `localtime_r` gives it, with its number. */
  function TimeOf(e: Entry, offset: int): Clock {
    var s := SecondOfDay(e.timestamp, offset);
    Seconds(s / 3600, s / 60 % 60, s % 60, e.ref)
  }

  function Pair(n: nat): string
    requires n < 100
  {
    [Digit(n / 10), Digit(n % 10)]
  }

  /** What `coincoin_convert_message` prints for a post. */
  function ClockText(e: Entry, offset: int): string {
    var t := TimeOf(e, offset);
    Pair(t.hour) + ":" + Pair(t.min) + ":" + Pair(t.sec) + (if e.multiple then ":" + Show(e.ref) else "")
  }

  // ---------------------------------------------------------------- reading a clock

  /** The conversion `%02d` of `sscanf`, on digits and colons. */
  function Field(s: string): Option<(nat, string)> {
    if s == "" || !IsDigit(s[0]) then None
    else if |s| > 1 && IsDigit(s[1]) then
      Some((10 * (s[0] as int - '0' as int) + (s[1] as int - '0' as int), s[2..]))
    else Some((s[0] as int - '0' as int, s[1..]))
  }

  /** A colon, and then a field. */
  function ColonField(s: string): Option<(nat, string)> {
    if s == "" || s[0] != ':' then None else Field(s[1..])
  }

  /** The three attempts of `coincoin_message_ref`; `super` is the number that a
      superscript after the clock has given. */
  function ReadClock(s: string, super: nat): Clock {
    var h := Field(s);
    if h.None? then NoClock
    else
      var m := ColonField(h.value.1);
      if m.None? then NoClock
      else
        var c := ColonField(m.value.1);
        if c.None? then Minutes(h.value.0, m.value.0)
        else
          var r := c.value.1;
          if |r| > 1 && r[0] == ':' && IsDigit(r[1]) then
            Seconds(h.value.0, m.value.0, c.value.0, Value(DigitRun(r[1..])))
          else Seconds(h.value.0, m.value.0, c.value.0, super)
  }

  predicate Matches(c: Clock, e: Entry, offset: int) {
    var t := TimeOf(e, offset);
    match c
    case NoClock => false
    case Minutes(h, m) => h == t.hour && m == t.min
    case Seconds(_, _, _, _) => c == t
  }

  /** The search of `coincoin_message_ref`: the first match, or the length. */
  function Find(c: Clock, h: seq<Entry>, offset: int): (r: nat)
    ensures r <= |h|
    ensures forall i :: 0 <= i < r ==> !Matches(c, h[i], offset)
    ensures r < |h| ==> Matches(c, h[r], offset)
  {
    if h == [] || Matches(c, h[0], offset) then 0 else 1 + Find(c, h[1..], offset)
  }

  lemma ReadField(n: nat, tail: string)
    requires n < 100
    ensures Field(Pair(n) + tail) == Some((n, tail))
  {}

  lemma ReadColonField(n: nat, tail: string)
    requires n < 100
    ensures ColonField(":" + Pair(n) + tail) == Some((n, tail))
  {
    assert (":" + Pair(n) + tail)[1..] == Pair(n) + tail;
    ReadField(n, tail);
  }

  /** The printed clock reads back as the post's time and number. */
  lemma ReadOfClockText(e: Entry, offset: int)
    ensures ReadClock(ClockText(e, offset), 1) == TimeOf(e, offset).(ref := if e.multiple then e.ref else 1)
  {
    var t := TimeOf(e, offset);
    var number := if e.multiple then ":" + Show(e.ref) else "";
    var seconds := ":" + Pair(t.sec) + number;
    var minutes := ":" + Pair(t.min) + seconds;
    assert ClockText(e, offset) == Pair(t.hour) + minutes;
    ReadField(t.hour, minutes);
    ReadColonField(t.min, seconds);
    ReadColonField(t.sec, number);
    if e.multiple {
      assert number[1..] == Show(e.ref) && Show(e.ref)[0] in Show(e.ref);
      DigitRunAll(Show(e.ref));
      ValueOfShow(e.ref);
    }
  }

  /** The seconds of the day are the same exactly a whole number of days apart. */
  lemma SameSecond(a: int, b: int, offset: int)
    ensures SecondOfDay(a, offset) == SecondOfDay(b, offset) <==> (a - b) % DAY == 0
  {
    var x, y := a + offset, b + offset;
    var p, q, r, t := x / DAY, y / DAY, x % DAY, y % DAY;
    assert x == DAY * p + r && y == DAY * q + t;
    if (a - b) % DAY == 0 {
      var n := (a - b) / DAY;
      assert x - y == DAY * n;
      Multiple(p - q - n, t - r);
    } else if r == t {
      assert x - y == DAY * (p - q);
      Remainder(p - q);
    }
  }

  lemma Multiple(n: int, d: int)
    requires DAY * n == d && -(DAY as int) < d < DAY
    ensures d == 0
  {}

  lemma Remainder(n: int)
    ensures DAY * n % DAY == 0
  {}

  /** Two posts that a clock cannot tell apart. */
  predicate SameClock(a: Entry, b: Entry) {
    (a.timestamp - b.timestamp) % DAY == 0 && a.ref == b.ref
  }

  lemma SameTime(a: Entry, b: Entry, offset: int)
    ensures TimeOf(a, offset) == TimeOf(b, offset) <==> SameClock(a, b)
  {
    HourMinuteSecond(SecondOfDay(a.timestamp, offset));
    HourMinuteSecond(SecondOfDay(b.timestamp, offset));
    SameSecond(a.timestamp, b.timestamp, offset);
  }

  lemma HourMinuteSecond(s: nat)
    ensures s == 3600 * (s / 3600) + 60 * (s / 60 % 60) + s % 60
  {
    assert s / 3600 == s / 60 / 60;
  }

  // ---------------------------------------------------------------- the history

  /** `coincoin_parse_message` gives a post the number after its predecessor's when
      both have the same second, and marks both. */
  function Push(e: Entry, h: seq<Entry>): (r: seq<Entry>)
    ensures |r| == |h| + 1
  {
    if h != [] && h[0].timestamp == e.timestamp then
      [e.(ref := h[0].ref + 1, multiple := true), h[0].(multiple := true)] + h[1..]
    else [e] + h
  }

  predicate Known(h: seq<Entry>, id: int) {
    exists i :: 0 <= i < |h| && h[i].id == id
  }

  function EntryOf(p: Post): Entry
    requires p.Post?
  {
    Entry(p.id, p.from, p.text, p.timestamp, 1, false)
  }

  /** The posts before the first known one, newest first, as they are made. */
  function Recent(posts: seq<Post>, was: seq<Entry>): seq<Entry> {
    if posts == [] || Known(was, posts[0].id) then []
    else (if posts[0].Post? then [EntryOf(posts[0])] else []) + Recent(posts[1..], was)
  }

  function Shown(e: Entry, h: seq<Entry>, s: Settings): Entry {
    if s.plain then e else e.(text := Refer(e.text, h, s.offset))
  }

  /** The recent posts are put in front of the history, oldest first. */
  function Flushed(recent: seq<Entry>, was: seq<Entry>, s: Settings): (r: seq<Entry>)
    ensures |r| == |recent| + |was|
  {
    if recent == [] then was
    else
      var h := Flushed(recent[1..], was, s);
      Push(Shown(recent[0], h, s), h)
  }

  const LAST_MAX: nat := 100

  /** How many entries are left of a history of `was` entries and `recent` new ones. */
  function Retained(recent: nat, was: nat): nat {
    recent + (if was > LAST_MAX then LAST_MAX + 1 else was)
  }

  /** The history after one answer. */
  function Fetched(posts: seq<Post>, was: seq<Entry>, s: Settings): seq<Entry> {
    var recent := Recent(posts, was);
    Flushed(recent, was, s)[..Retained(|recent|, |was|)]
  }

  function Authors(h: seq<Entry>): set<string> {
    set e | e in h :: e.from
  }

  /** The chat's members after one answer: authors of recent posts enter, authors of
      dropped posts leave unless they have a post that is kept. */
  function Members(posts: seq<Post>, was: seq<Entry>, roster: set<string>, s: Settings): set<string> {
    var kept := Authors(Fetched(posts, was, s));
    var dropped := if |was| > LAST_MAX then Authors(was[LAST_MAX + 1..]) else {};
    roster + (Authors(Recent(posts, was)) - {s.self}) - (dropped - kept - {s.self})
  }

  // ---------------------------------------------------------------- texts

  predicate ClockChar(c: char) {
    IsDigit(c) || c == ':'
  }

  function ClockRun(s: string): (r: string)
    ensures |r| <= |s| && r == s[..|r|]
    ensures forall c :: c in r ==> ClockChar(c)
    ensures |r| < |s| ==> !ClockChar(s[|r|])
  {
    if s == "" || !ClockChar(s[0]) then "" else [s[0]] + ClockRun(s[1..])
  }

  /** The first byte of a superscript digit, and its second. */
  const C2: char := 0xC2 as char

  function Superscript(s: string): nat {
    if |s| < 2 || s[0] != C2 then 1
    else if s[1] == 0xB2 as char then 2
    else if s[1] == 0xB3 as char then 3
    else 1
  }

  /** Where the first closing bracket is, or the length. */
  function Bracket(s: string): (r: nat)
    ensures r <= |s|
    ensures r < |s| ==> s[r] == ']'
  {
    if s == "" || s[0] == ']' then 0 else 1 + Bracket(s[1..])
  }

  function Blue(s: string): string {
    "<FONT COLOR=\"blue\">" + s + "</FONT>"
  }

  function Green(s: string): string {
    "<FONT COLOR=\"dark green\">" + s + "</FONT>"
  }

  /** What becomes of a run of digits and colons. */
  function Quoted(run: string, super: nat, h: seq<Entry>, offset: int): string {
    var c := ReadClock(run, super);
    var i := Find(c, h, offset);
    if c.NoClock? then run
    else (if i < |h| then h[i].from + ": " else "") + Blue(run)
  }

  /** What becomes of the start of a text, and how much of it. */
  function Piece(s: string, h: seq<Entry>, offset: int): (r: (string, nat))
    requires s != ""
    ensures 0 < r.1 <= |s|
  {
    if |s| > 1 && s[0] == '[' && s[1] == ':' && Bracket(s) < |s| then (Green(s[..Bracket(s) + 1]), Bracket(s) + 1)
    else if ClockChar(s[0]) then
      var run := ClockRun(s);
      (Quoted(run, Superscript(s[|run|..]), h, offset), |run|)
    else ([s[0]], 1)
  }

  /** `coincoin_message_ref`. */
  function Refer(s: string, h: seq<Entry>, offset: int): string {
    if s == "" then ""
    else
      var p := Piece(s, h, offset);
      p.0 + Refer(s[p.1..], h, offset)
  }

  /** The length of the word at the start: its first character, whatever it is, and
      then what is not a space. */
  function WordLen(s: string): (r: nat)
    requires s != ""
    ensures 0 < r <= |s|
    ensures r < |s| ==> s[r] == ' '
    ensures forall i :: 0 < i < r ==> s[i] != ' '
  {
    if |s| == 1 || s[1] == ' ' then 1 else 1 + WordLen(s[1..])
  }

  function NickLen(s: string): (r: nat)
    ensures r <= |s|
    ensures forall i :: 0 <= i < r ==> s[i] != ':' && s[i] != C2
  {
    if s == "" || s[0] == ':' || s[0] == C2 then 0 else 1 + NickLen(s[1..])
  }

  /** The number that follows a nickname: digits after the colon, or a superscript. */
  function Number(s: string): nat {
    var t := if s != "" && s[0] == ':' then s[1..] else s;
    if t != "" && IsDigit(t[0]) then Value(DigitRun(t)) else Superscript(t)
  }

  /** The `k`-th entry of `nick` from the front, or the length. */
  function Nth(h: seq<Entry>, nick: string, k: int): (r: nat)
    ensures r <= |h|
    ensures r < |h| ==> Lower(h[r].from) == Lower(nick)
  {
    if h == [] then 0
    else if Lower(h[0].from) != Lower(nick) then 1 + Nth(h[1..], nick, k)
    else if k == 1 then 0
    else 1 + Nth(h[1..], nick, k - 1)
  }

  /** How many entries are of `nick`. */
  function PostsOf(h: seq<Entry>, nick: string): nat {
    if h == [] then 0 else (if Lower(h[0].from) == Lower(nick) then 1 else 0) + PostsOf(h[1..], nick)
  }

  /** It is the `k`-th: just `k - 1` entries of the nick are before it. There is none
      exactly when `k` is zero or there are fewer entries of the nick. */
  lemma {:induction false} NthIsKth(h: seq<Entry>, nick: string, k: nat)
    ensures var r := Nth(h, nick, k);
            && (r < |h| ==> Lower(h[r].from) == Lower(nick) && PostsOf(h[..r], nick) == k - 1)
            && (r < |h| <==> 1 <= k <= PostsOf(h, nick))
  {
    if h != [] && !(Lower(h[0].from) == Lower(nick) && k == 1) {
      if Lower(h[0].from) == Lower(nick) {
        if k == 0 {
          NeverZeroth(h[1..], nick, -1);
          return;
        }
        NthIsKth(h[1..], nick, k - 1);
      } else {
        NthIsKth(h[1..], nick, k);
      }
      var r := Nth(h, nick, k);
      assert h[..r][1..] == h[1..][..r - 1];
    }
  }

  lemma {:induction false} NeverZeroth(h: seq<Entry>, nick: string, k: int)
    requires k <= 0
    ensures Nth(h, nick, k) == |h|
  {
    if h != [] {
      NeverZeroth(h[1..], nick, if Lower(h[0].from) == Lower(nick) then k - 1 else k);
    }
  }

  /** The entry that a word of `n` characters names, `k` of which are its nickname, or
      the length of `h`. */
  function NamedBy(s: string, n: nat, k: nat, h: seq<Entry>): (r: nat)
    requires 0 < n <= |s| && k <= |s|
    ensures r <= |h|
  {
    if n > 2 && n < |s| && s[n - 1] == ':' then Nth(h, s[..k], Number(s[k..])) else |h|
  }

  /** The entry that the word at the start of `s` names, or the length of `h`. */
  function Named(s: string, h: seq<Entry>): (r: nat)
    requires s != ""
    ensures r <= |h|
  {
    NamedBy(s, WordLen(s), NickLen(s), h)
  }

  lemma Slices(s: string, start: nat, end: nat, t: string)
    requires start <= end <= |s| && t == s[start..]
    ensures |t| == |s| - start && t[..end - start] == s[start..end] && t[end - start..] == s[end..]
    ensures end > start ==> t[end - start - 1] == s[end - 1]
  {}

  lemma NamesSomebody(t: string, n: nat, k: nat, nick: string, rest: string, h: seq<Entry>)
    requires t != "" && n == WordLen(t) && k == NickLen(t) && 2 < n < |t| && t[n - 1] == ':'
    requires nick == t[..k] && rest == t[k..]
    ensures Named(t, h) == Nth(h, nick, Number(rest))
  {}

  lemma NamesNobody(t: string, n: nat, h: seq<Entry>)
    requires t != "" && n == WordLen(t) && (n <= 2 || n == |t| || t[n - 1] != ':')
    ensures Named(t, h) == |h|
  {}

  /** What becomes of the word at the start, and how much of it: the space behind a
      word that names a post is left to the next word. */
  function Word(s: string, h: seq<Entry>, offset: int): (r: (string, nat))
    requires s != ""
    ensures 0 < r.1 <= |s|
  {
    var n, i := WordLen(s), Named(s, h);
    if i < |h| then (ClockText(h[i], offset), n)
    else if n < |s| then (s[..n + 1], n + 1)
    else (s, n)
  }

  /** `coincoin_convert_message`, past the stripping of HTML. */
  function Convert(s: string, h: seq<Entry>, offset: int): string {
    if s == "" then ""
    else
      var w := Word(s, h, offset);
      w.0 + Convert(s[w.1..], h, offset)
  }

  lemma ConvertStep(done: string, s: string, start: nat, next: nat, h: seq<Entry>, offset: int)
    requires start < next <= |s| && Word(s[start..], h, offset).1 == next - start
    ensures done + Convert(s[start..], h, offset)
         == done + Word(s[start..], h, offset).0 + Convert(s[next..], h, offset)
  {
    var w := Word(s[start..], h, offset);
    assert s[start..][w.1..] == s[next..];
    Associative(done, w.0, Convert(s[next..], h, offset));
  }

  lemma ReferStep(done: string, s: string, start: nat, next: nat, h: seq<Entry>, offset: int)
    requires start < next <= |s| && Piece(s[start..], h, offset).1 == next - start
    ensures done + Refer(s[start..], h, offset)
         == done + Piece(s[start..], h, offset).0 + Refer(s[next..], h, offset)
  {
    var p := Piece(s[start..], h, offset);
    assert s[start..][p.1..] == s[next..];
    Associative(done, p.0, Refer(s[next..], h, offset));
  }

  lemma NthStep(h: seq<Entry>, nick: string, k: int, m: nat)
    requires m < |h|
    ensures Nth(h[m..], nick, k) ==
              if Lower(h[m].from) != Lower(nick) then 1 + Nth(h[m + 1..], nick, k)
              else if k == 1 then 0
              else 1 + Nth(h[m + 1..], nick, k - 1)
  {
    assert h[m..][1..] == h[m + 1..];
  }

  /** The well-formed ones of the first `k` posts. */
  function MadeOf(posts: seq<Post>, k: nat): seq<Entry>
    requires k <= |posts|
  {
    if k == 0 then []
    else if posts[k - 1].Post? then MadeOf(posts, k - 1) + [EntryOf(posts[k - 1])]
    else MadeOf(posts, k - 1)
  }

  lemma {:induction false} MadeFirst(posts: seq<Post>, k: nat)
    requires 0 < k <= |posts|
    ensures MadeOf(posts, k) == (if posts[0].Post? then [EntryOf(posts[0])] else []) + MadeOf(posts[1..], k - 1)
  {
    if k > 1 {
      MadeFirst(posts, k - 1);
      assert posts[1..][k - 2] == posts[k - 1];
    }
  }

  /** The posts before the first known one are the recent ones. */
  lemma {:induction false} MadeAreRecent(posts: seq<Post>, was: seq<Entry>, k: nat)
    requires k <= |posts| && forall j :: 0 <= j < k ==> !Known(was, posts[j].id)
    requires k == |posts| || Known(was, posts[k].id)
    ensures MadeOf(posts, k) == Recent(posts, was)
  {
    if k > 0 {
      MadeAreRecent(posts[1..], was, k - 1);
      MadeFirst(posts, k);
    }
  }

  /** Where a list of `n` messages is cut, the first `last` of which are new. */
  function Cut(n: nat, last: nat): (r: nat)
    requires last <= n
    ensures last <= r <= n
  {
    if n - last > LAST_MAX then last + LAST_MAX + 1 else n
  }

  /** Who is left when the authors of the entries from `cut` to `to` have gone,
      but for those who have an entry before `cut`. */
  function Left(roster: set<string>, h: seq<Entry>, cut: nat, to: nat, self: string): set<string>
    requires cut <= to <= |h|
  {
    roster - (Authors(h[cut..to]) - Authors(h[..cut]) - {self})
  }

  lemma LeftNone(roster: set<string>, h: seq<Entry>, cut: nat, self: string)
    requires cut <= |h|
    ensures Left(roster, h, cut, cut, self) == roster
  {
    assert h[cut..cut] == [];
  }

  lemma LeftMore(roster: set<string>, h: seq<Entry>, cut: nat, to: nat, self: string)
    requires cut <= to < |h|
    ensures Left(roster, h, cut, to + 1, self)
         == Left(roster, h, cut, to, self) - ({h[to].from} - Authors(h[..cut]) - {self})
  {
    assert h[cut..to + 1] == h[cut..to] + [h[to]];
    AuthorsMore(h[cut..to], h[to]);
  }

  lemma AuthorsMore(h: seq<Entry>, e: Entry)
    ensures Authors(h + [e]) == Authors(h) + {e.from}
  {
    assert forall x :: x in h + [e] <==> x in h || x == e;
  }

  // ---------------------------------------------------------------- numbering

  /** Newest first; posts of one second are all marked and numbered one after another. */
  predicate Chain(h: seq<Entry>) {
    && (forall i :: 0 <= i < |h| ==> h[i].ref >= 1 && (!h[i].multiple ==> h[i].ref == 1))
    && (forall i :: 0 < i < |h| ==> Follows(h[i - 1], h[i]))
  }

  /** The number of a post without a mark need not be printed. */
  predicate Marked(h: seq<Entry>) {
    forall i :: 0 <= i < |h| && !h[i].multiple ==> h[i].ref == 1
  }

  predicate Follows(newer: Entry, older: Entry) {
    && newer.timestamp >= older.timestamp
    && (newer.timestamp == older.timestamp ==> newer.ref == older.ref + 1 && newer.multiple && older.multiple)
  }

  lemma PushKeepsChain(e: Entry, h: seq<Entry>)
    requires Chain(h) && e.ref == 1 && (h != [] ==> e.timestamp >= h[0].timestamp)
    ensures Chain(Push(e, h))
  {
    var r := Push(e, h);
    forall i | 0 < i < |r|
      ensures Follows(r[i - 1], r[i])
    {
      if i > 1 {
        assert Follows(h[i - 2], h[i - 1]);
      }
    }
  }

  /** Posts arrive in the order of their times, and after those that are there. */
  predicate Ordered(recent: seq<Entry>, was: seq<Entry>) {
    && (forall i :: 0 < i < |recent| ==> recent[i - 1].timestamp >= recent[i].timestamp)
    && (recent != [] && was != [] ==> recent[|recent| - 1].timestamp >= was[0].timestamp)
  }

  lemma {:induction false} FlushKeepsChain(recent: seq<Entry>, was: seq<Entry>, s: Settings)
    requires Chain(was) && Ordered(recent, was) && forall i :: 0 <= i < |recent| ==> recent[i].ref == 1
    ensures Chain(Flushed(recent, was, s))
    ensures recent != [] ==> Flushed(recent, was, s)[0].timestamp == recent[0].timestamp
  {
    if recent != [] {
      var h := Flushed(recent[1..], was, s);
      FlushKeepsChain(recent[1..], was, s);
      if |recent| > 1 {
        assert recent[1..][0] == recent[1];
      }
      PushKeepsChain(Shown(recent[0], h, s), h);
    }
  }

  predicate AllNew(recent: seq<Entry>, was: seq<Entry>) {
    forall i :: 0 <= i < |recent| ==> recent[i].ref == 1 && !recent[i].multiple && !Known(was, recent[i].id)
  }

  lemma {:induction false} RecentAreNew(posts: seq<Post>, was: seq<Entry>)
    ensures AllNew(Recent(posts, was), was)
  {
    if posts != [] {
      RecentAreNew(posts[1..], was);
    }
  }

  /** Every answer keeps the numbering right, if posts arrive in order. */
  lemma FetchKeepsChain(posts: seq<Post>, was: seq<Entry>, s: Settings)
    requires Chain(was) && Ordered(Recent(posts, was), was)
    ensures Chain(Fetched(posts, was, s))
  {
    RecentAreNew(posts, was);
    FlushKeepsChain(Recent(posts, was), was, s);
  }

  lemma {:induction false} ChainOrder(h: seq<Entry>, i: nat, j: nat)
    requires Chain(h) && i <= j < |h|
    ensures h[i].timestamp >= h[j].timestamp
    ensures h[i].timestamp == h[j].timestamp ==> h[i].ref == h[j].ref + (j - i)
    decreases j
  {
    if i < j {
      ChainOrder(h, i, j - 1);
      assert Follows(h[j - 1], h[j]);
    }
  }

  /** Time and number identify a post of the history. */
  lemma ReferencesAreUnique(h: seq<Entry>, i: nat, j: nat)
    requires Chain(h) && i < |h| && j < |h|
    requires h[i].timestamp == h[j].timestamp && h[i].ref == h[j].ref
    ensures i == j
  {
    if i <= j {
      ChainOrder(h, i, j);
    } else {
      ChainOrder(h, j, i);
    }
  }

  // ---------------------------------------------------------------- the history after an answer

  /** The same post, perhaps marked since, and its text perhaps reformatted. */
  predicate SamePost(a: Entry, b: Entry) {
    a.id == b.id && a.from == b.from && a.timestamp == b.timestamp
  }

  predicate SameNumbered(a: Entry, b: Entry) {
    SamePost(a, b) && a.ref == b.ref && a.text == b.text && (a.multiple ==> b.multiple)
  }

  /** `r` is the recent posts and then those that were there. */
  predicate Appended(recent: seq<Entry>, was: seq<Entry>, r: seq<Entry>) {
    && |r| == |recent| + |was|
    && (forall i :: 0 <= i < |recent| ==> SamePost(recent[i], r[i]))
    && (forall i :: |recent| <= i < |r| ==> SameNumbered(was[i - |recent|], r[i]))
  }

  lemma {:induction false} FlushIsAppend(recent: seq<Entry>, was: seq<Entry>, s: Settings)
    ensures Appended(recent, was, Flushed(recent, was, s))
  {
    if recent != [] {
      var h := Flushed(recent[1..], was, s);
      FlushIsAppend(recent[1..], was, s);
      AppendedMore(Shown(recent[0], h, s), recent, was, h);
    }
  }

  lemma AppendedMore(e: Entry, recent: seq<Entry>, was: seq<Entry>, h: seq<Entry>)
    requires recent != [] && SamePost(recent[0], e) && Appended(recent[1..], was, h)
    ensures Appended(recent, was, Push(e, h))
  {
    var r := Push(e, h);
    PushIs(e, h);
    forall i | 0 < i < |recent|
      ensures SamePost(recent[i], r[i])
    {
      assert SamePost(recent[1..][i - 1], h[i - 1]) && SameNumbered(h[i - 1], r[i]);
    }
    forall i | |recent| <= i < |r|
      ensures SameNumbered(was[i - |recent|], r[i])
    {
      assert SameNumbered(was[i - 1 - |recent[1..]|], h[i - 1]) && SameNumbered(h[i - 1], r[i]);
    }
  }

  lemma PushIs(e: Entry, h: seq<Entry>)
    ensures SamePost(e, Push(e, h)[0])
    ensures forall i :: 0 < i <= |h| ==> SameNumbered(h[i - 1], Push(e, h)[i])
  {}

  /** `h` is the new posts, none of which was there, and then at most the first 101 of
      those that were, with their numbers. */
  predicate IsHistory(recent: seq<Entry>, was: seq<Entry>, h: seq<Entry>) {
    && |h| == |recent| + (if |was| <= 101 then |was| else 101)
    && (forall i :: 0 <= i < |recent| ==> SamePost(recent[i], h[i]) && !Known(was, h[i].id))
    && (forall i :: |recent| <= i < |h| ==> SameNumbered(was[i - |recent|], h[i]))
  }

  /** After every answer the history is the new posts, newest first, and then at
      most the first 101 of those that were there, with their numbers. */
  lemma HistoryIs(posts: seq<Post>, was: seq<Entry>, s: Settings)
    ensures IsHistory(Recent(posts, was), was, Fetched(posts, was, s))
  {
    RecentAreNew(posts, was);
    FlushIsAppend(Recent(posts, was), was, s);
    CutAppended(Recent(posts, was), was, Flushed(Recent(posts, was), was, s));
  }

  lemma CutAppended(recent: seq<Entry>, was: seq<Entry>, r: seq<Entry>)
    requires AllNew(recent, was) && Appended(recent, was, r)
    ensures IsHistory(recent, was, r[..Retained(|recent|, |was|)])
  {}

  lemma AuthorsOf(h: seq<Entry>, recent: seq<Entry>, was: seq<Entry>)
    requires |h| == |recent| + |was|
    requires forall i :: 0 <= i < |recent| ==> h[i].from == recent[i].from
    requires forall i :: 0 <= i < |was| ==> h[|recent| + i].from == was[i].from
    ensures Authors(h) == Authors(recent) + Authors(was)
  {
    forall a | a in Authors(h)
      ensures a in Authors(recent) + Authors(was)
    {
      var i :| 0 <= i < |h| && h[i].from == a;
      if i < |recent| {
        assert recent[i] in recent;
      } else {
        assert was[i - |recent|] in was;
      }
    }
    forall e | e in recent
      ensures e.from in Authors(h)
    {
      var i :| 0 <= i < |recent| && recent[i] == e;
      assert h[i] in h;
    }
    forall e | e in was
      ensures e.from in Authors(h)
    {
      var i :| 0 <= i < |was| && was[i] == e;
      assert h[|recent| + i] in h;
    }
  }

  lemma AuthorsSplit(h: seq<Entry>, n: nat)
    requires n <= |h|
    ensures Authors(h) == Authors(h[..n]) + Authors(h[n..])
  {
    assert h == h[..n] + h[n..];
  }

  lemma SameAuthors(a: seq<Entry>, b: seq<Entry>)
    requires |a| == |b| && forall i :: 0 <= i < |a| ==> a[i].from == b[i].from
    ensures Authors(a) == Authors(b)
  {
    AuthorsOf(a, [], b);
    assert Authors([]) == {};
  }

  /** The three loops of `coincoin_parse_message` together. */
  lemma FetchedInSteps(posts: seq<Post>, was: seq<Entry>, roster: set<string>, s: Settings)
    ensures var recent := Recent(posts, was);
            var h := Flushed(recent, was, s);
            var cut := Cut(|h|, |recent|);
            && Fetched(posts, was, s) == h[..cut]
            && Members(posts, was, roster, s)
               == Left(roster + (Authors(recent) - {s.self}), h, cut, |h|, s.self)
  {
    var recent := Recent(posts, was);
    var h := Flushed(recent, was, s);
    var cut := Cut(|h|, |recent|);
    FlushIsAppend(recent, was, s);
    var dropped := was[cut - |recent|..];
    forall i | 0 <= i < |dropped|
      ensures h[cut..][i].from == dropped[i].from
    {
      assert SameNumbered(was[cut - |recent| + i], h[|recent| + (cut - |recent| + i)]);
    }
    SameAuthors(h[cut..], dropped);
    assert h[cut..|h|] == h[cut..];
    assert |was| <= LAST_MAX ==> dropped == [] && Authors(dropped) == {};
  }

  /** The chat holds exactly the authors of the posts that are kept, but oneself. */
  lemma RosterIs(posts: seq<Post>, was: seq<Entry>, roster: set<string>, s: Settings)
    requires roster == Authors(was) - {s.self}
    ensures Members(posts, was, roster, s) == Authors(Fetched(posts, was, s)) - {s.self}
  {
    var recent, h := Recent(posts, was), Fetched(posts, was, s);
    var n := if |was| > LAST_MAX then LAST_MAX + 1 else |was|;
    HistoryIs(posts, was, s);
    forall i | 0 <= i < n
      ensures h[|recent| + i].from == was[..n][i].from
    {
      assert SameNumbered(was[i], h[|recent| + i]);
    }
    AuthorsOf(h, recent, was[..n]);
    AuthorsSplit(was, n);
  }

  // ---------------------------------------------------------------- references

  /** No newer post shows the clock of the `i`-th. */
  predicate Unshadowed(h: seq<Entry>, i: nat)
    requires i < |h|
  {
    forall j :: 0 <= j < i ==> !SameClock(h[j], h[i])
  }

  /** The clock printed for a post `e`, then or since, finds that very post if and only
      if no newer post of the history was sent a whole number of days after it under
      the same number. */
  lemma ClockResolves(e: Entry, h: seq<Entry>, i: nat, offset: int)
    requires i < |h| && SameNumbered(e, h[i]) && (!e.multiple ==> e.ref == 1)
    ensures Find(ReadClock(ClockText(e, offset), 1), h, offset) == i <==> Unshadowed(h, i)
  {
    ReadOfClockText(e, offset);
    var c := TimeOf(h[i], offset);
    assert c == TimeOf(e, offset);
    forall j | 0 <= j < |h|
      ensures Matches(c, h[j], offset) <==> SameClock(h[j], h[i])
    {
      SameTime(h[j], h[i], offset);
    }
    FindIs(c, h, i, offset);
  }

  lemma FindIs(c: Clock, h: seq<Entry>, i: nat, offset: int)
    requires i < |h| && Matches(c, h[i], offset)
    ensures Find(c, h, offset) == i <==> forall j :: 0 <= j < i ==> !Matches(c, h[j], offset)
  {
    var r := Find(c, h, offset);
    assert r <= i;
  }

  /** The history spans less than a day. */
  predicate WithinADay(h: seq<Entry>) {
    h != [] ==> h[0].timestamp - h[|h| - 1].timestamp < DAY
  }

  /** Within a day, if posts have come in order, nothing is shadowed. */
  lemma ADayIsEnough(h: seq<Entry>, i: nat)
    requires Chain(h) && WithinADay(h) && i < |h|
    ensures Unshadowed(h, i)
  {
    forall j | 0 <= j < i
      ensures !SameClock(h[j], h[i])
    {
      ChainOrder(h, 0, j);
      ChainOrder(h, j, i);
      ChainOrder(h, i, |h| - 1);
      NotADay(h[j].timestamp - h[i].timestamp);
    }
  }

  lemma NotADay(d: int)
    requires 0 <= d < DAY
    ensures d % DAY == 0 ==> d == 0
  {}

  // ---------------------------------------------------------------- later answers

  function History(answers: seq<seq<Post>>, was: seq<Entry>, s: Settings): seq<Entry> {
    if answers == [] then was else History(answers[1..], Fetched(answers[0], was, s), s)
  }

  /** How many posts the answers bring. */
  function Arrivals(answers: seq<seq<Post>>, was: seq<Entry>, s: Settings): nat {
    if answers == [] then 0
    else |Recent(answers[0], was)| + Arrivals(answers[1..], Fetched(answers[0], was, s), s)
  }

  predicate InOrder(answers: seq<seq<Post>>, was: seq<Entry>, s: Settings) {
    answers == [] ||
    (Ordered(Recent(answers[0], was), was) && InOrder(answers[1..], Fetched(answers[0], was, s), s))
  }

  /** What `h` holds behind `n` new posts are the first posts of `was`. */
  predicate Carried(was: seq<Entry>, h: seq<Entry>, n: nat) {
    |h| <= n + |was| && forall j :: n <= j < |h| ==> SameNumbered(was[j - n], h[j])
  }

  lemma CarriedAt(was: seq<Entry>, h: seq<Entry>, n: nat, i: nat, j: nat)
    requires Carried(was, h, n) && j == n + i && j < |h|
    ensures i < |was| && SameNumbered(was[i], h[j])
  {
    assert SameNumbered(was[j - n], h[j]);
  }

  lemma CarriedResolves(was: seq<Entry>, h: seq<Entry>, n: nat, i: nat, j: nat, offset: int)
    requires Carried(was, h, n) && j == n + i && j < |h| && Marked(was)
    ensures i < |was| && SameNumbered(was[i], h[j])
    ensures Find(ReadClock(ClockText(was[i], offset), 1), h, offset) == j <==> Unshadowed(h, j)
  {
    CarriedAt(was, h, n, i, j);
    ClockResolves(was[i], h, j, offset);
  }

  lemma CarriedOn(was: seq<Entry>, mid: seq<Entry>, h: seq<Entry>, k: nat, n: nat, all: nat)
    requires Carried(was, mid, k) && Carried(mid, h, n) && all == k + n
    ensures Carried(was, h, all)
  {
    forall j | all <= j < |h|
      ensures SameNumbered(was[j - all], h[j])
    {
      assert SameNumbered(mid[j - n], h[j]) && SameNumbered(was[j - n - k], mid[j - n]);
    }
  }

  lemma {:induction false} FlushKeepsMarked(recent: seq<Entry>, was: seq<Entry>, s: Settings)
    requires Marked(was) && Marked(recent)
    ensures Marked(Flushed(recent, was, s))
  {
    if recent != [] {
      var h := Flushed(recent[1..], was, s);
      assert Marked(recent[1..]) by {
        assert forall i :: 0 <= i < |recent[1..]| ==> recent[1..][i] == recent[i + 1];
      }
      FlushKeepsMarked(recent[1..], was, s);
      PushKeepsMarked(Shown(recent[0], h, s), h);
    }
  }

  lemma PushKeepsMarked(e: Entry, h: seq<Entry>)
    requires Marked(h) && (!e.multiple ==> e.ref == 1)
    ensures Marked(Push(e, h))
  {}

  /** Over any answers, in order or not, a post without a mark has the number 1. */
  lemma {:induction false} HistoryIsMarked(answers: seq<seq<Post>>, was: seq<Entry>, s: Settings)
    requires Marked(was)
    ensures Marked(History(answers, was, s))
  {
    if answers != [] {
      RecentAreNew(answers[0], was);
      FlushKeepsMarked(Recent(answers[0], was), was, s);
      HistoryIsMarked(answers[1..], Fetched(answers[0], was, s), s);
    }
  }

  /** Over any answers in order, the numbering stays right. */
  lemma {:induction false} HistoryKeepsChain(answers: seq<seq<Post>>, was: seq<Entry>, s: Settings)
    requires Chain(was) && InOrder(answers, was, s)
    ensures Chain(History(answers, was, s))
  {
    if answers != [] {
      FetchKeepsChain(answers[0], was, s);
      HistoryKeepsChain(answers[1..], Fetched(answers[0], was, s), s);
    }
  }

  lemma FetchCarries(posts: seq<Post>, was: seq<Entry>, s: Settings)
    ensures Carried(was, Fetched(posts, was, s), |Recent(posts, was)|)
  {
    HistoryIs(posts, was, s);
  }

  lemma {:induction false} HistoryCarries(answers: seq<seq<Post>>, was: seq<Entry>, s: Settings)
    ensures Carried(was, History(answers, was, s), Arrivals(answers, was, s))
  {
    if answers != [] {
      var mid, k := Fetched(answers[0], was, s), |Recent(answers[0], was)|;
      FetchCarries(answers[0], was, s);
      HistoryCarries(answers[1..], mid, s);
      CarriedOn(was, mid, History(answers, was, s), k, Arrivals(answers[1..], mid, s), Arrivals(answers, was, s));
    }
  }

  function Roster(answers: seq<seq<Post>>, was: seq<Entry>, roster: set<string>, s: Settings): set<string> {
    if answers == [] then roster
    else Roster(answers[1..], Fetched(answers[0], was, s), Members(answers[0], was, roster, s), s)
  }

  /** Over any answers, from an empty board on, the chat holds exactly the authors
      of the posts that are kept, but oneself. */
  lemma {:induction false} RosterAlways(answers: seq<seq<Post>>, was: seq<Entry>, roster: set<string>, s: Settings)
    requires roster == Authors(was) - {s.self}
    ensures Roster(answers, was, roster, s) == Authors(History(answers, was, s)) - {s.self}
  {
    if answers != [] {
      RosterIs(answers[0], was, roster, s);
      RosterAlways(answers[1..], Fetched(answers[0], was, s), Members(answers[0], was, roster, s), s);
    }
  }

  /** A clock that was printed for a post still finds that post, which is the `j`-th
      now, after any later answers, for as long as the post is kept, if and only if it
      is not shadowed. */
  lemma StillResolves(answers: seq<seq<Post>>, was: seq<Entry>, i: nat, s: Settings, h: seq<Entry>, j: nat)
    requires Marked(was) && h == History(answers, was, s) && j == Arrivals(answers, was, s) + i && j < |h|
    ensures i < |was| && SameNumbered(was[i], h[j])
    ensures Find(ReadClock(ClockText(was[i], s.offset), 1), h, s.offset) == j <==> Unshadowed(h, j)
  {
    ResolvesBehind([], answers, was, i, s, h, j);
  }

  // ---------------------------------------------------------------- in the middle of an answer

  /** The list against which a post is resolved: that before its answer, and in front of
      it the posts of its answer that are older. */
  function ListFor(posts: seq<Post>, k: nat, mid: seq<Entry>, s: Settings): seq<Entry>
    requires k < |Recent(posts, mid)|
  {
    Flushed(Recent(posts, mid)[k + 1..], mid, s)
  }

  lemma FlushCarries(later: seq<Entry>, was: seq<Entry>, s: Settings, h: seq<Entry>)
    requires h == Flushed(later, was, s)
    ensures Carried(was, h, |later|)
  {
    FlushIsAppend(later, was, s);
  }

  lemma CarriedBehind(later: seq<Entry>, answers: seq<seq<Post>>, was: seq<Entry>, s: Settings,
                      mid: seq<Entry>, h: seq<Entry>, n: nat)
    requires mid == History(answers, was, s) && h == Flushed(later, mid, s)
    requires n == |later| + Arrivals(answers, was, s)
    ensures Carried(was, h, n)
  {
    HistoryCarries(answers, was, s);
    FlushCarries(later, mid, s, h);
    CarriedOn(was, mid, h, Arrivals(answers, was, s), |later|, n);
  }

  /** The same in the middle of an answer, when the posts `later` are in front of the
      list already; `j` is where the post is now. */
  lemma ResolvesBehind(later: seq<Entry>, answers: seq<seq<Post>>, was: seq<Entry>, i: nat, s: Settings,
                       h: seq<Entry>, j: nat)
    requires Marked(was) && h == Flushed(later, History(answers, was, s), s)
    requires j == |later| + Arrivals(answers, was, s) + i && j < |h|
    ensures i < |was| && SameNumbered(was[i], h[j])
    ensures Find(ReadClock(ClockText(was[i], s.offset), 1), h, s.offset) == j <==> Unshadowed(h, j)
  {
    var n := |later| + Arrivals(answers, was, s);
    CarriedBehind(later, answers, was, s, History(answers, was, s), h, n);
    CarriedResolves(was, h, n, i, j, s.offset);
  }

  /** The text of a new post is what it was made with, resolved against the list as it
      was at its turn, whatever is put in front of it. */
  lemma {:induction false} FlushedTexts(recent: seq<Entry>, was: seq<Entry>, s: Settings, k: nat)
    requires k < |recent|
    ensures Flushed(recent, was, s)[k].text == Shown(recent[k], Flushed(recent[k + 1..], was, s), s).text
  {
    var h := Flushed(recent[1..], was, s);
    PushIs(Shown(recent[0], h, s), h);
    if k > 0 {
      FlushedTexts(recent[1..], was, s, k - 1);
      assert recent[1..][k..] == recent[k + 1..];
      assert SameNumbered(h[k - 1], Flushed(recent, was, s)[k]);
    }
  }

  /** So it is in the history after the answer, and after any further ones, for as long
      as the post is kept. */
  lemma TextIsKept(posts: seq<Post>, k: nat, mid: seq<Entry>, s: Settings, more: seq<seq<Post>>, m: nat)
    requires k < |Recent(posts, mid)| && m == Arrivals(more, Fetched(posts, mid, s), s)
    requires m + k < |History(more, Fetched(posts, mid, s), s)|
    ensures History(more, Fetched(posts, mid, s), s)[m + k].text
         == Shown(Recent(posts, mid)[k], ListFor(posts, k, mid, s), s).text
  {
    var now := Fetched(posts, mid, s);
    FlushedTexts(Recent(posts, mid), mid, s, k);
    HistoryCarries(more, now, s);
    CarriedAt(now, History(more, now, s), m, k, m + k);
  }

  // ---------------------------------------------------------------- replies

  lemma {:induction false} ClockRunOf(run: string, tail: string)
    requires (forall c :: c in run ==> ClockChar(c)) && (tail == "" || !ClockChar(tail[0]))
    ensures ClockRun(run + tail) == run
  {
    if run == "" {
      assert run + tail == tail;
    } else {
      assert (run + tail)[1..] == run[1..] + tail;
      ClockRunOf(run[1..], tail);
    }
  }

  lemma ClockTextIsRun(e: Entry, offset: int)
    ensures ClockText(e, offset) != "" && IsDigit(ClockText(e, offset)[0])
    ensures forall c :: c in ClockText(e, offset) ==> ClockChar(c)
  {}

  /** A clock in a text is taken as a whole, and shown with the author it resolves to. */
  lemma ReferClock(e: Entry, tail: string, h: seq<Entry>, i: nat, offset: int)
    requires i < |h| && Find(ReadClock(ClockText(e, offset), 1), h, offset) == i
    requires tail == "" || (!ClockChar(tail[0]) && tail[0] != C2)
    ensures Refer(ClockText(e, offset) + tail, h, offset)
         == h[i].from + ": " + Blue(ClockText(e, offset)) + Refer(tail, h, offset)
  {
    var run := ClockText(e, offset);
    var s := run + tail;
    ClockTextIsRun(e, offset);
    ClockRunOf(run, tail);
    ReadOfClockText(e, offset);
    assert s[0] == run[0] && s[|run|..] == tail;
    assert Quoted(run, 1, h, offset) == h[i].from + ": " + Blue(run);
    assert Piece(s, h, offset) == (Quoted(run, 1, h, offset), |run|);
  }

  lemma {:induction false} NthNeedsName(h: seq<Entry>, nick: string, k: int)
    requires forall e :: e in h ==> Lower(e.from) != Lower(nick)
    ensures Nth(h, nick, k) == |h|
  {
    if h != [] {
      NthNeedsName(h[1..], nick, k);
    }
  }

  predicate NoSpaceFirst(h: seq<Entry>) {
    forall e :: e in h ==> e.from == "" || e.from[0] != ' '
  }

  /** The word behind a resolved one starts with the space between them, so that it
      names nobody and is copied. */
  lemma SpaceNamesNobody(s: string, h: seq<Entry>)
    requires s != "" && s[0] == ' ' && NoSpaceFirst(h)
    ensures Named(s, h) == |h|
  {
    var nick := s[..NickLen(s)];
    forall e | e in h
      ensures Lower(e.from) != Lower(nick)
    {
      assert nick[0] == ' ';
      if |e.from| == |nick| {
        assert Lower(e.from)[0] == LowerChar(e.from[0]) && Lower(nick)[0] == LowerChar(' ');
      }
    }
    NthNeedsName(h, nick, Number(s[NickLen(s)..]));
  }

  lemma ConvertKeepsSpace(s: string, h: seq<Entry>, offset: int)
    requires s != "" && s[0] == ' ' && NoSpaceFirst(h)
    ensures Convert(s, h, offset) != "" && Convert(s, h, offset)[0] == ' '
  {
    SpaceNamesNobody(s, h);
  }

  /** A reply that names the `i`-th post becomes, for whoever reads it after any later
      answers, the author and the clock of that very post, unless it is shadowed;
      `rest` is what becomes of the other words. */
  lemma ReplyReaches(reply: string, i: nat, rest: string, was: seq<Entry>, answers: seq<seq<Post>>, s: Settings,
                     h: seq<Entry>, j: nat)
    requires Marked(was) && h == History(answers, was, s)
    requires reply != "" && NoSpaceFirst(was) && i == Named(reply, was) && i < |was|
    requires rest == Convert(reply[WordLen(reply)..], was, s.offset)
    requires j == Arrivals(answers, was, s) + i && j < |h| && Unshadowed(h, j)
    ensures Refer(Convert(reply, was, s.offset), h, s.offset)
         == was[i].from + ": " + Blue(ClockText(was[i], s.offset)) + Refer(rest, h, s.offset)
  {
    ReplyReachesBehind(reply, i, rest, [], was, answers, s, h, j);
  }

  /** The same for a reply that stands behind other new posts of its answer. */
  lemma ReplyReachesBehind(reply: string, i: nat, rest: string, later: seq<Entry>, was: seq<Entry>,
                           answers: seq<seq<Post>>, s: Settings, h: seq<Entry>, j: nat)
    requires Marked(was) && h == Flushed(later, History(answers, was, s), s)
    requires reply != "" && NoSpaceFirst(was) && i == Named(reply, was) && i < |was|
    requires rest == Convert(reply[WordLen(reply)..], was, s.offset)
    requires j == |later| + Arrivals(answers, was, s) + i && j < |h| && Unshadowed(h, j)
    ensures Refer(Convert(reply, was, s.offset), h, s.offset)
         == was[i].from + ": " + Blue(ClockText(was[i], s.offset)) + Refer(rest, h, s.offset)
  {
    ResolvesBehind(later, answers, was, i, s, h, j);
    ReplyShows(reply, i, rest, was, h, j, s.offset);
  }

  /** What the history ends up holding of a reply that was made when it was `was`, came
      as the `k`-th new post of a later answer, and is kept over the answers `more`. */
  lemma ReplyIsKept(reply: string, i: nat, rest: string, was: seq<Entry>, answers: seq<seq<Post>>, s: Settings,
                    posts: seq<Post>, k: nat, mid: seq<Entry>, h: seq<Entry>, j: nat, more: seq<seq<Post>>, m: nat)
    requires Marked(was) && !s.plain && mid == History(answers, was, s) && k < |Recent(posts, mid)|
    requires reply != "" && NoSpaceFirst(was) && i == Named(reply, was) && i < |was|
    requires rest == Convert(reply[WordLen(reply)..], was, s.offset)
    requires Recent(posts, mid)[k].text == Convert(reply, was, s.offset)
    requires h == ListFor(posts, k, mid, s)
    requires j == |Recent(posts, mid)| - (k + 1) + Arrivals(answers, was, s) + i && j < |h| && Unshadowed(h, j)
    requires m == Arrivals(more, Fetched(posts, mid, s), s) && m + k < |History(more, Fetched(posts, mid, s), s)|
    ensures History(more, Fetched(posts, mid, s), s)[m + k].text
         == was[i].from + ": " + Blue(ClockText(was[i], s.offset)) + Refer(rest, h, s.offset)
  {
    TextIsKept(posts, k, mid, s, more, m);
    ReplyReachesBehind(reply, i, rest, Recent(posts, mid)[k + 1..], was, answers, s, h, j);
  }

  lemma ReplyShows(reply: string, i: nat, rest: string, was: seq<Entry>, h: seq<Entry>, j: nat, offset: int)
    requires reply != "" && NoSpaceFirst(was) && i == Named(reply, was) && i < |was|
    requires rest == Convert(reply[WordLen(reply)..], was, offset)
    requires j < |h| && SameNumbered(was[i], h[j]) && Find(ReadClock(ClockText(was[i], offset), 1), h, offset) == j
    ensures Refer(Convert(reply, was, offset), h, offset)
         == was[i].from + ": " + Blue(ClockText(was[i], offset)) + Refer(rest, h, offset)
  {
    var text := Convert(reply, was, offset);
    ConvertNamed(reply, was, offset, text, rest);
    ReferReply(was[i], text, rest, h, j, offset);
  }

  lemma ReferReply(e: Entry, text: string, rest: string, h: seq<Entry>, j: nat, offset: int)
    requires j < |h| && SameNumbered(e, h[j]) && Find(ReadClock(ClockText(e, offset), 1), h, offset) == j
    requires text == ClockText(e, offset) + rest && rest != "" && rest[0] == ' '
    ensures Refer(text, h, offset) == e.from + ": " + Blue(ClockText(e, offset)) + Refer(rest, h, offset)
  {
    ReferClock(e, rest, h, j, offset);
  }

  lemma ConvertNamed(reply: string, h: seq<Entry>, offset: int, text: string, rest: string)
    requires reply != "" && NoSpaceFirst(h) && Named(reply, h) < |h|
    requires text == Convert(reply, h, offset) && rest == Convert(reply[WordLen(reply)..], h, offset)
    ensures text == ClockText(h[Named(reply, h)], offset) + rest && rest != "" && rest[0] == ' '
  {
    ConvertKeepsSpace(reply[WordLen(reply)..], h, offset);
  }
}
