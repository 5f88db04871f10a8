/** What is meant by the words of a reply that name posts, and by the clocks of a text. */
module BoardNames {
  import opened Basics
  import opened Board
  import opened Decimal
  import opened Text

  // ---------------------------------------------------------------- the k-th post of a nick

  /** The posts of a nick, ignoring case, as indexes. */
  function IndexesOf(h: seq<Entry>, nick: string): set<nat> {
    set j: nat | j < |h| && SameButCase(h[j].from, nick)
  }

  /** `r` is the `k`-th post of `nick`, or the length if there are fewer. */
  predicate IsKth(h: seq<Entry>, nick: string, k: nat, r: nat) {
    && r <= |h| && (r < |h| <==> |IndexesOf(h, nick)| >= k)
    && (r < |h| ==> SameButCase(h[r].from, nick) && |IndexesOf(h[..r], nick)| == k - 1)
  }

  lemma {:induction false} PostsOfIs(h: seq<Entry>, nick: string)
    ensures PostsOf(h, nick) == |IndexesOf(h, nick)|
  {
    if h == [] {
      assert IndexesOf(h, nick) == {};
    } else {
      PostsOfIs(h[1..], nick);
      LowerIs(h[0].from, nick);
      var later := IndexesOf(h[1..], nick);
      Shifted(later);
      var first: set<nat> := if SameButCase(h[0].from, nick) then {0} else {};
      forall j: nat | j < |h|
        ensures j in IndexesOf(h, nick) <==> j in first + ShiftUp(later)
      {
        assert j > 0 ==> h[j] == h[1..][j - 1] && (j in ShiftUp(later) <==> j - 1 in later);
      }
      assert IndexesOf(h, nick) == first + ShiftUp(later);
    }
  }

  function ShiftUp(s: set<nat>): set<nat> {
    set j | j in s :: j + 1
  }

  lemma {:induction false} Shifted(s: set<nat>)
    ensures |ShiftUp(s)| == |s| && 0 !in ShiftUp(s)
  {
    if s == {} {
      assert ShiftUp(s) == {};
    } else {
      var x :| x in s;
      Shifted(s - {x});
      forall j | j in ShiftUp(s)
        ensures j in ShiftUp(s - {x}) + {x + 1}
      {
        assert j == x + 1 || j - 1 in s - {x};
      }
      assert ShiftUp(s) == ShiftUp(s - {x}) + {x + 1};
    }
  }

  lemma NthIs(h: seq<Entry>, nick: string, k: nat)
    requires k >= 1
    ensures IsKth(h, nick, k, Nth(h, nick, k))
  {
    var r := Nth(h, nick, k);
    NthIsKth(h, nick, k);
    PostsOfIs(h, nick);
    if r < |h| {
      PostsOfIs(h[..r], nick);
      LowerIs(h[r].from, nick);
    }
  }

  // ---------------------------------------------------------------- the word that names a post

  /** A nickname that a word can hold. */
  predicate NickText(nick: string) {
    nick != "" && forall c :: c in nick ==> c != ':' && c != ' ' && c != C2
  }

  predicate NoSpace(s: string) {
    forall c :: c in s ==> c != ' '
  }

  lemma {:induction false} WordLenOf(w: string, rest: string)
    requires w != "" && NoSpace(w)
    ensures WordLen(w + " " + rest) == |w|
  {
    var s := w + " " + rest;
    if |w| == 1 {
      assert s[1] == ' ';
    } else {
      assert s[1..] == w[1..] + " " + rest && s[1] == w[1] && w[1] in w;
      assert forall c :: c in w[1..] ==> c in w;
      WordLenOf(w[1..], rest);
    }
  }

  lemma {:induction false} NickLenOf(nick: string, rest: string)
    requires (forall c :: c in nick ==> c != ':' && c != C2) && rest != "" && (rest[0] == ':' || rest[0] == C2)
    ensures NickLen(nick + rest) == |nick|
  {
    if nick == "" {
      assert nick + rest == rest;
    } else {
      assert (nick + rest)[1..] == nick[1..] + rest && nick[0] in nick;
      assert forall c :: c in nick[1..] ==> c in nick;
      NickLenOf(nick[1..], rest);
    }
  }

  /** The word `nick` + `mark` + ":" and a space: what stands behind the nickname says
      which of its posts is meant. */
  lemma WordNames(nick: string, mark: string, rest: string, h: seq<Entry>)
    requires NickText(nick) && NoSpace(mark) && (mark == "" || mark[0] == ':' || mark[0] == C2)
    ensures Named(nick + (mark + ": " + rest), h)
         == if |nick| + |mark| >= 2 then Nth(h, nick, Number(mark + ": " + rest)) else |h|
  {
    var w, behind := nick + mark + ":", mark + ": " + rest;
    var s := nick + behind;
    assert s == w + " " + rest;
    WordLenOf(w, rest);
    NickLenOf(nick, behind);
    assert s[..|nick|] == nick && s[|nick|..] == behind;
    assert s[|w| - 1] == ':';
    if |w| > 2 {
      NamesSomebody(s, |w|, |nick|, nick, behind, h);
    } else {
      NamesNobody(s, |w|, h);
    }
  }

  /** "nick:k: " names the k-th post of the nick. */
  lemma NumberNames(nick: string, k: nat, rest: string, h: seq<Entry>)
    requires NickText(nick) && k >= 1
    ensures IsKth(h, nick, k, Named(nick + (":" + Show(k) + ": " + rest), h))
  {
    var mark := ":" + Show(k);
    MarkHasNoSpace(k, mark);
    WordNames(nick, mark, rest, h);
    NumberIs(k, rest, mark + ": " + rest);
    NthIs(h, nick, k);
  }

  lemma MarkHasNoSpace(k: nat, mark: string)
    requires mark == ":" + Show(k)
    ensures NoSpace(mark) && |mark| >= 2
  {
    forall c | c in mark
      ensures c != ' '
    {
      assert c == ':' || (c in Show(k) && IsDigit(c));
    }
  }

  lemma NumberIs(k: nat, rest: string, s: string)
    requires s == ":" + Show(k) + ": " + rest
    ensures Number(s) == k
  {
    var t := Show(k) + (": " + rest);
    assert s[1..] == t;
    DigitRunStops(Show(k), ": " + rest);
    assert t[0] == Show(k)[0] && t[0] in Show(k);
    ValueOfShow(k);
  }

  /** "nick: " names its first, if the nickname has two characters at least. */
  lemma NickNames(nick: string, rest: string, h: seq<Entry>)
    requires NickText(nick)
    ensures |nick| >= 2 ==> IsKth(h, nick, 1, Named(nick + (": " + rest), h))
    ensures |nick| == 1 ==> Named(nick + (": " + rest), h) == |h|
  {
    WordNames(nick, "", rest, h);
    assert "" + ": " + rest == ": " + rest;
    assert (": " + rest)[1..][0] == ' ';
    NthIs(h, nick, 1);
  }

  /** The two bytes of a superscript one, two or three. */
  function Mark(k: nat): string
    requires 1 <= k <= 3
  {
    [0xC2 as char, if k == 1 then 0xB9 as char else if k == 2 then 0xB2 as char else 0xB3 as char]
  }

  /** "nick" with a superscript names its first, second or third. */
  lemma MarkNames(nick: string, k: nat, rest: string, h: seq<Entry>)
    requires NickText(nick) && 1 <= k <= 3
    ensures IsKth(h, nick, k, Named(nick + (Mark(k) + ": " + rest), h))
  {
    WordNames(nick, Mark(k), rest, h);
    NthIs(h, nick, k);
  }

  // ---------------------------------------------------------------- the clock of a text

  /** The time of day of a post, in seconds since midnight. */
  function DaySecond(e: Entry, offset: int): nat {
    (e.timestamp + offset) % 86400
  }

  /** Hours, minutes and seconds are those of the day. */
  lemma TimeIs(e: Entry, offset: int)
    ensures var t := TimeOf(e, offset);
            && t.Seconds? && t.hour < 24 && t.min < 60 && t.sec < 60 && t.ref == e.ref
            && DaySecond(e, offset) == 3600 * t.hour + 60 * t.min + t.sec
  {
    HourMinuteSecond(SecondOfDay(e.timestamp, offset));
  }

  predicate AtMinute(e: Entry, hour: nat, min: nat, offset: int) {
    3600 * hour + 60 * min <= DaySecond(e, offset) < 3600 * hour + 60 * min + 60
  }

  predicate AtSecond(e: Entry, hour: nat, min: nat, sec: nat, ref: nat, offset: int) {
    DaySecond(e, offset) == 3600 * hour + 60 * min + sec && e.ref == ref
  }

  lemma MatchesIs(e: Entry, hour: nat, min: nat, sec: nat, ref: nat, offset: int)
    requires hour < 24 && min < 60 && sec < 60
    ensures Matches(Minutes(hour, min), e, offset) <==> AtMinute(e, hour, min, offset)
    ensures Matches(Seconds(hour, min, sec, ref), e, offset) <==> AtSecond(e, hour, min, sec, ref, offset)
  {
    TimeIs(e, offset);
  }

  /** `i` is the newest post of that minute, or the length if there is none. */
  predicate NewestAtMinute(h: seq<Entry>, i: nat, hour: nat, min: nat, offset: int) {
    && i <= |h| && (i < |h| ==> AtMinute(h[i], hour, min, offset))
    && forall j :: 0 <= j < i ==> !AtMinute(h[j], hour, min, offset)
  }

  /** `i` is the newest post of that second and number, or the length. */
  predicate NewestAtSecond(h: seq<Entry>, i: nat, hour: nat, min: nat, sec: nat, ref: nat, offset: int) {
    && i <= |h| && (i < |h| ==> AtSecond(h[i], hour, min, sec, ref, offset))
    && forall j :: 0 <= j < i ==> !AtSecond(h[j], hour, min, sec, ref, offset)
  }

  lemma FindMinute(h: seq<Entry>, i: nat, hour: nat, min: nat, offset: int)
    requires hour < 24 && min < 60 && NewestAtMinute(h, i, hour, min, offset)
    ensures Find(Minutes(hour, min), h, offset) == i
  {
    forall j | 0 <= j < |h|
      ensures Matches(Minutes(hour, min), h[j], offset) <==> AtMinute(h[j], hour, min, offset)
    {
      MatchesIs(h[j], hour, min, 0, 0, offset);
    }
  }

  lemma FindSecond(h: seq<Entry>, i: nat, hour: nat, min: nat, sec: nat, ref: nat, offset: int)
    requires hour < 24 && min < 60 && sec < 60 && NewestAtSecond(h, i, hour, min, sec, ref, offset)
    ensures Find(Seconds(hour, min, sec, ref), h, offset) == i
  {
    forall j | 0 <= j < |h|
      ensures Matches(Seconds(hour, min, sec, ref), h[j], offset) <==> AtSecond(h[j], hour, min, sec, ref, offset)
    {
      MatchesIs(h[j], hour, min, sec, ref, offset);
    }
  }

  /** What a clock is shown as, with the author of the post it resolves to. */
  function Cited(clock: string, h: seq<Entry>, i: nat): string {
    (if i < |h| then h[i].from + ": " else "") + "<FONT COLOR=\"blue\">" + clock + "</FONT>"
  }

  predicate AllClock(s: string) {
    s != "" && forall c :: c in s ==> ClockChar(c)
  }

  lemma ReferPiece(s: string, p: string, n: nat, tail: string, h: seq<Entry>, offset: int)
    requires s != "" && n <= |s| && Piece(s, h, offset) == (p, n) && s[n..] == tail
    ensures Refer(s, h, offset) == p + Refer(tail, h, offset)
  {}

  /** A run of digits and colons that is a clock is taken whole. */
  lemma ReferRun(run: string, tail: string, h: seq<Entry>, i: nat, offset: int)
    requires AllClock(run) && (tail == "" || !ClockChar(tail[0]))
    requires !ReadClock(run, Superscript(tail)).NoClock? && Find(ReadClock(run, Superscript(tail)), h, offset) == i
    ensures Refer(run + tail, h, offset) == Cited(run, h, i) + Refer(tail, h, offset)
  {
    var s := run + tail;
    ClockRunOf(run, tail);
    assert s[|run|..] == tail && s[0] == run[0] && run[0] in run;
    assert Quoted(run, Superscript(tail), h, offset) == Cited(run, h, i);
    assert Piece(s, h, offset) == (Quoted(run, Superscript(tail), h, offset), |run|);
    ReferPiece(s, Cited(run, h, i), |run|, tail, h, offset);
  }

  function ShortClock(hour: nat, min: nat): string
    requires hour < 100 && min < 100
  {
    Pair(hour) + (":" + Pair(min))
  }

  function LongClock(hour: nat, min: nat, sec: nat): string
    requires hour < 100 && min < 100 && sec < 100
  {
    Pair(hour) + (":" + Pair(min) + (":" + Pair(sec)))
  }

  lemma ClocksAreRuns(hour: nat, min: nat, sec: nat)
    requires hour < 100 && min < 100 && sec < 100
    ensures AllClock(ShortClock(hour, min)) && AllClock(LongClock(hour, min, sec))
  {}

  /** A field of one digit is read too. */
  lemma ReadDigit(d: nat, tail: string)
    requires d < 10 && (tail == "" || !IsDigit(tail[0]))
    ensures Field(["0123456789"[d]] + tail) == Some((d, tail))
  {
    DigitTextIs(d);
    assert (["0123456789"[d]] + tail)[1..] == tail;
  }

  lemma ReadShort(hour: nat, min: nat, super: nat)
    requires hour < 100 && min < 100
    ensures ReadClock(ShortClock(hour, min), super) == Minutes(hour, min)
  {
    ReadField(hour, ":" + Pair(min));
    assert ":" + Pair(min) + "" == ":" + Pair(min);
    ReadColonField(min, "");
  }

  lemma ReadLong(hour: nat, min: nat, sec: nat, super: nat)
    requires hour < 100 && min < 100 && sec < 100
    ensures ReadClock(LongClock(hour, min, sec), super) == Seconds(hour, min, sec, super)
  {
    ReadField(hour, ":" + Pair(min) + (":" + Pair(sec)));
    ReadColonField(min, ":" + Pair(sec));
    assert ":" + Pair(sec) + "" == ":" + Pair(sec);
    ReadColonField(sec, "");
  }

  /** A clock without seconds means the newest post of that minute. */
  lemma ReferMinute(hour: nat, min: nat, tail: string, h: seq<Entry>, i: nat, offset: int)
    requires hour < 24 && min < 60 && NewestAtMinute(h, i, hour, min, offset)
    requires tail == "" || !ClockChar(tail[0])
    ensures Refer(ShortClock(hour, min) + tail, h, offset) == Cited(ShortClock(hour, min), h, i) + Refer(tail, h, offset)
  {
    ClocksAreRuns(hour, min, 0);
    ReadShort(hour, min, Superscript(tail));
    FindMinute(h, i, hour, min, offset);
    ReferRun(ShortClock(hour, min), tail, h, i, offset);
  }

  /** A clock without a number means the newest post of that second with the number one. */
  lemma ReferSecond(hour: nat, min: nat, sec: nat, tail: string, h: seq<Entry>, i: nat, offset: int)
    requires hour < 24 && min < 60 && sec < 60 && NewestAtSecond(h, i, hour, min, sec, 1, offset)
    requires tail == "" || (!ClockChar(tail[0]) && tail[0] != C2)
    ensures Refer(LongClock(hour, min, sec) + tail, h, offset)
         == Cited(LongClock(hour, min, sec), h, i) + Refer(tail, h, offset)
  {
    ClocksAreRuns(hour, min, sec);
    ReadLong(hour, min, sec, 1);
    FindSecond(h, i, hour, min, sec, 1, offset);
    ReferRun(LongClock(hour, min, sec), tail, h, i, offset);
  }

  /** With a superscript it means the post of that number; the superscript stays. */
  lemma ReferMarked(hour: nat, min: nat, sec: nat, k: nat, tail: string, h: seq<Entry>, i: nat, offset: int)
    requires hour < 24 && min < 60 && sec < 60 && 1 <= k <= 3 && NewestAtSecond(h, i, hour, min, sec, k, offset)
    ensures Refer(LongClock(hour, min, sec) + (Mark(k) + tail), h, offset)
         == Cited(LongClock(hour, min, sec), h, i) + (Mark(k) + Refer(tail, h, offset))
  {
    ClocksAreRuns(hour, min, sec);
    ReadLong(hour, min, sec, k);
    FindSecond(h, i, hour, min, sec, k, offset);
    ReferRun(LongClock(hour, min, sec), Mark(k) + tail, h, i, offset);
    ReferTwo(Mark(k)[0], Mark(k)[1], tail, h, offset);
    assert [Mark(k)[0], Mark(k)[1]] == Mark(k);
  }

  /** Two characters that mean nothing are copied. */
  lemma ReferTwo(a: char, b: char, tail: string, h: seq<Entry>, offset: int)
    requires !ClockChar(a) && !ClockChar(b) && a != '[' && b != '['
    ensures Refer([a, b] + tail, h, offset) == [a, b] + Refer(tail, h, offset)
  {
    ReferPlain([a, b], tail, h, offset);
  }

  /** With a number it means the post of that number. */
  lemma ReferNumbered(hour: nat, min: nat, sec: nat, k: nat, tail: string, h: seq<Entry>, i: nat, offset: int)
    requires hour < 24 && min < 60 && sec < 60 && NewestAtSecond(h, i, hour, min, sec, k, offset)
    requires tail == "" || !ClockChar(tail[0])
    ensures var clock := LongClock(hour, min, sec) + (":" + Show(k));
            Refer(clock + tail, h, offset) == Cited(clock, h, i) + Refer(tail, h, offset)
  {
    var clock := LongClock(hour, min, sec) + (":" + Show(k));
    ClocksAreRuns(hour, min, sec);
    ReadNumbered(hour, min, sec, k, Superscript(tail));
    FindSecond(h, i, hour, min, sec, k, offset);
    ReferRun(clock, tail, h, i, offset);
  }

  lemma ReadNumbered(hour: nat, min: nat, sec: nat, k: nat, super: nat)
    requires hour < 100 && min < 100 && sec < 100
    ensures ReadClock(LongClock(hour, min, sec) + (":" + Show(k)), super) == Seconds(hour, min, sec, k)
  {
    var number := ":" + Show(k);
    var seconds := ":" + Pair(sec) + number;
    var minutes := ":" + Pair(min) + seconds;
    assert LongClock(hour, min, sec) + number == Pair(hour) + minutes;
    ReadField(hour, minutes);
    ReadColonField(min, seconds);
    ReadColonField(sec, number);
    assert number[1..] == Show(k) && Show(k)[0] in Show(k);
    DigitRunAll(Show(k));
    ValueOfShow(k);
  }

  /** The clock that is printed for a post: the time of day, and its number if it is marked. */
  lemma ClockTextIs(e: Entry, hour: nat, min: nat, sec: nat, offset: int)
    requires hour < 24 && min < 60 && sec < 60 && DaySecond(e, offset) == 3600 * hour + 60 * min + sec
    ensures ClockText(e, offset) == LongClock(hour, min, sec) + (if e.multiple then ":" + Show(e.ref) else "")
  {
    var t := TimeOf(e, offset);
    TimeIs(e, offset);
    OneTime(hour, min, sec, t.hour, t.min, t.sec);
    ClockParts(Pair(hour), Pair(min), Pair(sec), if e.multiple then ":" + Show(e.ref) else "");
  }

  lemma OneTime(hour: nat, min: nat, sec: nat, hour': nat, min': nat, sec': nat)
    requires min < 60 && sec < 60 && min' < 60 && sec' < 60
    requires 3600 * hour + 60 * min + sec == 3600 * hour' + 60 * min' + sec'
    ensures hour == hour' && min == min' && sec == sec'
  {}

  lemma ClockParts(a: string, b: string, c: string, number: string)
    ensures a + ":" + b + ":" + c + number == a + (":" + b + (":" + c)) + number
  {}

  // ---------------------------------------------------------------- the rest of a text

  /** A totoz is shown green, up to its first closing bracket. */
  lemma ReferTotoz(name: string, totoz: string, tail: string, h: seq<Entry>, offset: int)
    requires ']' !in name && totoz == "[:" + name + "]"
    ensures Refer(totoz + tail, h, offset) == "<FONT COLOR=\"dark green\">" + totoz + "</FONT>" + Refer(tail, h, offset)
  {
    PieceTotoz(name, totoz, tail, h, offset);
    ReferPiece(totoz + tail, Green(totoz), |totoz|, tail, h, offset);
  }

  lemma PieceTotoz(name: string, totoz: string, tail: string, h: seq<Entry>, offset: int)
    requires ']' !in name && totoz == "[:" + name + "]"
    ensures Piece(totoz + tail, h, offset) == (Green(totoz), |totoz|) && (totoz + tail)[|totoz|..] == tail
  {
    var s := totoz + tail;
    BracketOf("[:" + name, tail);
    assert s == ("[:" + name) + "]" + tail;
    assert s[..|totoz|] == totoz;
  }

  lemma {:induction false} BracketOf(a: string, tail: string)
    requires ']' !in a
    ensures Bracket(a + "]" + tail) == |a|
  {
    var s := a + "]" + tail;
    if a == "" {
      assert s[0] == ']';
    } else {
      assert s[1..] == a[1..] + "]" + tail && s[0] == a[0];
      BracketOf(a[1..], tail);
    }
  }

  lemma ReferChar(c: char, tail: string, h: seq<Entry>, offset: int)
    requires !ClockChar(c) && c != '['
    ensures Refer([c] + tail, h, offset) == [c] + Refer(tail, h, offset)
  {
    assert ([c] + tail)[1..] == tail;
    ReferPiece([c] + tail, [c], 1, tail, h, offset);
  }

  /** What is no digit, no colon and no bracket is copied. */
  lemma {:induction false} ReferPlain(text: string, tail: string, h: seq<Entry>, offset: int)
    requires forall c :: c in text ==> !IsDigit(c) && c != ':' && c != '['
    ensures Refer(text + tail, h, offset) == text + Refer(tail, h, offset)
  {
    if text == "" {
      NothingPlus(tail);
      NothingPlus(Refer(tail, h, offset));
    } else {
      assert text[0] in text && forall c :: c in text[1..] ==> c in text;
      ReferPlain(text[1..], tail, h, offset);
      ReferChar(text[0], text[1..] + tail, h, offset);
      HeadAndTail(text);
      Associative([text[0]], text[1..], tail);
      Associative([text[0]], text[1..], Refer(tail, h, offset));
    }
  }

  /** A word of a reply that names nobody is copied with the space behind it. */
  lemma ConvertWord(w: string, rest: string, h: seq<Entry>, offset: int)
    requires w != "" && NoSpace(w) && Named(w + " " + rest, h) == |h|
    ensures Convert(w + " " + rest, h, offset) == w + " " + Convert(rest, h, offset)
  {
    var s := w + " " + rest;
    WordLenOf(w, rest);
    assert s[..|w| + 1] == w + " " && s[|w| + 1..] == rest;
  }

  /** One that does gives way to the clock of the post, and the space stays. */
  lemma ConvertPost(w: string, rest: string, h: seq<Entry>, i: nat, offset: int)
    requires w != "" && NoSpace(w) && i == Named(w + " " + rest, h) && i < |h|
    ensures Convert(w + " " + rest, h, offset) == ClockText(h[i], offset) + Convert(" " + rest, h, offset)
  {
    WordLenOf(w, rest);
    assert (w + " " + rest)[|w|..] == " " + rest;
  }

  /** The posts of an answer that is new and well formed throughout, as they are made. */
  lemma {:induction false} AnswerIsMade(posts: seq<Post>, was: seq<Entry>)
    requires forall k :: 0 <= k < |posts| ==> posts[k].Post? && forall e :: e in was ==> e.id != posts[k].id
    ensures |Recent(posts, was)| == |posts|
    ensures forall k :: 0 <= k < |posts| ==>
              Recent(posts, was)[k] == Entry(posts[k].id, posts[k].from, posts[k].text, posts[k].timestamp, 1, false)
  {
    if posts != [] {
      assert !Known(was, posts[0].id);
      AnswerIsMade(posts[1..], was);
    }
  }

  /** What is behind the first known post is not looked at, and malformed posts are left out. */
  lemma AnswerEnds(posts: seq<Post>, was: seq<Entry>, k: nat)
    requires k <= |posts| && (forall j :: 0 <= j < k ==> !Known(was, posts[j].id))
    requires k == |posts| || Known(was, posts[k].id)
    ensures Recent(posts, was) == Recent(posts[..k], [])
  {
    MadeAreRecent(posts, was, k);
    MadeAreRecent(posts[..k], [], k);
    MadeUpTo(posts, k, k);
  }

  lemma {:induction false} MadeUpTo(posts: seq<Post>, k: nat, n: nat)
    requires n <= k <= |posts|
    ensures MadeOf(posts[..k], n) == MadeOf(posts, n)
  {
    if n > 0 {
      MadeUpTo(posts, k, n - 1);
    }
  }

  /** If texts are not to be reformatted, they stay as they were made. */
  lemma PlainIsKept(e: Entry, h: seq<Entry>, s: Settings)
    requires s.plain
    ensures Shown(e, h, s) == e
  {}
}
