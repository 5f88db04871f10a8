/** `irc2markup`: mIRC control codes become tags. The text that is shown, and how, is
    compared between the codes and the tags. */
module Markup {
  import opened Basics
  import opened Text

  const BOLD: char := 2 as char
  const COLOUR: char := 3 as char
  const BELL: char := 7 as char
  const RESET: char := 15 as char
  const REVERSE: char := 22 as char
  const UNDERLINE: char := 31 as char

  predicate Visible(c: char) {
    c != BOLD && c != COLOUR && c != BELL && c != RESET && c != REVERSE && c != UNDERLINE
  }

  // ---------------------------------------------------------------- tokens of the output

  datatype Tok =
    | Chr(c: char)
    | B(on: bool)
    | U(on: bool)
    | Font(fg: string, bg: string)
    | EndFont

  const NAMES: seq<string> :=
    ["white", "black", "blue", "dark green", "red", "brown", "purple", "orange",
     "yellow", "green", "teal", "cyan", "light blue", "pink", "grey", "light grey"]

  /** The characters that `g_markup_escape_text` writes as numbers. */
  predicate Control(c: char) {
    var n := c as int;
    1 <= n <= 8 || 11 <= n <= 12 || 14 <= n <= 31 || 127 <= n <= 132 || 134 <= n <= 159
  }

  function LowerHexDigit(d: nat): char
    requires d < 16
  {
    if d < 10 then ('0' as int + d) as char else ('a' as int + d - 10) as char
  }

  /** `%x`, of a number of at most two digits. */
  function Hex(n: nat): string
    requires n < 256
  {
    if n < 16 then [LowerHexDigit(n)] else [LowerHexDigit(n / 16), LowerHexDigit(n % 16)]
  }

  /** `g_markup_escape_text`, of one character. */
  function Escape(c: char): string {
    if c == '&' then "&amp;"
    else if c == '<' then "&lt;"
    else if c == '>' then "&gt;"
    else if c == '\'' then "&#39;"
    else if c == '"' then "&quot;"
    else if Control(c) then "&#x" + Hex(c as int) + ";"
    else [c]
  }

  const FONT: string := "FONT COLOR=\""
  const BACK: string := "\" BACK=\""

  function Inner(fg: string, bg: string): string {
    FONT + (fg + if bg == "" then "\"" else BACK + bg + "\"")
  }

  function TextOf(t: Tok): string {
    match t
    case Chr(c) => Escape(c)
    case B(on) => if on then "<B>" else "</B>"
    case U(on) => if on then "<U>" else "</U>"
    case Font(fg, bg) => "<" + Inner(fg, bg) + ">"
    case EndFont => "</FONT>"
  }

  function Render(ts: seq<Tok>): string {
    if ts == [] then "" else TextOf(ts[0]) + Render(ts[1..])
  }

  // ---------------------------------------------------------------- reading the output

  /** Where `c` is first, or the length. */
  function Find(s: string, c: char): (r: nat)
    ensures r <= |s|
    ensures c !in s[..r]
    ensures r < |s| ==> s[r] == c
  {
    if s == "" || s[0] == c then 0 else 1 + Find(s[1..], c)
  }

  function LowerHexValue(c: char): nat {
    if '0' <= c <= '9' then c as int - '0' as int
    else if 'a' <= c <= 'f' then c as int - 'a' as int + 10
    else 0
  }

  function ReadHex(s: string): nat {
    if |s| == 1 then LowerHexValue(s[0]) else if |s| == 2 then 16 * LowerHexValue(s[0]) + LowerHexValue(s[1]) else 0
  }

  /** The character of an entity, without its ampersand and semicolon. */
  function Entity(s: string): char {
    if s == "amp" then '&'
    else if s == "lt" then '<'
    else if s == "gt" then '>'
    else if s == "#39" then '\''
    else if s == "quot" then '"'
    else if |s| > 2 && s[0] == '#' && s[1] == 'x' then ReadHex(s[2..]) as char
    else '?'
  }

  /** A tag, without its angle brackets. */
  function Tag(s: string): Tok {
    if s == "B" then B(true)
    else if s == "/B" then B(false)
    else if s == "U" then U(true)
    else if s == "/U" then U(false)
    else if s == "/FONT" then EndFont
    else if |s| >= 12 && s[..12] == FONT then
      FontOf(s[12..])
    else Chr('?')
  }

  /** The values between the quotes. */
  function FontOf(t: string): Tok {
    var q := Find(t, '"');
    var b := t[q..];
    Font(t[..q], if |b| >= 9 && b[..8] == BACK then b[8..|b| - 1] else "")
  }

  function Lex(s: string): seq<Tok>
    decreases |s|
  {
    if s == "" then []
    else if s[0] == '<' then
      var i := Find(s, '>');
      [Tag(s[1..if i < 1 then 1 else i])] + Lex(if i < |s| then s[i + 1..] else "")
    else if s[0] == '&' then
      var i := Find(s, ';');
      [Chr(Entity(s[1..if i < 1 then 1 else i]))] + Lex(if i < |s| then s[i + 1..] else "")
    else [Chr(s[0])] + Lex(s[1..])
  }

  // ---------------------------------------------------------------- what is shown

  /** Nothing, or the names of a colour and of its background, "" for none. */
  datatype Colour = NoColour | Colour(fg: string, bg: string)

  datatype Style = Style(bold: bool, underline: bool, colour: Colour)

  const PLAIN: Style := Style(false, false, NoColour)

  datatype Cell = Cell(c: char, style: Style)

  function Styled(t: Tok, st: Style): Style {
    match t
    case Chr(_) => st
    case B(on) => st.(bold := on)
    case U(on) => st.(underline := on)
    case Font(fg, bg) => st.(colour := Colour(fg, bg))
    case EndFont => st.(colour := NoColour)
  }

  /** The characters that the tokens show, each with its style. */
  function Cells(ts: seq<Tok>, st: Style): seq<Cell> {
    if ts == [] then []
    else (if ts[0].Chr? then [Cell(ts[0].c, st)] else []) + Cells(ts[1..], Styled(ts[0], st))
  }

  // ---------------------------------------------------------------- reading the codes

  /** Up to two digits. */
  function Digits(s: string): (r: string)
    ensures |r| <= 2 && |r| <= |s| && r == s[..|r|]
    ensures forall c :: c in r ==> IsDigit(c)
  {
    if s == "" || !IsDigit(s[0]) then ""
    else if |s| == 1 || !IsDigit(s[1]) then s[..1]
    else s[..2]
  }

  function Number(s: string): nat
    requires |s| <= 2 && forall c :: c in s ==> IsDigit(c)
  {
    if s == "" then 0
    else
      assert s[0] in s && IsDigit(s[0]);
      if |s| == 1 then s[0] as int - '0' as int
      else
        assert s[1] in s && IsDigit(s[1]);
        10 * (s[0] as int - '0' as int) + (s[1] as int - '0' as int)
  }

  /** What follows a colour code: the digits of the colour, those of the background,
      and how many characters they take. */
  function ColourCode(s: string): (r: (string, string, nat))
    ensures r.2 <= |s|
    ensures |r.0| <= 2 && forall c :: c in r.0 ==> IsDigit(c)
    ensures |r.1| <= 2 && forall c :: c in r.1 ==> IsDigit(c)
  {
    var fg := Digits(s);
    var t := s[|fg|..];
    if t != "" && t[0] == ',' then
      var bg := Digits(t[1..]);
      (fg, bg, |fg| + 1 + |bg|)
    else (fg, "", |fg|)
  }

  /** The colour that a code means: none without a number, or for one that the table
      does not have; a background that it does not have is none. */
  function ColourOf(s: string): Colour {
    ColourFrom(ColourCode(s).0, ColourCode(s).1)
  }

  function ColourFrom(fg: string, bg: string): Colour
    requires |fg| <= 2 && forall c :: c in fg ==> IsDigit(c)
    requires |bg| <= 2 && forall c :: c in bg ==> IsDigit(c)
  {
    if fg == "" || Number(fg) > 15 then NoColour
    else Colour(NAMES[Number(fg)], if bg == "" || Number(bg) > 15 then "" else NAMES[Number(bg)])
  }

  /** The characters that the codes show, each with its style. */
  function Read(s: string, st: Style): seq<Cell>
    decreases |s|
  {
    if s == "" then []
    else if Visible(s[0]) then [Cell(s[0], st)] + Read(s[1..], st)
    else if s[0] == COLOUR then Read(s[1..][ColourCode(s[1..]).2..], st.(colour := ColourOf(s[1..])))
    else Read(s[1..], Coded(s[0], st))
  }

  function Coded(c: char, st: Style): Style {
    if c == BOLD then st.(bold := !st.bold)
    else if c == UNDERLINE then st.(underline := !st.underline)
    else if c == RESET then PLAIN
    else st
  }

  // ---------------------------------------------------------------- what irc2markup emits

  datatype Flags = Flags(bold: bool, underline: bool, font: bool)

  const NONE: Flags := Flags(false, false, false)

  /** The tags that close what the flags say is open. */
  function Closers(f: Flags): seq<Tok> {
    (if f.bold then [B(false)] else []) + (if f.underline then [U(false)] else []) + (if f.font then [EndFont] else [])
  }

  /** The tokens of one control code, how long it is, and the flags after it. */
  function Code(s: string, f: Flags): (r: (seq<Tok>, nat, Flags))
    requires s != "" && !Visible(s[0])
    ensures 0 < r.1 <= |s|
  {
    if s[0] == BOLD then ([B(!f.bold)], 1, f.(bold := !f.bold))
    else if s[0] == UNDERLINE then ([U(!f.underline)], 1, f.(underline := !f.underline))
    else if s[0] == COLOUR then
      var c := ColourOf(s[1..]);
      ((if f.font then [EndFont] else []) + (if c.Colour? then [Font(c.fg, c.bg)] else []),
       1 + ColourCode(s[1..]).2, f.(font := c.Colour?))
    else if s[0] == RESET then (Closers(f), 1, f)
    else ([], 1, f)
  }

  /** All that is emitted. What is open is closed when the text ends, but not when
      the input ends with a code. */
  function Walk(s: string, f: Flags): seq<Tok>
    decreases |s|
  {
    if s == "" then Closers(f)
    else if Visible(s[0]) then [Chr(s[0])] + Walk(s[1..], f)
    else
      var code := Code(s, f);
      code.0 + (if code.1 == |s| then [] else Walk(s[code.1..], code.2))
  }

  // ---------------------------------------------------------------- the output reads back

  predicate Sound(t: Tok) {
    t.Font? ==> '"' !in t.fg && '>' !in t.fg && '"' !in t.bg && '>' !in t.bg
  }

  lemma {:induction false} FindAt(a: string, c: char, b: string)
    requires c !in a
    ensures Find(a + [c] + b, c) == |a|
  {
    if a == "" {
      assert a + [c] + b == [c] + b;
    } else {
      assert (a + [c] + b)[1..] == a[1..] + [c] + b;
      FindAt(a[1..], c, b);
    }
  }

  lemma LexTag(inner: string, rest: string)
    requires '>' !in inner
    ensures Lex("<" + inner + ">" + rest) == [Tag(inner)] + Lex(rest)
  {
    var s := "<" + inner + ">" + rest;
    assert s == ("<" + inner) + ['>'] + rest;
    FindAt("<" + inner, '>', rest);
    assert s[1..|inner| + 1] == inner && s[|inner| + 2..] == rest;
  }

  lemma LexEntity(inner: string, rest: string)
    requires ';' !in inner
    ensures Lex("&" + inner + ";" + rest) == [Chr(Entity(inner))] + Lex(rest)
  {
    var s := "&" + inner + ";" + rest;
    assert s == ("&" + inner) + [';'] + rest;
    FindAt("&" + inner, ';', rest);
    assert s[1..|inner| + 1] == inner && s[|inner| + 2..] == rest;
  }

  lemma HexBack(n: nat)
    requires n < 256
    ensures ReadHex(Hex(n)) == n && ';' !in Hex(n)
  {}

  lemma LexChr(c: char, rest: string)
    ensures Lex(Escape(c) + rest) == [Chr(c)] + Lex(rest)
  {
    if c == '&' {
      LexNamed("amp", c, rest);
    } else if c == '<' {
      LexNamed("lt", c, rest);
    } else if c == '>' {
      LexNamed("gt", c, rest);
    } else if c == '\'' {
      LexNamed("#39", c, rest);
    } else if c == '"' {
      LexNamed("quot", c, rest);
    } else if Control(c) {
      LexNumbered(c, rest);
    } else {
      assert (Escape(c) + rest)[1..] == rest;
    }
  }

  lemma LexNamed(name: string, c: char, rest: string)
    requires Escape(c) == "&" + name + ";" && ';' !in name && Entity(name) == c
    ensures Lex(Escape(c) + rest) == [Chr(c)] + Lex(rest)
  {
    LexEntity(name, rest);
  }

  lemma LexNumbered(c: char, rest: string)
    requires Control(c)
    ensures Lex("&#x" + Hex(c as int) + ";" + rest) == [Chr(c)] + Lex(rest)
  {
    var h := Hex(c as int);
    HexBack(c as int);
    var inner := "#x" + h;
    assert inner[2..] == h && inner[0] == '#' && inner[1] == 'x';
    assert "&#x" + h + ";" + rest == "&" + inner + ";" + rest;
    LexEntity(inner, rest);
  }

  lemma FontParts(fg: string, bg: string)
    requires '"' !in fg
    ensures FontOf(fg + if bg == "" then "\"" else BACK + bg + "\"") == Font(fg, bg)
  {
    if bg == "" {
      assert fg + "\"" == fg + ['"'] + "";
      FindAt(fg, '"', "");
    } else {
      var b := BACK + bg + "\"";
      assert BACK[0] == '"' && b == ['"'] + b[1..] && fg + b == fg + ['"'] + b[1..];
      FindAt(fg, '"', b[1..]);
      assert b[..8] == BACK && b[8..|b| - 1] == bg;
      assert (fg + b)[..|fg|] == fg && (fg + b)[|fg|..] == b;
    }
  }

  lemma TagOfFont(fg: string, bg: string)
    requires '"' !in fg
    ensures Tag(Inner(fg, bg)) == Font(fg, bg)
  {
    var t := fg + if bg == "" then "\"" else BACK + bg + "\"";
    FontParts(fg, bg);
    assert |FONT| == 12 && (FONT + t)[..12] == FONT && (FONT + t)[12..] == t;
  }

  lemma InnerIsSound(fg: string, bg: string)
    requires Sound(Font(fg, bg))
    ensures '>' !in Inner(fg, bg)
  {
    assert '>' !in FONT && '>' !in BACK;
  }

  lemma LexPlain(inner: string, text: string, rest: string)
    requires '>' !in inner && text == "<" + inner + ">"
    ensures Lex(text + rest) == [Tag(inner)] + Lex(rest)
  {
    LexTag(inner, rest);
  }

  lemma LexText(t: Tok, rest: string)
    requires Sound(t)
    ensures Lex(TextOf(t) + rest) == [t] + Lex(rest)
  {
    match t
    case Chr(c) => LexChr(c, rest);
    case B(on) =>
      if on {
        LexPlain("B", TextOf(t), rest);
      } else {
        LexPlain("/B", TextOf(t), rest);
      }
    case U(on) =>
      if on {
        LexPlain("U", TextOf(t), rest);
      } else {
        LexPlain("/U", TextOf(t), rest);
      }
    case EndFont => LexPlain("/FONT", TextOf(t), rest);
    case Font(fg, bg) =>
      TagOfFont(fg, bg);
      InnerIsSound(fg, bg);
      LexTag(Inner(fg, bg), rest);
  }

  /** The emitted text reads back as the tokens that were emitted. */
  lemma {:induction false} LexOfRender(ts: seq<Tok>)
    requires forall t :: t in ts ==> Sound(t)
    ensures Lex(Render(ts)) == ts
  {
    if ts != [] {
      LexText(ts[0], Render(ts[1..]));
      LexOfRender(ts[1..]);
      assert ts == [ts[0]] + ts[1..];
    }
  }

  // ---------------------------------------------------------------- the meaning

  function StyleAfter(ts: seq<Tok>, st: Style): Style {
    if ts == [] then st else StyleAfter(ts[1..], Styled(ts[0], st))
  }

  lemma {:induction false} CellsAppend(a: seq<Tok>, b: seq<Tok>, st: Style)
    ensures Cells(a + b, st) == Cells(a, st) + Cells(b, StyleAfter(a, st))
  {
    if a == [] {
      assert a + b == b;
    } else {
      assert (a + b)[1..] == a[1..] + b;
      CellsAppend(a[1..], b, Styled(a[0], st));
    }
  }

  lemma {:induction false} TagsShowNothing(ts: seq<Tok>, st: Style)
    requires forall t :: t in ts ==> !t.Chr?
    ensures Cells(ts, st) == []
  {
    if ts != [] {
      TagsShowNothing(ts[1..], Styled(ts[0], st));
    }
  }

  /** One of the two toggles, as the codes set it: whether an odd number has come in
      all, whether the last reset came after an odd number, and whether the toggle
      has come since. */
  datatype Toggle = Toggle(odd: bool, stale: bool, turned: bool)

  const UNTOUCHED: Toggle := Toggle(false, false, false)

  function Turn(t: Toggle): Toggle {
    t.(odd := !t.odd, turned := true)
  }

  function AtReset(t: Toggle): Toggle {
    Toggle(t.odd, t.odd, false)
  }

  /** Whether the tags and the codes disagree by now. */
  predicate Off(t: Toggle) {
    t.stale && t.turned
  }

  /** The tags and the codes agree wherever a character is shown. */
  predicate InStep(s: string, b: Toggle, u: Toggle)
    decreases |s|
  {
    if s == "" then true
    else if Visible(s[0]) then !Off(b) && !Off(u) && InStep(s[1..], b, u)
    else if s[0] == BOLD then InStep(s[1..], Turn(b), u)
    else if s[0] == UNDERLINE then InStep(s[1..], b, Turn(u))
    else if s[0] == RESET then InStep(s[1..], AtReset(b), AtReset(u))
    else if s[0] == COLOUR then InStep(s[1..][ColourCode(s[1..]).2..], b, u)
    else InStep(s[1..], b, u)
  }

  /** How a flag, what the tags say and what the codes say hang together. */
  predicate Tracks(flag: bool, tags: bool, codes: bool, t: Toggle) {
    && flag == t.odd && t.stale == (t.odd != codes)
    && (if t.turned then tags == flag else !tags && !codes)
  }

  predicate Related(f: Flags, tags: Style, codes: Style, b: Toggle, u: Toggle) {
    && Tracks(f.bold, tags.bold, codes.bold, b)
    && Tracks(f.underline, tags.underline, codes.underline, u)
    && tags.colour == codes.colour && (tags.colour.Colour? ==> f.font)
  }

  lemma ClosersClose(f: Flags, st: Style)
    requires (st.bold ==> f.bold) && (st.underline ==> f.underline) && (st.colour.Colour? ==> f.font)
    ensures StyleAfter(Closers(f), st) == PLAIN
    ensures forall t :: t in Closers(f) ==> !t.Chr?
  {
    var bs := if f.bold then [B(false)] else [];
    var us := if f.underline then [U(false)] else [];
    var es := if f.font then [EndFont] else [];
    StyleAppend(bs + us, es, st);
    StyleAppend(bs, us, st);
  }

  lemma {:induction false} StyleAppend(a: seq<Tok>, b: seq<Tok>, st: Style)
    ensures StyleAfter(a + b, st) == StyleAfter(b, StyleAfter(a, st))
  {
    if a == [] {
      assert a + b == b;
    } else {
      assert (a + b)[1..] == a[1..] + b;
      StyleAppend(a[1..], b, Styled(a[0], st));
    }
  }

  /** What the style is after a code, by the codes. */
  function CodeStyle(s: string, st: Style): Style
    requires s != "" && !Visible(s[0])
  {
    if s[0] == COLOUR then st.(colour := ColourOf(s[1..])) else Coded(s[0], st)
  }

  function CodeBold(s: string, b: Toggle): Toggle
    requires s != ""
  {
    if s[0] == BOLD then Turn(b) else if s[0] == RESET then AtReset(b) else b
  }

  function CodeUnderline(s: string, u: Toggle): Toggle
    requires s != ""
  {
    if s[0] == UNDERLINE then Turn(u) else if s[0] == RESET then AtReset(u) else u
  }

  lemma CodeRelates(s: string, f: Flags, tags: Style, codes: Style, b: Toggle, u: Toggle)
    requires s != "" && !Visible(s[0]) && Related(f, tags, codes, b, u)
    ensures var code := Code(s, f);
            && (forall t :: t in code.0 ==> !t.Chr?)
            && Related(code.2, StyleAfter(code.0, tags), CodeStyle(s, codes), CodeBold(s, b), CodeUnderline(s, u))
  {
    if s[0] == RESET {
      ClosersClose(f, tags);
    } else if s[0] == COLOUR {
      ColourRelates(s, f, tags);
    } else {
      ToggleRelates(s, f, tags, codes, b, u);
    }
  }

  lemma ToggleRelates(s: string, f: Flags, tags: Style, codes: Style, b: Toggle, u: Toggle)
    requires s != "" && !Visible(s[0]) && s[0] != RESET && s[0] != COLOUR && Related(f, tags, codes, b, u)
    ensures var code := Code(s, f);
            && (forall t :: t in code.0 ==> !t.Chr?)
            && Related(code.2, StyleAfter(code.0, tags), CodeStyle(s, codes), CodeBold(s, b), CodeUnderline(s, u))
  {}

  lemma ColourRelates(s: string, f: Flags, tags: Style)
    requires s != "" && s[0] == COLOUR && (tags.colour.Colour? ==> f.font)
    ensures StyleAfter(Code(s, f).0, tags) == tags.(colour := ColourOf(s[1..]))
  {
    var c := ColourOf(s[1..]);
    var ends := if f.font then [EndFont] else [];
    StyleAppend(ends, if c.Colour? then [Font(c.fg, c.bg)] else [], tags);
  }

  lemma CodeReads(s: string, codes: Style, f: Flags, b: Toggle, u: Toggle)
    requires s != "" && !Visible(s[0])
    ensures var rest := s[Code(s, f).1..];
            && Read(s, codes) == Read(rest, CodeStyle(s, codes))
            && (InStep(s, b, u) <==> InStep(rest, CodeBold(s, b), CodeUnderline(s, u)))
  {
    if s[0] == COLOUR {
      var n := ColourCode(s[1..]).2;
      assert s[1..][n..] == s[1 + n..];
    }
  }

  /** The tags show every character in the style of the codes exactly when the resets
      are harmless. */
  lemma {:induction false} WalkMeans(s: string, f: Flags, tags: Style, codes: Style, b: Toggle, u: Toggle)
    requires Related(f, tags, codes, b, u)
    ensures Cells(Walk(s, f), tags) == Read(s, codes) <==> InStep(s, b, u)
    decreases |s|
  {
    if s == "" {
      TagsShowNothing(Closers(f), tags);
    } else if Visible(s[0]) {
      WalkMeans(s[1..], f, tags, codes, b, u);
      assert Walk(s, f)[1..] == Walk(s[1..], f);
      SameHead(Cell(s[0], tags), Cells(Walk(s[1..], f), tags), Cell(s[0], codes), Read(s[1..], codes));
    } else {
      var code := Code(s, f);
      var rest, after := s[code.1..], StyleAfter(code.0, tags);
      CodeRelates(s, f, tags, codes, b, u);
      CodeReads(s, codes, f, b, u);
      TagsShowNothing(code.0, tags);
      CellsAppend(code.0, if rest == "" then [] else Walk(rest, code.2), tags);
      if rest != "" {
        WalkMeans(rest, code.2, after, CodeStyle(s, codes), CodeBold(s, b), CodeUnderline(s, u));
      }
    }
  }

  lemma SameHead(a: Cell, x: seq<Cell>, b: Cell, y: seq<Cell>)
    ensures [a] + x == [b] + y <==> a == b && x == y
  {
    if [a] + x == [b] + y {
      assert ([a] + x)[0] == ([b] + y)[0] && ([a] + x)[1..] == ([b] + y)[1..];
    }
  }

  lemma {:induction false} WalkIsSound(s: string, f: Flags)
    ensures forall t :: t in Walk(s, f) ==> Sound(t)
    decreases |s|
  {
    if s != "" {
      if Visible(s[0]) {
        WalkIsSound(s[1..], f);
      } else {
        var code := Code(s, f);
        CodeIsSound(s, f);
        if code.1 < |s| {
          WalkIsSound(s[code.1..], code.2);
        }
      }
    }
  }

  lemma CodeIsSound(s: string, f: Flags)
    requires s != "" && !Visible(s[0])
    ensures forall t :: t in Code(s, f).0 ==> Sound(t)
  {
    NamesAreSound(s[1..]);
  }

  lemma NamesAreSound(s: string)
    ensures var c := ColourOf(s); c.Colour? ==> Sound(Font(c.fg, c.bg))
  {
    assert forall i :: 0 <= i < |NAMES| ==> '"' !in NAMES[i] && '>' !in NAMES[i];
  }

  // ---------------------------------------------------------------- closing

  /** Reads the tags as brackets: a tag that opens must not be open, one that closes
      must be. What is open at the end, or nothing if that fails. */
  datatype Brackets = Broken | Open(f: Flags)

  function Bracket(t: Tok, f: Flags): Brackets {
    match t
    case Chr(_) => Open(f)
    case B(on) => if f.bold == on then Broken else Open(f.(bold := on))
    case U(on) => if f.underline == on then Broken else Open(f.(underline := on))
    case Font(_, _) => if f.font then Broken else Open(f.(font := true))
    case EndFont => if f.font then Open(f.(font := false)) else Broken
  }

  function Matched(ts: seq<Tok>, f: Flags): Brackets {
    if ts == [] then Open(f)
    else
      var r := Bracket(ts[0], f);
      if r.Broken? then Broken else Matched(ts[1..], r.f)
  }

  lemma {:induction false} MatchedAppend(a: seq<Tok>, b: seq<Tok>, f: Flags)
    ensures var r := Matched(a, f); Matched(a + b, f) == if r.Broken? then Broken else Matched(b, r.f)
  {
    if a == [] {
      assert a + b == b;
    } else {
      assert (a + b)[1..] == a[1..] + b;
      if Bracket(a[0], f).Open? {
        MatchedAppend(a[1..], b, Bracket(a[0], f).f);
      }
    }
  }

  /** Whether what comes last is a character that is shown, or nothing comes. */
  predicate EndsInText(s: string)
    decreases |s|
  {
    s == "" ||
    if Visible(s[0]) then EndsInText(s[1..])
    else var n := Code(s, NONE).1; n < |s| && EndsInText(s[n..])
  }

  function FlagsAfter(s: string, f: Flags): Flags
    decreases |s|
  {
    if s == "" then f
    else if Visible(s[0]) then FlagsAfter(s[1..], f)
    else FlagsAfter(s[Code(s, f).1..], Code(s, f).2)
  }

  lemma ClosersMatch(f: Flags)
    ensures Matched(Closers(f), f) == Open(NONE)
  {
    var bs := if f.bold then [B(false)] else [];
    var us := if f.underline then [U(false)] else [];
    var es := if f.font then [EndFont] else [];
    MatchedAppend(bs + us, es, f);
    MatchedAppend(bs, us, f);
  }

  lemma CodeMatches(s: string, f: Flags)
    requires s != "" && !Visible(s[0]) && s[0] != RESET
    ensures Matched(Code(s, f).0, f) == Open(Code(s, f).2)
  {
    if s[0] == COLOUR {
      var c := ColourOf(s[1..]);
      MatchedAppend(if f.font then [EndFont] else [], if c.Colour? then [Font(c.fg, c.bg)] else [], f);
    }
  }

  /** Without resets no tag is opened twice or closed unopened, and what is left open
      is nothing if the input ends in text, and else what the codes have left on. */
  lemma {:induction false} WalkMatches(s: string, f: Flags)
    requires RESET !in s
    ensures Matched(Walk(s, f), f) == Open(if EndsInText(s) then NONE else FlagsAfter(s, f))
    decreases |s|
  {
    if s == "" {
      ClosersMatch(f);
    } else if Visible(s[0]) {
      WalkMatches(s[1..], f);
      assert Walk(s, f)[1..] == Walk(s[1..], f);
    } else {
      var code := Code(s, f);
      var rest := s[code.1..];
      CodeMatches(s, f);
      MatchedAppend(code.0, if rest == "" then [] else Walk(rest, code.2), f);
      assert code.1 == Code(s, NONE).1;
      if rest != "" {
        WalkMatches(rest, code.2);
      }
    }
  }

  // ---------------------------------------------------------------- irc2markup

  /** `g_markup_escape_text`. */
  function Escaped(s: string): string {
    if s == "" then "" else Escape(s[0]) + Escaped(s[1..])
  }

  /** `strpbrk` for the control codes, from `cur` on; the length if there is none. */
  function NextCode(s: string, cur: nat): (r: nat)
    requires cur <= |s|
    ensures cur <= r <= |s|
    ensures forall i :: cur <= i < r ==> Visible(s[i])
    ensures r < |s| ==> !Visible(s[r])
    decreases |s| - cur
  {
    if cur < |s| && Visible(s[cur]) then NextCode(s, cur + 1) else cur
  }

  lemma {:induction false} WalkText(s: string, n: nat, f: Flags)
    requires n <= |s| && forall i :: 0 <= i < n ==> Visible(s[i])
    ensures Render(Walk(s, f)) == Escaped(s[..n]) + Render(Walk(s[n..], f))
  {
    if n == 0 {
      assert s[0..] == s;
    } else {
      WalkText(s[1..], n - 1, f);
      assert s[1..][..n - 1] == s[..n][1..] && s[1..][n - 1..] == s[n..];
      assert Walk(s, f)[1..] == Walk(s[1..], f);
    }
  }

  lemma {:induction false} RenderAppend(a: seq<Tok>, b: seq<Tok>)
    ensures Render(a + b) == Render(a) + Render(b)
  {
    if a == [] {
      assert a + b == b;
    } else {
      assert (a + b)[1..] == a[1..] + b;
      RenderAppend(a[1..], b);
    }
  }

  /** At most two digits, one test after the other. */
  method ReadDigits(s: string, start: nat) returns (d: string, cur: nat)
    requires start <= |s|
    ensures start <= cur <= |s| && d == Digits(s[start..]) && cur == start + |d|
  {
    d, cur := "", start;
    if cur < |s| && IsDigit(s[cur]) {
      d := d + [s[cur]];
      cur := cur + 1;
    }
    if cur > start && cur < |s| && IsDigit(s[cur]) {
      d := d + [s[cur]];
      cur := cur + 1;
    }
    assert d == s[start..][..|d|];
  }

  /** The digits behind a colour code. */
  method ReadColour(s: string, start: nat) returns (fg: string, bg: string, cur: nat)
    requires start <= |s|
    ensures start <= cur <= |s| && (fg, bg, cur - start) == ColourCode(s[start..])
  {
    fg, cur := ReadDigits(s, start);
    bg := "";
    assert s[start..][|fg|..] == s[cur..];
    if cur < |s| && s[cur] == ',' {
      assert s[cur..][1..] == s[cur + 1..];
      bg, cur := ReadDigits(s, cur + 1);
    }
  }

  /** The tags that close what is open. */
  method Close(decoded: string, f: Flags) returns (r: string)
    ensures r == decoded + Render(Closers(f))
  {
    r := decoded;
    if f.bold {
      r := r + "</B>";
    }
    if f.underline {
      r := r + "</U>";
    }
    if f.font {
      r := r + "</FONT>";
    }
    ClosersText(f);
    assert r == decoded + ((if f.bold then "</B>" else "") + (if f.underline then "</U>" else "")
                           + (if f.font then "</FONT>" else ""));
  }

  lemma ClosersText(f: Flags)
    ensures Render(Closers(f)) == (if f.bold then "</B>" else "") + (if f.underline then "</U>" else "")
                                  + (if f.font then "</FONT>" else "")
  {
    var bs := if f.bold then [B(false)] else [];
    var us := if f.underline then [U(false)] else [];
    var es := if f.font then [EndFont] else [];
    RenderAppend(bs + us, es);
    RenderAppend(bs, us);
    RenderOne(B(false));
    RenderOne(U(false));
    RenderOne(EndFont);
  }

  lemma RenderOne(t: Tok)
    ensures Render([t]) == TextOf(t)
  {
    assert Render([t]) == TextOf(t) + Render([t][1..]);
  }

  function ColourText(font: bool, c: Colour): string {
    (if font then "</FONT>" else "") + (if c.Colour? then TextOf(Font(c.fg, c.bg)) else "")
  }

  lemma ColourRendered(s: string, f: Flags)
    requires s != "" && s[0] == COLOUR
    ensures Render(Code(s, f).0) == ColourText(f.font, ColourOf(s[1..]))
  {
    var c := ColourOf(s[1..]);
    RenderAppend(if f.font then [EndFont] else [], if c.Colour? then [Font(c.fg, c.bg)] else []);
    RenderOne(EndFont);
    if c.Colour? {
      RenderOne(Font(c.fg, c.bg));
    }
  }

  /** The case of a colour code: what was open is closed, and a colour of the table
      is opened. */
  method Colours(s: string, start: nat, decoded: string, font: bool) returns (r: string, cur: nat, font': bool)
    requires start < |s| && s[start] == COLOUR
    ensures start < cur <= |s| && cur == start + 1 + ColourCode(s[start + 1..]).2
    ensures r == decoded + ColourText(font, ColourOf(s[start + 1..])) && font' == ColourOf(s[start + 1..]).Colour?
  {
    var fg, bg;
    fg, bg, cur := ReadColour(s, start + 1);
    r, font' := ColourTags(fg, bg, decoded, font);
  }

  lemma ColourAdded(decoded: string, font: bool, c: Colour)
    ensures var ended := if font then decoded + "</FONT>" else decoded;
            decoded + ColourText(font, c) == if c.Colour? then ended + TextOf(Font(c.fg, c.bg)) else ended
  {
    var ends := if font then "</FONT>" else "";
    Associative(decoded, ends, if c.Colour? then TextOf(Font(c.fg, c.bg)) else "");
    PlusNothing(decoded);
    PlusNothing(decoded + ends);
  }

  method ColourTags(fg: string, bg: string, decoded: string, font: bool) returns (r: string, font': bool)
    requires |fg| <= 2 && forall c :: c in fg ==> IsDigit(c)
    requires |bg| <= 2 && forall c :: c in bg ==> IsDigit(c)
    ensures r == decoded + ColourText(font, ColourFrom(fg, bg)) && font' == ColourFrom(fg, bg).Colour?
  {
    r, font' := decoded, font;
    if font' {
      r := r + "</FONT>";
      font' := false;
    }
    ghost var c := ColourFrom(fg, bg);
    ColourAdded(decoded, font, c);
    if fg != "" {
      var fgnum := Number(fg);
      if fgnum > 15 {
        return;
      }
      font' := true;
      var bgnum := Number(bg);
      var name := if bg != "" && bgnum < 16 then NAMES[bgnum] else "";
      assert c == Colour(NAMES[fgnum], name);
      r := r + TextOf(Font(NAMES[fgnum], name));
    }
  }

  /** The cases of the other codes. */
  method Switch(s: string, start: nat, decoded: string, f: Flags) returns (r: string, f': Flags)
    requires start < |s| && !Visible(s[start]) && s[start] != COLOUR
    ensures r == decoded + Render(Code(s[start..], f).0) && f' == Code(s[start..], f).2
  {
    r, f' := decoded, f;
    RenderOne(B(!f.bold));
    RenderOne(U(!f.underline));
    if s[start] == BOLD {
      r := r + (if f.bold then "</B>" else "<B>");
      f' := f.(bold := !f.bold);
    } else if s[start] == UNDERLINE {
      r := r + (if f.underline then "</U>" else "<U>");
      f' := f.(underline := !f.underline);
    } else if s[start] == RESET {
      r := Close(r, f);
    }
  }

  /** `irc2markup`, of a string without NUL. */
  method Irc2Markup(s: string) returns (decoded: string)
    ensures decoded == Render(Walk(s, NONE))
  {
    decoded := "";
    var cur, f := 0, NONE;
    assert s[0..] == s;
    while true
      invariant cur <= |s| && Emitted(decoded, s, cur, f) == Render(Walk(s, NONE))
      decreases |s| - cur
    {
      decoded, cur := CopyText(s, cur, decoded, f);
      if cur == |s| {
        decoded := Close(decoded, f);
        return;
      }
      decoded, cur, f := OneCode(s, cur, decoded, f);
      if cur == |s| {
        return;
      }
    }
  }

  /** What will have been emitted in the end. */
  ghost function Emitted(decoded: string, s: string, cur: nat, f: Flags): string
    requires cur <= |s|
  {
    decoded + Render(Walk(s[cur..], f))
  }

  /** The text up to the next code. */
  method CopyText(s: string, start: nat, decoded: string, ghost f: Flags) returns (r: string, cur: nat)
    requires start <= |s|
    ensures start <= cur <= |s| && (cur < |s| ==> !Visible(s[cur]))
    ensures Emitted(r, s, cur, f) == Emitted(decoded, s, start, f)
  {
    cur := NextCode(s, start);
    TextEmitted(decoded, s, start, cur, f);
    r := decoded + Escaped(s[start..cur]);
  }

  lemma TextEmitted(decoded: string, s: string, start: nat, cur: nat, f: Flags)
    requires start <= cur <= |s| && forall i :: start <= i < cur ==> Visible(s[i])
    ensures Emitted(decoded + Escaped(s[start..cur]), s, cur, f) == Emitted(decoded, s, start, f)
  {
    var t := s[start..];
    WalkText(t, cur - start, f);
    assert t[..cur - start] == s[start..cur] && t[cur - start..] == s[cur..];
    Associative(decoded, Escaped(s[start..cur]), Render(Walk(s[cur..], f)));
  }

  method OneCode(s: string, start: nat, decoded: string, f: Flags) returns (r: string, cur: nat, f': Flags)
    requires start < |s| && !Visible(s[start])
    ensures start < cur <= |s|
    ensures Emitted(decoded, s, start, f) == if cur == |s| then r else Emitted(r, s, cur, f')
  {
    ghost var t := s[start..];
    ghost var code := Code(t, f);
    assert t[1..] == s[start + 1..];
    if s[start] == COLOUR {
      var font;
      r, cur, font := Colours(s, start, decoded, f.font);
      f' := f.(font := font);
      ColourRendered(t, f);
    } else {
      r, f' := Switch(s, start, decoded, f);
      cur := start + 1;
    }
    CodeEmitted(decoded, s, start, f, r, cur, f');
  }

  lemma CodeEmitted(decoded: string, s: string, start: nat, f: Flags, r: string, cur: nat, f': Flags)
    requires start < |s| && !Visible(s[start])
    requires var code := Code(s[start..], f);
             r == decoded + Render(code.0) && cur == start + code.1 && f' == code.2
    ensures Emitted(decoded, s, start, f) == if cur == |s| then r else Emitted(r, s, cur, f')
  {
    var t := s[start..];
    var code := Code(t, f);
    var tail := if cur == |s| then [] else Walk(s[cur..], f');
    assert t[code.1..] == s[cur..];
    RenderAppend(code.0, tail);
    Associative(decoded, Render(code.0), Render(tail));
    PlusNothing(r);
  }

  // ---------------------------------------------------------------- the characters

  lemma VisibleIs(c: char)
    ensures Visible(c) <==> c as int !in {2, 3, 7, 15, 22, 31}
  {}

  lemma TagsAre()
    ensures TextOf(B(true)) == "<B>" && TextOf(B(false)) == "</B>" && TextOf(U(true)) == "<U>" && TextOf(U(false)) == "</U>"
    ensures TextOf(EndFont) == "</FONT>" && Closers(Flags(true, true, true)) == [B(false), U(false), EndFont]
  {}

  lemma FontIs(fg: string, bg: string)
    requires bg != ""
    ensures TextOf(Font(fg, "")) == "<" + ("FONT COLOR=\"" + (fg + "\"")) + ">"
    ensures TextOf(Font(fg, bg)) == "<" + ("FONT COLOR=\"" + (fg + ("\" BACK=\"" + bg + "\""))) + ">"
  {}

  lemma LowerHexIs(d: nat)
    requires d < 16
    ensures LowerHexDigit(d) == "0123456789abcdef"[d]
  {}

  lemma EscapesAre(c: char)
    ensures TextOf(Chr('&')) == "&amp;" && TextOf(Chr('<')) == "&lt;" && TextOf(Chr('>')) == "&gt;"
    ensures TextOf(Chr('\'')) == "&#39;" && TextOf(Chr('"')) == "&quot;"
    ensures 32 <= c as int <= 126 && c !in "&<>'\"" ==> TextOf(Chr(c)) == [c]
    ensures c as int == 9 || c as int == 10 || c as int == 13 ==> TextOf(Chr(c)) == [c]
    ensures c as int == 0 || c as int == 133 || c as int >= 160 ==> TextOf(Chr(c)) == [c]
  {}

  /** The other control characters are written as numbers in hexadecimal. */
  lemma ControlsAre(c: char)
    ensures 1 <= c as int <= 8 || c as int in {11, 12, 14, 15} ==>
              TextOf(Chr(c)) == "&#x" + ["0123456789abcdef"[c as int]] + ";"
    ensures 16 <= c as int <= 31 || 127 <= c as int <= 132 || 134 <= c as int <= 159 ==>
              TextOf(Chr(c)) == "&#x" + ["0123456789abcdef"[c as int / 16], "0123456789abcdef"[c as int % 16]] + ";"
  {
    if c as int < 16 {
      LowerHexIs(c as int);
    } else if c as int < 256 {
      LowerHexIs(c as int / 16);
      LowerHexIs(c as int % 16);
    }
  }

  /** The sixteen colours of mIRC, by their numbers. */
  lemma ColoursAre()
    ensures ColourFrom("0", "").fg == "white" && ColourFrom("1", "").fg == "black" && ColourFrom("2", "").fg == "blue"
    ensures ColourFrom("3", "").fg == "dark green" && ColourFrom("4", "").fg == "red" && ColourFrom("5", "").fg == "brown"
    ensures ColourFrom("6", "").fg == "purple" && ColourFrom("7", "").fg == "orange" && ColourFrom("8", "").fg == "yellow"
    ensures ColourFrom("9", "").fg == "green" && ColourFrom("10", "").fg == "teal" && ColourFrom("11", "").fg == "cyan"
    ensures ColourFrom("12", "").fg == "light blue" && ColourFrom("13", "").fg == "pink"
    ensures ColourFrom("14", "").fg == "grey" && ColourFrom("15", "").fg == "light grey"
    ensures ColourFrom("04", "12") == Colour("red", "light blue") && ColourFrom("4", "16") == Colour("red", "")
    ensures ColourFrom("16", "1") == NoColour && ColourFrom("", "1") == NoColour
  {}

  predicate AllDigits(s: string) {
    forall i :: 0 <= i < |s| ==> '0' <= s[i] <= '9'
  }

  /** What follows the digits of a colour is no digit, unless they are two. */
  predicate EndsColour(digits: string, tail: string) {
    AllDigits(digits) && |digits| <= 2 && (|digits| < 2 && tail != "" ==> !('0' <= tail[0] <= '9'))
  }

  lemma DigitsOf(digits: string, tail: string)
    requires EndsColour(digits, tail)
    ensures Digits(digits + tail) == digits && (digits + tail)[|digits|..] == tail
  {
    var s := digits + tail;
    assert s[..|digits|] == digits;
    if digits == "" {
      assert s == tail;
    }
  }

  /** At most two digits are the colour, and at most two behind a comma the background. */
  lemma ColourCodeIs(fg: string, bg: string, tail: string)
    requires EndsColour(bg, tail) && AllDigits(fg) && |fg| <= 2
    ensures ColourCode(fg + ("," + (bg + tail))) == (fg, bg, |fg| + 1 + |bg|)
    ensures EndsColour(fg, tail) && (tail == "" || tail[0] != ',') ==> ColourCode(fg + tail) == (fg, "", |fg|)
  {
    DigitsOf(fg, "," + (bg + tail));
    DigitsOf(bg, tail);
    assert ("," + (bg + tail))[1..] == bg + tail;
    if EndsColour(fg, tail) {
      DigitsOf(fg, tail);
    }
  }

  /** What each code does to the character behind it. */
  lemma CodesAre(c: char, st: Style)
    requires Visible(c) && !IsDigit(c) && c != ','
    ensures Read([2 as char, c], st) == [Cell(c, st.(bold := !st.bold))]
    ensures Read([31 as char, c], st) == [Cell(c, st.(underline := !st.underline))]
    ensures Read([15 as char, c], st) == [Cell(c, Style(false, false, NoColour))]
    ensures Read([7 as char, c], st) == [Cell(c, st)] && Read([22 as char, c], st) == [Cell(c, st)]
    ensures Read([3 as char, c], st) == [Cell(c, st.(colour := NoColour))]
    ensures Read([3 as char, '4', c], st) == [Cell(c, st.(colour := Colour("red", "")))]
  {
    ReadBehind(BOLD, c, st);
    ReadBehind(UNDERLINE, c, st);
    ReadBehind(RESET, c, st);
    ReadBehind(BELL, c, st);
    ReadBehind(REVERSE, c, st);
    ReadColoured("", c, st);
    ReadColoured("4", c, st);
    assert [COLOUR] + "" + [c] == [3 as char, c] && [COLOUR] + "4" + [c] == [3 as char, '4', c];
  }

  lemma ReadOne(c: char, st: Style)
    requires Visible(c)
    ensures Read([c], st) == [Cell(c, st)]
  {
    assert [c][1..] == [] && Read([], st) == [];
  }

  lemma ReadBehind(code: char, c: char, st: Style)
    requires Visible(c) && !Visible(code) && code != COLOUR
    ensures Read([code, c], st) == [Cell(c, Coded(code, st))]
  {
    assert [code, c][1..] == [c];
    ReadOne(c, Coded(code, st));
  }

  lemma ReadColoured(digits: string, c: char, st: Style)
    requires |digits| <= 1 && (forall d :: d in digits ==> IsDigit(d)) && Visible(c) && !IsDigit(c) && c != ','
    ensures Read([COLOUR] + digits + [c], st) == [Cell(c, st.(colour := ColourFrom(digits, "")))]
  {
    var s := [COLOUR] + digits + [c];
    var t := digits + [c];
    assert s[1..] == t && t[|digits|..] == [c];
    assert digits != "" ==> digits[0] in digits;
    assert Digits(t) == t[..|digits|] == digits;
    assert ColourCode(t) == (digits, "", |digits|);
    ReadOne(c, st.(colour := ColourFrom(digits, "")));
  }
}
