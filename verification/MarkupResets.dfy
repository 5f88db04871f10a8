/** What a reset does to the output of `irc2markup`: it closes the tags, but the flags
    stay. Exactly which inputs are still shown right, and which still close every tag
    once. */
module MarkupResets {
  import opened Markup
  import opened Text

  // ---------------------------------------------------------------- which inputs are shown right

  /** The `k`-th character is shown: it is no code, and no digit or comma of a colour. */
  predicate ShownAt(s: string, k: nat) {
    k < |s| && Visible(s[k]) && Boundary(s, k)
  }

  /** The last digit of a colour code, or the code itself. */
  function CodeEnd(s: string, j: nat): (r: nat)
    requires j < |s|
    ensures j <= r < |s|
  {
    if s[j] == COLOUR then j + ColourCode(s[j + 1..]).2 else j
  }

  /** No code before `i` reaches to it. */
  predicate Boundary(s: string, i: nat) {
    i <= |s| && forall j :: 0 <= j < i ==> CodeEnd(s, j) < i
  }

  /** How often `c` is among the first `k` characters. */
  function Times(s: string, c: char, k: nat): nat
    requires k <= |s|
  {
    if k == 0 then 0 else Times(s, c, k - 1) + (if s[k - 1] == c then 1 else 0)
  }

  /** The last reset before `k` is at `r`. */
  predicate LastReset(s: string, r: nat, k: nat)
    requires k <= |s|
  {
    r < k && s[r] == RESET && forall i :: r < i < k ==> s[i] != RESET
  }

  /** The last reset before `k` came after an odd number of codes `c`. */
  predicate StaleAt(s: string, c: char, k: nat)
    requires k <= |s|
  {
    exists r :: 0 <= r < k && LastReset(s, r, k) && Times(s, c, r) % 2 == 1
  }

  /** And the code `c` has come again since. */
  predicate WrongAt(s: string, c: char, k: nat)
    requires k <= |s|
  {
    exists r, t :: 0 <= r < t < k && LastReset(s, r, k) && Times(s, c, r) % 2 == 1 && s[t] == c
  }

  /** Nothing is shown where the last reset came in the middle of bold (or underlined)
      text, by the count of all such codes, and the code has come again since. */
  predicate Harmless(s: string) {
    forall k :: 0 <= k < |s| && ShownAt(s, k) ==> !WrongAt(s, BOLD, k) && !WrongAt(s, UNDERLINE, k)
  }

  /** The toggle of `c` after the first `k` characters. */
  function ToggleAt(s: string, c: char, k: nat): Toggle
    requires k <= |s|
  {
    if k == 0 then UNTOUCHED
    else if s[k - 1] == c then Turn(ToggleAt(s, c, k - 1))
    else if s[k - 1] == RESET then AtReset(ToggleAt(s, c, k - 1))
    else ToggleAt(s, c, k - 1)
  }

  lemma StaleMore(s: string, c: char, k: nat)
    requires k < |s| && c != RESET
    ensures StaleAt(s, c, k + 1) <==> if s[k] == RESET then Times(s, c, k) % 2 == 1 else StaleAt(s, c, k)
  {
    if s[k] == RESET {
      assert LastReset(s, k, k + 1);
    } else {
      assert forall r :: 0 <= r < k ==> (LastReset(s, r, k + 1) <==> LastReset(s, r, k));
    }
  }

  lemma WrongMore(s: string, c: char, k: nat)
    requires k < |s| && c != RESET
    ensures WrongAt(s, c, k + 1) <==>
              if s[k] == RESET then false else if s[k] == c then StaleAt(s, c, k) else WrongAt(s, c, k)
  {
    if s[k] != RESET {
      assert forall r :: 0 <= r < k ==> (LastReset(s, r, k + 1) <==> LastReset(s, r, k));
      if s[k] == c && StaleAt(s, c, k) {
        var r :| 0 <= r < k && LastReset(s, r, k) && Times(s, c, r) % 2 == 1;
        assert LastReset(s, r, k + 1);
      }
    }
  }

  /** The toggle is off exactly there. */
  lemma {:induction false} OffIsWrong(s: string, c: char, k: nat)
    requires k <= |s| && c != RESET
    ensures var t := ToggleAt(s, c, k);
            && t.odd == (Times(s, c, k) % 2 == 1) && t.stale == StaleAt(s, c, k) && (Off(t) <==> WrongAt(s, c, k))
  {
    if k > 0 {
      OffIsWrong(s, c, k - 1);
      StaleMore(s, c, k - 1);
      WrongMore(s, c, k - 1);
    }
  }

  lemma ColourChars(s: string)
    ensures forall p :: 0 <= p < ColourCode(s).2 ==> IsDigit(s[p]) || s[p] == ','
  {
    var fg := Digits(s);
    var t := s[|fg|..];
    if t != "" && t[0] == ',' {
      var bg := Digits(t[1..]);
      forall p | 0 <= p < |fg| + 1 + |bg|
        ensures IsDigit(s[p]) || s[p] == ','
      {
        if p < |fg| {
          assert s[p] == fg[p];
        } else if p > |fg| {
          assert s[p] == bg[p - |fg| - 1];
        }
      }
    } else {
      assert forall p :: 0 <= p < |fg| ==> s[p] == fg[p];
    }
  }

  /** Characters that are no codes leave the toggles alone. */
  lemma {:induction false} ToggleStays(s: string, c: char, i: nat, j: nat)
    requires i <= j <= |s| && c != RESET
    requires forall p :: i <= p < j ==> s[p] != c && s[p] != RESET
    ensures ToggleAt(s, c, j) == ToggleAt(s, c, i)
    decreases j
  {
    if i < j {
      ToggleStays(s, c, i, j - 1);
    }
  }

  predicate OffNowhere(s: string, i: nat) {
    forall k :: i <= k < |s| && ShownAt(s, k) ==> !Off(ToggleAt(s, BOLD, k)) && !Off(ToggleAt(s, UNDERLINE, k))
  }

  lemma DigitsInside(s: string, i: nat)
    requires i < |s|
    ensures forall p :: i < p <= CodeEnd(s, i) ==> CodeEnd(s, p) == p && s[p] != RESET && s[p] != BOLD && s[p] != UNDERLINE
  {
    if s[i] == COLOUR {
      var t := s[i + 1..];
      ColourChars(t);
      assert forall p :: i < p <= CodeEnd(s, i) ==> s[p] == t[p - i - 1];
    }
  }

  lemma NextBoundary(s: string, i: nat)
    requires Boundary(s, i) && i < |s|
    ensures Boundary(s, CodeEnd(s, i) + 1)
    ensures ShownAt(s, i) <==> Visible(s[i])
    ensures forall k :: i < k <= CodeEnd(s, i) ==> !ShownAt(s, k)
  {
    DigitsInside(s, i);
  }

  lemma ToggleNext(s: string, c: char, i: nat, next: nat)
    requires i < |s| && (c == BOLD || c == UNDERLINE) && next == CodeEnd(s, i) + 1
    ensures ToggleAt(s, c, next) == ToggleOne(s[i], c, ToggleAt(s, c, i))
  {
    DigitsInside(s, i);
    ToggleStays(s, c, i + 1, next);
  }

  function ToggleOne(x: char, c: char, t: Toggle): Toggle {
    if x == c then Turn(t) else if x == RESET then AtReset(t) else t
  }

  lemma {:induction false} ScanIs(s: string, i: nat)
    requires Boundary(s, i)
    ensures InStep(s[i..], ToggleAt(s, BOLD, i), ToggleAt(s, UNDERLINE, i)) <==> OffNowhere(s, i)
    decreases |s| - i
  {
    if i < |s| {
      var next := CodeEnd(s, i) + 1;
      NextBoundary(s, i);
      ToggleNext(s, BOLD, i, next);
      ToggleNext(s, UNDERLINE, i, next);
      ScanIs(s, next);
      ScanStep(s, i, next, ToggleAt(s, BOLD, i), ToggleAt(s, UNDERLINE, i));
      NowhereFrom(s, i, next);
    }
  }

  lemma ScanStep(s: string, i: nat, next: nat, b: Toggle, u: Toggle)
    requires i < |s| && next == CodeEnd(s, i) + 1
    ensures InStep(s[i..], b, u) <==>
              && (Visible(s[i]) ==> !Off(b) && !Off(u))
              && InStep(s[next..], ToggleOne(s[i], BOLD, b), ToggleOne(s[i], UNDERLINE, u))
  {
    assert s[i..][1..] == s[i + 1..];
    if s[i] == COLOUR {
      assert s[i + 1..][ColourCode(s[i + 1..]).2..] == s[next..];
    }
  }

  lemma NowhereFrom(s: string, i: nat, next: nat)
    requires i < next <= |s| && forall k :: i < k < next ==> !ShownAt(s, k)
    ensures OffNowhere(s, i) <==>
              OffNowhere(s, next) && (ShownAt(s, i) ==> !Off(ToggleAt(s, BOLD, i)) && !Off(ToggleAt(s, UNDERLINE, i)))
  {}

  lemma HarmlessIs(s: string)
    ensures InStep(s, UNTOUCHED, UNTOUCHED) <==> Harmless(s)
  {
    ScanIs(s, 0);
    assert s[0..] == s;
    forall k | 0 <= k < |s|
      ensures Off(ToggleAt(s, BOLD, k)) <==> WrongAt(s, BOLD, k)
      ensures Off(ToggleAt(s, UNDERLINE, k)) <==> WrongAt(s, UNDERLINE, k)
    {
      OffIsWrong(s, BOLD, k);
      OffIsWrong(s, UNDERLINE, k);
    }
  }

  /** `irc2markup` preserves what is shown and how, exactly on the inputs whose resets
      are harmless. */
  lemma MarkupMeans(s: string)
    ensures Cells(Lex(Render(Walk(s, NONE))), PLAIN) == Read(s, PLAIN) <==> Harmless(s)
  {
    WalkIsSound(s, NONE);
    LexOfRender(Walk(s, NONE));
    WalkMeans(s, NONE, PLAIN, PLAIN, UNTOUCHED, UNTOUCHED);
    HarmlessIs(s);
  }

  /** Without a reset there is no harm. */
  lemma NoResetNoHarm(s: string)
    requires RESET !in s
    ensures Harmless(s)
  {
    forall k, r | 0 <= r < k < |s|
      ensures !LastReset(s, r, k)
    {
      assert s[r] in s;
    }
  }

  /** A reset in bold, bold again, and a character: the tags do not show it in bold. */
  lemma ResetHarms()
    ensures !Harmless([BOLD, 'a', RESET, BOLD, 'b'])
  {
    var s := [BOLD, 'a', RESET, BOLD, 'b'];
    assert Times(s, BOLD, 1) == 1 && Times(s, BOLD, 2) == 1;
    assert LastReset(s, 2, 4) && s[3] == BOLD;
    assert Boundary(s, 4) && WrongAt(s, BOLD, 4);
  }

  // ---------------------------------------------------------------- which inputs close every tag once

  /** What is on by the flags and was closed by a reset all the same is `late`. Every tag
      is closed once if nothing late is closed again: by its own code, by a reset, or
      at the end of the text; and if a code that comes last leaves on only what is late. */
  predicate Once(s: string, f: Flags, late: Flags)
    decreases |s|
  {
    if s == "" then late == NONE
    else if Visible(s[0]) then Once(s[1..], f, late)
    else
      var code := Code(s, f);
      && Allowed(s[0], late)
      && if code.1 == |s| then code.2 == Late(s[0], f, late) else Once(s[code.1..], code.2, Late(s[0], f, late))
  }

  /** The code closes nothing that is late. */
  predicate Allowed(c: char, late: Flags) {
    && (c == BOLD ==> !late.bold) && (c == UNDERLINE ==> !late.underline) && (c == COLOUR ==> !late.font)
    && (c == RESET ==> late == NONE)
  }

  function Late(c: char, f: Flags, late: Flags): Flags {
    if c == RESET then f else late
  }

  /** The tags that are open: those of the flags that are not late. */
  function OpenTags(f: Flags, late: Flags): Flags {
    Flags(f.bold && !late.bold, f.underline && !late.underline, f.font && !late.font)
  }

  predicate Within(late: Flags, f: Flags) {
    (late.bold ==> f.bold) && (late.underline ==> f.underline) && (late.font ==> f.font)
  }

  lemma ClosersFrom(f: Flags, late: Flags)
    requires Within(late, f)
    ensures Matched(Closers(f), OpenTags(f, late)) == if late == NONE then Open(NONE) else Broken
  {
    var bs := if f.bold then [B(false)] else [];
    var us := if f.underline then [U(false)] else [];
    var es := if f.font then [EndFont] else [];
    MatchedAppend(bs + us, es, OpenTags(f, late));
    MatchedAppend(bs, us, OpenTags(f, late));
  }

  lemma CodeFrom(s: string, f: Flags, late: Flags)
    requires s != "" && !Visible(s[0]) && Within(late, f)
    ensures var code := Code(s, f);
            Matched(code.0, OpenTags(f, late)) ==
              if Allowed(s[0], late) then Open(OpenTags(code.2, Late(s[0], f, late))) else Broken
    ensures Allowed(s[0], late) ==> Within(Late(s[0], f, late), Code(s, f).2)
  {
    if s[0] == RESET {
      ClosersFrom(f, late);
    } else if s[0] == COLOUR {
      var c := ColourOf(s[1..]);
      MatchedAppend(if f.font then [EndFont] else [], if c.Colour? then [Font(c.fg, c.bg)] else [], OpenTags(f, late));
    }
  }

  lemma {:induction false} WalkOnce(s: string, f: Flags, late: Flags)
    requires Within(late, f)
    ensures Matched(Walk(s, f), OpenTags(f, late)) == Open(NONE) <==> Once(s, f, late)
    decreases |s|
  {
    if s == "" {
      ClosersFrom(f, late);
    } else if Visible(s[0]) {
      WalkOnce(s[1..], f, late);
      assert Walk(s, f)[1..] == Walk(s[1..], f);
    } else {
      var code, after := Code(s, f), Late(s[0], f, late);
      var rest := s[code.1..];
      CodeFrom(s, f, late);
      MatchedAppend(code.0, if rest == "" then [] else Walk(rest, code.2), OpenTags(f, late));
      if Allowed(s[0], late) && rest != "" {
        WalkOnce(rest, code.2, after);
      }
    }
  }

  /** Every tag that is opened is closed exactly once, and none is closed unopened, on
      exactly these inputs. */
  lemma TagsAreClosed(s: string)
    ensures Matched(Lex(Render(Walk(s, NONE))), NONE) == Open(NONE) <==> Once(s, NONE, NONE)
  {
    WalkIsSound(s, NONE);
    LexOfRender(Walk(s, NONE));
    WalkOnce(s, NONE, NONE);
  }

  /** Among inputs without resets they are those that end in text or have turned
      everything off themselves. */
  lemma NoResetOnce(s: string)
    requires RESET !in s
    ensures Once(s, NONE, NONE) <==> EndsInText(s) || FlagsAfter(s, NONE) == NONE
  {
    WalkOnce(s, NONE, NONE);
    WalkMatches(s, NONE);
  }

  /** An input whose reset makes a tag be closed twice. */
  lemma ResetClosesTwice()
    ensures !Once([BOLD, RESET, 'a'], NONE, NONE)
  {
    var s, on := [BOLD, RESET, 'a'], NONE.(bold := true);
    assert s[2..][1..] == "" && !Once(s[2..], on, on);
    assert s[1..][1..] == s[2..] && !Once(s[1..], on, NONE);
  }

  /** And two whose reset does not. */
  lemma ResetMayCloseOnce()
    ensures Once([BOLD, RESET], NONE, NONE) && Once([BOLD, 'a', BOLD, RESET, 'b'], NONE, NONE)
  {
    var s, on := [BOLD, 'a', BOLD, RESET, 'b'], NONE.(bold := true);
    assert [BOLD, RESET][1..] == [RESET] && Once([RESET], on, NONE);
    assert s[4..][1..] == "" && Once(s[4..], NONE, NONE);
    assert s[3..][1..] == s[4..] && Once(s[3..], NONE, NONE);
    assert s[2..][1..] == s[3..] && Once(s[2..], on, NONE);
    assert s[1..][1..] == s[2..] && Once(s[1..], on, NONE);
  }
}
