/** Channel user modes: the status mask of a ChanUser, the letters of a MODE
    message and the prefixes of a NAMES reply, with the client's reading of both. */
module Modes {

  /** `ChanUser::status`: a C++ int used only as a bit mask, here the set of the
      numbers of its bits that are set. `x | y` is `x + y` and `x & ~y` is `x - y`. */
  type Mask = set<nat>

  const WIDTH: nat := 32

  // The bit numbers of libpurple's PURPLE_CBFLAGS_*.
  const VOICE: nat := 0
  const HALFOP: nat := 1
  const OP: nat := 2
  const FOUNDER: nat := 3

  /** The bits that have a letter; the others are never shown. */
  const SHOWN: Mask := {FOUNDER, OP, HALFOP, VOICE}

  datatype ModeChar = ModeChar(mode: nat, c: char, prefix: char)

  const TABLE: seq<ModeChar> := [
    ModeChar(FOUNDER, 'q', '~'),
    ModeChar(OP, 'o', '@'),
    ModeChar(HALFOP, 'h', '%'),
    ModeChar(VOICE, 'v', '+')
  ]

  function Shown(m: Mask, mode: nat, c: char): string {
    if mode in m then [c] else ""
  }

  /** The letters of a MODE message for the bits of `m`, in the order of `TABLE`. */
  function LettersOf(m: Mask): string {
    Shown(m, FOUNDER, 'q') + Shown(m, OP, 'o') + Shown(m, HALFOP, 'h') + Shown(m, VOICE, 'v')
  }

  /** The prefix of a member in a NAMES reply. */
  function PrefixOf(m: Mask): string {
    Shown(m, FOUNDER, '~') + Shown(m, OP, '@') + Shown(m, HALFOP, '%') + Shown(m, VOICE, '+')
  }

  /** How a client reads one letter of a MODE message. */
  function BitOf(c: char): Mask {
    if c == 'q' then {FOUNDER} else if c == 'o' then {OP} else if c == 'h' then {HALFOP} else if c == 'v' then {VOICE}
    else {}
  }

  /** How a client reads one prefix character of a NAMES entry. */
  function PrefixBit(c: char): Mask {
    if c == '~' then {FOUNDER} else if c == '@' then {OP} else if c == '%' then {HALFOP} else if c == '+' then {VOICE}
    else {}
  }

  function ApplyLetters(have: Mask, add: bool, letters: string): Mask
    decreases |letters|
  {
    if letters == "" then have
    else ApplyLetters(if add then have + BitOf(letters[0]) else have - BitOf(letters[0]), add, letters[1..])
  }

  function DecodePrefix(prefix: string): Mask
    decreases |prefix|
  {
    if prefix == "" then {} else PrefixBit(prefix[0]) + DecodePrefix(prefix[1..])
  }

  lemma {:induction false} ApplyAppend(have: Mask, add: bool, a: string, b: string)
    ensures ApplyLetters(have, add, a + b) == ApplyLetters(ApplyLetters(have, add, a), add, b)
    decreases |a|
  {
    if a == "" {
      assert a + b == b;
    } else {
      assert (a + b)[1..] == a[1..] + b;
      ApplyAppend(if add then have + BitOf(a[0]) else have - BitOf(a[0]), add, a[1..], b);
    }
  }

  lemma ApplyShown(have: Mask, add: bool, m: Mask, mode: nat, c: char)
    requires BitOf(c) == {mode}
    ensures ApplyLetters(have, add, Shown(m, mode, c)) == if add then have + m * {mode} else have - m * {mode}
  {
    assert m * {mode} == if mode in m then {mode} else {};
  }

  /** A client that applies the letters of a MODE message to the shown bits it
      had ends with the shown bits of the server's new mask. */
  lemma LettersRoundTrip(have: Mask, m: Mask)
    ensures ApplyLetters(have * SHOWN, true, LettersOf(m)) == (have + m) * SHOWN
    ensures ApplyLetters(have * SHOWN, false, LettersOf(m)) == (have - m) * SHOWN
  {
    var q, o, h, v := Shown(m, FOUNDER, 'q'), Shown(m, OP, 'o'), Shown(m, HALFOP, 'h'), Shown(m, VOICE, 'v');
    forall add: bool
      ensures ApplyLetters(have * SHOWN, add, LettersOf(m)) == if add then (have + m) * SHOWN else (have - m) * SHOWN
    {
      ApplyAppend(have * SHOWN, add, q + o + h, v);
      ApplyAppend(have * SHOWN, add, q + o, h);
      ApplyAppend(have * SHOWN, add, q, o);
      var h0 := have * SHOWN;
      ApplyShown(h0, add, m, FOUNDER, 'q');
      var h1 := ApplyLetters(h0, add, q);
      ApplyShown(h1, add, m, OP, 'o');
      var h2 := ApplyLetters(h1, add, o);
      ApplyShown(h2, add, m, HALFOP, 'h');
      var h3 := ApplyLetters(h2, add, h);
      ApplyShown(h3, add, m, VOICE, 'v');
    }
  }

  lemma DecodeAppend(a: string, b: string)
    ensures DecodePrefix(a + b) == DecodePrefix(a) + DecodePrefix(b)
    decreases |a|
  {
    if a == "" {
      assert a + b == b;
    } else {
      assert (a + b)[1..] == a[1..] + b;
      DecodeAppend(a[1..], b);
    }
  }

  lemma DecodeShown(m: Mask, mode: nat, c: char)
    requires PrefixBit(c) == {mode}
    ensures DecodePrefix(Shown(m, mode, c)) == m * {mode}
  {
    assert m * {mode} == if mode in m then {mode} else {};
  }

  /** A client that decodes the prefix of a NAMES entry gets the shown bits. */
  lemma PrefixRoundTrip(m: Mask)
    ensures DecodePrefix(PrefixOf(m)) == m * SHOWN
  {
    var q, o, h, v := Shown(m, FOUNDER, '~'), Shown(m, OP, '@'), Shown(m, HALFOP, '%'), Shown(m, VOICE, '+');
    DecodeAppend(q + o + h, v);
    DecodeAppend(q + o, h);
    DecodeAppend(q, o);
    DecodeShown(m, FOUNDER, '~');
    DecodeShown(m, OP, '@');
    DecodeShown(m, HALFOP, '%');
    DecodeShown(m, VOICE, '+');
  }

  /** The first `i` rows of the loops over `m2c`. */
  function LettersUpTo(m: Mask, i: nat): string
    requires i <= |TABLE|
  {
    if i == 0 then "" else LettersUpTo(m, i - 1) + Shown(m, TABLE[i - 1].mode, TABLE[i - 1].c)
  }

  function PrefixUpTo(m: Mask, i: nat): string
    requires i <= |TABLE|
  {
    if i == 0 then "" else PrefixUpTo(m, i - 1) + Shown(m, TABLE[i - 1].mode, TABLE[i - 1].prefix)
  }

  lemma AllRows(m: Mask)
    ensures LettersUpTo(m, |TABLE|) == LettersOf(m)
    ensures PrefixUpTo(m, |TABLE|) == PrefixOf(m)
  {
    assert LettersUpTo(m, 1) == Shown(m, FOUNDER, 'q');
    assert LettersUpTo(m, 2) == LettersUpTo(m, 1) + Shown(m, OP, 'o');
    assert LettersUpTo(m, 3) == LettersUpTo(m, 2) + Shown(m, HALFOP, 'h');
    assert PrefixUpTo(m, 1) == Shown(m, FOUNDER, '~');
    assert PrefixUpTo(m, 2) == PrefixUpTo(m, 1) + Shown(m, OP, '@');
    assert PrefixUpTo(m, 3) == PrefixUpTo(m, 2) + Shown(m, HALFOP, '%');
  }

  /** `ChanUser::getPrefix`. */
  method GetPrefix(status: Mask) returns (s: string)
    ensures s == PrefixOf(status)
  {
    s := "";
    for i := 0 to |TABLE|
      invariant s == PrefixUpTo(status, i)
    {
      if TABLE[i].mode in status {
        s := s + [TABLE[i].prefix];
      }
    }
    AllRows(status);
  }

  /** The letters that `ChanUser::getModeMessage` collects. */
  method GetLetters(modes: Mask) returns (s: string)
    ensures s == LettersOf(modes)
  {
    s := "";
    for i := 0 to |TABLE|
      invariant s == LettersUpTo(modes, i)
    {
      if TABLE[i].mode in modes {
        s := s + [TABLE[i].c];
      }
    }
    AllRows(modes);
  }

  /** The 32-step loop of `updateBuddy`: which bits to add, which to delete. */
  method MaskDifference(mlast: Mask, mnew: Mask) returns (add: Mask, del: Mask)
    requires forall b :: b in mlast || b in mnew ==> b < WIDTH
    ensures add == mnew - mlast
    ensures del == mlast - mnew
  {
    add, del := {}, {};
    for i := 0 to WIDTH
      invariant forall b :: b in add <==> b < i && b in mnew && b !in mlast
      invariant forall b :: b in del <==> b < i && b in mlast && b !in mnew
    {
      if i !in mlast && i in mnew {
        add := add + {i};
      }
      if i in mlast && i !in mnew {
        del := del + {i};
      }
    }
  }

  // ---------------------------------------------------------------- the letters

  /** The letters and prefixes of RFC 2812 and of the servers that have owners and
      half-operators. */
  lemma LettersAre()
    ensures LettersOf({FOUNDER}) == "q" && LettersOf({OP}) == "o" && LettersOf({HALFOP}) == "h" && LettersOf({VOICE}) == "v"
    ensures PrefixOf({FOUNDER}) == "~" && PrefixOf({OP}) == "@" && PrefixOf({HALFOP}) == "%" && PrefixOf({VOICE}) == "+"
    ensures LettersOf({FOUNDER, OP, HALFOP, VOICE}) == "qohv" && PrefixOf({FOUNDER, OP, HALFOP, VOICE}) == "~@%+"
    ensures forall m: Mask :: VOICE !in m && HALFOP !in m && OP !in m && FOUNDER !in m ==> LettersOf(m) == "" == PrefixOf(m)
  {}

  /** The bits of libpurple's flags, and how many an `int` has. */
  lemma BitsAre()
    ensures VOICE == 0 && HALFOP == 1 && OP == 2 && FOUNDER == 3 && WIDTH == 32
    ensures SHOWN == {0, 1, 2, 3}
  {}
}
