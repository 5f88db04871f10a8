/** Numbers in decimal: `t2s`, and `s2t` at its widths. */
module Decimal {
  import opened Text
  import opened Tokenizer

  /** The greatest `int`. */
  const MAX_INT: nat := 0x7FFF_FFFF

  predicate AllDigits(s: string) {
    forall c :: c in s ==> IsDigit(c)
  }

  function Digit(d: nat): char
    requires d < 10
  {
    ('0' as int + d) as char
  }

  /** `t2s` of an unsigned number. */
  function Show(n: nat): (r: string)
    ensures r != "" && AllDigits(r)
    ensures n > 0 ==> r[0] != '0'
  {
    if n < 10 then [Digit(n)] else Show(n / 10) + [Digit(n % 10)]
  }

  function Value(s: string): nat
    requires AllDigits(s)
  {
    if s == "" then 0
    else
      assert s[|s| - 1] in s;
      10 * Value(s[..|s| - 1]) + (s[|s| - 1] as int - '0' as int)
  }

  lemma {:induction false} ValueOfShow(n: nat)
    ensures Value(Show(n)) == n
  {
    if n >= 10 {
      var s := Show(n);
      assert s[..|s| - 1] == Show(n / 10);
      ValueOfShow(n / 10);
    } else {
      assert Show(n)[..0] == "";
    }
  }

  lemma ShowInjective(m: nat, n: nat)
    requires Show(m) == Show(n)
    ensures m == n
  {
    ValueOfShow(m);
    ValueOfShow(n);
  }

  function DigitRun(s: string): (r: string)
    ensures AllDigits(r) && |r| <= |s|
  {
    if s == "" || !IsDigit(s[0]) then "" else [s[0]] + DigitRun(s[1..])
  }

  lemma {:induction false} DigitRunAll(s: string)
    requires AllDigits(s)
    ensures DigitRun(s) == s
  {
    if s != "" {
      DigitRunAll(s[1..]);
    }
  }

  const BLANKS: set<char> := {' ', '\t', '\n', '\r', 11 as char, 12 as char}

  function Magnitude(s: string): nat {
    Value(DigitRun(if s != "" && (s[0] == '-' || s[0] == '+') then s[1..] else s))
  }

  /** `s2t` of an unsigned type whose greatest value is `max`: a greater number
      becomes `max`, and a minus sign wraps around. */
  function ReadUnsigned(s: string, max: nat): (r: nat)
    ensures r <= max
  {
    var t := Skip(s, BLANKS);
    var n := Magnitude(t);
    if n > max then max
    else if t != "" && t[0] == '-' then (max + 1 - n) % (max + 1)
    else n
  }

  /** `s2t` of the signed type from -max - 1 to max. */
  function ReadSigned(s: string, max: nat): (r: int)
    ensures -(max as int) - 1 <= r <= max
  {
    var t := Skip(s, BLANKS);
    var n := Magnitude(t) as int;
    if t != "" && t[0] == '-' then (if n > max + 1 then -(max as int) - 1 else -n)
    else if n > max then max
    else n
  }

  lemma ReadOfShow(n: nat, max: nat)
    ensures ReadUnsigned(Show(n), max) == if n <= max then n else max
    ensures ReadSigned(Show(n), max) == if n <= max then n else max
  {
    var s := Show(n);
    assert IsDigit(s[0]);
    assert Skip(s, BLANKS) == s;
    DigitRunAll(s);
    ValueOfShow(n);
  }

  // ---------------------------------------------------------------- digits, blanks and signs

  lemma MaxIntIs()
    ensures MAX_INT == 2147483647
  {}

  lemma DigitTextIs(d: nat)
    requires d < 10
    ensures Digit(d) == "0123456789"[d] && IsDigit(Digit(d)) && AllDigits([Digit(d)])
    ensures forall e: nat :: e < 10 && Digit(e) == Digit(d) ==> e == d
  {}

  /** One digit more. */
  lemma ValueMore(s: string, d: nat)
    requires AllDigits(s) && d < 10
    ensures AllDigits(s + ["0123456789"[d]]) && Value(s + ["0123456789"[d]]) == 10 * Value(s) + d
  {
    DigitTextIs(d);
    var t := s + [Digit(d)];
    assert t[..|t| - 1] == s && t[|t| - 1] == Digit(d);
  }

  /** Blanks in front are skipped: tab, line feed, vertical tab, form feed, carriage
      return and space. */
  lemma ReadSkips(b: char, s: string, max: nat)
    requires 9 <= b as int <= 13 || b as int == 32
    ensures ReadUnsigned([b] + s, max) == ReadUnsigned(s, max) && ReadSigned([b] + s, max) == ReadSigned(s, max)
  {
    assert b in BLANKS;
    assert ([b] + s)[1..] == s;
  }

  lemma {:induction false} DigitRunStops(run: string, tail: string)
    requires AllDigits(run) && (tail == "" || !IsDigit(tail[0]))
    ensures DigitRun(run + tail) == run
  {
    if run == "" {
      assert run + tail == tail;
    } else {
      assert (run + tail)[1..] == run[1..] + tail;
      DigitRunStops(run[1..], tail);
    }
  }

  lemma MagnitudeIs(n: nat, tail: string, s: string)
    requires (tail == "" || !IsDigit(tail[0])) && s == Show(n) + tail
    ensures s != "" && IsDigit(s[0]) && Magnitude(s) == n && Magnitude("-" + s) == n && Magnitude("+" + s) == n
  {
    assert ("+" + s)[1..] == s;
    assert s[0] == Show(n)[0] && Show(n)[0] in Show(n);
    assert ("-" + s)[1..] == s;
    DigitRunStops(Show(n), tail);
    ValueOfShow(n);
  }

  lemma NotSkipped(s: string)
    requires s != "" && (IsDigit(s[0]) || s[0] == '-' || s[0] == '+')
    ensures Skip(s, BLANKS) == s
  {}

  /** A number ends before the first character that is no digit. */
  lemma ReadNumber(n: nat, tail: string, s: string, max: nat)
    requires (tail == "" || !IsDigit(tail[0])) && s == Show(n) + tail
    ensures ReadUnsigned(s, max) == if n <= max then n else max
    ensures ReadSigned(s, max) == if n <= max then n else max
  {
    MagnitudeIs(n, tail, s);
    NotSkipped(s);
  }

  /** A plus sign changes nothing. */
  lemma ReadPlus(n: nat, tail: string, s: string, t: string, max: nat)
    requires (tail == "" || !IsDigit(tail[0])) && s == Show(n) + tail && t == "+" + s
    ensures ReadUnsigned(t, max) == ReadUnsigned(s, max) && ReadSigned(t, max) == ReadSigned(s, max)
  {
    MagnitudeIs(n, tail, s);
    NotSkipped(s);
    NotSkipped(t);
  }

  lemma WrapsAround(n: nat, m: nat)
    requires n < m
    ensures (m - n) % m == if n == 0 then 0 else m - n
  {}

  /** A minus sign negates a signed number, and makes an unsigned one wrap around. */
  lemma ReadMinus(n: nat, tail: string, s: string, t: string, max: nat)
    requires (tail == "" || !IsDigit(tail[0])) && s == Show(n) + tail && t == "-" + s
    ensures ReadUnsigned(t, max) == if n > max then max else if n == 0 then 0 else max + 1 - n
    ensures ReadSigned(t, max) == if n <= max + 1 then -(n as int) else -(max as int) - 1
  {
    MagnitudeIs(n, tail, s);
    NotSkipped(t);
    if n <= max {
      WrapsAround(n, max + 1);
    }
  }
}
