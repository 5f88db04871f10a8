/** Characters and strings, in the C locale. */
module Text {
  const NUL: char := 0 as char

  predicate IsDigit(c: char) {
    '0' <= c <= '9'
  }

  function LowerChar(c: char): char {
    if 'A' <= c <= 'Z' then c + (('a' as int - 'A' as int) as char) else c
  }

  /** `strlower`, in the C locale. */
  function Lower(s: string): (r: string)
    ensures |r| == |s|
  {
    seq(|s|, i requires 0 <= i < |s| => LowerChar(s[i]))
  }

  function UpperChar(c: char): char {
    if 'a' <= c <= 'z' then c - (('a' as int - 'A' as int) as char) else c
  }

  /** `strupper`, in the C locale. */
  function Upper(s: string): (r: string)
    ensures |r| == |s|
  {
    seq(|s|, i requires 0 <= i < |s| => UpperChar(s[i]))
  }

  // ---------------------------------------------------------------- what the cases are

  /** The same character, or a letter from A to Z and the same letter from a to z. */
  predicate SameLetter(c: char, d: char) {
    || c == d
    || (65 <= c as int <= 90 && d as int == c as int + 32)
    || (65 <= d as int <= 90 && c as int == d as int + 32)
  }

  /** Two texts that differ in the case of their letters only. */
  predicate SameButCase(s: string, t: string) {
    |s| == |t| && forall i :: 0 <= i < |s| ==> SameLetter(s[i], t[i])
  }

  lemma LowerCharIs(c: char, d: char)
    ensures LowerChar(c) == LowerChar(d) <==> SameLetter(c, d)
  {}

  /** Texts are equal once they are lower-case if and only if they differ in case only. */
  lemma LowerIs(s: string, t: string)
    ensures Lower(s) == Lower(t) <==> SameButCase(s, t)
  {
    if Lower(s) == Lower(t) {
      forall i | 0 <= i < |s|
        ensures SameLetter(s[i], t[i])
      {
        assert LowerChar(s[i]) == Lower(s)[i] == Lower(t)[i] == LowerChar(t[i]);
        LowerCharIs(s[i], t[i]);
      }
    }
    if SameButCase(s, t) {
      forall i | 0 <= i < |s|
        ensures Lower(s)[i] == Lower(t)[i]
      {
        LowerCharIs(s[i], t[i]);
      }
    }
  }

  /** The upper-case text differs in case only and has no letter from a to z. */
  lemma UpperIs(s: string)
    ensures SameButCase(Upper(s), s) && forall i :: 0 <= i < |s| ==> !(97 <= Upper(s)[i] as int <= 122)
  {}

  /** A text is its own upper case if and only if it has no letter from a to z. */
  lemma IsUpper(s: string)
    ensures Upper(s) == s <==> forall i :: 0 <= i < |s| ==> !(97 <= s[i] as int <= 122)
  {
    UpperIs(s);
    if forall i :: 0 <= i < |s| ==> !(97 <= s[i] as int <= 122) {
      assert forall i :: 0 <= i < |s| ==> Upper(s)[i] == UpperChar(s[i]) == s[i];
    }
  }

  lemma NulIs()
    ensures NUL as int == 0
  {}

  lemma DigitIs(c: char)
    ensures IsDigit(c) <==> c in "0123456789"
  {}
}
