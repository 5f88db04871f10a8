/** `http_url_encode`: percent-encoding (section 2.1 of RFC 3986) into a buffer that
    grows. */
module UrlEncode {
  import opened Decimal
  import opened Text

  /** A byte of a C string. */
  predicate IsByte(c: char) {
    0 < c as int < 256
  }

  predicate IsCString(s: string) {
    forall c :: c in s ==> IsByte(c)
  }

  predicate Alphanumeric(c: char) {
    'a' <= c <= 'z' || 'A' <= c <= 'Z' || '0' <= c <= '9'
  }

  predicate Escaped(c: char, usePlus: bool) {
    !(c == ' ' && usePlus) && !Alphanumeric(c)
  }

  function UpperHexDigit(d: nat): char
    requires d < 16
  {
    if d < 10 then ('0' as int + d) as char else ('A' as int + d - 10) as char
  }

  function EncodeByte(c: char, usePlus: bool): string
    requires IsByte(c)
  {
    if c == ' ' && usePlus then "+"
    else if Escaped(c, usePlus) then ['%', UpperHexDigit(c as int / 16), UpperHexDigit(c as int % 16)]
    else [c]
  }

  function Encode(s: string, usePlus: bool): string
    requires IsCString(s)
  {
    if s == "" then "" else EncodeByte(s[0], usePlus) + Encode(s[1..], usePlus)
  }

  /** How many bytes are escaped. */
  function Escapes(s: string, usePlus: bool): nat {
    if s == "" then 0 else (if Escaped(s[0], usePlus) then 1 else 0) + Escapes(s[1..], usePlus)
  }

  function UpperHexValue(c: char): nat {
    if '0' <= c <= '9' then c as int - '0' as int
    else if 'A' <= c <= 'F' then c as int - 'A' as int + 10
    else 0
  }

  /** Decodes percent escapes, and a plus to a space. */
  function Decode(s: string): string
    decreases |s|
  {
    if s == "" then ""
    else if s[0] == '%' && |s| >= 3 then [(16 * UpperHexValue(s[1]) + UpperHexValue(s[2])) as char] + Decode(s[3..])
    else [if s[0] == '+' then ' ' else s[0]] + Decode(s[1..])
  }

  lemma DecodeByte(c: char, usePlus: bool, rest: string)
    requires IsByte(c)
    ensures Decode(EncodeByte(c, usePlus) + rest) == [c] + Decode(rest)
  {
    var e := EncodeByte(c, usePlus);
    if Escaped(c, usePlus) {
      assert (e + rest)[3..] == rest;
    } else {
      assert (e + rest)[1..] == rest;
    }
  }

  /** Decoding recovers every string. */
  lemma {:induction false} DecodeOfEncode(s: string, usePlus: bool)
    requires IsCString(s)
    ensures Decode(Encode(s, usePlus)) == s
  {
    if s != "" {
      DecodeByte(s[0], usePlus, Encode(s[1..], usePlus));
      DecodeOfEncode(s[1..], usePlus);
    }
  }

  lemma {:induction false} EncodedLength(s: string, usePlus: bool)
    requires IsCString(s)
    ensures |Encode(s, usePlus)| == |s| + 2 * Escapes(s, usePlus)
  {
    if s != "" {
      EncodedLength(s[1..], usePlus);
    }
  }

  lemma HexIsSafe(d: nat)
    requires d < 16
    ensures Alphanumeric(UpperHexDigit(d))
  {}

  /** Only letters, digits, percent and plus signs are left. */
  lemma {:induction false} EncodedIsSafe(s: string, usePlus: bool)
    requires IsCString(s)
    ensures forall c :: c in Encode(s, usePlus) ==> Plain(c) || c == '%' || (usePlus && c == '+')
  {
    if s != "" {
      assert s[0] in s;
      HexIsSafe(s[0] as int / 16);
      HexIsSafe(s[0] as int % 16);
      EncodedIsSafe(s[1..], usePlus);
    }
  }

  // ---------------------------------------------------------------- the buffer

  /** `realloc`. */
  method Realloc(ns: array<char>, size: nat) returns (r: array<char>)
    requires ns.Length <= size
    ensures fresh(r) && r.Length == size && r[..ns.Length] == ns[..]
  {
    r := new char[size];
    forall i | 0 <= i < ns.Length {
      r[i] := ns[i];
    }
  }

  /** `sprintf(&ns[index], "%%%02X", in)`, with the NUL that it adds. */
  method PrintHex(ns: array<char>, index: nat, c: char)
    requires index + 4 <= ns.Length && IsByte(c)
    modifies ns
    ensures ns[..index] == old(ns[..index])
    ensures ns[index..index + 3] == ['%', UpperHexDigit(c as int / 16), UpperHexDigit(c as int % 16)]
  {
    ns[index] := '%';
    ns[index + 1] := UpperHexDigit(c as int / 16);
    ns[index + 2] := UpperHexDigit(c as int % 16);
    ns[index + 3] := NUL;
  }

  /** How great the buffer is that started as `alloc` and was doubled whenever the
      string, whose length is `newlen` now, was about to grow beyond it. */
  function Grown(alloc: nat, newlen: nat): nat {
    if newlen <= alloc then alloc else if newlen <= 2 * alloc then 2 * alloc else 4 * alloc
  }

  /** The size of the buffer at the end. */
  function BufferSize(s: string, usePlus: bool): nat {
    Grown(|s| + 1, |s| + 1 + 2 * Escapes(s, usePlus))
  }

  lemma {:induction false} AtMostAll(s: string, usePlus: bool)
    ensures Escapes(s, usePlus) <= |s|
  {
    if s != "" {
      AtMostAll(s[1..], usePlus);
    }
  }

  /** One escape more: the buffer is doubled exactly if it would not fit. */
  lemma GrowsByDoubling(alloc: nat, newlen: nat)
    requires 2 <= alloc <= newlen && newlen + 2 <= 3 * alloc
    ensures Grown(alloc, newlen + 2)
         == if newlen + 2 > Grown(alloc, newlen) then 2 * Grown(alloc, newlen) else Grown(alloc, newlen)
    ensures newlen + 2 <= Grown(alloc, newlen + 2)
  {}

  /** The buffer is the first doubling, if any, that holds the encoding and its NUL. */
  lemma BufferIs(s: string, usePlus: bool)
    requires IsCString(s)
    ensures var size, needed := BufferSize(s, usePlus), |Encode(s, usePlus)| + 1;
            && needed <= size && (size == |s| + 1 || size == 2 * (|s| + 1) || size == 4 * (|s| + 1))
            && (size > |s| + 1 ==> 2 * needed > size)
  {
    EncodedLength(s, usePlus);
    AtMostAll(s, usePlus);
  }

  lemma NeverShrinks(alloc: nat, a: nat, b: nat)
    requires a <= b
    ensures alloc <= Grown(alloc, a) <= Grown(alloc, b)
  {}

  /** `http_url_encode`. */
  method HttpUrlEncode(s: string, usePlus: bool) returns (ns: array<char>, index: nat)
    requires IsCString(s) && BufferSize(s, usePlus) <= MAX_INT
    ensures index < ns.Length == BufferSize(s, usePlus) && ns[index] == NUL
    ensures ns[..index] == Encode(s, usePlus)
  {
    ns := new char[|s| + 1];
    var newlen := |s| + 1;
    var next := 0;
    index := 0;
    EncodeStart(s, usePlus, ns[..0]);
    AtMostAll(s, usePlus);
    while next < |s|
      invariant next <= |s| && fresh(ns)
      invariant |s| + 1 <= newlen == index + (|s| - next) + 1 <= ns.Length == Grown(|s| + 1, newlen)
      invariant newlen + 2 * Escapes(s[next..], usePlus) == |s| + 1 + 2 * Escapes(s, usePlus)
      invariant ns[..index] + Encode(s[next..], usePlus) == Encode(s, usePlus)
    {
      EncodeNext(s, next, usePlus, ns[..index]);
      RoomForOne(s, next, usePlus, newlen);
      ns, index, newlen := EncodeOne(ns, index, s[next], usePlus, newlen, |s| - next);
      next := next + 1;
    }
    EncodeEnd(s, next, usePlus, ns[..index]);
    ns[index] := NUL;
  }

  /** The length of the string, with its NUL, once `c` is encoded. */
  function Longer(c: char, usePlus: bool, newlen: nat): nat {
    newlen + if Escaped(c, usePlus) then 2 else 0
  }

  /** What the next byte does to the size of the buffer stays within `int`. */
  lemma RoomForOne(s: string, next: nat, usePlus: bool, newlen: nat)
    requires next < |s| && |s| + 1 <= newlen && BufferSize(s, usePlus) <= MAX_INT
    requires newlen + 2 * Escapes(s[next..], usePlus) == |s| + 1 + 2 * Escapes(s, usePlus)
    ensures var size, more := Grown(|s| + 1, newlen), Longer(s[next], usePlus, newlen);
            && (more > size ==> 2 * size <= MAX_INT)
            && more <= Grown(|s| + 1, more) == if more > size then 2 * size else size
  {
    AtMostAll(s, usePlus);
    if Escaped(s[next], usePlus) {
      assert Escapes(s[next..], usePlus) >= 1;
      GrowsByDoubling(|s| + 1, newlen);
      NeverShrinks(|s| + 1, newlen + 2, |s| + 1 + 2 * Escapes(s, usePlus));
    }
  }

  lemma EncodeStart(s: string, usePlus: bool, done: string)
    requires IsCString(s) && done == ""
    ensures done + Encode(s[0..], usePlus) == Encode(s, usePlus)
    ensures Escapes(s[0..], usePlus) == Escapes(s, usePlus)
  {
    assert s[0..] == s;
  }

  lemma EncodeEnd(s: string, next: nat, usePlus: bool, done: string)
    requires IsCString(s) && next == |s|
    ensures done + Encode(s[next..], usePlus) == done && Escapes(s[next..], usePlus) == 0
  {}

  lemma EncodeNext(s: string, next: nat, usePlus: bool, done: string)
    requires IsCString(s) && next < |s|
    ensures done + Encode(s[next..], usePlus) == done + EncodeByte(s[next], usePlus) + Encode(s[next + 1..], usePlus)
    ensures Escapes(s[next..], usePlus) == (if Escaped(s[next], usePlus) then 1 else 0) + Escapes(s[next + 1..], usePlus)
  {
    assert s[next..][1..] == s[next + 1..];
  }

  /** One byte: the buffer is doubled if the escape would not fit, and every write,
      the NUL of `sprintf` included, is inside it. */
  method EncodeOne(ns: array<char>, index: nat, c: char, usePlus: bool, newlen: nat, ghost remaining: nat)
    returns (ns': array<char>, index': nat, newlen': nat)
    requires IsByte(c) && remaining > 0 && newlen == index + remaining + 1 <= ns.Length
    requires Longer(c, usePlus, newlen) > ns.Length ==> 2 * ns.Length <= MAX_INT
    modifies ns
    ensures ns' == ns || fresh(ns')
    ensures newlen' == Longer(c, usePlus, newlen) == index' + remaining
    ensures newlen' <= ns'.Length == if newlen' > ns.Length then 2 * ns.Length else ns.Length
    ensures ns'[..index'] == old(ns[..index]) + EncodeByte(c, usePlus)
  {
    ns', newlen' := ns, newlen;
    ghost var before := ns[..index];
    if c == ' ' && usePlus {
      ns'[index] := '+';
      index' := index + 1;
    } else if !Alphanumeric(c) {
      newlen' := newlen + 2;
      if newlen' > ns.Length {
        var alloc := ns.Length * 2;
        assert newlen' <= alloc <= MAX_INT;
        ns' := Realloc(ns, alloc);
        assert ns'[..index] == ns'[..ns.Length][..index] == before;
      }
      PrintHex(ns', index, c);
      index' := index + 3;
      assert ns'[..index'] == ns'[..index] + ns'[index..index'];
    } else {
      ns'[index] := c;
      index' := index + 1;
    }
  }

  // ---------------------------------------------------------------- the characters

  /** A byte is a letter or a digit of ASCII. */
  predicate Plain(c: char) {
    48 <= c as int <= 57 || 65 <= c as int <= 90 || 97 <= c as int <= 122
  }

  /** Letters and digits are copied, a space may become a plus, and every other byte is a
      percent sign and two digits. */
  lemma EncodedByte(c: char, usePlus: bool)
    requires IsByte(c)
    ensures Encode([c], usePlus)
         == if Plain(c) then [c]
            else if c == ' ' && usePlus then "+"
            else ['%', "0123456789ABCDEF"[c as int / 16], "0123456789ABCDEF"[c as int % 16]]
  {
    assert [c][1..] == "" && Encode("", usePlus) == "";
    assert Encode([c], usePlus) == EncodeByte(c, usePlus) + "" == EncodeByte(c, usePlus);
    HexIs(c as int / 16);
    HexIs(c as int % 16);
  }

  lemma HexIs(d: nat)
    requires d < 16
    ensures UpperHexDigit(d) == "0123456789ABCDEF"[d]
  {}

  /** One byte after another. */
  lemma {:induction false} EncodeAppend(a: string, b: string, usePlus: bool)
    requires IsCString(a) && IsCString(b)
    ensures IsCString(a + b) && Encode(a + b, usePlus) == Encode(a, usePlus) + Encode(b, usePlus)
  {
    if a == "" {
      assert a + b == b;
    } else {
      assert (a + b)[1..] == a[1..] + b && (a + b)[0] == a[0];
      EncodeAppend(a[1..], b, usePlus);
    }
  }
}
