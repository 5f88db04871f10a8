/** `stringtok`, and what calling it until it returns nothing yields. */
module Tokenizer {
  const SPACE: set<char> := {' '}
  const LINE_ENDS: set<char> := {'\r', '\n'}

  // ---------------------------------------------------------------- specification

  /** `s` without its leading delimiters. */
  function Skip(s: string, ds: set<char>): (r: string)
    ensures |r| <= |s|
    ensures r == "" || r[0] !in ds
  {
    if s != "" && s[0] in ds then Skip(s[1..], ds) else s
  }

  /** The longest prefix of `s` free of delimiters. */
  function Run(s: string, ds: set<char>): (r: string)
    ensures |r| <= |s| && r == s[..|r|]
    ensures forall c :: c in r ==> c !in ds
    ensures |r| < |s| ==> s[|r|] in ds
  {
    if s == "" || s[0] in ds then "" else [s[0]] + Run(s[1..], ds)
  }

  /** The first token, and what is left: one delimiter after the token goes too. */
  function Tok(s: string, ds: set<char>): (r: (string, string))
    ensures r.0 != "" ==> |r.1| < |s|
    ensures |r.0| + |r.1| <= |s|
    ensures r.0 == "" ==> r.1 == ""
    ensures forall c :: c in r.0 ==> c !in ds
  {
    var t := Skip(s, ds);
    var w := Run(t, ds);
    (w, if |w| < |t| then t[|w| + 1..] else "")
  }

  function Tokens(s: string, ds: set<char>): seq<string>
    decreases |s|
  {
    var t := Tok(s, ds);
    if t.0 == "" then [] else [t.0] + Tokens(t.1, ds)
  }

  /** The fields between delimiters, empty ones too. */
  function Fields(s: string, ds: set<char>): (r: seq<string>)
    ensures r != []
  {
    if s == "" then [""]
    else
      var rest := Fields(s[1..], ds);
      if s[0] in ds then [""] + rest else [[s[0]] + rest[0]] + rest[1..]
  }

  function NonEmpty(fs: seq<string>): seq<string> {
    if fs == [] then [] else (if fs[0] == "" then [] else [fs[0]]) + NonEmpty(fs[1..])
  }

  // ---------------------------------------------------------------- stringtok

  /** `find_first_not_of`; `npos` is the length. */
  function FirstNotOf(s: string, ds: set<char>, i: nat): (r: nat)
    requires i <= |s|
    ensures i <= r <= |s|
    ensures s[r..] == Skip(s[i..], ds)
    decreases |s| - i
  {
    if i < |s| && s[i] in ds then
      assert s[i..][1..] == s[i + 1..];
      FirstNotOf(s, ds, i + 1)
    else i
  }

  /** `find_first_of`. */
  function FirstOf(s: string, ds: set<char>, i: nat): (r: nat)
    requires i <= |s|
    ensures i <= r <= |s|
    ensures s[i..r] == Run(s[i..], ds)
    decreases |s| - i
  {
    if i < |s| && s[i] !in ds then
      assert s[i..][1..] == s[i + 1..];
      var r := FirstOf(s, ds, i + 1);
      assert s[i..r] == [s[i]] + s[i + 1..r];
      r
    else i
  }

  /** `stringtok`; `rest` is what it leaves in its argument. */
  method StringTok(input: string, ds: set<char>) returns (s: string, rest: string)
    ensures (s, rest) == Tok(input, ds)
  {
    var i := FirstNotOf(input, ds, 0);
    assert input[0..] == input;
    var j := FirstOf(input, ds, i);
    var t := input[i..];
    assert t == Skip(input, ds) && input[i..j] == Run(t, ds);
    if j == |input| {
      s := if i == |input| then "" else input[i..];
      rest := "";
      assert s == t && input[i..j] == t;
    } else {
      s := input[i..j];
      rest := input[j + 1..];
      assert |s| < |t| && t[|s| + 1..] == rest;
    }
  }

  // ---------------------------------------------------------------- what the tokens are

  lemma {:induction false} SkipFields(s: string, ds: set<char>)
    ensures NonEmpty(Fields(s, ds)) == NonEmpty(Fields(Skip(s, ds), ds))
  {
    if s != "" && s[0] in ds {
      SkipFields(s[1..], ds);
      assert ([""] + Fields(s[1..], ds))[1..] == Fields(s[1..], ds);
    }
  }

  lemma {:induction false} RunFields(s: string, ds: set<char>)
    ensures var w := Run(s, ds);
            Fields(s, ds) == if |w| < |s| then [w] + Fields(s[|w| + 1..], ds) else [w]
  {
    if s != "" && s[0] !in ds {
      RunFields(s[1..], ds);
      var w := Run(s[1..], ds);
      if |w| < |s[1..]| {
        assert s[1..][|w| + 1..] == s[|w| + 2..];
      }
    }
  }

  /** The tokens are exactly the maximal delimiter-free runs, in order. */
  lemma {:induction false} TokensAreRuns(s: string, ds: set<char>)
    ensures Tokens(s, ds) == NonEmpty(Fields(s, ds))
    decreases |s|
  {
    var t := Skip(s, ds);
    var w := Run(t, ds);
    SkipFields(s, ds);
    RunFields(t, ds);
    if w == "" {
      assert t == "";
    } else if |w| < |t| {
      TokensAreRuns(t[|w| + 1..], ds);
      NonEmptyFirst(w, Fields(t[|w| + 1..], ds));
    } else {
      NonEmptyOne(w);
      assert Tokens("", ds) == [];
    }
  }

  lemma TokensOfRun(w: string, tail: string, ds: set<char>)
    requires w != "" && (forall c :: c in w ==> c !in ds)
    requires tail == "" || tail[0] in ds
    ensures Tok(w + tail, ds) == (w, if tail == "" then "" else tail[1..])
  {
    RunOf(w, tail, ds);
    assert (w + tail)[0] == w[0];
    assert tail != "" ==> (w + tail)[|w| + 1..] == tail[1..];
  }

  /** A word and a space come off as one token. */
  lemma FirstWord(w: string, x: string)
    requires w != "" && ' ' !in w
    ensures Tokens(w + " " + x, SPACE) == [w] + Tokens(x, SPACE)
  {
    assert w + " " + x == w + (" " + x) && (" " + x)[1..] == x;
    TokensOfRun(w, " " + x, SPACE);
  }

  lemma OnlyWord(w: string)
    requires w != "" && ' ' !in w
    ensures Tokens(w, SPACE) == [w]
  {
    assert w + "" == w;
    TokensOfRun(w, "", SPACE);
    NoTokens();
  }

  lemma TwoWords(a: string, b: string)
    requires a != "" && b != "" && ' ' !in a && ' ' !in b
    ensures Tokens(a + " " + b, SPACE) == [a, b]
  {
    FirstWord(a, b);
    OnlyWord(b);
  }

  lemma NoTokens()
    ensures Tokens("", SPACE) == []
  {}

  lemma {:induction false} RunOf(w: string, tail: string, ds: set<char>)
    requires forall c :: c in w ==> c !in ds
    requires tail == "" || tail[0] in ds
    ensures Run(w + tail, ds) == w
  {
    if w != "" {
      assert (w + tail)[1..] == w[1..] + tail;
      RunOf(w[1..], tail, ds);
    } else {
      assert w + tail == tail;
    }
  }

  lemma SkipOne(s: string, ds: set<char>, d: char)
    requires d in ds
    ensures Tok([d] + s, ds) == Tok(s, ds)
  {
    assert ([d] + s)[1..] == s;
  }

  // ---------------------------------------------------------------- a text in two parts

  predicate CutsClean(a: string, b: string, ds: set<char>) {
    a == "" || b == "" || a[|a| - 1] in ds || b[0] in ds
  }

  /** The last of the one and the first of the other become one. */
  function Merge(x: seq<string>, y: seq<string>): (r: seq<string>)
    requires x != [] && y != []
    ensures r != []
  {
    x[..|x| - 1] + [x[|x| - 1] + y[0]] + y[1..]
  }

  lemma MergeCons(f: string, x: seq<string>, y: seq<string>)
    requires x != [] && y != []
    ensures Merge([f] + x, y) == [f] + Merge(x, y)
  {
    assert ([f] + x)[..|x|] == [f] + x[..|x| - 1];
  }

  lemma MergeHead(c: char, x: seq<string>, y: seq<string>)
    requires x != [] && y != []
    ensures Merge([[c] + x[0]] + x[1..], y) == [[c] + Merge(x, y)[0]] + Merge(x, y)[1..]
  {
    if |x| == 1 {
      assert x == [x[0]] && [[c] + x[0]] + x[1..] == [[c] + x[0]];
      assert [c] + x[0] + y[0] == [c] + (x[0] + y[0]);
      assert Merge(x, y) == [x[0] + y[0]] + y[1..];
    } else {
      MergeCons([c] + x[0], x[1..], y);
      MergeCons(x[0], x[1..], y);
      assert [x[0]] + x[1..] == x;
    }
  }

  lemma {:induction false} FieldsAppend(a: string, b: string, ds: set<char>)
    ensures Fields(a + b, ds) == Merge(Fields(a, ds), Fields(b, ds))
  {
    var y := Fields(b, ds);
    if a == "" {
      MergeNothing(y);
      assert a + b == b;
    } else {
      assert (a + b)[1..] == a[1..] + b && (a + b)[0] == a[0];
      FieldsAppend(a[1..], b, ds);
      var x := Fields(a[1..], ds);
      MergeCons("", x, y);
      MergeHead(a[0], x, y);
    }
  }

  lemma MergeNothing(y: seq<string>)
    requires y != []
    ensures Merge([""], y) == y
  {
    assert "" + y[0] == y[0] && [""][..0] == [];
  }

  lemma {:induction false} LastField(a: string, ds: set<char>)
    ensures var x := Fields(a, ds); x[|x| - 1] == "" <==> a == "" || a[|a| - 1] in ds
  {
    if |a| > 0 {
      LastField(a[1..], ds);
    }
  }

  lemma {:induction false} NonEmptyAppend(x: seq<string>, y: seq<string>)
    ensures NonEmpty(x + y) == NonEmpty(x) + NonEmpty(y)
  {
    if x == [] {
      assert x + y == y;
    } else {
      assert (x + y)[1..] == x[1..] + y;
      NonEmptyAppend(x[1..], y);
    }
  }

  function WordOf(f: string): seq<string> {
    if f == "" then [] else [f]
  }

  lemma NonEmptyOne(f: string)
    ensures NonEmpty([f]) == WordOf(f)
  {
    assert [f][1..] == [];
  }

  lemma NonEmptyLast(x: seq<string>, f: string)
    ensures NonEmpty(x + [f]) == NonEmpty(x) + WordOf(f)
  {
    NonEmptyAppend(x, [f]);
    NonEmptyOne(f);
  }

  lemma NonEmptyMerged(x: seq<string>, f: string, g: string, y: seq<string>)
    ensures NonEmpty(Merge(x + [f], [g] + y)) == NonEmpty(x) + WordOf(f + g) + NonEmpty(y)
  {
    assert (x + [f])[..|x|] == x && ([g] + y)[1..] == y;
    NonEmptyAppend(x + [f + g], y);
    NonEmptyLast(x, f + g);
  }

  lemma NonEmptyFirst(g: string, y: seq<string>)
    ensures NonEmpty([g] + y) == WordOf(g) + NonEmpty(y)
  {
    NonEmptyAppend([g], y);
    NonEmptyOne(g);
  }

  lemma OneWordOrTwo(u: seq<string>, f: string, g: string, v: seq<string>)
    ensures u + WordOf(f + g) + v == u + WordOf(f) + (WordOf(g) + v) <==> f == "" || g == ""
    ensures f != "" && g != "" ==> |u + WordOf(f + g) + v| == |u + WordOf(f) + (WordOf(g) + v)| - 1
  {
    if f != "" && g != "" {
      assert |u + WordOf(f + g) + v| < |u + WordOf(f) + (WordOf(g) + v)|;
    } else {
      assert f + g == if f == "" then g else f;
      Regrouped(u, WordOf(f), WordOf(g), v);
    }
  }

  lemma Regrouped(u: seq<string>, p: seq<string>, q: seq<string>, v: seq<string>)
    ensures p == [] || q == [] ==> u + (if p == [] then q else p) + v == u + p + (q + v)
  {
    if p == [] {
      assert u + p == u && u + q + v == u + (q + v);
    } else if q == [] {
      assert q + v == v;
    }
  }

  /** The tokens of two parts are those of the whole exactly when the cut is clean;
      otherwise one of them is cut in two. */
  lemma CleanCut(a: string, b: string, ds: set<char>)
    ensures Tokens(a + b, ds) == Tokens(a, ds) + Tokens(b, ds) <==> CutsClean(a, b, ds)
    ensures !CutsClean(a, b, ds) ==> |Tokens(a + b, ds)| == |Tokens(a, ds)| + |Tokens(b, ds)| - 1
  {
    TokensAreRuns(a, ds);
    TokensAreRuns(b, ds);
    TokensAreRuns(a + b, ds);
    FieldsAppend(a, b, ds);
    MergeSplits(Fields(a, ds), Fields(b, ds));
    CleanFields(a, b, ds);
  }

  lemma CleanFields(a: string, b: string, ds: set<char>)
    ensures var x, y := Fields(a, ds), Fields(b, ds);
            CutsClean(a, b, ds) <==> x[|x| - 1] == "" || y[0] == ""
  {
    LastField(a, ds);
    FirstField(b, ds);
  }

  lemma MergeSplits(x: seq<string>, y: seq<string>)
    requires x != [] && y != []
    ensures NonEmpty(Merge(x, y)) == NonEmpty(x) + NonEmpty(y) <==> x[|x| - 1] == "" || y[0] == ""
    ensures x[|x| - 1] != "" && y[0] != "" ==> |NonEmpty(Merge(x, y))| == |NonEmpty(x)| + |NonEmpty(y)| - 1
  {
    var front, f, g, rest := x[..|x| - 1], x[|x| - 1], y[0], y[1..];
    assert x == front + [f] && y == [g] + rest;
    NonEmptyMerged(front, f, g, rest);
    NonEmptyLast(front, f);
    NonEmptyFirst(g, rest);
    OneWordOrTwo(NonEmpty(front), f, g, NonEmpty(rest));
  }

  lemma FirstField(b: string, ds: set<char>)
    ensures Fields(b, ds)[0] == "" <==> b == "" || b[0] in ds
  {}
}
