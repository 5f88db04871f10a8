/** What several modules need: an optional value, and a few facts about sequences. */
module Basics {
  datatype Option<T> = None | Some(value: T)

  lemma Associative<T>(a: seq<T>, b: seq<T>, c: seq<T>)
    ensures a + (b + c) == a + b + c
  {}

  lemma CutOnce<T>(s: seq<T>, k: nat)
    requires k <= |s|
    ensures s[..k] + s[k..] == s
  {}

  lemma HeadAndTail<T>(s: seq<T>)
    requires s != []
    ensures [s[0]] + s[1..] == s
  {}

  lemma FromTheStart<T>(s: seq<T>)
    ensures s[0..] == s
  {}

  lemma NothingLeft<T>(s: seq<T>, k: nat)
    requires k == |s|
    ensures s[k..] == []
  {}

  lemma NothingPlus<T>(a: seq<T>)
    ensures [] + a == a
  {}

  lemma PlusNothing<T>(a: seq<T>)
    ensures a + [] == a
  {}
}
