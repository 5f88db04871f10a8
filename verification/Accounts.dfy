/** `Purple::getNewAccountName`: a search that starts over whenever it finds the name
    it has in mind taken. */
module Accounts {
  import opened Decimal
  import opened Tokenizer

  /** An account of libpurple, with the identifiers that minbif gives its protocol and
      itself; `valid` is whether the protocol is known. */
  datatype Account = Account(handle: nat, proto: string, valid: bool, id: string)

  /** The `i`-th name: no suffix, 1, 2, ... */
  function Name(proto: string, i: nat): string {
    proto + (if i == 0 then "" else Show(i))
  }

  /** The first is the protocol's alone, and the number follows it in the others. */
  lemma NameIs(proto: string, i: nat)
    ensures Name(proto, 0) == proto && (i > 0 ==> Name(proto, i) == proto + Show(i))
  {}

  predicate Counts(a: Account, proto: string, butone: nat) {
    a.handle != butone && a.valid && a.proto == proto
  }

  /** Some other account of the protocol has the name. */
  predicate Taken(accounts: seq<Account>, proto: string, butone: nat, name: string) {
    exists k :: 0 <= k < |accounts| && Counts(accounts[k], proto, butone) && accounts[k].id == name
  }

  /** Only accounts of the protocol count, which is known, and the account that is to be
      named does not. */
  lemma TakenIs(accounts: seq<Account>, proto: string, butone: nat, name: string)
    ensures Taken(accounts, proto, butone, name) <==>
              exists k :: 0 <= k < |accounts| && accounts[k].id == name && accounts[k].proto == proto
                          && accounts[k].valid && accounts[k].handle != butone
  {}

  lemma NameInjective(proto: string, i: nat, j: nat)
    requires Name(proto, i) == Name(proto, j)
    ensures i == j
  {
    assert Name(proto, i)[|proto|..] == (if i == 0 then "" else Show(i));
    assert Name(proto, j)[|proto|..] == (if j == 0 then "" else Show(j));
    if i > 0 && j > 0 {
      ShowInjective(i, j);
    }
  }

  /** What `s2t` makes of the suffix of a taken name. */
  lemma SuffixReads(proto: string, i: nat)
    requires 0 < i <= MAX_INT
    ensures ReadSigned(Name(proto, i)[|proto|..], MAX_INT) == i
  {
    assert Name(proto, i)[|proto|..] == Show(i);
    ReadOfShow(i, MAX_INT);
  }

  function Ids(accounts: seq<Account>): set<string> {
    set k | 0 <= k < |accounts| :: accounts[k].id
  }

  lemma {:induction false} IdsAreFew(accounts: seq<Account>)
    ensures |Ids(accounts)| <= |accounts|
  {
    if accounts != [] {
      var front, last := accounts[..|accounts| - 1], accounts[|accounts| - 1];
      IdsAreFew(front);
      assert Ids(accounts) == Ids(front) + {last.id};
    }
  }

  function Names(proto: string, n: nat): set<string> {
    set i | 0 <= i < n :: Name(proto, i)
  }

  lemma {:induction false} NamesAreMany(proto: string, n: nat)
    ensures |Names(proto, n)| == n
  {
    if n > 0 {
      NamesAreMany(proto, n - 1);
      if Name(proto, n - 1) in Names(proto, n - 1) {
        var i :| 0 <= i < n - 1 && Name(proto, i) == Name(proto, n - 1);
        NameInjective(proto, i, n - 1);
      }
      assert Names(proto, n) == Names(proto, n - 1) + {Name(proto, n - 1)};
    }
  }

  /** No more names can be taken than there are accounts. */
  lemma TakenAreFew(accounts: seq<Account>, proto: string, butone: nat, n: nat)
    requires forall i :: 0 <= i < n ==> Taken(accounts, proto, butone, Name(proto, i))
    ensures n <= |accounts|
  {
    IdsAreFew(accounts);
    NamesAreMany(proto, n);
    assert Names(proto, n) <= Ids(accounts);
    SubsetCardinality(Names(proto, n), Ids(accounts));
  }

  lemma {:induction false} SubsetCardinality(a: set<string>, b: set<string>)
    requires a <= b
    ensures |a| <= |b|
  {
    if a != {} {
      var x :| x in a;
      SubsetCardinality(a - {x}, b - {x});
    }
  }

  /** `getNewAccountName`: the first name that is free. There are fewer accounts than
      the counter can count. */
  method GetNewAccountName(accounts: seq<Account>, proto: string, butone: nat) returns (name: string)
    requires |accounts| < MAX_INT
    ensures exists n: nat :: name == Name(proto, n) && forall i :: 0 <= i < n ==> Taken(accounts, proto, butone, Name(proto, i))
    ensures !Taken(accounts, proto, butone, name)
  {
    var i, iter := 0, 0;
    while iter < |accounts|
      invariant iter <= |accounts| && i <= |accounts|
      invariant forall j :: 0 <= j < i ==> Taken(accounts, proto, butone, Name(proto, j))
      invariant forall k :: 0 <= k < iter ==> !(Counts(accounts[k], proto, butone) && accounts[k].id == Name(proto, i))
      decreases |accounts| - i, |accounts| - iter
    {
      var acc := accounts[iter];
      iter := iter + 1;
      if !Counts(acc, proto, butone) {
        continue;
      }
      if acc.id == proto + (if i != 0 then Show(i) else "") {
        assert Taken(accounts, proto, butone, Name(proto, i));
        TakenAreFew(accounts, proto, butone, i + 1);
        if i != 0 {
          SuffixReads(proto, i);
          i := ReadSigned(acc.id[|proto|..], MAX_INT) + 1;
        } else {
          i := 1;
        }
        iter := 0;
      }
    }
    name := proto + (if i != 0 then Show(i) else "");
    assert name == Name(proto, i);
  }
}
