/** The loops of the network's methods, as values: how far each has got, what it
    has sent so far, and that its end is the transformer of `Network`. */
module NetworkLoops {
  import opened Modes
  import opened Network
  import opened NetworkInvariants
  import opened RoomIndex
  import opened Text

  /** Distinct nicks of the network. */
  ghost predicate CanDrop(net: Net, ns: seq<Nick>) {
    Linked(net) && (forall n :: n in ns ==> n in net.on) && AllDistinct(ns)
  }

  ghost predicate AllDistinct(ns: seq<Nick>) {
    forall i, j :: 0 <= i < j < |ns| ==> ns[i] != ns[j]
  }

  function Nicks(ns: seq<Nick>): set<Nick> {
    set n | n in ns
  }

  /** The state when the nicks `ns` are deleted in turn. */
  ghost function DropAll(net: Net, ns: seq<Nick>): (r: Net)
    requires CanDrop(net, ns)
    ensures Linked(r) && r.names.Keys == net.names.Keys - Nicks(ns) && r.users.Keys == net.users.Keys
    ensures forall n :: n in r.names ==> r.names[n] == net.names[n]
  {
    if ns == [] then net
    else
      var n := ns[|ns| - 1];
      DropFront(net, ns);
      var r := DropAll(net, ns[..|ns| - 1]);
      DropKeepsLinked(r, n);
      Forget(LeaveAll(r, n), {n})
  }

  lemma DropFront(net: Net, ns: seq<Nick>)
    requires CanDrop(net, ns) && ns != []
    ensures CanDrop(net, ns[..|ns| - 1]) && ns[|ns| - 1] !in ns[..|ns| - 1] && ns[|ns| - 1] in net.names
    ensures Nicks(ns) == Nicks(ns[..|ns| - 1]) + {ns[|ns| - 1]}
  {
    assert ns == ns[..|ns| - 1] + [ns[|ns| - 1]];
  }

  /** What a quit sends in a linked network. */
  ghost function SendsOfQuit(net: Net, n: Nick): seq<Delivery>
    requires Linked(net) && n in net.names
  {
    QuitSends(net, n)
  }

  ghost function DropSends(net: Net, ns: seq<Nick>): seq<Delivery>
    requires CanDrop(net, ns)
  {
    if ns == [] then []
    else
      DropFront(net, ns);
      DropSends(net, ns[..|ns| - 1]) + SendsOfQuit(DropAll(net, ns[..|ns| - 1]), ns[|ns| - 1])
  }

  lemma DropNext(net: Net, gone: seq<Nick>, n: Nick)
    requires CanDrop(net, gone) && n in DropAll(net, gone).names
    ensures CanDrop(net, gone + [n])
    ensures DropAll(net, gone + [n]) == Forget(LeaveAll(DropAll(net, gone), n), {n})
    ensures DropSends(net, gone + [n]) == DropSends(net, gone) + SendsOfQuit(DropAll(net, gone), n)
  {
    CanDropNext(net, gone, n);
    assert (gone + [n])[..|gone|] == gone;
  }

  lemma CanDropNext(net: Net, gone: seq<Nick>, n: Nick)
    requires CanDrop(net, gone) && n in DropAll(net, gone).names
    ensures CanDrop(net, gone + [n])
  {
    assert n !in gone && n in net.names;
  }

  ghost predicate AllOf(net: Net, gone: seq<Nick>, server: string) {
    forall n :: n in gone ==> n in net.names && n.server == server
  }

  lemma OneMoreOf(net: Net, gone: seq<Nick>, n: Nick, server: string)
    requires AllOf(net, gone, server) && n in net.names && n.server == server
    ensures AllOf(net, gone + [n], server)
  {}

  lemma AllGone(net: Net, gone: seq<Nick>, server: string)
    requires CanDrop(net, gone) && Indexed(DropAll(net, gone))
    requires forall k :: k in DropAll(net, gone).index ==> DropAll(net, gone).index[k].server != server
    ensures forall n :: n in net.names && n.server == server ==> n in gone
  {
    forall n | n in net.names && n.server == server
      ensures n in gone
    {
      if n !in gone {
        StillThere(net, gone, n);
      }
    }
  }

  lemma StillThere(net: Net, gone: seq<Nick>, n: Nick)
    requires CanDrop(net, gone) && Indexed(DropAll(net, gone)) && n in net.names && n !in gone
    ensures exists k :: k in DropAll(net, gone).index && DropAll(net, gone).index[k] == n
  {
    var r := DropAll(net, gone);
    assert n in r.names && r.names[n] in r.index;
  }

  lemma KnownBuddy(net: Net, c: Channel, h: Handle)
    requires Linked(net) && EntriesSound(net) && c in net.users && h in net.buddies[c]
    ensures net.buddies[c][h].chan == c
    ensures net.(buddies := net.buddies[c := net.buddies[c][h := net.buddies[c][h]]]) == net
  {
    assert net.buddies[c][h := net.buddies[c][h]] == net.buddies[c];
    assert net.buddies[c := net.buddies[c]] == net.buddies;
  }

  /** The bits to add and the bits to delete together make the new status. */
  lemma UpdateEffect(net: Net, cu: ChanUser, mnew: Mask)
    requires cu in net.cells
    ensures var mid := ChangeMode(net, cu, true, mnew - net.cells[cu]);
            && ChangeMode(mid, cu, false, net.cells[cu] - mnew) == net.(cells := net.cells[cu := mnew])
            && (cu.nick in net.names && cu.chan in net.users ==>
                  ChangeModeSends(mid, cu, false, net.cells[cu] - mnew)
                  == ChangeModeSends(net, cu, false, net.cells[cu] - mnew))
  {
    var last := net.cells[cu];
    assert last + (mnew - last) - (last - mnew) == mnew;
  }

  lemma OnAtIndex(net: Net, n: Nick, c: Channel, it: nat)
    requires Linked(net) && n in net.on && it <= |net.on[n]|
    requires forall k :: 0 <= k < it ==> net.on[n][k].chan != c
    requires it < |net.on[n]| ==> net.on[n][it].chan == c
    ensures it < |net.on[n]| <==> IsOn(net, n, c)
  {
    if it < |net.on[n]| {
      assert net.on[n][it] in net.on[n];
    } else if IsOn(net, n, c) {
      AtSomeIndex(net, n, c);
    }
  }

  lemma AtSomeIndex(net: Net, n: Nick, c: Channel)
    requires Linked(net) && n in net.on && IsOn(net, n, c)
    ensures exists k :: 0 <= k < |net.on[n]| && net.on[n][k].chan == c
  {
    var cu :| cu in net.cells && cu.nick == n && cu.chan == c;
    assert cu in net.on[n];
  }

  lemma EraseThenLast(s: seq<ChanUser>, it: nat)
    requires it + 1 < |s|
    ensures s[..|s| - 1][..it] + s[..|s| - 1][it + 1..] + [s[|s| - 1]] == s[..it] + s[it + 1..]
  {}

  lemma {:induction false} OffChanAt(s: seq<ChanUser>, c: Channel, it: nat)
    requires it < |s| && s[it].chan == c
    requires forall k :: 0 <= k < |s| && k != it ==> s[k].chan != c
    ensures OffChan(s, c) == s[..it] + s[it + 1..]
  {
    var front := s[..|s| - 1];
    if it + 1 == |s| {
      OffChanNone(front, c);
      assert s[..it] + s[it + 1..] == front;
    } else {
      OffChanAt(front, c, it);
      EraseThenLast(s, it);
    }
  }

  lemma OnlyAt(net: Net, n: Nick, c: Channel, it: nat)
    requires Linked(net) && n in net.on && it < |net.on[n]| && net.on[n][it].chan == c
    ensures OffChan(net.on[n], c) == net.on[n][..it] + net.on[n][it + 1..]
  {
    var s := net.on[n];
    forall k | 0 <= k < |s| && k != it
      ensures s[k].chan != c
    {
      assert s[k] in s && s[it] in s;
    }
    OffChanAt(s, c, it);
  }

  /** What `part` and `kicked` need to hand to `delUser`, and what comes of it. */
  lemma DetachAt(net: Net, n: Nick, c: Channel, it: nat)
    requires Linked(net) && EntriesSound(net) && n in net.on && it < |net.on[n]| && net.on[n][it].chan == c
    ensures var mid := net.(on := net.on[n := net.on[n][..it] + net.on[n][it + 1..]]);
            && c in mid.users && c in mid.buddies && (!c.room ==> mid.buddies[c] == map[])
            && NoDup(mid.users[c]) && OneEntryEach(mid, c, n)
            && (forall cu :: cu in mid.users[c] ==> cu in mid.cells)
            && Without(mid, c, n) == Detach(net, n, c)
  {
    OnlyAt(net, n, c, it);
    LosesNone(net, n, c, it);
    DetachCellsAt(net, n, c);
  }

  lemma LosesNone(net: Net, n: Nick, c: Channel, it: nat)
    requires Linked(net) && EntriesSound(net) && n in net.on && it < |net.on[n]| && net.on[n][it].chan == c
    ensures c in net.users && c in net.buddies && (!c.room ==> net.buddies[c] == map[])
    ensures NoDup(net.users[c]) && OneEntryEach(net, c, n) && forall cu :: cu in net.users[c] ==> cu in net.cells
  {
    assert net.on[n][it] in net.on[n];
    OneEntry(net, n, c);
  }

  lemma OneEntry(net: Net, n: Nick, c: Channel)
    requires Linked(net) && EntriesSound(net) && c in net.users
    ensures OneEntryEach(net, c, n)
  {
    forall g, h | g in net.buddies[c] && h in net.buddies[c]
      && net.buddies[c][g].nick == n && net.buddies[c][h].nick == n
      ensures g == h
    {
      assert net.buddies[c][g] == net.buddies[c][h];
    }
  }

  lemma DetachCellsAt(net: Net, n: Nick, c: Channel)
    requires Linked(net) && n in net.on && c in net.users
    ensures DelUserNet(net, c, n).cells == Detach(net, n, c).cells
  {}

  lemma {:induction false} OffNickTwice(us: seq<ChanUser>, n: Nick)
    ensures OffNick(OffNick(us, n), n) == OffNick(us, n)
  {
    OffNickNone(OffNick(us, n), n);
  }

  lemma LeaveAllTwice(net: Net, n: Nick)
    requires n in net.on
    ensures LeaveAll(LeaveAll(net, n), n) == LeaveAll(net, n)
  {
    UsersTwice(net, n);
    BuddiesTwice(net, n);
    CellsTwice(net, n);
  }

  lemma UsersTwice(net: Net, n: Nick)
    requires n in net.on
    ensures LeaveAll(LeaveAll(net, n), n).users == LeaveAll(net, n).users
  {
    forall c | c in net.users
      ensures OffNick(OffNick(net.users[c], n), n) == OffNick(net.users[c], n)
    {
      OffNickTwice(net.users[c], n);
    }
  }

  lemma BuddiesTwice(net: Net, n: Nick)
    requires n in net.on
    ensures LeaveAll(LeaveAll(net, n), n).buddies == LeaveAll(net, n).buddies
  {
    forall c | c in net.buddies
      ensures OffBuddy(OffBuddy(net.buddies[c], n), n) == OffBuddy(net.buddies[c], n)
    {}
  }

  lemma CellsTwice(net: Net, n: Nick)
    requires n in net.on
    ensures LeaveAll(LeaveAll(net, n), n).cells == LeaveAll(net, n).cells
  {}

  /** Once it has left its room a chat buddy is on no channel, so that its
      destructor sends nothing. */
  lemma DetachedIsOff(net: Net, n: Nick, c: Channel)
    requires Linked(net) && RoomsIndexed(net) && n in net.on && c in net.users && n.chat && IsOn(net, n, c)
    ensures var d := Detach(net, n, c);
            && Linked(d) && EntriesSound(d) && LeaveAll(d, n) == d && QuitSends(d, n) == []
  {
    DetachKeepsLinked(net, n, c);
    LoseBuddyIsDrop(net, n, c);
    LeaveAllEntries(net, n);
    LeaveAllTwice(net, n);
  }

  ghost function LongestKey(keys: set<string>): nat {
    if keys == {} then 0
    else
      var k :| k in keys;
      var rest := LongestKey(keys - {k});
      if |k| > rest then |k| else rest
  }

  function Underscores(n: nat): string {
    if n == 0 then "" else Underscores(n - 1) + "_"
  }

  lemma {:induction false} UnderscoresAre(n: nat)
    ensures |Underscores(n)| == n && forall c :: c in Underscores(n) ==> c as int == 95
  {
    if n > 0 {
      UnderscoresAre(n - 1);
    }
  }

  lemma KeyIsShort(keys: set<string>, key: string)
    requires key in keys
    ensures |key| <= LongestKey(keys)
  {
    var k :| k in keys && LongestKey(keys) == (var rest := LongestKey(keys - {k}); if |k| > rest then |k| else rest);
    if key != k {
      KeyIsShort(keys - {k}, key);
    }
  }

  lemma TakenIsShort(keys: set<string>, name: string)
    ensures (exists k :: k in keys && Lower(k) == Lower(name)) ==> |name| <= LongestKey(keys)
  {
    if k :| k in keys && Lower(k) == Lower(name) {
      KeyIsShort(keys, k);
    }
  }

  lemma OnlyKey(net: Net, n: Nick, name: string)
    requires Indexed(net) && name in net.index && net.index[name] == n
    ensures Forget(net, {n}).index == net.index - {name}
  {}

  lemma {:induction false} DeliverNothing(us: seq<ChanUser>)
    ensures Deliver(us, [], [], null) == []
  {
    if us != [] {
      DeliverNothing(us[..|us| - 1]);
    }
  }

  ghost predicate ChansKnown(net: Net, n: Nick)
    requires n in net.on
  {
    forall cu :: cu in net.on[n] ==> cu.chan in net.users
  }

  /** Who was sent the QUIT for the first `k` channels. */
  ghost function Told(net: Net, n: Nick, k: nat): seq<Nick>
    requires n in net.on && k <= |net.on[n]| && ChansKnown(net, n)
  {
    Recipients(net, net.on[n][..k])
  }

  lemma ToldStart(net: Net, n: Nick)
    requires Linked(net) && n in net.on
    ensures ChansKnown(net, n) && Told(net, n, 0) == []
  {}

  lemma ToldNext(net: Net, n: Nick, k: nat)
    requires n in net.on && k < |net.on[n]| && ChansKnown(net, n)
    ensures net.on[n][k].chan in net.users
    ensures Told(net, n, k + 1) == Told(net, n, k) + Unseen(net.users[net.on[n][k].chan], Told(net, n, k))
  {
    assert net.on[n][..k + 1][..k] == net.on[n][..k];
  }

  lemma ToldEnd(net: Net, n: Nick)
    requires n in net.on && ChansKnown(net, n)
    ensures Told(net, n, |net.on[n]|) == Recipients(net, net.on[n])
  {
    assert net.on[n][..|net.on[n]|] == net.on[n];
  }

  /** The state when `n` has left the channels `left`, but for its own `channels`. */
  ghost function LeaveSome(net: Net, n: Nick, left: set<Channel>): Net {
    net.(users := map c | c in net.users :: if c in left then OffNick(net.users[c], n) else net.users[c],
         buddies := map c | c in net.buddies :: if c in left then OffBuddy(net.buddies[c], n) else net.buddies[c],
         cells := map cu | cu in net.cells && !(cu.nick == n && cu.chan in left) :: net.cells[cu])
  }

  /** The state when `Nick::quit` has gone over the first `k` of the channels. */
  ghost function Quitting(net: Net, n: Nick, k: nat): Net
    requires n in net.on && k <= |net.on[n]|
  {
    LeaveSome(net, n, Left(net.on[n], k)).(on := net.on[n := net.on[n][k..]])
  }

  ghost function Left(chans: seq<ChanUser>, k: nat): set<Channel>
    requires k <= |chans|
  {
    set i | 0 <= i < k :: chans[i].chan
  }

  lemma QuittingStart(net: Net, n: Nick)
    requires n in net.on
    ensures Quitting(net, n, 0) == net
  {
    var r := Quitting(net, n, 0);
    assert r.on == net.on && r.users == net.users && r.buddies == net.buddies && r.cells == net.cells;
  }

  lemma AllLeft(net: Net, n: Nick, cu: ChanUser)
    requires Linked(net) && cu in net.cells && cu.nick == n
    ensures n in net.on && cu.chan in Left(net.on[n], |net.on[n]|)
  {
    assert cu in net.on[n];
    var i :| 0 <= i < |net.on[n]| && net.on[n][i] == cu;
  }

  lemma QuittingEnd(net: Net, n: Nick)
    requires Linked(net) && EntriesSound(net) && n in net.on
    ensures Quitting(net, n, |net.on[n]|) == LeaveAll(net, n)
  {
    var left := Left(net.on[n], |net.on[n]|);
    forall c | c in net.users && c !in left
      ensures OffNick(net.users[c], n) == net.users[c] && OffBuddy(net.buddies[c], n) == net.buddies[c]
    {
      NotThere(net, n, c);
    }
    forall cu | cu in net.cells && cu.nick == n
      ensures cu.chan in left
    {
      AllLeft(net, n, cu);
    }
    LeaveSomeUsers(net, n, left);
    LeaveSomeBuddies(net, n, left);
    LeaveSomeCells(net, n, left);
    assert net.on[n][|net.on[n]|..] == [];
  }

  lemma LeaveSomeUsers(net: Net, n: Nick, left: set<Channel>)
    requires n in net.on
    requires forall c :: c in net.users && c !in left ==> OffNick(net.users[c], n) == net.users[c]
    ensures LeaveSome(net, n, left).users == LeaveAll(net, n).users
  {}

  lemma LeaveSomeBuddies(net: Net, n: Nick, left: set<Channel>)
    requires n in net.on
    requires forall c :: c in net.buddies && c !in left ==> OffBuddy(net.buddies[c], n) == net.buddies[c]
    ensures LeaveSome(net, n, left).buddies == LeaveAll(net, n).buddies
  {}

  lemma LeaveSomeCells(net: Net, n: Nick, left: set<Channel>)
    requires n in net.on
    requires forall cu :: cu in net.cells && cu.nick == n ==> cu.chan in left
    ensures LeaveSome(net, n, left).cells == LeaveAll(net, n).cells
  {}

  lemma NotThere(net: Net, n: Nick, c: Channel)
    requires Linked(net) && EntriesSound(net) && n in net.on && c in net.users
    requires c !in Left(net.on[n], |net.on[n]|)
    ensures OffNick(net.users[c], n) == net.users[c] && OffBuddy(net.buddies[c], n) == net.buddies[c]
  {
    forall cu | cu in net.users[c]
      ensures cu.nick != n
    {
      if cu.nick == n {
        AllLeft(net, n, cu);
      }
    }
    OffNickNone(net.users[c], n);
  }

  /** The next channel is untouched yet, and leaving it is the next state. */
  lemma QuittingNext(net: Net, n: Nick, k: nat)
    requires Linked(net) && EntriesSound(net) && n in net.on && k < |net.on[n]|
    ensures var now, c := Quitting(net, n, k), net.on[n][k].chan;
            && c in now.users && c in now.buddies && n in now.on
            && now.users[c] == net.users[c] && now.buddies[c] == net.buddies[c]
            && NoDup(now.users[c]) && OneEntryEach(now, c, n) && (!c.room ==> now.buddies[c] == map[])
            && (forall cu :: cu in now.users[c] ==> cu in now.cells)
            && Quitting(net, n, k + 1) == Without(now, c, n).(on := now.on[n := now.on[n][1..]])
  {
    var left, c := Left(net.on[n], k), net.on[n][k].chan;
    QuittingFresh(net, n, k);
    assert Left(net.on[n], k + 1) == left + {c};
    LeaveOneMore(net, n, left, c);
    assert net.on[n][k + 1..] == net.on[n][k..][1..];
    assert net.on[n := net.on[n][k..]][n := net.on[n][k + 1..]] == net.on[n := net.on[n][k + 1..]];
  }

  lemma QuittingFresh(net: Net, n: Nick, k: nat)
    requires Linked(net) && EntriesSound(net) && n in net.on && k < |net.on[n]|
    ensures var c := net.on[n][k].chan;
            && c in net.users && c !in Left(net.on[n], k)
            && NoDup(net.users[c]) && OneEntryEach(net, c, n) && (!c.room ==> net.buddies[c] == map[])
            && (forall cu :: cu in net.users[c] ==> cu in net.cells && cu.chan == c)
  {
    var c := net.on[n][k].chan;
    assert net.on[n][k] in net.on[n];
    forall i | 0 <= i < k
      ensures net.on[n][i].chan != c
    {
      assert net.on[n][i] in net.on[n];
    }
    OneEntry(net, n, c);
  }

  lemma LeaveOneMore(net: Net, n: Nick, left: set<Channel>, c: Channel)
    requires Linked(net) && c in net.users && c !in left
    ensures LeaveSome(net, n, left + {c}) == Without(LeaveSome(net, n, left), c, n)
  {
    OneMoreUsers(net, n, left, c);
    OneMoreBuddies(net, n, left, c);
    OneMoreCells(net, n, left, c);
  }

  lemma OneMoreUsers(net: Net, n: Nick, left: set<Channel>, c: Channel)
    requires c in net.users && c !in left
    ensures LeaveSome(net, n, left + {c}).users == LeaveSome(net, n, left).users[c := OffNick(net.users[c], n)]
  {}

  lemma OneMoreBuddies(net: Net, n: Nick, left: set<Channel>, c: Channel)
    requires c in net.buddies && c !in left
    ensures LeaveSome(net, n, left + {c}).buddies == LeaveSome(net, n, left).buddies[c := OffBuddy(net.buddies[c], n)]
  {}

  lemma OneMoreCells(net: Net, n: Nick, left: set<Channel>, c: Channel)
    requires c in net.users && c in net.buddies && c !in left
    requires forall cu :: cu in net.cells && cu.chan == c ==> cu in net.users[c]
    requires forall cu :: cu in net.users[c] ==> cu.chan == c
    ensures LeaveSome(net, n, left + {c}).cells == Without(LeaveSome(net, n, left), c, n).cells
  {
    assert LeaveSome(net, n, left).users[c] == net.users[c];
  }

  /** The state after the virtual `delUser`, up to the deletion of a chat buddy. */
  function Without(net: Net, c: Channel, n: Nick): Net
    requires c in net.users && c in net.buddies
  {
    DelUserNet(net, c, n).(buddies := net.buddies[c := OffBuddy(net.buddies[c], n)])
  }

  ghost predicate OneEntryEach(net: Net, c: Channel, n: Nick)
    requires c in net.buddies
  {
    forall g, h :: g in net.buddies[c] && h in net.buddies[c] ==>
      (net.buddies[c][g].nick == n && net.buddies[c][h].nick == n ==> g == h)
  }

  /** The state after `Channel::delUser`. */
  function DelUserNet(net: Net, c: Channel, n: Nick): Net
    requires c in net.users
  {
    net.(users := net.users[c := OffNick(net.users[c], n)],
         cells := map cu | cu in net.cells && !(cu.nick == n && cu in net.users[c]) :: net.cells[cu])
  }

  /** The state when it has gone over the first `k` of `us`, the channel's `users`. */
  function DelUserSoFar(net: Net, c: Channel, n: Nick, us: seq<ChanUser>, k: nat): Net
    requires c in net.users && k <= |us|
  {
    net.(users := net.users[c := OffNick(us[..k], n) + us[k..]],
         cells := map cu | cu in net.cells && !(cu.nick == n && cu in us[..k]) :: net.cells[cu])
  }

  lemma DelUserStart(net: Net, c: Channel, n: Nick)
    requires c in net.users
    ensures DelUserSoFar(net, c, n, net.users[c], 0) == net
  {
    var r := DelUserSoFar(net, c, n, net.users[c], 0);
    assert r.users[c] == net.users[c];
    assert r.cells == net.cells && r.users == net.users;
  }

  lemma DelUserEnd(net: Net, c: Channel, n: Nick, us: seq<ChanUser>)
    requires c in net.users && us == net.users[c]
    ensures DelUserSoFar(net, c, n, us, |us|) == DelUserNet(net, c, n)
    ensures us[..|us|] == us
  {
    assert us[..|us|] == us;
    assert OffNick(us, n) + us[|us|..] == OffNick(us, n);
  }

  lemma DelUserAt(net: Net, c: Channel, n: Nick, us: seq<ChanUser>, k: nat)
    requires c in net.users && k < |us|
    ensures var now, it := DelUserSoFar(net, c, n, us, k), |OffNick(us[..k], n)|;
            |now.users[c]| == it + |us| - k && now.users[c][it] == us[k]
  {
    assert (OffNick(us[..k], n) + us[k..])[|OffNick(us[..k], n)|] == us[k];
  }

  lemma SpliceOut(a: seq<ChanUser>, b: seq<ChanUser>)
    requires b != []
    ensures (a + b)[..|a|] + (a + b)[|a| + 1..] == a + b[1..]
  {}

  lemma DelUserVector(us: seq<ChanUser>, n: Nick, k: nat)
    requires k < |us| && us[k].nick == n
    ensures OffNick(us[..k + 1], n) == OffNick(us[..k], n)
    ensures var now, it := OffNick(us[..k], n) + us[k..], |OffNick(us[..k], n)|;
            OffNick(us[..k + 1], n) + us[k + 1..] == now[..it] + now[it + 1..]
  {
    assert us[..k + 1][..k] == us[..k] && us[k..][1..] == us[k + 1..];
    SpliceOut(OffNick(us[..k], n), us[k..]);
  }

  lemma DelUserCells(net: Net, c: Channel, n: Nick, us: seq<ChanUser>, k: nat)
    requires c in net.users && NoDup(us) && k < |us| && us[k].nick == n && us[k] in net.cells
    ensures us[k] in DelUserSoFar(net, c, n, us, k).cells
    ensures DelUserSoFar(net, c, n, us, k + 1).cells == DelUserSoFar(net, c, n, us, k).cells - {us[k]}
  {
    assert us[..k + 1] == us[..k] + [us[k]];
    assert us[k] !in us[..k];
  }

  lemma Overwritten(m: map<Channel, seq<ChanUser>>, c: Channel, a: seq<ChanUser>, b: seq<ChanUser>)
    ensures m[c := a][c := b] == m[c := b]
  {}

  lemma DelUserStep(net: Net, c: Channel, n: Nick, us: seq<ChanUser>, k: nat)
    requires c in net.users && NoDup(us) && k < |us| && us[k].nick == n && us[k] in net.cells
    ensures OffNick(us[..k + 1], n) == OffNick(us[..k], n)
    ensures var now, it := DelUserSoFar(net, c, n, us, k), |OffNick(us[..k], n)|;
            && it < |now.users[c]| && now.users[c][it] == us[k] && us[k] in now.cells
            && DelUserSoFar(net, c, n, us, k + 1)
               == now.(users := now.users[c := now.users[c][..it] + now.users[c][it + 1..]], cells := now.cells - {us[k]})
  {
    DelUserAt(net, c, n, us, k);
    DelUserVector(us, n, k);
    DelUserCells(net, c, n, us, k);
    var now, after := DelUserSoFar(net, c, n, us, k), DelUserSoFar(net, c, n, us, k + 1);
    Overwritten(net.users, c, now.users[c], after.users[c]);
  }

  lemma DelUserSkip(net: Net, c: Channel, n: Nick, us: seq<ChanUser>, k: nat)
    requires c in net.users && k < |us| && us[k].nick != n
    ensures DelUserSoFar(net, c, n, us, k + 1) == DelUserSoFar(net, c, n, us, k)
    ensures OffNick(us[..k + 1], n) == OffNick(us[..k], n) + [us[k]]
  {
    assert us[..k + 1] == us[..k] + [us[k]] && us[..k + 1][..k] == us[..k];
    assert OffNick(us[..k + 1], n) + us[k + 1..] == OffNick(us[..k], n) + us[k..];
    assert DelUserSoFar(net, c, n, us, k + 1).cells == DelUserSoFar(net, c, n, us, k).cells;
  }

  lemma SameEnterSends(a: Net, b: Net, cu: ChanUser, status: Mask)
    requires cu.nick in a.names && cu.chan in a.users
    requires forall u :: u in a.users[cu.chan] ==> u in a.cells && u.nick in a.names
    requires b.names == a.names && b.users == a.users && b.cells == a.cells
    ensures EnterSends(a, cu, status) == EnterSends(b, cu, status)
  {
    assert NameEntries(a, a.users[cu.chan]) == NameEntries(b, b.users[cu.chan]);
  }

  lemma RejoinInSteps(net: Net, cu: ChanUser, status: Mask)
    requires cu in net.cells && cu.nick in net.names && cu.chan in net.users
    ensures var mid := ChangeMode(net, cu, false, net.cells[cu] - status);
            ChangeModeSends(mid, cu, true, status - net.cells[cu]) == ChangeModeSends(net, cu, true, status - net.cells[cu])
  {}

  lemma DeliverOneMore(us: seq<ChanUser>, cu: ChanUser, ms: seq<Msg>)
    ensures Deliver(us + [cu], ms, [], null) == Deliver(us, ms, [], null) + To(cu.nick, ms)
  {
    assert (us + [cu])[..|us|] == us;
  }

  lemma RejoinSame(net: Net, cu: ChanUser)
    requires cu in net.cells && cu.nick in net.names && cu.chan in net.users
    ensures Rejoin(net, cu, net.cells[cu]) == net
    ensures RejoinSends(net, cu, net.cells[cu]) == []
  {
    var s := net.cells[cu];
    assert s - s == {};
    NoModes(net, cu, false);
    NoModes(net, cu, true);
  }

  /** The modes of a contact that is to be voiced, or not. */
  function VoiceIf(available: bool): Mask {
    if available then {VOICE} else {}
  }

  /** No other mode comes with it. */
  lemma VoiceIfIs(available: bool, mode: nat)
    ensures mode in VoiceIf(available) <==> available && mode == VOICE
  {}

  lemma QuitAgain(net: Net, n: Nick)
    requires Linked(net) && n in net.on
    ensures QuitSends(LeaveAll(net, n), n) == []
  {}
}
