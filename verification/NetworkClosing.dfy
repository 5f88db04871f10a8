/** The destructors of channels, as values: what their loops have done so far, and
    that in the end it is `Close` and `CloseRoom`. */
module NetworkClosing {
  import opened Modes
  import opened Network
  import opened NetworkInvariants
  import opened NetworkLoops
  import opened RoomIndex

  // ---------------------------------------------------------------- ~Channel

  /** The nicks of the first entries of a channel's `users`. */
  function NicksOf(us: seq<ChanUser>): set<Nick> {
    set cu | cu in us :: cu.nick
  }

  /** The state when the cells that the nicks `gone` have on `c` are freed, and the
      vector of `c` still holds them. */
  ghost function CloseSome(net: Net, c: Channel, gone: set<Nick>): Net {
    net.(on := map n | n in net.on :: if n in gone then OffChan(net.on[n], c) else net.on[n],
         cells := map cu | cu in net.cells && !(cu.chan == c && cu.nick in gone) :: net.cells[cu])
  }

  lemma CloseNone(net: Net, c: Channel)
    ensures CloseSome(net, c, {}) == net
  {
    var r := CloseSome(net, c, {});
    assert r.on == net.on && r.cells == net.cells;
  }

  /** `removeChanUser`: the entries that are not `cu`. */
  function Except(s: seq<ChanUser>, cu: ChanUser): seq<ChanUser> {
    if s == [] then []
    else Except(s[..|s| - 1], cu) + (if s[|s| - 1] != cu then [s[|s| - 1]] else [])
  }

  lemma {:induction false} ExceptIsOffChan(s: seq<ChanUser>, cu: ChanUser, c: Channel)
    requires forall x :: x in s ==> (x == cu <==> x.chan == c)
    ensures Except(s, cu) == OffChan(s, c)
  {
    if s != [] {
      var front, last := s[..|s| - 1], s[|s| - 1];
      assert last in s && forall x :: x in front ==> x in s;
      ExceptIsOffChan(front, cu, c);
    }
  }

  lemma OnlyCellThere(net: Net, cu: ChanUser)
    requires Linked(net) && cu in net.cells
    ensures cu.nick in net.on && Except(net.on[cu.nick], cu) == OffChan(net.on[cu.nick], cu.chan)
  {
    ExceptIsOffChan(net.on[cu.nick], cu, cu.chan);
  }

  lemma CloseOneOn(net: Net, c: Channel, gone: set<Nick>, n: Nick)
    requires n in net.on && n !in gone
    ensures CloseSome(net, c, gone + {n}).on == CloseSome(net, c, gone).on[n := OffChan(net.on[n], c)]
  {}

  lemma CloseOneCell(net: Net, c: Channel, gone: set<Nick>, cu: ChanUser)
    requires Linked(net) && cu in net.cells && cu.chan == c && cu.nick !in gone
    ensures CloseSome(net, c, gone + {cu.nick}).cells == CloseSome(net, c, gone).cells - {cu}
  {}

  /** One turn of the loop of `Channel::~Channel`. */
  lemma CloseOneMore(net: Net, c: Channel, gone: set<Nick>, cu: ChanUser)
    requires Linked(net) && cu in net.cells && cu.chan == c && cu.nick !in gone
    ensures var now := CloseSome(net, c, gone);
            && cu in now.cells && cu.nick in now.on && now.on[cu.nick] == net.on[cu.nick]
            && CloseSome(net, c, gone + {cu.nick})
               == now.(on := now.on[cu.nick := Except(net.on[cu.nick], cu)], cells := now.cells - {cu})
  {
    OnlyCellThere(net, cu);
    CloseOneOn(net, c, gone, cu.nick);
    CloseOneCell(net, c, gone, cu);
  }

  lemma NextNickIsNew(net: Net, c: Channel, k: nat)
    requires Linked(net) && c in net.users && k < |net.users[c]|
    ensures var us := net.users[c];
            && us[k] in net.cells && us[k].chan == c && us[k].nick !in NicksOf(us[..k])
            && NicksOf(us[..k + 1]) == NicksOf(us[..k]) + {us[k].nick}
  {
    var us := net.users[c];
    assert us[..k + 1] == us[..k] + [us[k]];
    assert us[k] in us;
    forall cu | cu in us[..k]
      ensures cu.nick != us[k].nick
    {
      assert cu in us && cu != us[k];
    }
  }

  lemma CloseAllOn(net: Net, c: Channel)
    requires Linked(net) && c in net.users
    ensures CloseSome(net, c, NicksOf(net.users[c])).on == Close(net, c).on
  {
    forall n | n in net.on && n !in NicksOf(net.users[c])
      ensures OffChan(net.on[n], c) == net.on[n]
    {
      assert forall cu :: cu in net.on[n] ==> cu in net.cells && cu.nick == n;
      OffChanNone(net.on[n], c);
    }
  }

  lemma CloseAllCells(net: Net, c: Channel)
    requires Linked(net) && c in net.users
    ensures CloseSome(net, c, NicksOf(net.users[c])).cells == Close(net, c).cells
  {
    assert forall cu :: cu in net.cells && cu.chan == c ==> cu in net.users[c] && cu.nick in NicksOf(net.users[c]);
  }

  /** The loop's end, once the channel itself is freed. */
  lemma CloseAll(net: Net, c: Channel)
    requires Linked(net) && c in net.users
    ensures var r := CloseSome(net, c, NicksOf(net.users[c]));
            r.(users := r.users - {c}, buddies := r.buddies - {c}) == Close(net, c)
  {
    CloseAllOn(net, c);
    CloseAllCells(net, c);
  }

  // ---------------------------------------------------------------- ~ConversationChannel

  /** The entries that are not of the nicks `gone`. */
  function OffNicks(us: seq<ChanUser>, gone: set<Nick>): (r: seq<ChanUser>)
    ensures forall cu :: cu in r ==> cu in us && cu.nick !in gone
    ensures forall cu :: cu in us && cu.nick !in gone ==> cu in r
    ensures NoDup(us) ==> NoDup(r)
  {
    if us == [] then []
    else OffNicks(us[..|us| - 1], gone) + (if us[|us| - 1].nick in gone then [] else [us[|us| - 1]])
  }

  /** The state when the chat buddies `gone` have been taken out of `c` and deleted;
      `cbuddies` still holds their entries. */
  ghost function LoseChats(net: Net, c: Channel, gone: set<Nick>): Net
    requires c in net.users
  {
    Forget(net, gone).(users := net.users[c := OffNicks(net.users[c], gone)],
                       cells := map cu | cu in net.cells && cu.nick !in gone :: net.cells[cu])
  }

  lemma {:induction false} OffNicksNone(us: seq<ChanUser>)
    ensures OffNicks(us, {}) == us
  {
    if us != [] {
      OffNicksNone(us[..|us| - 1]);
      assert us == us[..|us| - 1] + [us[|us| - 1]];
    }
  }

  lemma OffNickLast(s: seq<ChanUser>, x: ChanUser, n: Nick)
    ensures OffNick(s + [x], n) == OffNick(s, n) + (if x.nick != n then [x] else [])
  {
    assert (s + [x])[..|s|] == s;
  }

  lemma {:induction false} OffNicksMore(us: seq<ChanUser>, gone: set<Nick>, n: Nick)
    ensures OffNicks(us, gone + {n}) == OffNick(OffNicks(us, gone), n)
  {
    if us != [] {
      var front, last := us[..|us| - 1], us[|us| - 1];
      OffNicksMore(front, gone, n);
      OffNicksLast(front, last, gone, n);
    }
  }

  lemma OffNicksLast(front: seq<ChanUser>, last: ChanUser, gone: set<Nick>, n: Nick)
    ensures OffNick(OffNicks(front, gone) + (if last.nick in gone then [] else [last]), n)
         == OffNick(OffNicks(front, gone), n) + (if last.nick in gone + {n} then [] else [last])
  {
    if last.nick in gone {
      assert OffNicks(front, gone) + [] == OffNicks(front, gone);
    } else {
      OffNickLast(OffNicks(front, gone), last, n);
    }
  }

  lemma {:induction false} OffChatsAre(us: seq<ChanUser>, gone: set<Nick>)
    requires forall cu :: cu in us ==> (cu.nick in gone <==> cu.nick.chat)
    ensures OffNicks(us, gone) == NotChats(us)
  {
    if us != [] {
      var front, last := us[..|us| - 1], us[|us| - 1];
      assert last in us && forall x :: x in front ==> x in us;
      OffChatsAre(front, gone);
    }
  }

  lemma LoseNone(net: Net, c: Channel)
    requires c in net.users
    ensures LoseChats(net, c, {}) == net
  {
    OffNicksNone(net.users[c]);
    var r := LoseChats(net, c, {});
    assert r.names == net.names && r.on == net.on && r.handles == net.handles && r.index == net.index;
    assert r.users == net.users && r.cells == net.cells;
  }

  /** One turn of the loop of `~ConversationChannel`, for a chat buddy. */
  lemma LoseOneMore(net: Net, c: Channel, gone: set<Nick>, n: Nick)
    requires c in net.users && n in net.on && n !in gone
    requires forall cu :: cu in net.cells && cu.nick == n ==> cu in net.users[c]
    ensures var now := LoseChats(net, c, gone);
            && c in now.users && n in now.on
            && LoseChats(net, c, gone + {n}) == Forget(DelUserNet(now, c, n).(on := now.on[n := []]), {n})
  {
    LoseOneUsers(net, c, gone, n);
    LoseOneNames(net, c, gone, n);
    LoseOneIndex(net, c, gone, n);
    LoseOneCells(net, c, gone, n);
    SameNet(LoseChats(net, c, gone + {n}), Forget(DelUserNet(LoseChats(net, c, gone), c, n).(on := LoseChats(net, c, gone).on[n := []]), {n}));
  }

  lemma SameNet(a: Net, b: Net)
    requires a.names == b.names && a.on == b.on && a.handles == b.handles && a.users == b.users
    requires a.buddies == b.buddies && a.cells == b.cells && a.index == b.index
    ensures a == b
  {}

  lemma LoseOneUsers(net: Net, c: Channel, gone: set<Nick>, n: Nick)
    requires c in net.users
    ensures var now, after := LoseChats(net, c, gone), LoseChats(net, c, gone + {n});
            after.users == DelUserNet(now, c, n).users && after.buddies == now.buddies
  {
    OffNicksMore(net.users[c], gone, n);
    var us := OffNicks(net.users[c], gone);
    assert net.users[c := us][c := OffNick(us, n)] == net.users[c := OffNick(us, n)];
  }

  lemma LoseOneNames(net: Net, c: Channel, gone: set<Nick>, n: Nick)
    requires c in net.users && n in net.on && n !in gone
    ensures var now, after := LoseChats(net, c, gone), LoseChats(net, c, gone + {n});
            && after.names == now.names - {n} && after.handles == now.handles - {n}
            && after.on == now.on[n := []] - {n}
  {}

  lemma LoseOneIndex(net: Net, c: Channel, gone: set<Nick>, n: Nick)
    requires c in net.users
    ensures var now, after := LoseChats(net, c, gone), LoseChats(net, c, gone + {n});
            after.index == Forget(DelUserNet(now, c, n).(on := map[]), {n}).index
  {}

  lemma LoseOneCells(net: Net, c: Channel, gone: set<Nick>, n: Nick)
    requires c in net.users && n !in gone
    requires forall cu :: cu in net.cells && cu.nick == n ==> cu in net.users[c]
    ensures var now, after := LoseChats(net, c, gone), LoseChats(net, c, gone + {n});
            after.cells == DelUserNet(now, c, n).cells
  {}

  lemma LoseNicks(net: Net, c: Channel, gone: set<Nick>)
    requires Linked(net) && c in net.users
    ensures NicksSound(LoseChats(net, c, gone))
  {}

  lemma LoseChannels(net: Net, c: Channel, gone: set<Nick>)
    requires Linked(net) && c in net.users
    requires forall cu :: cu in net.cells && cu.nick in gone ==> cu.chan == c
    ensures ChannelsSound(LoseChats(net, c, gone))
  {}

  lemma LoseCells(net: Net, c: Channel, gone: set<Nick>)
    requires Linked(net) && c in net.users
    ensures CellsLinked(LoseChats(net, c, gone))
  {}

  lemma ChatsAreHere(net: Net, c: Channel)
    requires Linked(net) && RoomsIndexed(net) && c in net.users
    ensures forall cu :: cu in net.cells && cu.nick in Chats(net.users[c]) ==> cu.chan == c
  {
    forall cu | cu in net.cells && cu.nick in Chats(net.users[c])
      ensures cu.chan == c
    {
      var x :| x in net.users[c] && x.nick.chat && x.nick == cu.nick;
      OneRoomEach(net, cu, x);
    }
  }

  lemma LoseKeepsLinked(net: Net, c: Channel)
    requires Linked(net) && RoomsIndexed(net) && c in net.users
    ensures Linked(LoseChats(net, c, Chats(net.users[c])))
  {
    ChatsAreHere(net, c);
    LoseNicks(net, c, Chats(net.users[c]));
    LoseChannels(net, c, Chats(net.users[c]));
    LoseCells(net, c, Chats(net.users[c]));
  }

  lemma LostOnIs(net: Net, c: Channel, gone: set<Nick>)
    requires c in net.users
    ensures Close(LoseChats(net, c, gone), c).on == Forget(Close(net, c), gone).on
  {}

  lemma LostCellsAre(net: Net, c: Channel)
    requires Linked(net) && RoomsIndexed(net) && c in net.users
    ensures Close(LoseChats(net, c, Chats(net.users[c])), c).cells == Close(net, c).cells
  {
    ChatsAreHere(net, c);
  }

  /** Both destructors together: the chat buddies are deleted, then everybody else
      parts. */
  lemma LoseThenClose(net: Net, c: Channel)
    requires Linked(net) && RoomsIndexed(net) && c in net.users
    ensures var mid := LoseChats(net, c, Chats(net.users[c]));
            Close(mid, c) == CloseRoom(net, c)
  {
    var gone := Chats(net.users[c]);
    LostOnIs(net, c, gone);
    LostCellsAre(net, c);
    assert Close(LoseChats(net, c, gone), c).users == Close(net, c).users;
  }

  lemma LoseThenSends(net: Net, c: Channel)
    requires Linked(net) && c in net.users
    ensures var mid := LoseChats(net, c, Chats(net.users[c]));
            && UsersNamed(mid, mid.users[c]) && UsersNamed(net, net.users[c])
            && CloseSends(mid, c) == CloseRoomSends(net, c)
  {
    var gone := Chats(net.users[c]);
    UsersAreNamed(net, c);
    OffChatsAre(net.users[c], gone);
    SameParts(LoseChats(net, c, gone), net, NotChats(net.users[c]), c);
  }

  lemma SameParts(a: Net, b: Net, us: seq<ChanUser>, c: Channel)
    requires forall cu :: cu in us ==> cu.nick in a.names && cu.nick in b.names && a.names[cu.nick] == b.names[cu.nick]
    ensures PartEach(a, us, c) == PartEach(b, us, c)
  {
    assert forall i :: 0 <= i < |us| ==> us[i] in us;
  }

  ghost predicate UsersNamed(net: Net, us: seq<ChanUser>) {
    forall cu :: cu in us ==> cu.nick in net.names
  }

  lemma UsersAreNamed(net: Net, c: Channel)
    requires Linked(net) && c in net.users
    ensures UsersNamed(net, net.users[c])
  {}

  lemma PartEachMore(net: Net, us: seq<ChanUser>, k: nat, c: Channel)
    requires k < |us| && UsersNamed(net, us)
    ensures us[k].nick in net.names
    ensures PartEach(net, us[..k + 1], c)
         == PartEach(net, us[..k], c) + [Delivery(us[k].nick, Part(net.names[us[k].nick], c.name))]
  {
    assert us[k] in us && us[..k + 1] == us[..k] + [us[k]];
  }

  lemma ExceptStep(s: seq<ChanUser>, cu: ChanUser, k: nat)
    requires k < |s|
    ensures var done, it := Except(s[..k], cu), |Except(s[..k], cu)|;
            && (done + s[k..])[it] == s[k]
            && (if s[k] == cu then
                  && Except(s[..k + 1], cu) == done
                  && (done + s[k..])[..it] + (done + s[k..])[it + 1..] == done + s[k + 1..]
                else
                  Except(s[..k + 1], cu) == done + [s[k]] && done + s[k..] == done + [s[k]] + s[k + 1..])
  {
    assert s[..k + 1][..k] == s[..k] && s[k..] == [s[k]] + s[k + 1..];
  }

  lemma OnlyOne(net: Net, cu: ChanUser)
    requires Linked(net) && ChatsInOneRoom(net) && cu in net.cells && cu.nick.chat
    ensures cu.nick in net.on && net.on[cu.nick] == [cu] && Except([cu], cu) == []
  {
    assert cu in net.on[cu.nick] && |net.on[cu.nick]| == 1;
    assert [cu][..0] == [] && Except([], cu) == [];
  }

  lemma LoseKeepsIndexed(net: Net, c: Channel, gone: set<Nick>)
    requires Indexed(net) && c in net.users
    ensures Indexed(LoseChats(net, c, gone))
  {
    ForgetKeepsIndexed(net, gone);
  }

  /** The chat buddies of the entries of `cbuddies` whose handles are `hs`. */
  function ChatsOf(m: map<Handle, ChanUser>, hs: set<Handle>): set<Nick> {
    set h | h in hs && h in m && m[h].nick.chat :: m[h].nick
  }

  lemma BuddiesAreNamed(net: Net, c: Channel)
    requires Linked(net) && EntriesSound(net) && c in net.users
    ensures c in net.buddies && forall h :: h in net.buddies[c] ==> net.buddies[c][h].nick in net.names
  {}

  lemma MoveOne(done: set<Handle>, rest: set<Handle>, h: Handle)
    requires h in rest && done !! rest
    ensures (done + {h}) + (rest - {h}) == done + rest && (done + {h}) !! (rest - {h}) && h !in done
  {}

  lemma ChatsOfAll(net: Net, c: Channel)
    requires RoomsIndexed(net) && c in net.users
    ensures c in net.buddies && ChatsOf(net.buddies[c], net.buddies[c].Keys) == Chats(net.users[c])
  {
    var m := net.buddies[c];
    forall cu | cu in net.users[c] && cu.nick.chat
      ensures cu.nick in ChatsOf(m, m.Keys)
    {
      assert net.handles[cu.nick] in m && m[net.handles[cu.nick]] == cu;
    }
  }

  lemma NextChatIsNew(net: Net, c: Channel, hs: set<Handle>, h: Handle)
    requires Linked(net) && EntriesSound(net) && c in net.users && h in net.buddies[c] && h !in hs
    ensures var m := net.buddies[c];
            && m[h] in net.cells && m[h].chan == c
            && (m[h].nick.chat ==> m[h].nick !in ChatsOf(m, hs) && ChatsOf(m, hs + {h}) == ChatsOf(m, hs) + {m[h].nick})
            && (!m[h].nick.chat ==> ChatsOf(m, hs + {h}) == ChatsOf(m, hs))
  {}

  lemma OneCellOf(net: Net, cu: ChanUser)
    requires Linked(net) && ChatsInOneRoom(net) && cu in net.cells && cu.nick.chat
    ensures cu.chan in net.users && cu in net.users[cu.chan]
    ensures forall x :: x in net.cells && x.nick == cu.nick ==> x == cu
  {
    forall x | x in net.cells && x.nick == cu.nick
      ensures x == cu
    {
      OneRoomEach(net, x, cu);
    }
  }

  lemma StillSound(net: Net, c: Channel, gone: set<Nick>)
    requires Linked(net) && c in net.users
    ensures var now := LoseChats(net, c, gone);
            && c in now.users && NoDup(now.users[c])
            && (forall cu :: cu in now.users[c] ==> cu in now.cells)
  {}
}
