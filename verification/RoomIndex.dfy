/** The third copy of a chat room's membership, `cbuddies`, and the registration of
    its members in the nick index. */
module RoomIndex {
  import opened Modes
  import opened Network
  import opened NetworkInvariants

  /** Each entry of `cbuddies` points to a member of the room, each member under one
      handle only; a chat buddy under its own. */
  ghost predicate EntriesSound(net: Net) {
    && net.buddies.Keys == net.users.Keys
    && (forall c, h :: c in net.buddies && h in net.buddies[c] ==>
          && c.room && net.buddies[c][h] in net.users[c]
          && (net.buddies[c][h].nick.chat ==>
                net.buddies[c][h].nick in net.handles && net.handles[net.buddies[c][h].nick] == h))
    && (forall c, g, h :: c in net.buddies && g in net.buddies[c] && h in net.buddies[c] ==>
          (net.buddies[c][g] == net.buddies[c][h] ==> g == h))
  }

  /** Each chat buddy in a channel has its entry there. */
  ghost predicate EntriesComplete(net: Net) {
    forall c, cu :: c in net.users && cu in net.users[c] && cu.nick.chat ==>
      && c in net.buddies && cu.nick in net.handles
      && net.handles[cu.nick] in net.buddies[c] && net.buddies[c][net.handles[cu.nick]] == cu
  }

  /** A registered chat buddy is on one channel, its room, and no more. */
  ghost predicate ChatsInOneRoom(net: Net) {
    forall n :: n in net.on && n.chat ==> |net.on[n]| == 1
  }

  /** The chat-buddy entries of `cbuddies` are exactly the room's ChanUsers of chat
      buddies, and those are exactly the registered chat buddies. */
  ghost predicate RoomsIndexed(net: Net) {
    EntriesSound(net) && EntriesComplete(net) && ChatsInOneRoom(net)
  }

  lemma TagEnters(net: Net, cu: ChanUser, h: Handle)
    requires Linked(net) && RoomsIndexed(net) && cu in net.cells && cu.chan.room && !cu.nick.chat
    requires h !in net.buddies[cu.chan] || net.buddies[cu.chan][h] == cu
    requires forall g :: g in net.buddies[cu.chan] && net.buddies[cu.chan][g] == cu ==> g == h
    ensures RoomsIndexed(Tag(net, cu.chan, h, cu))
  {}

  /** Entering the gateway user in `cbuddies` keeps the index exactly when it is
      under no other handle there: `delUser` erases one entry only. */
  lemma TagKeeps(net: Net, cu: ChanUser, h: Handle)
    requires Linked(net) && RoomsIndexed(net) && cu in net.cells && cu.chan.room && !cu.nick.chat
    requires h !in net.buddies[cu.chan] || net.buddies[cu.chan][h] == cu
    ensures RoomsIndexed(Tag(net, cu.chan, h, cu))
       <==> forall g :: g in net.buddies[cu.chan] && net.buddies[cu.chan][g] == cu ==> g == h
  {
    if forall g :: g in net.buddies[cu.chan] && net.buddies[cu.chan][g] == cu ==> g == h {
      TagEnters(net, cu, h);
    } else {
      var g :| g in net.buddies[cu.chan] && net.buddies[cu.chan][g] == cu && g != h;
      var after := Tag(net, cu.chan, h, cu);
      assert after.buddies[cu.chan][h] == cu && after.buddies[cu.chan][g] == cu;
    }
  }

  lemma AddBuddySound(net: Net, cu: ChanUser, name: string, h: Handle, status: Mask)
    requires Linked(net) && RoomsIndexed(net) && cu !in net.cells && cu.nick !in net.names
    requires cu.nick.chat && cu.chan in net.users && cu.chan.room && h !in net.buddies[cu.chan]
    ensures EntriesSound(AddBuddy(net, cu, name, h, status))
  {}

  lemma AddBuddyComplete(net: Net, cu: ChanUser, name: string, h: Handle, status: Mask)
    requires Linked(net) && RoomsIndexed(net) && cu !in net.cells && cu.nick !in net.names
    requires cu.nick.chat && cu.chan in net.users && cu.chan.room && h !in net.buddies[cu.chan]
    ensures EntriesComplete(AddBuddy(net, cu, name, h, status))
    ensures ChatsInOneRoom(AddBuddy(net, cu, name, h, status))
  {}

  lemma AddBuddyKeeps(net: Net, cu: ChanUser, name: string, h: Handle, status: Mask)
    requires Linked(net) && RoomsIndexed(net) && cu !in net.cells && cu.nick !in net.names
    requires cu.nick.chat && cu.chan in net.users && cu.chan.room && h !in net.buddies[cu.chan]
    ensures RoomsIndexed(AddBuddy(net, cu, name, h, status))
  {
    AddBuddySound(net, cu, name, h, status);
    AddBuddyComplete(net, cu, name, h, status);
  }

  lemma RenameBuddySound(net: Net, cu: ChanUser, h: Handle, newNick: string)
    requires Linked(net) && RoomsIndexed(net) && cu in net.cells && cu.nick.chat
    ensures EntriesSound(RenameBuddy(net, cu, h, newNick))
  {
    var c, old' := cu.chan, net.handles[cu.nick];
    assert cu in net.users[c] && net.buddies[c][old'] == cu;
    assert forall g :: g in net.buddies[c] && net.buddies[c][g] == cu ==> g == old';
    forall d, g | d in net.buddies && g in net.buddies[d] && net.buddies[d][g].nick == cu.nick
      ensures d == c && g == old'
    {
      OneRoomEach(net, net.buddies[d][g], cu);
    }
  }

  lemma OneRoomEach(net: Net, a: ChanUser, b: ChanUser)
    requires Linked(net) && ChatsInOneRoom(net) && a in net.cells && b in net.cells
    requires a.nick == b.nick && a.nick.chat
    ensures a == b
  {
    assert a in net.on[a.nick] && b in net.on[a.nick];
  }

  lemma RenameBuddyComplete(net: Net, cu: ChanUser, h: Handle, newNick: string)
    requires Linked(net) && RoomsIndexed(net) && cu in net.cells && cu.nick.chat
    requires h in net.buddies[cu.chan] && h != net.handles[cu.nick] ==> !net.buddies[cu.chan][h].nick.chat
    ensures EntriesComplete(RenameBuddy(net, cu, h, newNick))
  {
    var after := RenameBuddy(net, cu, h, newNick);
    forall d, x | d in after.users && x in after.users[d] && x.nick.chat
      ensures x.nick in after.handles && after.handles[x.nick] in after.buddies[d]
      ensures after.buddies[d][after.handles[x.nick]] == x
    {
      if x.nick == cu.nick {
        OneRoomEach(net, x, cu);
      } else {
        assert net.buddies[d][net.handles[x.nick]] == x;
      }
    }
  }

  lemma RenameBuddyClash(net: Net, cu: ChanUser, h: Handle, newNick: string)
    requires Linked(net) && RoomsIndexed(net) && cu in net.cells && cu.nick.chat
    requires h in net.buddies[cu.chan] && h != net.handles[cu.nick] && net.buddies[cu.chan][h].nick.chat
    ensures !EntriesComplete(RenameBuddy(net, cu, h, newNick))
  {
    var x := net.buddies[cu.chan][h];
    assert x in net.users[cu.chan] && net.handles[x.nick] == h;
    assert x.nick != cu.nick;
    assert RenameBuddy(net, cu, h, newNick).buddies[cu.chan][h] == cu;
  }

  /** A rename keeps the index exactly when libpurple's new handle is not the entry
      of another chat buddy of the room, which the code would overwrite. */
  lemma RenameBuddyKeeps(net: Net, cu: ChanUser, h: Handle, newNick: string)
    requires Linked(net) && RoomsIndexed(net) && cu in net.cells && cu.nick.chat
    ensures RoomsIndexed(RenameBuddy(net, cu, h, newNick)) <==>
              (h in net.buddies[cu.chan] && h != net.handles[cu.nick] ==> !net.buddies[cu.chan][h].nick.chat)
  {
    RenameBuddySound(net, cu, h, newNick);
    if h in net.buddies[cu.chan] && h != net.handles[cu.nick] && net.buddies[cu.chan][h].nick.chat {
      RenameBuddyClash(net, cu, h, newNick);
    } else {
      RenameBuddyComplete(net, cu, h, newNick);
    }
  }

  lemma LeaveAllEntries(net: Net, n: Nick)
    requires Linked(net) && EntriesSound(net) && n in net.on
    ensures EntriesSound(LeaveAll(net, n))
  {}

  lemma DropEntries(net: Net, n: Nick)
    requires Linked(net) && EntriesSound(net) && n in net.on
    ensures EntriesSound(Forget(LeaveAll(net, n), {n}))
  {
    LeaveAllEntries(net, n);
    var left := LeaveAll(net, n);
    forall c, h | c in left.buddies && h in left.buddies[c]
      ensures left.buddies[c][h].nick != n
    {}
  }

  lemma DropComplete(net: Net, n: Nick)
    requires Linked(net) && RoomsIndexed(net) && n in net.on
    ensures EntriesComplete(Forget(LeaveAll(net, n), {n}))
  {}

  lemma DropKeeps(net: Net, n: Nick)
    requires Linked(net) && RoomsIndexed(net) && n in net.on
    ensures RoomsIndexed(Forget(LeaveAll(net, n), {n}))
  {
    DropEntries(net, n);
    DropComplete(net, n);
  }

  lemma {:induction false} OffNickNone(us: seq<ChanUser>, n: Nick)
    requires forall cu :: cu in us ==> cu.nick != n
    ensures OffNick(us, n) == us
  {
    if us != [] {
      var front, last := us[..|us| - 1], us[|us| - 1];
      assert us == front + [last] && last in us;
      OffNickNone(front, n);
    }
  }

  lemma {:induction false} OffChanAll(s: seq<ChanUser>, c: Channel)
    requires forall cu :: cu in s ==> cu.chan == c
    ensures OffChan(s, c) == []
  {
    if s != [] {
      assert s[|s| - 1] in s;
      OffChanAll(s[..|s| - 1], c);
    }
  }

  lemma OnlyHere(net: Net, n: Nick, c: Channel)
    requires Linked(net) && ChatsInOneRoom(net) && n in net.on && n.chat && IsOn(net, n, c)
    ensures forall cu :: cu in net.cells && cu.nick == n ==> cu.chan == c
    ensures OffChan(net.on[n], c) == []
  {
    var x :| x in net.cells && x.nick == n && x.chan == c;
    forall cu | cu in net.cells && cu.nick == n
      ensures cu.chan == c
    {
      OneRoomEach(net, cu, x);
    }
    OffChanAll(net.on[n], c);
  }

  lemma ElsewhereSame(net: Net, n: Nick, c: Channel, d: Channel)
    requires Linked(net) && EntriesSound(net) && n in net.on && d in net.users && d != c
    requires forall cu :: cu in net.cells && cu.nick == n ==> cu.chan == c
    ensures OffNick(net.users[d], n) == net.users[d] && OffBuddy(net.buddies[d], n) == net.buddies[d]
  {
    OffNickNone(net.users[d], n);
  }

  lemma SameUsers(net: Net, n: Nick, c: Channel)
    requires n in net.on && c in net.users && c in net.buddies
    requires forall d :: d in net.users && d != c ==> OffNick(net.users[d], n) == net.users[d]
    ensures Detach(net, n, c).users == LeaveAll(net, n).users
  {
    forall d | d in net.users
      ensures Detach(net, n, c).users[d] == LeaveAll(net, n).users[d]
    {}
  }

  lemma SameBuddies(net: Net, n: Nick, c: Channel)
    requires n in net.on && c in net.users && c in net.buddies
    requires forall d :: d in net.buddies && d != c ==> OffBuddy(net.buddies[d], n) == net.buddies[d]
    ensures Detach(net, n, c).buddies == LeaveAll(net, n).buddies
  {
    forall d | d in net.buddies
      ensures Detach(net, n, c).buddies[d] == LeaveAll(net, n).buddies[d]
    {}
  }

  lemma SameCells(net: Net, n: Nick, c: Channel)
    requires n in net.on && c in net.users && c in net.buddies
    requires forall cu :: cu in net.cells && cu.nick == n ==> cu.chan == c
    ensures Detach(net, n, c).cells == LeaveAll(net, n).cells
  {}

  /** A chat buddy that leaves its room leaves the network. */
  lemma LoseBuddyIsDrop(net: Net, n: Nick, c: Channel)
    requires Linked(net) && RoomsIndexed(net) && n in net.on && n.chat && c in net.users && IsOn(net, n, c)
    ensures Detach(net, n, c) == LeaveAll(net, n)
    ensures LoseBuddy(net, n, c) == Forget(LeaveAll(net, n), {n})
  {
    OnlyHere(net, n, c);
    forall d | d in net.users && d != c
      ensures OffNick(net.users[d], n) == net.users[d] && OffBuddy(net.buddies[d], n) == net.buddies[d]
    {
      ElsewhereSame(net, n, c, d);
    }
    SameUsers(net, n, c);
    SameBuddies(net, n, c);
    SameCells(net, n, c);
  }

  lemma LoseBuddyKeeps(net: Net, n: Nick, c: Channel)
    requires Linked(net) && RoomsIndexed(net) && n in net.on && n.chat && c in net.users && IsOn(net, n, c)
    ensures RoomsIndexed(LoseBuddy(net, n, c))
  {
    LoseBuddyIsDrop(net, n, c);
    DropKeeps(net, n);
  }

  lemma DetachKeeps(net: Net, n: Nick, c: Channel)
    requires Linked(net) && RoomsIndexed(net) && n in net.on && !n.chat && c in net.users
    ensures RoomsIndexed(Detach(net, n, c))
  {}

  lemma LeaveAllKeeps(net: Net, n: Nick)
    requires Linked(net) && RoomsIndexed(net) && n in net.on && !n.chat
    ensures RoomsIndexed(LeaveAll(net, n))
  {}

  lemma EnterKeeps(net: Net, cu: ChanUser, status: Mask)
    requires Linked(net) && RoomsIndexed(net) && cu.nick in net.on && cu.chan in net.users && !cu.nick.chat
    ensures RoomsIndexed(Enter(net, cu, status))
  {}

  /** A chat buddy on another channel than `c` survives the closing of `c`. */
  lemma SurvivesClose(net: Net, c: Channel, cu: ChanUser)
    requires Linked(net) && RoomsIndexed(net) && c in net.users && cu in net.cells && cu.chan != c && cu.nick.chat
    ensures cu.nick !in Chats(net.users[c])
  {
    forall x | x in net.users[c]
      ensures x.nick != cu.nick
    {
      if x.nick == cu.nick {
        OneRoomEach(net, cu, x);
      }
    }
  }

  lemma CloseRoomEntries(net: Net, c: Channel)
    requires Linked(net) && RoomsIndexed(net) && c in net.users
    ensures EntriesSound(CloseRoom(net, c)) && EntriesComplete(CloseRoom(net, c))
  {
    forall cu | cu in net.cells && cu.chan != c && cu.nick.chat
      ensures cu.nick !in Chats(net.users[c])
    {
      SurvivesClose(net, c, cu);
    }
  }

  lemma ChatIsListed(net: Net, c: Channel, cu: ChanUser)
    requires Linked(net) && cu in net.cells && cu.chan == c && cu.nick.chat
    ensures c in net.users && cu.nick in Chats(net.users[c])
  {}

  lemma OtherChatStays(net: Net, c: Channel, n: Nick)
    requires Linked(net) && RoomsIndexed(net) && c in net.users
    requires n in net.on && n.chat && n !in Chats(net.users[c])
    ensures |OffChan(net.on[n], c)| == 1
  {
    var cu := net.on[n][0];
    assert cu in net.on[n];
    if cu.chan == c {
      ChatIsListed(net, c, cu);
    }
    OneCell(OffChan(net.on[n], c), cu);
  }

  lemma CloseRoomChats(net: Net, c: Channel)
    requires Linked(net) && RoomsIndexed(net) && c in net.users
    ensures ChatsInOneRoom(CloseRoom(net, c))
  {
    var after := CloseRoom(net, c);
    forall n | n in after.on && n.chat
      ensures |after.on[n]| == 1
    {
      OtherChatStays(net, c, n);
    }
  }

  lemma OneCell(s: seq<ChanUser>, cu: ChanUser)
    requires NoDup(s) && cu in s && forall x :: x in s ==> x == cu
    ensures |s| == 1
  {
    assert s[0] in s && s[|s| - 1] in s;
  }

  lemma CloseRoomKeeps(net: Net, c: Channel)
    requires Linked(net) && RoomsIndexed(net) && c in net.users
    ensures RoomsIndexed(CloseRoom(net, c))
  {
    CloseRoomEntries(net, c);
    CloseRoomChats(net, c);
  }

  lemma SameRooms(net: Net, after: Net)
    requires RoomsIndexed(net)
    requires after.on == net.on && after.users == net.users && after.buddies == net.buddies && after.handles == net.handles
    ensures RoomsIndexed(after)
  {}

  lemma RegisterKeepsRooms(net: Net, n: Nick, name: string, h: Handle)
    requires Linked(net) && RoomsIndexed(net) && n !in net.names && !n.chat
    ensures RoomsIndexed(Register(net, n, name, h))
  {}

  lemma OpenKeepsRooms(net: Net, c: Channel)
    requires RoomsIndexed(net) && c !in net.users
    ensures RoomsIndexed(OpenChannel(net, c))
  {}
}
