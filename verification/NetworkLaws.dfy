/** What each transformer does, told by who is on which channel, who is called what, and
    which modes a member has. */
module NetworkLaws {
  import opened ClientMirror
  import opened Modes
  import opened Network
  import opened NetworkInvariants
  import opened RoomIndex
  import opened Text

  // ---------------------------------------------------------------- membership

  /** Whoever is left on a channel has the modes it had. */
  ghost predicate ModesKept(net: Net, after: Net) {
    forall cu :: cu in net.cells && cu in after.cells ==> after.cells[cu] == net.cells[cu]
  }

  /** Nobody is called anything else, and nobody has come or gone. */
  ghost predicate NamesKept(net: Net, after: Net) {
    after.names == net.names && after.index == net.index && after.handles == net.handles
  }

  /** A join adds one membership, with its modes, and nothing else. */
  lemma EnterIs(net: Net, cu: ChanUser, status: Mask, n: Nick, c: Channel)
    requires Linked(net) && cu !in net.cells && cu.nick in net.on && cu.chan in net.users
    ensures var after := Enter(net, cu, status);
            && NamesKept(net, after) && ModesKept(net, after) && cu in after.cells && after.cells[cu] == status
            && (IsOn(after, n, c) <==> IsOn(net, n, c) || (n == cu.nick && c == cu.chan))
  {
    var after := Enter(net, cu, status);
    if IsOn(net, n, c) {
      var x :| x in net.cells && x.nick == n && x.chan == c;
      assert x in after.cells;
    }
    if n == cu.nick && c == cu.chan {
      assert cu in after.cells;
    }
  }

  /** A part, or a kick, takes one membership away. */
  lemma DetachIs(net: Net, gone: Nick, from: Channel, n: Nick, c: Channel)
    requires Linked(net) && gone in net.on && from in net.users
    ensures var after := Detach(net, gone, from);
            && NamesKept(net, after) && ModesKept(net, after)
            && (IsOn(after, n, c) <==> IsOn(net, n, c) && !(n == gone && c == from))
  {
    var after := Detach(net, gone, from);
    if IsOn(net, n, c) && !(n == gone && c == from) {
      var x :| x in net.cells && x.nick == n && x.chan == c;
      assert x in after.cells;
    }
  }

  /** A quit takes away all of one nick. */
  lemma LeaveAllIs(net: Net, gone: Nick, n: Nick, c: Channel)
    requires Linked(net) && gone in net.on
    ensures var after := LeaveAll(net, gone);
            && NamesKept(net, after) && ModesKept(net, after) && (IsOn(after, n, c) <==> IsOn(net, n, c) && n != gone)
  {
    var after := LeaveAll(net, gone);
    if IsOn(net, n, c) && n != gone {
      var x :| x in net.cells && x.nick == n && x.chan == c;
      assert x in after.cells;
    }
  }

  /** The end of a channel takes away all of one channel. */
  lemma CloseIs(net: Net, closed: Channel, n: Nick, c: Channel)
    requires Linked(net) && closed in net.users
    ensures var after := Close(net, closed);
            && NamesKept(net, after) && ModesKept(net, after) && after.users.Keys == net.users.Keys - {closed}
            && (IsOn(after, n, c) <==> IsOn(net, n, c) && c != closed)
  {
    var after := Close(net, closed);
    if IsOn(net, n, c) && c != closed {
      var x :| x in net.cells && x.nick == n && x.chan == c;
      assert x in after.cells;
    }
  }

  /** A mode change changes just the given modes of one member. */
  lemma ChangeModeIs(net: Net, cu: ChanUser, add: bool, modes: Mask, x: ChanUser, mode: nat)
    requires cu in net.cells && x in net.cells
    ensures var after := ChangeMode(net, cu, add, modes);
            && NamesKept(net, after) && after.on == net.on && after.users == net.users && after.cells.Keys == net.cells.Keys
            && (mode in after.cells[x] <==> if x == cu && mode in modes then add else mode in net.cells[x])
  {}

  /** Who joins again has just the modes given, and nothing else changes. */
  lemma RejoinIs(net: Net, cu: ChanUser, status: Mask)
    requires cu in net.cells
    ensures Rejoin(net, cu, status) == net.(cells := net.cells[cu := status])
  {
    var after := Rejoin(net, cu, status);
    assert after.cells[cu] == status;
    assert after.cells == net.cells[cu := status];
  }

  // ---------------------------------------------------------------- names

  /** Nobody's memberships change. */
  ghost predicate MembersKept(net: Net, after: Net) {
    after.users == net.users && after.cells == net.cells
  }

  /** A new nick has its name, is found under it, and is on no channel. */
  lemma RegisterIs(net: Net, n: Nick, name: string, handle: Handle, x: Nick)
    requires Indexed(net) && n !in net.names && FreeName(net, name)
    ensures var after := Register(net, n, name, handle);
            && MembersKept(net, after) && after.names.Keys == net.names.Keys + {n}
            && after.names[n] == name && name in after.index && after.index[name] == n
            && n in after.on && after.on[n] == [] && n in after.handles && after.handles[n] == handle
            && (x in net.names && x != n ==>
                  && after.names[x] == net.names[x]
                  && after.names[x] in after.index && after.index[after.names[x]] == x)
  {}

  /** A rename: the nick is found under the new name, and no longer under the old one;
      everybody else is called and found as before. */
  lemma RenameIs(net: Net, n: Nick, newNick: string, x: Nick)
    requires Indexed(net) && n in net.names && FreeFor(net, n, newNick)
    ensures var after := Rename(net, n, newNick);
            && MembersKept(net, after) && after.on == net.on && after.names.Keys == net.names.Keys
            && after.names[n] == newNick && newNick in after.index && after.index[newNick] == n
            && (net.names[n] != newNick ==> net.names[n] !in after.index)
            && (x in net.names && x != n ==>
                  && after.names[x] == net.names[x]
                  && after.names[x] in after.index && after.index[after.names[x]] == x)
  {}

  /** Who is deleted has no name and is found under none; everybody else as before. */
  lemma ForgetIs(net: Net, gone: set<Nick>, x: Nick)
    requires Indexed(net)
    ensures var after := Forget(net, gone);
            && MembersKept(net, after) && (x in gone ==> x !in after.names && x !in after.on && x !in after.index.Values)
            && (x in net.names && x !in gone ==>
                  && x in after.names && after.names[x] == net.names[x]
                  && after.names[x] in after.index && after.index[after.names[x]] == x)
  {}

  // ---------------------------------------------------------------- rooms

  /** An entry of `cbuddies` is made, or replaced, and the others stay. */
  lemma TagIs(net: Net, c: Channel, h: Handle, cu: ChanUser, d: Channel, g: Handle)
    requires c in net.buddies && d in net.buddies
    ensures var after := Tag(net, c, h, cu);
            && NamesKept(net, after) && MembersKept(net, after) && after.on == net.on
            && after.buddies.Keys == net.buddies.Keys && h in after.buddies[c] && after.buddies[c][h] == cu
            && (d != c || g != h ==>
                  (g in after.buddies[d] <==> g in net.buddies[d])
                  && (g in net.buddies[d] ==> after.buddies[d][g] == net.buddies[d][g]))
  {}

  /** A new chat buddy is registered, on the channel with its modes, and under its handle. */
  lemma AddBuddyIs(net: Net, cu: ChanUser, name: string, h: Handle, status: Mask)
    requires Indexed(net) && cu.nick !in net.names && FreeName(net, name)
    requires cu.chan in net.users && cu.chan in net.buddies
    ensures var after := AddBuddy(net, cu, name, h, status);
            && cu.nick in after.names && after.names[cu.nick] == name && name in after.index && after.index[name] == cu.nick
            && cu.nick in after.handles && after.handles[cu.nick] == h
            && h in after.buddies[cu.chan] && after.buddies[cu.chan][h] == cu
            && cu in after.cells && after.cells[cu] == status && IsOn(after, cu.nick, cu.chan)
  {
    assert cu in AddBuddy(net, cu, name, h, status).cells;
  }

  /** A chat buddy that is renamed is under its new name and its new handle only. */
  lemma RenameBuddyIs(net: Net, cu: ChanUser, h: Handle, newNick: string)
    requires Indexed(net) && cu.nick in net.names && cu.nick in net.handles && cu.chan in net.buddies
    requires FreeFor(net, cu.nick, newNick)
    ensures var after := RenameBuddy(net, cu, h, newNick);
            && MembersKept(net, after) && after.on == net.on
            && after.names[cu.nick] == newNick && newNick in after.index && after.index[newNick] == cu.nick
            && after.handles[cu.nick] == h && h in after.buddies[cu.chan] && after.buddies[cu.chan][h] == cu
            && (net.handles[cu.nick] != h ==> net.handles[cu.nick] !in after.buddies[cu.chan])
  {}

  /** A room that closes takes its chat buddies along. */
  lemma CloseRoomIs(net: Net, closed: Channel, n: Nick, c: Channel)
    requires Linked(net) && Indexed(net) && closed in net.users
    ensures var after := CloseRoom(net, closed);
            && after.users.Keys == net.users.Keys - {closed} && (IsOn(after, n, c) <==> IsOn(net, n, c) && c != closed)
            && (n.chat && IsOn(net, n, closed) ==> n !in after.names && n !in after.index.Values)
            && (n in net.names && !(n.chat && IsOn(net, n, closed)) ==>
                  n in after.names && after.names[n] == net.names[n])
  {
    CloseIs(net, closed, n, c);
    ForgetIs(Close(net, closed), Chats(net.users[closed]), n);
    ChatsAre(net, closed, n);
  }

  lemma ChatsAre(net: Net, c: Channel, n: Nick)
    requires Linked(net) && c in net.users
    ensures n in Chats(net.users[c]) <==> n.chat && IsOn(net, n, c)
  {
    if n in Chats(net.users[c]) {
      var cu :| cu in net.users[c] && cu.nick.chat && cu.nick == n;
      assert cu in net.cells;
    }
    if n.chat && IsOn(net, n, c) {
      var cu :| cu in net.cells && cu.nick == n && cu.chan == c;
      assert cu in net.users[c];
    }
  }

  // ---------------------------------------------------------------- who is told

  /** Of a new name only the gateway user is told, once. */
  lemma RenameInbox(net: Net, me: Nick, n: Nick, newNick: string, u: Nick)
    requires n in net.names
    ensures Inbox(RenameSends(net, me, n, newNick), u)
         == if u == me then [NickChange(net.names[n], newNick)] else []
  {
    ToOne(me, NickChange(net.names[n], newNick));
    InboxTo(me, [NickChange(net.names[n], newNick)], u);
  }
}
