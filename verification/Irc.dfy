/** The network in memory: what the methods of `Nick`, `Channel`,
    `ConversationChannel` and `IRC` do to the objects, each proved to be the
    transformer of `Network` that the invariants and the client mirror are about. */
module Irc {
  import opened Basics
  import opened Modes
  import opened Network
  import opened NetworkClosing
  import opened NetworkInvariants
  import opened NetworkLoops
  import opened RoomIndex
  import opened Text

  ghost predicate NicksHold(names: map<Nick, string>, on: map<Nick, seq<ChanUser>>, handles: map<Nick, Handle>)
    reads names.Keys
  {
    && on.Keys == names.Keys == handles.Keys
    && (forall n :: n in names ==> n.nickname == names[n] && n.channels == on[n] && n.handle == handles[n])
  }

  ghost predicate ChannelsHold(users: map<Channel, seq<ChanUser>>, buddies: map<Channel, map<Handle, ChanUser>>)
    reads users.Keys
  {
    && buddies.Keys == users.Keys
    && (forall c :: c in users ==> c.users == users[c] && c.cbuddies == buddies[c])
  }

  lemma ChannelHolds(users: map<Channel, seq<ChanUser>>, buddies: map<Channel, map<Handle, ChanUser>>, c: Channel)
    requires buddies.Keys == users.Keys && c in users && c.users == users[c]
    requires forall d :: d in users && d != c ==> d.users == users[d] && d.cbuddies == buddies[d]
    ensures ChannelsHold(users, buddies[c := c.cbuddies])
  {}

  ghost predicate CellsHold(cells: map<ChanUser, Mask>)
    reads cells.Keys
  {
    forall cu :: cu in cells ==> cu.status == cells[cu]
  }

  lemma NickAdded(net: Net, n: Nick)
    requires NicksHold(net.names, net.on, net.handles) && n.channels == []
    ensures NicksHold(net.names[n := n.nickname], net.on[n := []], net.handles[n := n.handle])
  {}

  class IRC {
    /** `IRC::users`. */
    var users: map<string, Nick>
    /** `IRC::user`, the gateway user. */
    const me: Nick

    /** The objects' fields as a value; its key sets are the objects that are allocated. */
    ghost var net: Net
    /** Every call of `Nick::send`, in order. */
    ghost var log: seq<Delivery>

    /** `net` is what the objects hold. */
    ghost predicate Valid()
      reads this`users, this`net, net.names.Keys, net.users.Keys, net.cells.Keys
    {
      && users == net.index
      && NicksHold(net.names, net.on, net.handles)
      && ChannelsHold(net.users, net.buddies)
      && CellsHold(net.cells)
    }

    /** A gateway that knows its user only. */
    constructor (user: Nick)
      requires user.channels == []
      ensures me == user && Valid() && log == [] && net == Alone(user, user.nickname, user.handle)
    {
      me := user;
      users := Alone(user, user.nickname, user.handle).index;
      log := [];
      net := Alone(user, user.nickname, user.handle);
    }

    // ------------------------------------------------------------ field assignments
    // One method a field, so that `net` always follows.

    method SetChannels(n: Nick, s: seq<ChanUser>)
      requires Valid() && n in net.names
      modifies this`net, n`channels
      ensures Valid() && net == old(net).(on := old(net).on[n := s]) && log == old(log)
    {
      n.channels := s;
      net := net.(on := net.on[n := s]);
      assert NicksHold(net.names, net.on, net.handles);
    }

    method SetUsers(c: Channel, s: seq<ChanUser>)
      requires Valid() && c in net.users
      modifies this`net, c`users
      ensures Valid() && net == old(net).(users := old(net).users[c := s]) && log == old(log)
    {
      c.users := s;
      net := net.(users := net.users[c := s]);
      assert ChannelsHold(net.users, net.buddies);
    }

    method SetBuddies(c: Channel, m: map<Handle, ChanUser>)
      requires Valid() && c in net.users
      modifies this`net, c`cbuddies
      ensures Valid() && net == old(net).(buddies := old(net).buddies[c := m]) && log == old(log)
    {
      c.cbuddies := m;
      ChannelHolds(net.users, net.buddies, c);
      net := net.(buddies := net.buddies[c := m]);
    }

    method SetName(n: Nick, name: string)
      requires Valid() && n in net.names
      modifies this`net, n`nickname
      ensures Valid() && net == old(net).(names := old(net).names[n := name]) && log == old(log)
    {
      n.nickname := name;
      net := net.(names := net.names[n := name]);
      assert NicksHold(net.names, net.on, net.handles);
    }

    method SetIndex(m: map<string, Nick>)
      requires Valid()
      modifies this`net, this`users
      ensures Valid() && net == old(net).(index := m) && log == old(log)
    {
      users := m;
      net := net.(index := m);
    }

    method SetHandle(n: Nick, h: Handle)
      requires Valid() && n in net.names
      modifies this`net, n`handle
      ensures Valid() && net == old(net).(handles := old(net).handles[n := h]) && log == old(log)
    {
      n.handle := h;
      net := net.(handles := net.handles[n := h]);
      assert NicksHold(net.names, net.on, net.handles);
    }

    /** `ChanUser::setStatus` and `ChanUser::delStatus`. */
    method SetStatus(cu: ChanUser, status: Mask)
      requires Valid() && cu in net.cells
      modifies this`net, cu`status
      ensures Valid() && net == old(net).(cells := old(net).cells[cu := status]) && log == old(log)
    {
      cu.status := status;
      net := net.(cells := net.cells[cu := status]);
    }

    /** `new ChanUser`. */
    method NewChanUser(c: Channel, n: Nick, status: Mask) returns (cu: ChanUser)
      requires Valid()
      modifies this`net
      ensures fresh(cu) && cu.nick == n && cu.chan == c && cu !in old(net).cells
      ensures Valid() && net == old(net).(cells := old(net).cells[cu := status]) && log == old(log)
    {
      cu := new ChanUser(c, n, status);
      net := net.(cells := net.cells[cu := status]);
    }

    /** `delete` of a ChanUser. */
    method Delete(cu: ChanUser)
      requires Valid() && cu in net.cells
      modifies this`net
      ensures Valid() && net == old(net).(cells := old(net).cells - {cu}) && log == old(log)
    {
      net := net.(cells := net.cells - {cu});
    }

    // ------------------------------------------------------------ messages

    /** `Nick::send`. */
    method Send(n: Nick, m: Msg)
      requires Valid()
      modifies this`log
      ensures Valid() && net == old(net) && log == old(log) + [Delivery(n, m)]
    {
      log := log + [Delivery(n, m)];
    }

    /** `Nick::getChanUser`. */
    method GetChanUser(n: Nick, c: Channel) returns (found: ChanUser?)
      requires Valid() && Linked(net) && n in net.names
      ensures found == null ==> !IsOn(net, n, c)
      ensures found != null ==> found in net.cells && found.nick == n && found.chan == c
    {
      for it := 0 to |n.channels|
        invariant forall k :: 0 <= k < it ==> n.channels[k].chan != c
      {
        if n.channels[it].chan == c {
          assert n.channels[it] in net.on[n];
          return n.channels[it];
        }
      }
      if IsOn(net, n, c) {
        AtSomeIndex(net, n, c);
      }
      return null;
    }

    /** `Channel::broadcast`, to everybody. */
    method Broadcast(c: Channel, m: Msg)
      requires Valid()
      modifies this`log
      ensures Valid() && net == old(net)
      ensures log == old(log) + Deliver(c.users, [m], [], null)
    {
      for it := 0 to |c.users|
        invariant Valid() && net == old(net)
        invariant log == old(log) + Deliver(c.users[..it], [m], [], null)
      {
        assert c.users[..it + 1][..it] == c.users[..it];
        ToOne(c.users[it].nick, m);
        Send(c.users[it].nick, m);
      }
      assert c.users[..|c.users|] == c.users;
    }

    /** `ChanUser::getModeMessage`. */
    method ModeMessage(cu: ChanUser, add: bool, modes: Mask) returns (m: Msg)
      requires Valid() && cu.nick in net.names
      ensures m == ModeMsg(net, cu, add, modes)
    {
      var letters := GetLetters(modes);
      m := Mode(cu.chan.name, add, letters, cu.nick.nickname);
    }

    /** `Channel::setMode` and `Channel::delMode`. */
    method ChangeModes(cu: ChanUser, add: bool, modes: Mask)
      requires Valid() && cu in net.cells && cu.nick in net.names && cu.chan in net.users
      modifies this`log, this`net, cu`status
      ensures Valid()
      ensures net == ChangeMode(old(net), cu, add, modes)
      ensures log == old(log) + ChangeModeSends(old(net), cu, add, modes)
    {
      if modes == {} {
        NoModes(net, cu, add);
        return;
      }
      SetStatus(cu, if add then cu.status + modes else cu.status - modes);
      var m := ModeMessage(cu, add, modes);
      Broadcast(cu.chan, m);
    }

    /** `Channel::sendNames`: the NAMES reply. */
    method SendNames(c: Channel, n: Nick)
      requires Valid() && c in net.users
      requires forall u :: u in net.users[c] ==> u in net.cells && u.nick in net.names
      modifies this`log
      ensures Valid() && net == old(net)
      ensures log == old(log) + [Delivery(n, NamesMsg(net, c))]
    {
      var entries: seq<NameEntry> := [];
      for it := 0 to |c.users|
        invariant Valid() && net == old(net) && log == old(log)
        invariant entries == NameEntries(net, net.users[c])[..it]
      {
        assert c.users[it] in net.users[c];
        var prefix := GetPrefix(c.users[it].status);
        entries := entries + [NameEntry(prefix, c.users[it].nick.nickname)];
      }
      assert entries == NameEntries(net, net.users[c]);
      Send(n, Names(c.name, entries));
    }

    /** `Channel::addUser`. */
    method AddUser(c: Channel, n: Nick, status: Mask) returns (cu: ChanUser)
      requires Valid() && c in net.users && n in net.names
      requires forall u :: u in net.users[c] ==> u in net.cells && u.nick in net.names
      modifies this`net, this`log, c`users
      ensures fresh(cu) && cu.nick == n && cu.chan == c && cu !in old(net).cells
      ensures Valid()
      ensures net == old(net).(users := old(net).users[c := old(net).users[c] + [cu]],
                               cells := old(net).cells[cu := status])
      ensures forall u :: u in net.users[c] ==> u in net.cells && u.nick in net.names
      ensures log == old(log) + EnterSends(net, cu, status)
    {
      cu := NewChanUser(c, n, status);
      PushUser(c, cu);
      Greet(c, cu, status);
    }

    method Greet(c: Channel, cu: ChanUser, status: Mask)
      requires Valid() && c in net.users && cu.nick in net.names && cu.chan == c
      requires forall u :: u in net.users[c] ==> u in net.cells && u.nick in net.names
      modifies this`log
      ensures Valid() && net == old(net)
      ensures log == old(log) + EnterSends(net, cu, status)
    {
      Announce(c.users, cu, status);
      SendNames(c, cu.nick);
    }

    method PushUser(c: Channel, cu: ChanUser)
      requires Valid() && c in net.users && cu in net.cells && cu.nick in net.names
      requires forall u :: u in net.users[c] ==> u in net.cells && u.nick in net.names
      modifies this`net, c`users
      ensures Valid() && net == old(net).(users := old(net).users[c := old(net).users[c] + [cu]]) && log == old(log)
      ensures forall u :: u in net.users[c] ==> u in net.cells && u.nick in net.names
    {
      SetUsers(c, c.users + [cu]);
    }

    /** The loop of `addUser`: everybody is told of the join and, but for the one
        who joins, of its modes. */
    method Announce(us: seq<ChanUser>, cu: ChanUser, status: Mask)
      requires Valid() && cu.nick in net.names
      modifies this`log
      ensures Valid() && net == old(net)
      ensures log == old(log) + Deliver(us, [JoinMsg(net, cu)], StatusMsgs(net, cu, status), cu.nick)
    {
      var join := Join(cu.nick.nickname, cu.chan.name);
      for it := 0 to |us|
        invariant Valid() && net == old(net)
        invariant log == old(log) + Deliver(us[..it], [join], StatusMsgs(net, cu, status), cu.nick)
      {
        assert us[..it + 1][..it] == us[..it];
        ghost var told := Deliver(us[..it], [join], StatusMsgs(net, cu, status), cu.nick);
        AnnounceTo(us[it].nick, join, cu, status, old(log), told);
      }
      assert us[..|us|] == us;
    }

    method AnnounceTo(to: Nick, join: Msg, cu: ChanUser, status: Mask,
                      ghost log0: seq<Delivery>, ghost told: seq<Delivery>)
      requires Valid() && cu.nick in net.names && log == log0 + told
      modifies this`log
      ensures Valid() && net == old(net)
      ensures log == log0 + (told + To(to, [join])
                             + (if to != cu.nick then To(to, StatusMsgs(net, cu, status)) else []))
    {
      ToOne(to, join);
      ToNone(to);
      Send(to, join);
      if status != {} && to != cu.nick {
        var m := ModeMessage(cu, true, status);
        ToOne(to, m);
        Send(to, m);
      }
    }

    /** `Nick::join`. */
    method NickJoin(n: Nick, c: Channel, status: Mask) returns (cu: ChanUser)
      requires Valid() && Linked(net) && n in net.names && c in net.users
      modifies this`net, this`log, c`users, n`channels, net.cells.Keys
      ensures Valid() && cu.nick == n && cu.chan == c
      ensures !IsOn(old(net), n, c) ==>
                && fresh(cu) && cu !in old(net).cells
                && net == Enter(old(net), cu, status) && log == old(log) + JoinSends(old(net), cu, status)
      ensures IsOn(old(net), n, c) ==>
                && cu in old(net).cells && net == Rejoin(old(net), cu, status)
                && log == old(log) + RejoinSends(old(net), cu, status)
    {
      var found := GetChanUser(n, c);
      if found != null {
        cu := found;
        RejoinAs(cu, status);
      } else {
        cu := JoinNew(n, c, status);
      }
    }

    /** `Nick::join` of a nick that is not there. */
    method JoinNew(n: Nick, c: Channel, status: Mask) returns (cu: ChanUser)
      requires Valid() && Linked(net) && n in net.names && c in net.users
      modifies this`net, this`log, c`users, n`channels
      ensures Valid() && fresh(cu) && cu.nick == n && cu.chan == c && cu !in old(net).cells && cu in net.cells
      ensures net == Enter(old(net), cu, status) && net.cells[cu] == status
      ensures log == old(log) + JoinSends(old(net), cu, status)
    {
      cu := EnterAs(c, n, status);
    }

    /** `Nick::join` of a nick that is already there. */
    method RejoinAs(cu: ChanUser, status: Mask)
      requires Valid() && cu in net.cells && cu.nick in net.names && cu.chan in net.users
      modifies this`net, this`log, cu`status
      ensures Valid() && net == Rejoin(old(net), cu, status)
      ensures log == old(log) + RejoinSends(old(net), cu, status)
    {
      var last := cu.status;
      if last != status {
        RejoinInSteps(net, cu, status);
        ghost var before, log0 := net, log;
        ChangeModes(cu, false, last - status);
        ChangeModes(cu, true, status - last);
        Associative(log0, ChangeModeSends(before, cu, false, last - status),
                    ChangeModeSends(before, cu, true, status - last));
      } else {
        RejoinSame(net, cu);
      }
    }

    /** `Nick::join` of a nick that is not. */
    method EnterAs(c: Channel, n: Nick, status: Mask) returns (cu: ChanUser)
      requires Valid() && c in net.users && n in net.names
      requires forall u :: u in net.users[c] ==> u in net.cells && u.nick in net.names
      modifies this`net, this`log, c`users, n`channels
      ensures fresh(cu) && cu.nick == n && cu.chan == c && cu !in old(net).cells
      ensures Valid() && net == Enter(old(net), cu, status)
      ensures forall u :: u in net.users[c] ==> u in net.cells && u.nick in net.names
      ensures log == old(log) + EnterSends(net, cu, status)
    {
      cu := AddUser(c, n, status);
      PushChannel(n, cu, status);
    }

    method PushChannel(n: Nick, cu: ChanUser, ghost status: Mask)
      requires Valid() && n in net.names && cu.nick == n && cu.chan in net.users
      requires forall u :: u in net.users[cu.chan] ==> u in net.cells && u.nick in net.names
      modifies this`net, n`channels
      ensures Valid() && net == old(net).(on := old(net).on[n := old(net).on[n] + [cu]])
      ensures forall u :: u in net.users[cu.chan] ==> u in net.cells && u.nick in net.names
      ensures EnterSends(net, cu, status) == EnterSends(old(net), cu, status) && log == old(log)
    {
      SetChannels(n, n.channels + [cu]);
      SameEnterSends(old(net), net, cu, status);
    }

    // ------------------------------------------------------------ leaving one channel

    /** `Channel::delUser`: the cells of `n` are freed and erased, everybody else is
        sent the message, if there is one. */
    method ChannelDelUser(c: Channel, n: Nick, ms: seq<Msg>)
      requires Valid() && c in net.users && NoDup(net.users[c]) && |ms| <= 1
      requires forall cu :: cu in net.users[c] ==> cu in net.cells
      modifies this`net, this`log, c`users
      ensures Valid()
      ensures net == DelUserNet(old(net), c, n)
      ensures log == old(log) + Deliver(OffNick(old(net).users[c], n), ms, [], null)
    {
      DelUserLoop(c, n, ms);
      DelUserEnd(old(net), c, n, old(c.users));
    }

    method DelUserLoop(c: Channel, n: Nick, ms: seq<Msg>)
      requires Valid() && c in net.users && NoDup(net.users[c]) && |ms| <= 1
      requires forall cu :: cu in net.users[c] ==> cu in net.cells
      modifies this`net, this`log, c`users
      ensures Valid() && net == DelUserSoFar(old(net), c, n, old(c.users), |old(c.users)|)
      ensures log == old(log) + Deliver(OffNick(old(c.users)[..|old(c.users)|], n), ms, [], null)
    {
      ghost var us, before, k := c.users, net, 0;
      ghost var told: seq<Delivery> := [];
      var it := 0;
      DelUserStart(before, c, n);
      while it < |c.users|
        invariant 0 <= k <= |us| && it == |OffNick(us[..k], n)| && |c.users| - it == |us| - k
        invariant Valid() && net == DelUserSoFar(before, c, n, us, k)
        invariant log == old(log) + told && told == Deliver(OffNick(us[..k], n), ms, [], null)
        decreases |us| - k
      {
        it, k, told := VisitUser(c, it, ms, n, before, us, k, told, old(log));
      }
      assert k == |us|;
    }

    /** One turn of the loop: erase the cell, or tell its nick and go on. */
    method VisitUser(c: Channel, it: nat, ms: seq<Msg>, n: Nick,
                     ghost before: Net, ghost us: seq<ChanUser>, ghost k: nat, ghost told: seq<Delivery>,
                     ghost log0: seq<Delivery>)
      returns (next: nat, ghost k': nat, ghost told': seq<Delivery>)
      requires Valid() && |ms| <= 1 && c in before.users && NoDup(us) && k < |us| && us[k] in before.cells
      requires it == |OffNick(us[..k], n)| && it < |c.users| && |c.users| - it == |us| - k
      requires net == DelUserSoFar(before, c, n, us, k)
      requires log == log0 + told && told == Deliver(OffNick(us[..k], n), ms, [], null)
      modifies this`net, this`log, c`users
      ensures k' == k + 1 && Valid() && net == DelUserSoFar(before, c, n, us, k')
      ensures next == |OffNick(us[..k'], n)| && |c.users| - next == |us| - k'
      ensures log == log0 + told' && told' == Deliver(OffNick(us[..k'], n), ms, [], null)
    {
      k' := k + 1;
      DelUserAt(before, c, n, us, k);
      if c.users[it].nick == n {
        EraseUser(c, it, before, n, us, k);
        next, told' := it, told;
      } else {
        told' := SkipUser(c, it, ms, before, n, us, k, told, log0);
        next := it + 1;
      }
    }

    method SkipUser(c: Channel, it: nat, ms: seq<Msg>, ghost before: Net, ghost n: Nick, ghost us: seq<ChanUser>,
                    ghost k: nat, ghost told: seq<Delivery>, ghost log0: seq<Delivery>)
      returns (ghost told': seq<Delivery>)
      requires Valid() && it < |c.users| && |ms| <= 1
      requires c in before.users && k < |us| && c.users[it] == us[k] && us[k].nick != n
      requires net == DelUserSoFar(before, c, n, us, k)
      requires log == log0 + told && told == Deliver(OffNick(us[..k], n), ms, [], null)
      modifies this`log
      ensures Valid() && net == DelUserSoFar(before, c, n, us, k + 1) && |c.users| == old(|c.users|)
      ensures |OffNick(us[..k + 1], n)| == |OffNick(us[..k], n)| + 1
      ensures log == log0 + told' && told' == Deliver(OffNick(us[..k + 1], n), ms, [], null)
    {
      DelUserSkip(before, c, n, us, k);
      DeliverOneMore(OffNick(us[..k], n), us[k], ms);
      Associative(log0, told, To(us[k].nick, ms));
      told' := told + To(us[k].nick, ms);
      SendEach(c.users[it].nick, ms);
    }

    method EraseUser(c: Channel, it: nat, ghost before: Net, ghost n: Nick, ghost us: seq<ChanUser>, ghost k: nat)
      requires Valid() && c in before.users && NoDup(us) && k < |us| && us[k].nick == n && us[k] in before.cells
      requires net == DelUserSoFar(before, c, n, us, k) && it == |OffNick(us[..k], n)| && it < |c.users|
      modifies this`net, c`users
      ensures Valid() && net == DelUserSoFar(before, c, n, us, k + 1) && log == old(log)
      ensures |c.users| == old(|c.users|) - 1
      ensures OffNick(us[..k + 1], n) == OffNick(us[..k], n)
    {
      DelUserStep(before, c, n, us, k);
      Delete(c.users[it]);
      SetUsers(c, c.users[..it] + c.users[it + 1..]);
    }

    method SendEach(n: Nick, ms: seq<Msg>)
      requires Valid() && |ms| <= 1
      modifies this`log
      ensures Valid() && net == old(net)
      ensures log == old(log) + To(n, ms)
    {
      if ms != [] {
        assert ms == [ms[0]];
        ToOne(n, ms[0]);
        Send(n, ms[0]);
      }
    }

    /** `ConversationChannel::delUser`: the search in `cbuddies`, in whatever order. */
    method FindBuddy(c: Channel, n: Nick) returns (found: bool, h: Handle)
      ensures found ==> h in c.cbuddies && c.cbuddies[h].nick == n
      ensures !found ==> forall g :: g in c.cbuddies ==> c.cbuddies[g].nick != n
    {
      var rest := c.cbuddies.Keys;
      found, h := false, Handle(0, false);
      while rest != {}
        invariant rest <= c.cbuddies.Keys
        invariant forall g :: g in c.cbuddies && g !in rest ==> c.cbuddies[g].nick != n
        decreases rest
      {
        h :| h in rest;
        if c.cbuddies[h].nick == n {
          return true, h;
        }
        rest := rest - {h};
      }
    }

    /** The first entry of `n` in `cbuddies` is erased. */
    method EraseBuddy(c: Channel, n: Nick)
      requires Valid() && c in net.users
      requires OneEntryEach(net, c, n)
      modifies this`net, c`cbuddies
      ensures Valid() && net == old(net).(buddies := old(net).buddies[c := OffBuddy(old(net).buddies[c], n)])
      ensures log == old(log)
    {
      var found, h := FindBuddy(c, n);
      ghost var m := c.cbuddies;
      if found {
        assert m - {h} == OffBuddy(m, n);
        SetBuddies(c, c.cbuddies - {h});
      } else {
        assert m == OffBuddy(m, n);
        SetBuddies(c, c.cbuddies);
      }
    }

    /** The virtual `delUser`, up to the deletion of a chat buddy. */
    method DelUser(c: Channel, n: Nick, ms: seq<Msg>)
      requires Valid() && c in net.users && |ms| <= 1 && (!c.room ==> net.buddies[c] == map[])
      requires NoDup(net.users[c]) && OneEntryEach(net, c, n)
      requires forall cu :: cu in net.users[c] ==> cu in net.cells
      modifies this`net, this`log, c`users, c`cbuddies
      ensures Valid()
      ensures net == Without(old(net), c, n)
      ensures log == old(log) + Deliver(OffNick(old(net).users[c], n), ms, [], null)
    {
      if c.room {
        EraseBuddy(c, n);
      } else {
        assert OffBuddy(c.cbuddies, n) == c.cbuddies;
        SetBuddies(c, c.cbuddies);
      }
      ChannelDelUser(c, n, ms);
    }

    /** `delUser` without a message. */
    method DelUserSilently(c: Channel, n: Nick)
      requires Valid() && c in net.users && (!c.room ==> net.buddies[c] == map[])
      requires NoDup(net.users[c]) && OneEntryEach(net, c, n)
      requires forall cu :: cu in net.users[c] ==> cu in net.cells
      modifies this`net, this`log, c`users, c`cbuddies
      ensures Valid() && net == Without(old(net), c, n) && log == old(log)
    {
      DeliverNothing(OffNick(net.users[c], n));
      DelUser(c, n, []);
    }

    // ------------------------------------------------------------ quit

    /** The inner loop of `Nick::quit`: the nicks of one channel that were not sent
        the QUIT yet. */
    method TellQuit(us: seq<ChanUser>, sended: seq<Nick>, m: Msg) returns (sended': seq<Nick>)
      requires Valid()
      modifies this`log
      ensures Valid() && net == old(net)
      ensures sended' == sended + Unseen(us, sended)
      ensures log == old(log) + Same(Unseen(us, sended), m)
    {
      sended' := sended;
      for u := 0 to |us|
        invariant Valid() && net == old(net)
        invariant sended' == sended + Unseen(us[..u], sended)
        invariant log == old(log) + Same(Unseen(us[..u], sended), m)
      {
        assert us[..u + 1][..u] == us[..u];
        var n := us[u].nick;
        if n !in sended' {
          sended' := sended' + [n];
          Send(n, m);
        }
      }
      assert us[..|us|] == us;
    }

    /** `Nick::quit`. */
    method NickQuit(n: Nick)
      requires Valid() && Linked(net) && EntriesSound(net) && n in net.names
      modifies this`net, this`log, n`channels, net.users.Keys
      ensures Valid() && net == LeaveAll(old(net), n)
      ensures log == old(log) + SendsOfQuit(old(net), n)
    {
      ghost var before, k := net, 0;
      var m := Quit(n.nickname);
      var sended: seq<Nick> := [];
      QuittingStart(before, n);
      ToldStart(before, n);
      while n.channels != []
        invariant Valid() && n in before.on && 0 <= k <= |before.on[n]| && ChansKnown(before, n)
        invariant net == Quitting(before, n, k)
        invariant sended == Told(before, n, k) && log == old(log) + Same(sended, m)
        decreases |before.on[n]| - k
      {
        sended := QuitOne(n, sended, m, before, k, old(log));
        k := k + 1;
      }
      QuittingEnd(before, n);
      ToldEnd(before, n);
    }

    /** One turn of the outer loop of `Nick::quit`. */
    method QuitOne(n: Nick, sended: seq<Nick>, m: Msg, ghost before: Net, ghost k: nat, ghost log0: seq<Delivery>)
      returns (sended': seq<Nick>)
      requires Valid() && Linked(before) && EntriesSound(before) && n in before.on && k < |before.on[n]|
      requires ChansKnown(before, n) && net == Quitting(before, n, k)
      requires sended == Told(before, n, k) && log == log0 + Same(sended, m)
      modifies this`net, this`log, n`channels, before.on[n][k].chan
      ensures Valid() && net == Quitting(before, n, k + 1)
      ensures sended' == Told(before, n, k + 1) && log == log0 + Same(sended', m)
    {
      QuittingNext(before, n, k);
      sended' := LeaveNext(n, sended, m, before, k, log0);
    }

    /** Its body: the others are told, then the channel is left. */
    method LeaveNext(n: Nick, sended: seq<Nick>, m: Msg, ghost before: Net, ghost k: nat, ghost log0: seq<Delivery>)
      returns (sended': seq<Nick>)
      requires Valid() && n in before.on && k < |before.on[n]| && ChansKnown(before, n)
      requires n in net.on && net.on[n] == before.on[n][k..]
      requires var c := before.on[n][k].chan;
               && c in net.users && net.users[c] == before.users[c] && NoDup(net.users[c]) && OneEntryEach(net, c, n)
               && (!c.room ==> net.buddies[c] == map[]) && (forall cu :: cu in net.users[c] ==> cu in net.cells)
      requires sended == Told(before, n, k) && log == log0 + Same(sended, m)
      modifies this`net, this`log, n`channels, before.on[n][k].chan
      ensures Valid()
      ensures net == Without(old(net), before.on[n][k].chan, n).(on := old(net).on[n := old(net).on[n][1..]])
      ensures sended' == Told(before, n, k + 1) && log == log0 + Same(sended', m)
    {
      sended' := TellNext(n.channels[0].chan, n, sended, m, before, k, log0);
      EraseNext(n);
    }

    method TellNext(c: Channel, ghost n: Nick, sended: seq<Nick>, m: Msg,
                    ghost before: Net, ghost k: nat, ghost log0: seq<Delivery>)
      returns (sended': seq<Nick>)
      requires Valid() && n in before.on && k < |before.on[n]| && ChansKnown(before, n)
      requires c == before.on[n][k].chan && c in net.users && net.users[c] == before.users[c]
      requires sended == Told(before, n, k) && log == log0 + Same(sended, m)
      modifies this`log
      ensures Valid() && net == old(net)
      ensures sended' == Told(before, n, k + 1) && log == log0 + Same(sended', m)
    {
      sended' := TellQuit(c.users, sended, m);
      ToldNext(before, n, k);
      assert Same(sended', m) == Same(sended, m) + Same(Unseen(c.users, sended), m);
    }

    method EraseNext(n: Nick)
      requires Valid() && n in net.on && net.on[n] != []
      requires var c := net.on[n][0].chan;
               && c in net.users && NoDup(net.users[c]) && OneEntryEach(net, c, n)
               && (!c.room ==> net.buddies[c] == map[]) && (forall cu :: cu in net.users[c] ==> cu in net.cells)
      modifies this`net, this`log, n`channels, net.on[n][0].chan
      ensures Valid()
      ensures net == Without(old(net), old(net).on[n][0].chan, n).(on := old(net).on[n := old(net).on[n][1..]])
      ensures log == old(log)
    {
      DelUserSilently(n.channels[0].chan, n);
      SetChannels(n, n.channels[1..]);
    }

    // ------------------------------------------------------------ part, kick

    /** The search of `part` and `kicked` in the nick's `channels`. */
    method IndexOn(n: Nick, c: Channel) returns (it: nat)
      requires Valid() && Linked(net) && n in net.names
      ensures it <= |n.channels|
      ensures it < |n.channels| ==> n.channels[it].chan == c && IsOn(net, n, c)
      ensures it == |n.channels| ==> !IsOn(net, n, c)
    {
      it := 0;
      while it < |n.channels| && n.channels[it].chan != c
        invariant it <= |n.channels|
        invariant forall k :: 0 <= k < it ==> n.channels[k].chan != c
      {
        it := it + 1;
      }
      OnAtIndex(net, n, c, it);
    }

    /** The entry is erased, the message goes to the nick itself if it is to have it,
        and the channel loses the user. */
    method LeaveAt(n: Nick, c: Channel, it: nat, own: seq<Msg>, m: Msg)
      requires Valid() && Linked(net) && EntriesSound(net) && n in net.names
      requires it < |n.channels| && n.channels[it].chan == c && |own| <= 1
      modifies this`net, this`log, n`channels, c`users, c`cbuddies
      ensures c in old(net).users && Valid() && net == Detach(old(net), n, c)
      ensures log == old(log) + To(n, own) + Deliver(OffNick(old(net).users[c], n), [m], [], null)
    {
      DetachAt(net, n, c, it);
      SetChannels(n, n.channels[..it] + n.channels[it + 1..]);
      SendEach(n, own);
      DelUser(c, n, [m]);
    }

    /** `Nick::part`. A chat buddy that parts its room is deleted. */
    method NickPart(n: Nick, c: Channel)
      requires Valid() && Linked(net) && RoomsIndexed(net) && Indexed(net) && n in net.names && c in net.users
      modifies this, n`channels, net.users.Keys
      ensures Valid()
      ensures !IsOn(old(net), n, c) ==> net == old(net) && log == old(log)
      ensures IsOn(old(net), n, c) ==> log == old(log) + PartSends(old(net), n, c)
      ensures IsOn(old(net), n, c) ==>
                net == if c.room && n.chat then LoseBuddy(old(net), n, c) else Detach(old(net), n, c)
    {
      var it := IndexOn(n, c);
      if it < |n.channels| {
        PartAt(n, c, it);
        if c.room && n.chat {
          DetachedIsOff(old(net), n, c);
          RemoveNick(n.nickname, n);
        }
      }
    }

    method PartAt(n: Nick, c: Channel, it: nat)
      requires Valid() && Linked(net) && EntriesSound(net) && n in net.names && c in net.users
      requires it < |n.channels| && n.channels[it].chan == c
      modifies this`net, this`log, n`channels, c`users, c`cbuddies
      ensures Valid() && net == Detach(old(net), n, c)
      ensures log == old(log) + PartSends(old(net), n, c)
    {
      var m := Part(n.nickname, c.name);
      ToOne(n, m);
      Associative(log, [Delivery(n, m)], Deliver(OffNick(c.users, n), [m], [], null));
      LeaveAt(n, c, it, [m], m);
    }

    /** `Nick::kicked`; the source kicks from status channels only. */
    method NickKicked(n: Nick, c: Channel)
      requires Valid() && Linked(net) && EntriesSound(net) && n in net.names && c in net.users && !c.room
      modifies this`net, this`log, n`channels, c`users, c`cbuddies
      ensures Valid()
      ensures !IsOn(old(net), n, c) ==> net == old(net) && log == old(log)
      ensures IsOn(old(net), n, c) ==> net == Detach(old(net), n, c) && log == old(log) + KickSends(old(net), n, c)
    {
      var it := IndexOn(n, c);
      if it < |n.channels| {
        KickAt(n, c, it);
      }
    }

    method KickAt(n: Nick, c: Channel, it: nat)
      requires Valid() && Linked(net) && EntriesSound(net) && n in net.names && c in net.users
      requires it < |n.channels| && n.channels[it].chan == c
      modifies this`net, this`log, n`channels, c`users, c`cbuddies
      ensures Valid() && net == Detach(old(net), n, c)
      ensures log == old(log) + KickSends(old(net), n, c)
    {
      ToNone(n);
      PlusNothing(log);
      LeaveAt(n, c, it, [], Kick(c.name, n.nickname));
    }

    // ------------------------------------------------------------ the nick index

    /** `IRC::getNick(name)`: the search over the index ignoring case, in whatever order. */
    method GetNick(name: string) returns (found: Nick?)
      requires Valid()
      ensures found == null <==> FreeName(net, name)
      ensures found == null <==> forall k :: k in net.index ==> !SameButCase(k, name)
      ensures found != null ==> exists k :: k in net.index && net.index[k] == found && SameButCase(k, name)
    {
      FreeNameIs(net, name);
      var rest := users.Keys;
      while rest != {}
        invariant rest <= users.Keys
        invariant forall k :: k in users && k !in rest ==> Lower(k) != Lower(name)
        decreases rest
      {
        var k :| k in rest;
        if Lower(k) == Lower(name) {
          LowerIs(k, name);
          return users[k];
        }
        rest := rest - {k};
      }
      return null;
    }

    /** Every "append '_' until free" loop: it ends, on the first free name. */
    method FreshName(base: string) returns (name: string)
      requires Valid()
      ensures FreeName(net, name)
      ensures exists n: nat :: name == base + Underscores(n) && forall m: nat :: m < n ==> !FreeName(net, base + Underscores(m))
    {
      ghost var n: nat, bound := 0, LongestKey(users.Keys);
      name := base;
      assert base + Underscores(0) == base;
      TakenIsShort(users.Keys, name);
      var found := GetNick(name);
      while found != null
        invariant name == base + Underscores(n) && |name| == |base| + n
        invariant forall m: nat :: m < n ==> !FreeName(net, base + Underscores(m))
        invariant found == null <==> FreeName(net, name)
        invariant found != null ==> |name| <= bound
        decreases bound + 1 - |name|
      {
        assert base + Underscores(n) + "_" == base + Underscores(n + 1);
        name := name + "_";
        n := n + 1;
        found := GetNick(name);
        TakenIsShort(users.Keys, name);
      }
      assert FreeName(net, base + Underscores(n));
    }

    /** `IRC::addNick` of a new nick. */
    method AddNick(n: Nick)
      requires Valid() && n !in net.names && n.channels == []
      modifies this`users, this`net
      ensures Valid() && net == Register(old(net), n, n.nickname, n.handle) && log == old(log)
    {
      NickAdded(net, n);
      users := users[n.nickname := n];
      net := Register(net, n, n.nickname, n.handle);
    }

    /** `IRC::renameNick`. */
    method RenameNick(n: Nick, newNick: string)
      requires Valid() && n in net.names
      modifies this`users, this`net, n`nickname
      ensures Valid() && net == Rename(old(net), n, newNick) && log == old(log)
    {
      SetIndex(users - {n.nickname});
      SetName(n, newNick);
      SetIndex(users[n.nickname := n]);
    }

    /** `IRC::removeNick`: the destructor quits, then the entry is erased. */
    method RemoveNick(name: string, ghost n: Nick)
      requires Valid() && Linked(net) && EntriesSound(net) && Indexed(net) && name in net.index && net.index[name] == n
      modifies this, n`channels, net.users.Keys
      ensures n in old(net).on && Valid()
      ensures net == Forget(LeaveAll(old(net), n), {n}) && log == old(log) + SendsOfQuit(old(net), n)
    {
      var nick := users[name];
      NickQuit(nick);
      OnlyKey(net, n, name);
      Erase(nick, name);
    }

    method Erase(n: Nick, name: string)
      requires Valid() && Forget(net, {n}).index == net.index - {name}
      modifies this`users, this`net
      ensures Valid() && net == Forget(old(net), {n}) && log == old(log)
    {
      users := users - {name};
      net := Forget(net, {n});
    }

    /** SVSNICK, past the check that the name is well formed: refused exactly when
        another nick has the name. */
    method Svsnick(n: Nick, newNick: string) returns (ok: bool)
      requires Valid() && Indexed(net) && n in net.names
      modifies this, n`nickname
      ensures Valid() && (ok <==> FreeFor(old(net), n, newNick))
      ensures ok <==> forall k :: k in old(net).index && old(net).index[k] != n ==> !SameButCase(k, newNick)
      ensures !ok ==> net == old(net) && log == old(log)
      ensures ok ==> net == Rename(old(net), n, newNick)
      ensures ok ==> log == old(log) + [Delivery(me, NickChange(old(net).names[n], newNick))]
    {
      var n2 := GetNick(newNick);
      FoundOrFree(net, n, newNick, n2);
      FreeForIs(net, n, newNick);
      if n2 != null && n2 != n {
        return false;
      }
      Send(me, NickChange(n.nickname, newNick));
      RenameNick(n, newNick);
      return true;
    }

    // ------------------------------------------------------------ chat rooms

    /** `ConversationChannel::addBuddy`; `base` is the nickname made of the handle's name. */
    method AddBuddyTo(c: Channel, h: Handle, base: string, status: Mask, server: string)
      returns (cu: ChanUser, ghost name: string)
      requires Valid() && Linked(net) && RoomsIndexed(net) && c in net.users && me in net.names
      modifies this, c, me`channels, net.cells.Keys
      ensures Valid() && cu.chan == c
      ensures !h.isMe && h !in old(net).buddies[c] ==>
                && fresh(cu.nick) && cu.nick.chat && cu.nick !in old(net).names && cu !in old(net).cells
                && FreeName(old(net), name) && net == AddBuddy(old(net), cu, name, h, status)
                && log == old(log) + AddBuddySends(old(net), cu, name, h, status)
      ensures !h.isMe && h in old(net).buddies[c] ==> net == old(net) && log == old(log)
      ensures h.isMe && !IsOn(old(net), me, c) ==>
                && cu.nick == me && cu !in old(net).cells && net == Tag(Enter(old(net), cu, status), c, h, cu)
                && log == old(log) + JoinSends(old(net), cu, status)
      ensures h.isMe && IsOn(old(net), me, c) ==>
                && cu.nick == me && cu in old(net).cells && net == Tag(Rejoin(old(net), cu, status), c, h, cu)
                && log == old(log) + RejoinSends(old(net), cu, status)
    {
      name := base;
      if h.isMe {
        cu := NickJoin(me, c, status);
      } else if h in c.cbuddies {
        cu := c.cbuddies[h];
        KnownBuddy(net, c, h);
      } else {
        cu, name := NewBuddy(c, h, base, status, server);
      }
      SetBuddies(c, c.cbuddies[h := cu]);
    }

    method NewBuddy(c: Channel, h: Handle, base: string, status: Mask, server: string)
      returns (cu: ChanUser, name: string)
      requires Valid() && Linked(net) && c in net.users
      modifies this, c`users
      ensures Valid() && cu.chan == c && fresh(cu.nick) && cu.nick.chat && cu.nick !in old(net).names && cu !in old(net).cells
      ensures FreeName(old(net), name) && net == Enter(Register(old(net), cu.nick, name, h), cu, status)
      ensures log == old(log) + AddBuddySends(old(net), cu, name, h, status)
    {
      name := FreshName(base);
      var n := new Nick(server, name, true, h);
      cu := RegisterAndJoin(n, c, status);
    }

    method RegisterAndJoin(n: Nick, c: Channel, status: Mask) returns (cu: ChanUser)
      requires Valid() && Linked(net) && c in net.users && n !in net.names && n.channels == []
      modifies this, c`users, n`channels
      ensures Valid() && cu.chan == c && cu.nick == n && cu !in old(net).cells
      ensures net == Enter(Register(old(net), n, old(n.nickname), old(n.handle)), cu, status)
      ensures log == old(log) + AddBuddySends(old(net), cu, old(n.nickname), old(n.handle), status)
    {
      RegisterKeepsLinked(net, n, n.nickname, n.handle);
      NewBuddyIsOff(net, n, n.nickname, n.handle, c);
      AddNick(n);
      cu := JoinNew(n, c, status);
    }

    /** `ConversationChannel::updateBuddy`: the status becomes libpurple's. Not `ok` is
        the use of a null pointer, for a handle that is not in `cbuddies`. */
    method UpdateBuddy(c: Channel, h: Handle, mnew: Mask) returns (ok: bool)
      requires Valid() && Linked(net) && EntriesSound(net) && c in net.users && forall b :: b in mnew ==> b < WIDTH
      requires h in net.buddies[c] ==>
                 var cu := net.buddies[c][h]; cu in net.cells && forall b :: b in net.cells[cu] ==> b < WIDTH
      modifies this`net, this`log, net.cells.Keys
      ensures ok <==> h in old(net).buddies[c]
      ensures !ok ==> Valid() && net == old(net) && log == old(log)
      ensures ok ==>
                var cu := old(net).buddies[c][h];
                && cu in old(net).cells && cu.nick in old(net).names && cu.chan in old(net).users
                && Valid() && net == old(net).(cells := old(net).cells[cu := mnew])
                && log == old(log) + ChangeModeSends(old(net), cu, true, mnew - old(net).cells[cu])
                          + ChangeModeSends(old(net), cu, false, old(net).cells[cu] - mnew)
    {
      ok := h in c.cbuddies;
      if ok {
        UpdateModes(c.cbuddies[h], mnew);
      }
    }

    method UpdateModes(cu: ChanUser, mnew: Mask)
      requires Valid() && cu in net.cells && cu.nick in net.names && cu.chan in net.users
      requires forall b :: b in net.cells[cu] || b in mnew ==> b < WIDTH
      modifies this`net, this`log, cu`status
      ensures Valid() && net == old(net).(cells := old(net).cells[cu := mnew])
      ensures log == old(log) + ChangeModeSends(old(net), cu, true, mnew - old(net).cells[cu])
                     + ChangeModeSends(old(net), cu, false, old(net).cells[cu] - mnew)
    {
      var add, del := MaskDifference(cu.status, mnew);
      UpdateEffect(net, cu, mnew);
      ChangeModes(cu, true, add);
      ChangeModes(cu, false, del);
    }

    /** `ConversationChannel::renameBuddy`. `cu` is null when the old name is not in
        `cbuddies`; not `ok` is the use of a null pointer, for that cell or for a nick
        that is no ChatBuddy. */
    method RenameBuddyAs(cu: ChanUser?, h: Handle, base: string) returns (ok: bool, newNick: string)
      requires Valid() && Linked(net) && Indexed(net) && (cu == null || cu in net.cells)
      modifies this, if cu == null then {} else {cu.nick, cu.chan}
      ensures ok <==> cu != null && cu.nick.chat
      ensures !ok ==> Valid() && net == old(net) && log == old(log)
      ensures ok ==>
                && cu.nick in old(net).names && cu.nick in old(net).handles && cu.chan in old(net).buddies
                && Valid() && FreeName(old(net), newNick) && net == RenameBuddy(old(net), cu, h, newNick)
                && log == old(log) + [Delivery(me, NickChange(old(net).names[cu.nick], newNick))]
    {
      ok, newNick := cu != null && cu.nick.chat, base;
      if ok {
        newNick := RenameChatBuddy(cu, h, base);
      }
    }

    method RenameChatBuddy(cu: ChanUser, h: Handle, base: string) returns (newNick: string)
      requires Valid() && Linked(net) && Indexed(net) && cu in net.cells
      modifies this, cu.nick`nickname, cu.nick`handle, cu.chan`cbuddies
      ensures cu.nick in old(net).names && cu.nick in old(net).handles && cu.chan in old(net).buddies
      ensures Valid() && FreeName(old(net), newNick) && net == RenameBuddy(old(net), cu, h, newNick)
      ensures log == old(log) + [Delivery(me, NickChange(old(net).names[cu.nick], newNick))]
    {
      var n, c := cu.nick, cu.chan;
      assert n in net.names && c in net.users;
      newNick := FreshName(base);
      if n.nickname != newNick {
        Send(me, NickChange(n.nickname, newNick));
        RenameNick(n, newNick);
      }
      SwapHandle(n, c, cu, h);
    }

    /** The new handle takes the place of the old one in `cbuddies`. */
    method SwapHandle(n: Nick, c: Channel, cu: ChanUser, h: Handle)
      requires Valid() && n in net.names && c in net.users
      modifies this`net, n`handle, c`cbuddies
      ensures Valid() && log == old(log)
      ensures net == old(net).(buddies := old(net).buddies[c := (old(net).buddies[c] - {old(net).handles[n]})[h := cu]],
                               handles := old(net).handles[n := h])
    {
      SetBuddies(c, (c.cbuddies - {n.handle})[h := cu]);
      SetHandle(n, h);
    }

    // ------------------------------------------------------------ contacts

    /** `Buddy::updated`, for a contact that is online: it is on the status channel
        `c`, voiced if it is available. */
    method BuddyOnline(n: Nick, c: Channel, available: bool) returns (ghost cu: ChanUser)
      requires Valid() && Linked(net) && n in net.names && c in net.users
      modifies this`net, this`log, c`users, n`channels, net.cells.Keys
      ensures Valid() && cu.nick == n && cu.chan == c && cu in net.cells && (VOICE in net.cells[cu] <==> available)
      ensures !IsOn(old(net), n, c) ==>
                && cu !in old(net).cells && net == Enter(old(net), cu, VoiceIf(available))
                && log == old(log) + JoinSends(old(net), cu, VoiceIf(available))
      ensures IsOn(old(net), n, c) ==>
                && cu in old(net).cells
                && (if available == (VOICE in old(net).cells[cu]) then net == old(net) && log == old(log)
                    else
                      && net == ChangeMode(old(net), cu, available, {VOICE})
                      && log == old(log) + ChangeModeSends(old(net), cu, available, {VOICE}))
    {
      var found := GetChanUser(n, c);
      if found == null {
        cu := JoinNew(n, c, VoiceIf(available));
      } else {
        cu := found;
        Voice(found, available);
      }
    }

    method Voice(cu: ChanUser, available: bool)
      requires Valid() && cu in net.cells && cu.nick in net.names && cu.chan in net.users
      modifies this`net, this`log, cu`status
      ensures Valid() && cu in net.cells && (VOICE in net.cells[cu] <==> available)
      ensures if available == (VOICE in old(net).cells[cu]) then net == old(net) && log == old(log)
              else
                && net == ChangeMode(old(net), cu, available, {VOICE})
                && log == old(log) + ChangeModeSends(old(net), cu, available, {VOICE})
    {
      if available != (VOICE in cu.status) {
        ChangeModes(cu, available, {VOICE});
      }
    }

    /** `Buddy::updated`, for a contact that is not: it quits if it is there. */
    method BuddyOffline(n: Nick, c: Channel)
      requires Valid() && Linked(net) && EntriesSound(net) && n in net.names && c in net.users
      modifies this`net, this`log, n`channels, net.users.Keys
      ensures Valid()
      ensures IsOn(old(net), n, c) ==> net == LeaveAll(old(net), n) && log == old(log) + SendsOfQuit(old(net), n)
      ensures !IsOn(old(net), n, c) ==> net == old(net) && log == old(log)
    {
      var found := GetChanUser(n, c);
      if found != null {
        NickQuit(n);
      }
    }

    /** `Buddy::update_node`, for a contact that has no nick yet. */
    method NewContact(server: string, base: string, h: Handle) returns (n: Nick)
      requires Valid() && Indexed(net)
      modifies this`users, this`net
      ensures Valid() && Indexed(net) && fresh(n) && !n.chat && n !in old(net).names && log == old(log)
      ensures FreeName(old(net), n.nickname) && net == Register(old(net), n, n.nickname, h)
    {
      var name := FreshName(base);
      n := new Nick(server, name, false, h);
      RegisterKeepsIndexed(net, n, name, h);
      AddNick(n);
    }

    /** `Buddy::removed_node`: the nick quits, and its destructor, which quits again,
        tells nobody a second time. */
    method RemovedContact(n: Nick)
      requires Valid() && Linked(net) && EntriesSound(net) && Indexed(net) && n in net.names
      modifies this, n`channels, net.users.Keys
      ensures Valid() && net == Forget(LeaveAll(old(net), n), {n})
      ensures log == old(log) + SendsOfQuit(old(net), n)
    {
      LeaveAllKeepsLinked(net, n);
      LeaveAllEntries(net, n);
      LeaveAllTwice(net, n);
      QuitAgain(net, n);
      NickQuit(n);
      RemoveNick(n.nickname, n);
    }

    // ------------------------------------------------------------ destructors

    /** `Nick::removeChanUser`. */
    method RemoveChanUser(n: Nick, cu: ChanUser)
      requires Valid() && n in net.names
      modifies this`net, n`channels
      ensures Valid() && net == old(net).(on := old(net).on[n := Except(old(net).on[n], cu)]) && log == old(log)
    {
      var chans := EraseCell(n.channels, cu);
      SetChannels(n, chans);
    }

    /** Its loop. */
    static method EraseCell(s: seq<ChanUser>, cu: ChanUser) returns (chans: seq<ChanUser>)
      ensures chans == Except(s, cu)
    {
      chans := s;
      var it := 0;
      ghost var k := 0;
      while it < |chans|
        invariant k <= |s| && it == |Except(s[..k], cu)| && chans == Except(s[..k], cu) + s[k..]
        decreases |s| - k
      {
        ExceptStep(s, cu, k);
        if chans[it] == cu {
          chans := chans[..it] + chans[it + 1..];
        } else {
          it := it + 1;
        }
        k := k + 1;
      }
      assert k == |s|;
      assert s[..k] == s && chans == Except(s, cu);
    }

    /** `Channel::~Channel`: everybody parts, and is told of its own part. */
    method CloseChannel(c: Channel)
      requires Valid() && Linked(net) && c in net.users
      modifies this`net, this`log, c`users, net.names.Keys`channels
      ensures c in old(net).users && (forall cu :: cu in old(net).users[c] ==> cu.nick in old(net).names)
      ensures Valid() && net == Close(old(net), c)
      ensures log == old(log) + CloseSends(old(net), c)
    {
      ghost var before := net;
      UsersAreNamed(net, c);
      CloseLoop(c);
      CloseAll(before, c);
      Free(c);
    }

    method CloseLoop(c: Channel)
      requires Valid() && Linked(net) && c in net.users && UsersNamed(net, net.users[c])
      modifies this`net, this`log, net.names.Keys`channels
      ensures Valid() && net == CloseSome(old(net), c, NicksOf(old(net).users[c]))
      ensures log == old(log) + PartEach(old(net), old(net).users[c], c)
    {
      ghost var before := net;
      var us := c.users;
      ghost var told: seq<Delivery> := [];
      CloseNone(net, c);
      assert NicksOf(us[..0]) == {};
      for it := 0 to |us|
        invariant Valid() && us == before.users[c] && net == CloseSome(before, c, NicksOf(us[..it]))
        invariant log == old(log) + told && told == PartEach(before, us[..it], c)
      {
        told := CloseOne(us[it], c, before, us, it, old(log), told);
      }
      assert us[..|us|] == us;
    }

    /** One member: it is told, and its cell is freed. */
    method CloseOne(cu: ChanUser, c: Channel, ghost before: Net, ghost us: seq<ChanUser>, ghost k: nat,
                    ghost log0: seq<Delivery>, ghost told: seq<Delivery>)
      returns (ghost told': seq<Delivery>)
      requires Valid() && Linked(before) && c in before.users && us == before.users[c] && k < |us| && cu == us[k]
      requires UsersNamed(before, us) && net == CloseSome(before, c, NicksOf(us[..k]))
      requires log == log0 + told && told == PartEach(before, us[..k], c)
      modifies this`net, this`log, cu.nick`channels
      ensures Valid() && net == CloseSome(before, c, NicksOf(us[..k + 1]))
      ensures log == log0 + told' && told' == PartEach(before, us[..k + 1], c)
    {
      NextNickIsNew(before, c, k);
      CloseOneMore(before, c, NicksOf(us[..k]), cu);
      PartEachMore(before, us, k, c);
      ghost var d := Delivery(cu.nick, Part(before.names[cu.nick], c.name));
      Associative(log0, told, [d]);
      told' := told + [d];
      Send(cu.nick, Part(cu.nick.nickname, c.name));
      FreeCell(cu);
    }

    method FreeCell(cu: ChanUser)
      requires Valid() && cu in net.cells && cu.nick in net.on
      modifies this`net, cu.nick`channels
      ensures Valid() && log == old(log)
      ensures net == old(net).(on := old(net).on[cu.nick := Except(old(net).on[cu.nick], cu)], cells := old(net).cells - {cu})
    {
      RemoveChanUser(cu.nick, cu);
      Delete(cu);
    }

    /** The channel is freed, its vectors with it. */
    method Free(c: Channel)
      requires Valid()
      modifies this`net, c`users
      ensures Valid() && net == old(net).(users := old(net).users - {c}, buddies := old(net).buddies - {c})
      ensures log == old(log)
    {
      net := net.(users := net.users - {c}, buddies := net.buddies - {c});
      c.users := [];
    }

    /** `ConversationChannel::~ConversationChannel`, whatever the order of `cbuddies`,
        and then `Channel::~Channel`. */
    method CloseRoomOf(c: Channel)
      requires Valid() && Linked(net) && RoomsIndexed(net) && Indexed(net) && c in net.users
      modifies this, c`users, net.names.Keys`channels
      ensures c in old(net).users && (forall cu :: cu in old(net).users[c] ==> cu.nick in old(net).names)
      ensures Valid() && net == CloseRoom(old(net), c)
      ensures log == old(log) + CloseRoomSends(old(net), c)
    {
      LoseKeepsLinked(net, c);
      LoseThenClose(net, c);
      LoseThenSends(net, c);
      DropChats(c);
      CloseChannel(c);
    }

    /** The loop over `cbuddies`. */
    method DropChats(c: Channel)
      requires Valid() && Linked(net) && RoomsIndexed(net) && Indexed(net) && c in net.users
      modifies this, c`users, net.names.Keys`channels
      ensures Valid() && log == old(log) && net == LoseChats(old(net), c, Chats(old(net).users[c]))
    {
      ghost var before := net;
      var m := c.cbuddies;
      var rest := m.Keys;
      ghost var done: set<Handle>, gone: set<Nick> := {}, {};
      LoseNone(net, c);
      BuddiesAreNamed(net, c);
      while rest != {}
        invariant Valid() && log == old(log) && done + rest == m.Keys && done !! rest
        invariant gone == ChatsOf(m, done) && net == LoseChats(before, c, gone)
        decreases rest
      {
        var h :| h in rest;
        MoveOne(done, rest, h);
        gone := DropChat(c, m, h, before, done, gone);
        rest := rest - {h};
        done := done + {h};
      }
      assert done == m.Keys;
      ChatsOfAll(before, c);
    }

    method DropChat(c: Channel, m: map<Handle, ChanUser>, h: Handle, ghost before: Net,
                    ghost done: set<Handle>, ghost gone: set<Nick>)
      returns (ghost gone': set<Nick>)
      requires Valid() && Linked(before) && RoomsIndexed(before) && Indexed(before)
      requires c in before.users && m == before.buddies[c] && h in m && h !in done
      requires gone == ChatsOf(m, done) && net == LoseChats(before, c, gone)
      modifies this, c`users, m[h].nick`channels
      ensures Valid() && log == old(log)
      ensures gone' == ChatsOf(m, done + {h}) && net == LoseChats(before, c, gone')
    {
      NextChatIsNew(before, c, done, h);
      gone' := gone;
      if m[h].nick.chat {
        LoseOne(c, m[h], before, gone);
        gone' := gone + {m[h].nick};
      }
    }

    /** One chat buddy: it leaves the room's vector, and is deleted. */
    method LoseOne(c: Channel, cu: ChanUser, ghost before: Net, ghost gone: set<Nick>)
      requires Valid() && Linked(before) && RoomsIndexed(before) && Indexed(before) && c in before.users
      requires cu in before.cells && cu.chan == c && cu.nick.chat && cu.nick !in gone
      requires net == LoseChats(before, c, gone)
      modifies this, c`users, cu.nick`channels
      ensures Valid() && net == LoseChats(before, c, gone + {cu.nick}) && log == old(log)
    {
      var n := cu.nick;
      OnlyOne(before, cu);
      OneCellOf(before, cu);
      LoseOneMore(before, c, gone, n);
      LoseKeepsIndexed(before, c, gone);
      StillSound(before, c, gone);
      DeliverNothing(OffNick(net.users[c], n));
      ChannelDelUser(c, n, []);
      RemoveChanUser(n, cu);
      OnlyKey(net, n, n.nickname);
      Erase(n, n.nickname);
    }

    // ------------------------------------------------------------ servers

    ghost predicate Searched(server: string, found: bool, name: string)
      reads this`users
    {
      if found then name in users && users[name].server == server
      else forall k :: k in users ==> users[k].server != server
    }

    method NickOfServer(server: string) returns (found: bool, name: string)
      ensures Searched(server, found, name)
    {
      var rest := users.Keys;
      found, name := false, "";
      while rest != {}
        invariant rest <= users.Keys
        invariant forall k :: k in users && k !in rest ==> users[k].server != server
        decreases rest
      {
        name :| name in rest;
        if users[name].server == server {
          return true, name;
        }
        rest := rest - {name};
      }
    }

    /** `IRC::removeServer`: its nicks are deleted one by one, the search starting
        over after each; `gone` is the order in which they went. */
    method RemoveServer(server: string) returns (ghost gone: seq<Nick>)
      requires Valid() && Linked(net) && RoomsIndexed(net) && Indexed(net)
      modifies this, net.names.Keys, net.users.Keys
      ensures Valid() && CanDrop(old(net), gone) && net == DropAll(old(net), gone)
      ensures log == old(log) + DropSends(old(net), gone)
      ensures forall n :: n in gone <==> n in old(net).names && n.server == server
    {
      gone := [];
      ghost var before, told := net, DropSends(net, []);
      var found, name := NickOfServer(server);
      while found
        invariant Valid() && Linked(net) && RoomsIndexed(net) && Indexed(net)
        invariant CanDrop(before, gone) && net == DropAll(before, gone)
        invariant log == old(log) + told && told == DropSends(before, gone)
        invariant AllOf(before, gone, server)
        invariant Searched(server, found, name)
        decreases net.names.Keys, found
      {
        ghost var n := net.index[name];
        told := DropNextNick(name, n, before, gone, told, old(log));
        OneMoreOf(before, gone, n, server);
        gone := gone + [n];
        found, name := NickOfServer(server);
      }
      AllGone(before, gone, server);
    }

    method DropNextNick(name: string, ghost n: Nick, ghost before: Net, ghost gone: seq<Nick>,
                        ghost told: seq<Delivery>, ghost log0: seq<Delivery>)
      returns (ghost told': seq<Delivery>)
      requires Valid() && Linked(net) && RoomsIndexed(net) && Indexed(net) && name in net.index && net.index[name] == n
      requires CanDrop(before, gone) && net == DropAll(before, gone)
      requires log == log0 + told && told == DropSends(before, gone)
      modifies this, n`channels, net.users.Keys
      ensures Valid() && Linked(net) && RoomsIndexed(net) && Indexed(net)
      ensures CanDrop(before, gone + [n]) && net == DropAll(before, gone + [n])
      ensures log == log0 + told' && told' == DropSends(before, gone + [n])
      ensures n in old(net).names && n in before.names && net.names.Keys == old(net).names.Keys - {n}
      ensures net.names.Keys < old(net).names.Keys && net.users.Keys == before.users.Keys
    {
      DropNext(before, gone, n);
      ghost var more := SendsOfQuit(net, n);
      DropOne(name, n);
      Associative(log0, told, more);
      told' := told + more;
    }

    method DropOne(name: string, ghost n: Nick)
      requires Valid() && Linked(net) && RoomsIndexed(net) && Indexed(net) && name in net.index && net.index[name] == n
      modifies this, n`channels, net.users.Keys
      ensures n in old(net).on && Valid() && Linked(net) && RoomsIndexed(net) && Indexed(net)
      ensures net == Forget(LeaveAll(old(net), n), {n}) && log == old(log) + SendsOfQuit(old(net), n)
      ensures net.names.Keys == old(net).names.Keys - {n} && n in old(net).names
    {
      DropKeepsLinked(net, n);
      DropKeeps(net, n);
      ForgetKeepsIndexed(LeaveAll(net, n), {n});
      RemoveNick(name, n);
    }
  }
}
