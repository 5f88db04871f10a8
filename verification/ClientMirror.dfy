/** A client that only replays what it was sent knows who is on its channels. */
module ClientMirror {
  import opened Basics
  import opened Modes
  import opened Network
  import opened NetworkInvariants

  /** One channel as the client sees it: the shown modes of each nickname. */
  type Room = map<string, Mask>
  type View = map<string, Room>

  function RoomOf(entries: seq<NameEntry>): Room {
    if entries == [] then map[]
    else
      var e := entries[|entries| - 1];
      RoomOf(entries[..|entries| - 1])[e.nick := DecodePrefix(e.prefix)]
  }

  function Without(room: Room, who: string): Room {
    map s | s in room && s != who :: room[s]
  }

  function Renamed(room: Room, who: string, newNick: string): Room {
    if who in room then Without(room, who)[newNick := room[who]] else room
  }

  /** How a client called `me` reads one message. */
  function Apply(view: View, m: Msg, me: string): View {
    match m
    case Join(who, chan) =>
      if who == me then view[chan := map[who := {}]]
      else if chan in view then view[chan := view[chan][who := {}]]
      else view
    case Names(chan, entries) =>
      if chan in view then view[chan := view[chan] + RoomOf(entries)] else view
    case Mode(chan, add, letters, target) =>
      if chan in view && target in view[chan] then
        view[chan := view[chan][target := ApplyLetters(view[chan][target], add, letters)]]
      else view
    case Part(who, chan) => Gone(view, chan, who, me)
    case Kick(chan, victim) => Gone(view, chan, victim, me)
    case Quit(who) =>
      if who == me then map[] else map c | c in view :: Without(view[c], who)
    case NickChange(who, newNick) =>
      map c | c in view :: Renamed(view[c], who, newNick)
  }

  function Gone(view: View, chan: string, who: string, me: string): View {
    if who == me then map c | c in view && c != chan :: view[c]
    else if chan in view then view[chan := Without(view[chan], who)]
    else view
  }

  function Replay(view: View, ms: seq<Msg>, me: string): View {
    if ms == [] then view else Apply(Replay(view, ms[..|ms| - 1], me), ms[|ms| - 1], me)
  }

  lemma {:induction false} ReplayAppend(view: View, a: seq<Msg>, b: seq<Msg>, me: string)
    ensures Replay(view, a + b, me) == Replay(Replay(view, a, me), b, me)
  {
    if b == [] {
      assert a + b == a;
    } else {
      assert (a + b)[..|a + b| - 1] == a + b[..|b| - 1];
      ReplayAppend(view, a, b[..|b| - 1], me);
    }
  }

  /** The client's room holds exactly the members of `c`, under their current
      nicknames, each with its shown modes. */
  ghost predicate MirrorsRoom(room: Room, net: Net, c: Channel)
    requires c in net.users
  {
    && (forall cu :: cu in net.users[c] ==>
          && cu.nick in net.names && cu in net.cells
          && net.names[cu.nick] in room && room[net.names[cu.nick]] == net.cells[cu] * SHOWN)
    && (forall s :: s in room ==> exists cu :: cu in net.users[c] && cu.nick in net.names && net.names[cu.nick] == s)
  }

  /** On every channel it is on, the client's view is right. */
  ghost predicate Mirrors(view: View, net: Net, me: Nick)
    requires me in net.on
  {
    forall cu :: cu in net.on[me] ==>
      cu.chan in net.users && cu.chan.name in view && MirrorsRoom(view[cu.chan.name], net, cu.chan)
  }

  ghost predicate ChannelsIdentify(net: Net) {
    forall c, d :: c in net.users && d in net.users && c.name == d.name ==> c == d
  }

  /** Nicknames and channel names identify. */
  ghost predicate NamesIdentify(net: Net) {
    && (forall a, b :: a in net.names && b in net.names && net.names[a] == net.names[b] ==> a == b)
    && ChannelsIdentify(net)
  }

  /** The view is right except perhaps on `c`. */
  ghost predicate MirrorsBut(view: View, net: Net, me: Nick, c: Channel)
    requires me in net.on
  {
    forall cu :: cu in net.on[me] && cu.chan != c ==>
      cu.chan in net.users && cu.chan.name in view && MirrorsRoom(view[cu.chan.name], net, cu.chan)
  }

  /** Putting `c` right, and nothing else. */
  lemma MirrorsAt(view: View, view': View, net: Net, me: Nick, c: Channel)
    requires me in net.on && c in net.users && ChannelsIdentify(net) && MirrorsBut(view, net, me, c)
    requires forall s :: s in view && s != c.name ==> s in view' && view'[s] == view[s]
    requires (exists cu :: cu in net.on[me] && cu.chan == c) ==> c.name in view' && MirrorsRoom(view'[c.name], net, c)
    ensures Mirrors(view', net, me)
  {}

  // ---------------------------------------------------------------- who receives what

  ghost predicate DistinctNicks(us: seq<ChanUser>) {
    forall i, j :: 0 <= i < j < |us| ==> us[i].nick != us[j].nick
  }

  ghost predicate Among(us: seq<ChanUser>, n: Nick) {
    exists i :: 0 <= i < |us| && us[i].nick == n
  }

  lemma {:induction false} InboxAppend(a: seq<Delivery>, b: seq<Delivery>, n: Nick)
    ensures Inbox(a + b, n) == Inbox(a, n) + Inbox(b, n)
  {
    if b == [] {
      assert a + b == a;
    } else {
      assert (a + b)[..|a + b| - 1] == a + b[..|b| - 1];
      InboxAppend(a, b[..|b| - 1], n);
    }
  }

  lemma {:induction false} InboxTo(to: Nick, ms: seq<Msg>, n: Nick)
    ensures Inbox(To(to, ms), n) == if n == to then ms else []
  {
    if ms != [] {
      assert To(to, ms)[..|ms| - 1] == To(to, ms[..|ms| - 1]);
      InboxTo(to, ms[..|ms| - 1], n);
      assert ms == ms[..|ms| - 1] + [ms[|ms| - 1]];
    }
  }

  lemma AmongFront(us: seq<ChanUser>, n: Nick)
    requires DistinctNicks(us) && us != []
    ensures DistinctNicks(us[..|us| - 1])
    ensures Among(us, n) <==> Among(us[..|us| - 1], n) || us[|us| - 1].nick == n
    ensures !(Among(us[..|us| - 1], n) && us[|us| - 1].nick == n)
  {
    var front := us[..|us| - 1];
    forall i | 0 <= i < |us|
      ensures i < |front| ==> us[i] == front[i]
    {}
    if Among(front, n) {
      var i :| 0 <= i < |front| && front[i].nick == n;
      assert us[i].nick == n;
    }
  }

  lemma InboxThree(a: seq<Delivery>, b: seq<Delivery>, c: seq<Delivery>, n: Nick)
    ensures Inbox(a + b + c, n) == Inbox(a, n) + Inbox(b, n) + Inbox(c, n)
  {
    InboxAppend(a + b, c, n);
    InboxAppend(a, b, n);
  }

  lemma InboxBlock(before: seq<Delivery>, last: Nick, forAll: seq<Msg>, others: seq<Msg>, but: Nick?, n: Nick)
    ensures Inbox(before + To(last, forAll) + (if last != but then To(last, others) else []), n)
         == Inbox(before, n) + (if last == n then forAll + (if n != but then others else []) else [])
  {
    var rest := if last != but then To(last, others) else [];
    InboxThree(before, To(last, forAll), rest, n);
    InboxTo(last, forAll, n);
    InboxTo(last, others, n);
    Associative(Inbox(before, n), forAll, if n != but then others else []);
  }

  lemma InboxDeliverStep(us: seq<ChanUser>, forAll: seq<Msg>, others: seq<Msg>, but: Nick?, n: Nick)
    requires us != []
    ensures Inbox(Deliver(us, forAll, others, but), n)
         == Inbox(Deliver(us[..|us| - 1], forAll, others, but), n)
            + (if us[|us| - 1].nick == n then forAll + (if n != but then others else []) else [])
  {
    InboxBlock(Deliver(us[..|us| - 1], forAll, others, but), us[|us| - 1].nick, forAll, others, but, n);
  }

  /** A broadcast reaches each member exactly once, and nobody else. */
  lemma {:induction false} InboxDeliver(us: seq<ChanUser>, forAll: seq<Msg>, others: seq<Msg>, but: Nick?, n: Nick)
    requires DistinctNicks(us)
    ensures Inbox(Deliver(us, forAll, others, but), n)
         == if Among(us, n) then forAll + (if n != but then others else []) else []
  {
    if us != [] {
      AmongFront(us, n);
      InboxDeliverStep(us, forAll, others, but, n);
      InboxDeliver(us[..|us| - 1], forAll, others, but, n);
    }
  }

  lemma VectorDistinct(us: seq<ChanUser>)
    requires NoDup(us) && forall a, b :: a in us && b in us && a.nick == b.nick ==> a == b
    ensures DistinctNicks(us)
  {
    forall i, j | 0 <= i < j < |us|
      ensures us[i].nick != us[j].nick
    {
      assert us[i] in us && us[j] in us;
    }
  }

  lemma AmongIs(us: seq<ChanUser>, n: Nick)
    ensures Among(us, n) <==> exists cu :: cu in us && cu.nick == n
  {
    if Among(us, n) {
      var i :| 0 <= i < |us| && us[i].nick == n;
      assert us[i] in us;
    }
    if cu :| cu in us && cu.nick == n {
      var i :| 0 <= i < |us| && us[i] == cu;
    }
  }

  lemma MembersDistinct(net: Net, c: Channel)
    requires Linked(net) && c in net.users
    ensures DistinctNicks(net.users[c])
    ensures forall n :: n in net.on ==> (Among(net.users[c], n) <==> IsOn(net, n, c))
  {
    VectorDistinct(net.users[c]);
    forall n | n in net.on
      ensures Among(net.users[c], n) <==> IsOn(net, n, c)
    {
      AmongIs(net.users[c], n);
    }
  }

  // ---------------------------------------------------------------- one room

  /** Nothing that room `c` shows has changed. */
  lemma RoomFrame(room: Room, net: Net, after: Net, c: Channel)
    requires c in net.users && c in after.users && MirrorsRoom(room, net, c)
    requires after.users[c] == net.users[c]
    requires forall cu :: cu in net.users[c] && cu in net.cells ==> cu in after.cells && after.cells[cu] == net.cells[cu]
    requires forall cu :: cu in net.users[c] && cu.nick in net.names ==>
               cu.nick in after.names && after.names[cu.nick] == net.names[cu.nick]
    ensures MirrorsRoom(room, after, c)
  {}

  lemma RoomEnter(room: Room, net: Net, cu: ChanUser, status: Mask)
    requires Linked(net) && NamesIdentify(net) && cu.nick in net.on && cu.chan in net.users
    requires cu !in net.cells && !IsOn(net, cu.nick, cu.chan)
    requires MirrorsRoom(room, net, cu.chan)
    ensures MirrorsRoom(room[net.names[cu.nick] := status * SHOWN], Enter(net, cu, status), cu.chan)
  {
    var after, name := Enter(net, cu, status), net.names[cu.nick];
    var room' := room[name := status * SHOWN];
    forall u | u in after.users[cu.chan]
      ensures u.nick in after.names && u in after.cells
      ensures after.names[u.nick] in room' && room'[after.names[u.nick]] == after.cells[u] * SHOWN
    {
      if u != cu {
        assert u in net.users[cu.chan] && u.nick != cu.nick;
      }
    }
    forall s | s in room'
      ensures exists u :: u in after.users[cu.chan] && u.nick in after.names && after.names[u.nick] == s
    {
      if s == name {
        assert cu in after.users[cu.chan];
      } else {
        var u :| u in net.users[cu.chan] && u.nick in net.names && net.names[u.nick] == s;
        assert u in after.users[cu.chan];
      }
    }
  }

  lemma RoomDetach(room: Room, net: Net, after: Net, n: Nick, c: Channel)
    requires Linked(net) && NamesIdentify(net) && n in net.on && c in net.users && c in after.users
    requires after.names == net.names && after.users[c] == OffNick(net.users[c], n)
    requires forall cu :: cu in net.cells && cu.nick != n ==> cu in after.cells && after.cells[cu] == net.cells[cu]
    requires MirrorsRoom(room, net, c)
    ensures MirrorsRoom(Without(room, net.names[n]), after, c)
  {
    var room' := Without(room, net.names[n]);
    forall s | s in room'
      ensures exists u :: u in after.users[c] && u.nick in after.names && after.names[u.nick] == s
    {
      var u :| u in net.users[c] && u.nick in net.names && net.names[u.nick] == s;
      assert u in after.users[c];
    }
  }

  lemma RoomOneChanges(room: Room, net: Net, after: Net, c: Channel, cu: ChanUser, m: Mask)
    requires Linked(net) && NamesIdentify(net) && cu in net.cells && cu.chan == c && c in net.users
    requires MirrorsRoom(room, net, c)
    requires after.names == net.names && after.users == net.users && after.cells.Keys == net.cells.Keys
    requires after.cells[cu] * SHOWN == m && forall u :: u in net.cells && u != cu ==> after.cells[u] == net.cells[u]
    ensures cu.nick in net.names && net.names[cu.nick] in room
    ensures MirrorsRoom(room[net.names[cu.nick] := m], after, c)
  {
    assert cu in net.users[c];
    var room' := room[net.names[cu.nick] := m];
    forall u | u in after.users[c]
      ensures u.nick in after.names && u in after.cells
      ensures after.names[u.nick] in room' && room'[after.names[u.nick]] == after.cells[u] * SHOWN
    {
      assert u.nick == cu.nick ==> u == cu;
    }
    forall s | s in room'
      ensures exists u :: u in after.users[c] && u.nick in after.names && after.names[u.nick] == s
    {
      assert s in room;
    }
  }

  lemma RoomChangeMode(room: Room, net: Net, cu: ChanUser, add: bool, modes: Mask)
    requires Linked(net) && NamesIdentify(net) && cu in net.cells && cu.nick in net.names && cu.chan in net.users
    requires MirrorsRoom(room, net, cu.chan)
    ensures net.names[cu.nick] in room
    ensures MirrorsRoom(room[net.names[cu.nick] := ApplyLetters(room[net.names[cu.nick]], add, LettersOf(modes))],
                        ChangeMode(net, cu, add, modes), cu.chan)
  {
    RoomShows(room, net, cu);
    LettersRoundTrip(net.cells[cu], modes);
    RoomOneChanges(room, net, ChangeMode(net, cu, add, modes), cu.chan, cu,
                   ApplyLetters(room[net.names[cu.nick]], add, LettersOf(modes)));
  }

  lemma RoomShows(room: Room, net: Net, cu: ChanUser)
    requires Linked(net) && cu in net.cells && cu.nick in net.names && cu.chan in net.users
    requires MirrorsRoom(room, net, cu.chan)
    ensures net.names[cu.nick] in room && room[net.names[cu.nick]] == net.cells[cu] * SHOWN
  {
    assert cu in net.users[cu.chan];
  }

  lemma RenamedRoom(room: Room, who: string, newNick: string, s: string)
    requires newNick in room ==> newNick == who
    ensures who in room ==> newNick in Renamed(room, who, newNick) && Renamed(room, who, newNick)[newNick] == room[who]
    ensures s != who && s in room ==> s in Renamed(room, who, newNick) && Renamed(room, who, newNick)[s] == room[s]
  {}

  lemma RenamedKeys(room: Room, who: string, newNick: string, s: string)
    requires s in Renamed(room, who, newNick)
    ensures (s == newNick && who in room) || (s != who && s in room)
  {}

  lemma RoomRenameThere(room: Room, net: Net, n: Nick, newNick: string, c: Channel, u: ChanUser)
    requires NamesIdentify(net) && n in net.names && c in net.users
    requires forall m :: m in net.names ==> net.names[m] != newNick || m == n
    requires MirrorsRoom(room, net, c) && u in net.users[c]
    ensures var after, room' := Rename(net, n, newNick), Renamed(room, net.names[n], newNick);
            && u.nick in after.names && u in after.cells
            && after.names[u.nick] in room' && room'[after.names[u.nick]] == after.cells[u] * SHOWN
  {
    assert newNick in room ==> newNick == net.names[n];
    RenamedRoom(room, net.names[n], newNick, net.names[u.nick]);
  }

  lemma RoomRename(room: Room, net: Net, n: Nick, newNick: string, c: Channel)
    requires NamesIdentify(net) && n in net.names && c in net.users
    requires forall m :: m in net.names ==> net.names[m] != newNick || m == n
    requires MirrorsRoom(room, net, c)
    ensures MirrorsRoom(Renamed(room, net.names[n], newNick), Rename(net, n, newNick), c)
  {
    var after, who := Rename(net, n, newNick), net.names[n];
    var room' := Renamed(room, who, newNick);
    forall u | u in net.users[c]
      ensures u.nick in after.names && u in after.cells
      ensures after.names[u.nick] in room' && room'[after.names[u.nick]] == after.cells[u] * SHOWN
    {
      RoomRenameThere(room, net, n, newNick, c, u);
    }
    forall s | s in room'
      ensures exists u :: u in net.users[c] && u.nick in after.names && after.names[u.nick] == s
    {
      RoomRenameBack(room, net, n, newNick, c, s);
    }
  }

  lemma RoomRenameBack(room: Room, net: Net, n: Nick, newNick: string, c: Channel, s: string)
    requires NamesIdentify(net) && n in net.names && c in net.users
    requires MirrorsRoom(room, net, c) && s in Renamed(room, net.names[n], newNick)
    requires forall m :: m in net.names ==> net.names[m] != newNick || m == n
    ensures exists u :: u in net.users[c] && u.nick in Rename(net, n, newNick).names
                        && Rename(net, n, newNick).names[u.nick] == s
  {
    RenamedKeys(room, net.names[n], newNick, s);
    var s0 := if s == newNick && net.names[n] in room then net.names[n] else s;
    var u :| u in net.users[c] && u.nick in net.names && net.names[u.nick] == s0;
    assert u.nick == n || s != net.names[n];
  }

  lemma NamesStep(net: Net, us: seq<ChanUser>)
    requires forall cu :: cu in us ==> cu in net.cells && cu.nick in net.names
    requires us != []
    ensures RoomOf(NameEntries(net, us))
         == RoomOf(NameEntries(net, us[..|us| - 1]))[net.names[us[|us| - 1].nick] := net.cells[us[|us| - 1]] * SHOWN]
  {
    assert NameEntries(net, us)[..|us| - 1] == NameEntries(net, us[..|us| - 1]);
    PrefixRoundTrip(net.cells[us[|us| - 1]]);
  }

  lemma LastIsNew(us: seq<ChanUser>, front: seq<ChanUser>, last: ChanUser)
    requires DistinctNicks(us) && us == front + [last]
    ensures DistinctNicks(front)
    ensures forall cu :: cu in us ==> cu == last || (cu in front && cu.nick != last.nick)
  {
    assert forall i :: 0 <= i < |front| ==> us[i] == front[i];
    forall cu | cu in front
      ensures cu.nick != last.nick
    {
      var i :| 0 <= i < |front| && front[i] == cu;
      assert us[i] == cu && us[|front|] == last;
    }
  }

  /** A fresh NAMES reply shows the room. */
  lemma {:induction false} NamesShow(net: Net, us: seq<ChanUser>)
    requires NamesIdentify(net)
    requires forall cu :: cu in us ==> cu in net.cells && cu.nick in net.names
    requires DistinctNicks(us)
    ensures forall cu :: cu in us ==>
              net.names[cu.nick] in RoomOf(NameEntries(net, us))
              && RoomOf(NameEntries(net, us))[net.names[cu.nick]] == net.cells[cu] * SHOWN
    ensures forall s :: s in RoomOf(NameEntries(net, us)) ==> exists cu :: cu in us && net.names[cu.nick] == s
  {
    if us != [] {
      var front, last := us[..|us| - 1], us[|us| - 1];
      LastIsNew(us, front, last);
      NamesStep(net, us);
      NamesShow(net, front);
    }
  }

  // ---------------------------------------------------------------- one transformer

  lemma ReplayOne(view: View, m: Msg, me: string)
    ensures Replay(view, [m], me) == Apply(view, m, me)
  {
    assert [m][..0] == [];
  }

  lemma ReplayTwo(view: View, a: Msg, b: Msg, me: string)
    ensures Replay(view, [a, b], me) == Apply(Apply(view, a, me), b, me)
  {
    assert [a, b] == [a] + [b];
    ReplayAppend(view, [a], [b], me);
    ReplayOne(view, a, me);
    ReplayOne(Apply(view, a, me), b, me);
  }

  lemma InboxLast(us: seq<ChanUser>, forAll: seq<Msg>, others: seq<Msg>, n: Nick, last: Msg, u: Nick)
    requires DistinctNicks(us)
    ensures Inbox(Deliver(us, forAll, others, n) + [Delivery(n, last)], u)
         == (if Among(us, u) then forAll + (if u != n then others else []) else []) + (if u == n then [last] else [])
  {
    InboxDeliver(us, forAll, others, n, u);
    InboxAppend(Deliver(us, forAll, others, n), [Delivery(n, last)], u);
    assert [Delivery(n, last)][..0] == [];
  }

  /** Who is sent what by `addUser`, `after` being the state it leaves. */
  lemma EnterInbox(after: Net, cu: ChanUser, status: Mask, u: Nick)
    requires cu.nick in after.names && cu.chan in after.users
    requires forall x :: x in after.users[cu.chan] ==> x in after.cells && x.nick in after.names
    requires DistinctNicks(after.users[cu.chan]) && Among(after.users[cu.chan], cu.nick)
    ensures Inbox(EnterSends(after, cu, status), u)
         == if u == cu.nick then [JoinMsg(after, cu), NamesMsg(after, cu.chan)]
            else if Among(after.users[cu.chan], u) then [JoinMsg(after, cu)] + StatusMsgs(after, cu, status)
            else []
  {
    InboxLast(after.users[cu.chan], [JoinMsg(after, cu)], StatusMsgs(after, cu, status), cu.nick,
              NamesMsg(after, cu.chan), u);
  }

  lemma EnterIsOn(net: Net, cu: ChanUser, status: Mask, u: Nick)
    requires cu.nick in net.on && cu.chan in net.users && cu !in net.cells
    ensures IsOn(Enter(net, cu, status), u, cu.chan) <==> IsOn(net, u, cu.chan) || u == cu.nick
  {
    assert cu in Enter(net, cu, status).cells;
    if IsOn(net, u, cu.chan) {
      var x :| x in net.cells && x.nick == u && x.chan == cu.chan;
      assert x in Enter(net, cu, status).cells;
    }
  }

  lemma ReplayJoin(view: View, net: Net, cu: ChanUser, status: Mask, me: string)
    requires cu.nick in net.names && net.names[cu.nick] != me && cu.chan.name in view
    ensures Replay(view, [JoinMsg(net, cu)] + StatusMsgs(net, cu, status), me)
         == view[cu.chan.name := view[cu.chan.name][net.names[cu.nick] := status * SHOWN]]
  {
    var chan, who := cu.chan.name, net.names[cu.nick];
    var joined := Apply(view, JoinMsg(net, cu), me);
    if status == {} {
      assert [JoinMsg(net, cu)] + StatusMsgs(net, cu, status) == [JoinMsg(net, cu)];
      ReplayOne(view, JoinMsg(net, cu), me);
      assert status * SHOWN == {};
    } else {
      ReplayTwo(view, JoinMsg(net, cu), ModeMsg(net, cu, true, status), me);
      LettersRoundTrip({}, status);
      assert {} * SHOWN == {} && {} + status == status;
      assert joined[chan][who := status * SHOWN] == view[chan][who := status * SHOWN];
      assert joined[chan := joined[chan][who := status * SHOWN]] == view[chan := joined[chan][who := status * SHOWN]];
    }
  }

  lemma EnterBut(view: View, net: Net, cu: ChanUser, status: Mask, me: Nick)
    requires Linked(net) && cu.nick in net.on && cu.chan in net.users && me in net.on
    requires cu !in net.cells
    requires Mirrors(view, net, me)
    ensures MirrorsBut(view, Enter(net, cu, status), me, cu.chan)
  {
    forall m | m in Enter(net, cu, status).on[me] && m.chan != cu.chan
      ensures m.chan in net.users && m.chan.name in view
      ensures MirrorsRoom(view[m.chan.name], Enter(net, cu, status), m.chan)
    {
      assert m in net.on[me];
      RoomFrame(view[m.chan.name], net, Enter(net, cu, status), m.chan);
    }
  }

  lemma EnterDistinct(net: Net, cu: ChanUser, status: Mask, u: Nick)
    requires Linked(net) && cu.nick in net.on && cu.chan in net.users && u in net.on
    requires cu !in net.cells && Linked(Enter(net, cu, status))
    ensures var after := Enter(net, cu, status);
            forall x :: x in after.users[cu.chan] ==> x in after.cells && x.nick in after.names
    ensures DistinctNicks(Enter(net, cu, status).users[cu.chan])
    ensures Among(Enter(net, cu, status).users[cu.chan], cu.nick)
    ensures Among(Enter(net, cu, status).users[cu.chan], u) <==> IsOn(net, u, cu.chan) || u == cu.nick
  {
    MembersDistinct(Enter(net, cu, status), cu.chan);
    EnterIsOn(net, cu, status, u);
    EnterIsOn(net, cu, status, cu.nick);
  }

  lemma MeSees(view: View, net: Net, me: Nick, c: Channel)
    requires Linked(net) && me in net.on && IsOn(net, me, c) && Mirrors(view, net, me)
    ensures c in net.users && c.name in view && MirrorsRoom(view[c.name], net, c)
  {
    var cu :| cu in net.cells && cu.nick == me && cu.chan == c;
    assert cu in net.on[me];
  }

  lemma ReplaySelfJoin(view: View, net: Net, cu: ChanUser, names: Msg, entries: seq<NameEntry>)
    requires cu.nick in net.names && names == Names(cu.chan.name, entries)
    ensures Replay(view, [JoinMsg(net, cu), names], net.names[cu.nick])
         == view[cu.chan.name := map[net.names[cu.nick] := {}] + RoomOf(entries)]
  {
    ReplayTwo(view, JoinMsg(net, cu), names, net.names[cu.nick]);
  }

  lemma SelfRoom(after: Net, cu: ChanUser)
    requires NamesIdentify(after) && cu.chan in after.users && cu in after.users[cu.chan]
    requires forall x :: x in after.users[cu.chan] ==> x in after.cells && x.nick in after.names
    requires DistinctNicks(after.users[cu.chan])
    ensures MirrorsRoom(map[after.names[cu.nick] := {}] + RoomOf(NameEntries(after, after.users[cu.chan])), after, cu.chan)
  {
    var shown := RoomOf(NameEntries(after, after.users[cu.chan]));
    NamesShow(after, after.users[cu.chan]);
    assert after.names[cu.nick] in shown;
    assert map[after.names[cu.nick] := {}] + shown == shown;
  }

  lemma EnterViews(view: View, net: Net, cu: ChanUser, status: Mask, me: Nick, room: Room)
    requires Linked(net) && NamesIdentify(net) && cu.nick in net.on && cu.chan in net.users && me in net.on
    requires cu !in net.cells
    requires Mirrors(view, net, me) && MirrorsRoom(room, Enter(net, cu, status), cu.chan)
    ensures Mirrors(view[cu.chan.name := room], Enter(net, cu, status), me)
  {
    EnterBut(view, net, cu, status, me);
    MirrorsAt(view, view[cu.chan.name := room], Enter(net, cu, status), me, cu.chan);
  }

  lemma EnterElsewhere(view: View, net: Net, cu: ChanUser, status: Mask, me: Nick)
    requires Linked(net) && cu.nick in net.on && cu.chan in net.users && me in net.on
    requires cu !in net.cells && cu.nick != me
    requires Mirrors(view, net, me) && !IsOn(net, me, cu.chan)
    ensures Mirrors(view, Enter(net, cu, status), me)
  {
    EnterBut(view, net, cu, status, me);
  }

  /** Somebody else joins a channel. */
  lemma EnterOtherMirrors(view: View, net: Net, cu: ChanUser, status: Mask, me: Nick)
    requires Linked(net) && NamesIdentify(net) && cu.nick in net.on && cu.chan in net.users && me in net.on
    requires cu !in net.cells && !IsOn(net, cu.nick, cu.chan) && cu.nick != me
    requires Linked(Enter(net, cu, status))
    requires Mirrors(view, net, me)
    ensures Mirrors(Replay(view, Inbox(EnterSends(Enter(net, cu, status), cu, status), me), net.names[me]),
                    Enter(net, cu, status), me)
  {
    var after := Enter(net, cu, status);
    EnterDistinct(net, cu, status, me);
    EnterInbox(after, cu, status, me);
    if IsOn(net, me, cu.chan) {
      MeSees(view, net, me, cu.chan);
      ReplayJoin(view, after, cu, status, net.names[me]);
      RoomEnter(view[cu.chan.name], net, cu, status);
      EnterViews(view, net, cu, status, me, view[cu.chan.name][net.names[cu.nick] := status * SHOWN]);
    } else {
      EnterElsewhere(view, net, cu, status, me);
    }
  }

  lemma EnterSelfReplay(view: View, after: Net, cu: ChanUser, status: Mask)
    requires cu.nick in after.names && cu.chan in after.users
    requires forall x :: x in after.users[cu.chan] ==> x in after.cells && x.nick in after.names
    requires DistinctNicks(after.users[cu.chan]) && Among(after.users[cu.chan], cu.nick)
    ensures Replay(view, Inbox(EnterSends(after, cu, status), cu.nick), after.names[cu.nick])
         == view[cu.chan.name :=
                   map[after.names[cu.nick] := {}] + RoomOf(NameEntries(after, after.users[cu.chan]))]
  {
    EnterInbox(after, cu, status, cu.nick);
    ReplaySelfJoin(view, after, cu, NamesMsg(after, cu.chan), NameEntries(after, after.users[cu.chan]));
  }

  /** The client itself joins a channel: the NAMES reply tells it everything. */
  lemma EnterSelfMirrors(view: View, net: Net, cu: ChanUser, status: Mask)
    requires Linked(net) && NamesIdentify(net) && cu.nick in net.on && cu.chan in net.users
    requires cu !in net.cells && !IsOn(net, cu.nick, cu.chan)
    requires Linked(Enter(net, cu, status))
    requires Mirrors(view, net, cu.nick)
    ensures Mirrors(Replay(view, Inbox(EnterSends(Enter(net, cu, status), cu, status), cu.nick), net.names[cu.nick]),
                    Enter(net, cu, status), cu.nick)
  {
    var after := Enter(net, cu, status);
    EnterDistinct(net, cu, status, cu.nick);
    EnterSelfReplay(view, after, cu, status);
    SelfRoom(after, cu);
    EnterViews(view, net, cu, status, cu.nick,
               map[after.names[cu.nick] := {}] + RoomOf(NameEntries(after, after.users[cu.chan])));
  }

  lemma ChangeModeBut(view: View, net: Net, cu: ChanUser, add: bool, modes: Mask, me: Nick)
    requires Linked(net) && cu in net.cells && me in net.on
    requires Mirrors(view, net, me)
    ensures MirrorsBut(view, ChangeMode(net, cu, add, modes), me, cu.chan)
  {
    forall m | m in net.on[me] && m.chan != cu.chan
      ensures m.chan in net.users && m.chan.name in view
      ensures MirrorsRoom(view[m.chan.name], ChangeMode(net, cu, add, modes), m.chan)
    {
      RoomFrame(view[m.chan.name], net, ChangeMode(net, cu, add, modes), m.chan);
    }
  }

  lemma ChangeModeViews(view: View, net: Net, cu: ChanUser, add: bool, modes: Mask, me: Nick, room: Room)
    requires Linked(net) && NamesIdentify(net) && cu in net.cells && me in net.on
    requires Mirrors(view, net, me) && MirrorsRoom(room, ChangeMode(net, cu, add, modes), cu.chan)
    ensures Mirrors(view[cu.chan.name := room], ChangeMode(net, cu, add, modes), me)
  {
    ChangeModeBut(view, net, cu, add, modes, me);
    MirrorsAt(view, view[cu.chan.name := room], ChangeMode(net, cu, add, modes), me, cu.chan);
  }

  lemma ChangeModeElsewhere(view: View, net: Net, cu: ChanUser, add: bool, modes: Mask, me: Nick)
    requires Linked(net) && NamesIdentify(net) && cu in net.cells && me in net.on
    requires Mirrors(view, net, me) && !IsOn(net, me, cu.chan)
    ensures Mirrors(view, ChangeMode(net, cu, add, modes), me)
  {
    ChangeModeBut(view, net, cu, add, modes, me);
  }

  lemma ReplayMode(view: View, net: Net, cu: ChanUser, add: bool, modes: Mask, me: string)
    requires cu.nick in net.names && cu.chan.name in view && net.names[cu.nick] in view[cu.chan.name]
    ensures var chan, who := cu.chan.name, net.names[cu.nick];
            Replay(view, [ModeMsg(net, cu, add, modes)], me)
            == view[chan := view[chan][who := ApplyLetters(view[chan][who], add, LettersOf(modes))]]
  {
    ReplayOne(view, ModeMsg(net, cu, add, modes), me);
  }

  lemma ChangeModeHere(view: View, net: Net, cu: ChanUser, add: bool, modes: Mask, me: Nick)
    requires Linked(net) && NamesIdentify(net) && cu in net.cells && cu.nick in net.names && cu.chan in net.users
    requires me in net.on && me in net.names && Mirrors(view, net, me) && IsOn(net, me, cu.chan)
    ensures Mirrors(Replay(view, [ModeMsg(net, cu, add, modes)], net.names[me]), ChangeMode(net, cu, add, modes), me)
  {
    MeSees(view, net, me, cu.chan);
    var chan, who := cu.chan.name, net.names[cu.nick];
    RoomChangeMode(view[chan], net, cu, add, modes);
    ReplayMode(view, net, cu, add, modes, net.names[me]);
    ChangeModeViews(view, net, cu, add, modes, me,
                    view[chan][who := ApplyLetters(view[chan][who], add, LettersOf(modes))]);
  }

  lemma ModeInbox(net: Net, cu: ChanUser, add: bool, modes: Mask, u: Nick)
    requires Linked(net) && cu in net.cells && cu.nick in net.names && cu.chan in net.users && u in net.on
    ensures Inbox(ChangeModeSends(net, cu, add, modes), u)
         == if modes != {} && IsOn(net, u, cu.chan) then [ModeMsg(net, cu, add, modes)] else []
  {
    if modes != {} {
      MembersDistinct(net, cu.chan);
      InboxDeliver(net.users[cu.chan], [ModeMsg(net, cu, add, modes)], [], null, u);
    }
  }

  /** A mode change on a channel reaches its members once, and their views follow. */
  lemma ChangeModeMirrors(view: View, net: Net, cu: ChanUser, add: bool, modes: Mask, me: Nick)
    requires Linked(net) && NamesIdentify(net) && cu in net.cells && me in net.on
    requires Mirrors(view, net, me)
    ensures Mirrors(Replay(view, Inbox(ChangeModeSends(net, cu, add, modes), me), net.names[me]),
                    ChangeMode(net, cu, add, modes), me)
  {
    ModeInbox(net, cu, add, modes, me);
    if modes == {} {
      NoModes(net, cu, add);
    } else if IsOn(net, me, cu.chan) {
      ChangeModeHere(view, net, cu, add, modes, me);
    } else {
      ChangeModeElsewhere(view, net, cu, add, modes, me);
    }
  }

  // ---------------------------------------------------------------- part, kick

  lemma RemainingDistinct(net: Net, n: Nick, c: Channel, u: Nick)
    requires Linked(net) && n in net.on && c in net.users && u in net.on
    ensures DistinctNicks(OffNick(net.users[c], n))
    ensures Among(OffNick(net.users[c], n), u) <==> IsOn(net, u, c) && u != n
  {
    MembersDistinct(net, c);
    SomeDistinct(net.users[c], n);
    AmongIs(OffNick(net.users[c], n), u);
  }

  lemma SomeDistinct(us: seq<ChanUser>, n: Nick)
    requires DistinctNicks(us)
    ensures DistinctNicks(OffNick(us, n))
  {}

  /** A part reaches the one who parts and every other member, each once. */
  lemma PartInbox(net: Net, n: Nick, c: Channel, u: Nick)
    requires Linked(net) && n in net.on && c in net.users && u in net.on
    ensures Inbox(PartSends(net, n, c), u)
         == if u == n || IsOn(net, u, c) then [Part(net.names[n], c.name)] else []
  {
    var m := Part(net.names[n], c.name);
    RemainingDistinct(net, n, c, u);
    InboxDeliver(OffNick(net.users[c], n), [m], [], null, u);
    InboxAppend([Delivery(n, m)], Deliver(OffNick(net.users[c], n), [m], [], null), u);
    assert [Delivery(n, m)][..0] == [];
  }

  /** A kick reaches every other member once, and not the victim. */
  lemma KickInbox(net: Net, n: Nick, c: Channel, u: Nick)
    requires Linked(net) && n in net.on && c in net.users && u in net.on
    ensures Inbox(KickSends(net, n, c), u)
         == if u != n && IsOn(net, u, c) then [Kick(c.name, net.names[n])] else []
  {
    RemainingDistinct(net, n, c, u);
    InboxDeliver(OffNick(net.users[c], n), [Kick(c.name, net.names[n])], [], null, u);
  }

  lemma DetachBut(view: View, net: Net, n: Nick, c: Channel, me: Nick)
    requires Linked(net) && n in net.on && c in net.users && me in net.on
    requires Mirrors(view, net, me)
    ensures MirrorsBut(view, Detach(net, n, c), me, c)
  {
    forall m | m in Detach(net, n, c).on[me] && m.chan != c
      ensures m.chan in net.users && m.chan.name in view
      ensures MirrorsRoom(view[m.chan.name], Detach(net, n, c), m.chan)
    {
      assert m in net.on[me];
      RoomFrame(view[m.chan.name], net, Detach(net, n, c), m.chan);
    }
  }

  lemma DetachViews(view: View, net: Net, n: Nick, c: Channel, me: Nick, room: Room)
    requires Linked(net) && NamesIdentify(net) && n in net.on && c in net.users && me in net.on
    requires Mirrors(view, net, me) && MirrorsRoom(room, Detach(net, n, c), c)
    ensures Mirrors(view[c.name := room], Detach(net, n, c), me)
  {
    DetachBut(view, net, n, c, me);
    MirrorsAt(view, view[c.name := room], Detach(net, n, c), me, c);
  }

  lemma DetachRoom(view: View, net: Net, n: Nick, c: Channel, me: Nick)
    requires Linked(net) && NamesIdentify(net) && n in net.on && c in net.users && me in net.on
    requires Mirrors(view, net, me) && IsOn(net, me, c)
    ensures c.name in view && MirrorsRoom(Without(view[c.name], net.names[n]), Detach(net, n, c), c)
  {
    MeSees(view, net, me, c);
    RoomDetached(view[c.name], net, n, c);
  }

  lemma RoomDetached(room: Room, net: Net, n: Nick, c: Channel)
    requires Linked(net) && NamesIdentify(net) && n in net.on && c in net.users && MirrorsRoom(room, net, c)
    ensures MirrorsRoom(Without(room, net.names[n]), Detach(net, n, c), c)
  {
    RoomDetach(room, net, Detach(net, n, c), n, c);
  }

  /** Somebody else leaves a channel the client is not on, or the client leaves
      it: the view is right whatever it says of that channel. */
  lemma DetachElsewhere(view: View, view': View, net: Net, n: Nick, c: Channel, me: Nick)
    requires Linked(net) && NamesIdentify(net) && n in net.on && c in net.users && me in net.on
    requires Mirrors(view, net, me) && (me == n || !IsOn(net, me, c))
    requires forall s :: s in view && s != c.name ==> s in view' && view'[s] == view[s]
    ensures Mirrors(view', Detach(net, n, c), me)
  {
    DetachBut(view, net, n, c, me);
    forall cu | cu in Detach(net, n, c).on[me]
      ensures cu.chan != c
    {
      assert cu in net.on[me];
    }
  }

  lemma PartMirrors(view: View, net: Net, n: Nick, c: Channel, me: Nick)
    requires Linked(net) && NamesIdentify(net) && n in net.on && c in net.users && me in net.on
    requires Mirrors(view, net, me)
    ensures Mirrors(Replay(view, Inbox(PartSends(net, n, c), me), net.names[me]), Detach(net, n, c), me)
  {
    PartInbox(net, n, c, me);
    ReplayOne(view, Part(net.names[n], c.name), net.names[me]);
    if me != n && IsOn(net, me, c) {
      DetachRoom(view, net, n, c, me);
      DetachViews(view, net, n, c, me, Without(view[c.name], net.names[n]));
    } else {
      DetachElsewhere(view, Replay(view, Inbox(PartSends(net, n, c), me), net.names[me]), net, n, c, me);
    }
  }

  lemma ReplayKick(view: View, chan: string, victim: string, me: string)
    requires chan in view && victim != me
    ensures Replay(view, [Kick(chan, victim)], me) == view[chan := Without(view[chan], victim)]
  {
    ReplayOne(view, Kick(chan, victim), me);
  }

  lemma KickOtherMirrors(view: View, net: Net, n: Nick, c: Channel, me: Nick)
    requires Linked(net) && NamesIdentify(net) && n in net.on && c in net.users && me in net.on
    requires Mirrors(view, net, me) && me != n && IsOn(net, me, c)
    ensures Mirrors(Replay(view, [Kick(c.name, net.names[n])], net.names[me]), Detach(net, n, c), me)
  {
    DetachRoom(view, net, n, c, me);
    var room := Without(view[c.name], net.names[n]);
    DetachViews(view, net, n, c, me, room);
    ReplayKick(view, c.name, net.names[n], net.names[me]);
  }

  lemma KickMirrors(view: View, net: Net, n: Nick, c: Channel, me: Nick)
    requires Linked(net) && NamesIdentify(net) && n in net.on && c in net.users && me in net.on
    requires Mirrors(view, net, me)
    ensures Mirrors(Replay(view, Inbox(KickSends(net, n, c), me), net.names[me]), Detach(net, n, c), me)
  {
    KickInbox(net, n, c, me);
    if me != n && IsOn(net, me, c) {
      KickOtherMirrors(view, net, n, c, me);
    } else {
      DetachElsewhere(view, view, net, n, c, me);
    }
  }

  // ---------------------------------------------------------------- quit

  ghost predicate NoDupNicks(ns: seq<Nick>) {
    forall i, j :: 0 <= i < j < |ns| ==> ns[i] != ns[j]
  }

  lemma {:induction false} UnseenExact(us: seq<ChanUser>, sended: seq<Nick>, x: Nick)
    ensures x in Unseen(us, sended) <==> Among(us, x) && x !in sended
  {
    if us != [] {
      var front := us[..|us| - 1];
      UnseenExact(front, sended, x);
      assert Among(us, x) <==> Among(front, x) || us[|us| - 1].nick == x by {
        if Among(front, x) {
          var i :| 0 <= i < |front| && front[i].nick == x;
          assert us[i].nick == x;
        }
        if Among(us, x) {
          var i :| 0 <= i < |us| && us[i].nick == x;
          assert i < |front| ==> front[i].nick == x;
        }
      }
    }
  }

  lemma {:induction false} UnseenNoDup(us: seq<ChanUser>, sended: seq<Nick>)
    ensures NoDupNicks(Unseen(us, sended))
  {
    if us != [] {
      UnseenNoDup(us[..|us| - 1], sended);
    }
  }

  lemma NoDupConcat(a: seq<Nick>, b: seq<Nick>)
    requires NoDupNicks(a) && NoDupNicks(b) && forall y :: y in b ==> y !in a
    ensures NoDupNicks(a + b)
  {
    forall i, j | 0 <= i < j < |a + b|
      ensures (a + b)[i] != (a + b)[j]
    {
      if i < |a| <= j {
        assert (a + b)[i] in a && (a + b)[j] in b;
      }
    }
  }

  lemma {:induction false} RecipientsExact(net: Net, chans: seq<ChanUser>, x: Nick)
    requires forall cu :: cu in chans ==> cu.chan in net.users
    ensures NoDupNicks(Recipients(net, chans))
    ensures x in Recipients(net, chans) <==> exists i :: 0 <= i < |chans| && Among(net.users[chans[i].chan], x)
  {
    if chans != [] {
      var front, last := chans[..|chans| - 1], chans[|chans| - 1];
      RecipientsExact(net, front, x);
      var before := Recipients(net, front);
      UnseenNoDup(net.users[last.chan], before);
      UnseenExact(net.users[last.chan], before, x);
      forall y | y in Unseen(net.users[last.chan], before)
        ensures y !in before
      {
        UnseenExact(net.users[last.chan], before, y);
      }
      NoDupConcat(before, Unseen(net.users[last.chan], before));
      if x in Recipients(net, chans) {
        if x in before {
          var i :| 0 <= i < |front| && Among(net.users[front[i].chan], x);
          assert chans[i] == front[i] && Among(net.users[chans[i].chan], x);
        } else {
          assert Among(net.users[chans[|chans| - 1].chan], x);
        }
      }
      if i :| 0 <= i < |chans| && Among(net.users[chans[i].chan], x) {
        assert i < |front| ==> front[i] == chans[i];
      }
    }
  }

  lemma {:induction false} InboxSame(ns: seq<Nick>, m: Msg, x: Nick)
    requires NoDupNicks(ns)
    ensures Inbox(Same(ns, m), x) == if x in ns then [m] else []
  {
    if ns != [] {
      var front := ns[..|ns| - 1];
      assert Same(ns, m)[..|ns| - 1] == Same(front, m);
      assert ns == front + [ns[|ns| - 1]];
      InboxSame(front, m, x);
    }
  }

  /** `n` and `x` are on a common channel. */
  ghost predicate Shares(net: Net, n: Nick, x: Nick)
    requires n in net.on
  {
    exists cu :: cu in net.on[n] && IsOn(net, x, cu.chan)
  }

  /** When `n` quits, every nick that shares a channel with it receives exactly one
      QUIT, however many channels they share, and nobody else receives anything. */
  lemma QuitExactlyOnce(net: Net, n: Nick, x: Nick)
    requires Linked(net) && n in net.on && x in net.on
    ensures Inbox(QuitSends(net, n), x) == if Shares(net, n, x) then [Quit(net.names[n])] else []
  {
    var chans := net.on[n];
    RecipientsExact(net, chans, x);
    InboxSame(Recipients(net, chans), Quit(net.names[n]), x);
    forall i | 0 <= i < |chans|
      ensures Among(net.users[chans[i].chan], x) <==> IsOn(net, x, chans[i].chan)
    {
      assert chans[i] in chans;
      MembersDistinct(net, chans[i].chan);
    }
    if Shares(net, n, x) {
      var cu :| cu in net.on[n] && IsOn(net, x, cu.chan);
      var i :| 0 <= i < |chans| && chans[i] == cu;
    }
  }

  lemma ReplayQuit(view: View, who: string, me: string)
    requires who != me
    ensures Replay(view, [Quit(who)], me) == map c | c in view :: Without(view[c], who)
  {
    ReplayOne(view, Quit(who), me);
  }

  lemma AbsentName(room: Room, net: Net, n: Nick, c: Channel)
    requires Linked(net) && NamesIdentify(net) && n in net.on && c in net.users
    requires MirrorsRoom(room, net, c) && !IsOn(net, n, c)
    ensures Without(room, net.names[n]) == room
  {
    forall u | u in net.users[c]
      ensures u.nick in net.names && net.names[u.nick] != net.names[n]
    {
      assert u in net.cells && u.nick in net.on && u.nick != n;
    }
  }

  lemma QuitRoom(room: Room, net: Net, n: Nick, c: Channel)
    requires Linked(net) && NamesIdentify(net) && n in net.on && c in net.users
    requires MirrorsRoom(room, net, c)
    ensures MirrorsRoom(Without(room, net.names[n]), LeaveAll(net, n), c)
  {
    RoomDetach(room, net, LeaveAll(net, n), n, c);
  }

  lemma QuitSharedMirrors(view: View, net: Net, n: Nick, me: Nick)
    requires Linked(net) && NamesIdentify(net) && n in net.on && me in net.on && me != n
    requires Mirrors(view, net, me)
    ensures Mirrors(map c | c in view :: Without(view[c], net.names[n]), LeaveAll(net, n), me)
  {
    forall m | m in net.on[me]
      ensures m.chan in net.users && m.chan.name in view
      ensures MirrorsRoom(Without(view[m.chan.name], net.names[n]), LeaveAll(net, n), m.chan)
    {
      QuitRoom(view[m.chan.name], net, n, m.chan);
    }
  }

  lemma QuitElsewhereMirrors(view: View, net: Net, n: Nick, me: Nick)
    requires Linked(net) && NamesIdentify(net) && n in net.on && me in net.on && me != n
    requires Mirrors(view, net, me) && !Shares(net, n, me)
    ensures Mirrors(view, LeaveAll(net, n), me)
  {
    forall m | m in net.on[me]
      ensures m.chan in net.users && m.chan.name in view
      ensures MirrorsRoom(view[m.chan.name], LeaveAll(net, n), m.chan)
    {
      NotShared(net, n, me, m);
      AbsentName(view[m.chan.name], net, n, m.chan);
      QuitRoom(view[m.chan.name], net, n, m.chan);
    }
  }

  lemma NotShared(net: Net, n: Nick, me: Nick, m: ChanUser)
    requires Linked(net) && n in net.on && me in net.on && m in net.on[me] && !Shares(net, n, me)
    ensures !IsOn(net, n, m.chan)
  {
    if IsOn(net, n, m.chan) {
      SharedIfOn(net, n, me, m);
    }
  }

  lemma SharedIfOn(net: Net, n: Nick, me: Nick, m: ChanUser)
    requires Linked(net) && n in net.on && me in net.on && m in net.on[me] && IsOn(net, n, m.chan)
    ensures Shares(net, n, me)
  {
    var x :| x in net.cells && x.nick == n && x.chan == m.chan;
    assert x in net.on[n] && m in net.cells;
    assert IsOn(net, me, x.chan);
  }

  lemma QuitMirrors(view: View, net: Net, n: Nick, me: Nick)
    requires Linked(net) && NamesIdentify(net) && n in net.on && me in net.on
    requires Mirrors(view, net, me)
    ensures Mirrors(Replay(view, Inbox(QuitSends(net, n), me), net.names[me]), LeaveAll(net, n), me)
  {
    if me != n {
      assert net.names[n] != net.names[me];
      QuitExactlyOnce(net, n, me);
      ReplayQuit(view, net.names[n], net.names[me]);
      if Shares(net, n, me) {
        QuitSharedMirrors(view, net, n, me);
      } else {
        QuitElsewhereMirrors(view, net, n, me);
      }
    }
  }

  // ---------------------------------------------------------------- closing a channel, nicks

  /** Each member of a closing channel is told of its own part, nobody else's. */
  lemma {:induction false} CloseInbox(net: Net, c: Channel, us: seq<ChanUser>, u: Nick)
    requires forall cu :: cu in us ==> cu.nick in net.names
    requires DistinctNicks(us) && u in net.names
    ensures Inbox(PartEach(net, us, c), u) == if Among(us, u) then [Part(net.names[u], c.name)] else []
  {
    if us != [] {
      var front := us[..|us| - 1];
      AmongFront(us, u);
      assert PartEach(net, us, c)[..|us| - 1] == PartEach(net, front, c);
      CloseInbox(net, c, front, u);
    }
  }

  lemma CloseBut(view: View, net: Net, c: Channel, me: Nick)
    requires Linked(net) && c in net.users && me in net.on
    requires Mirrors(view, net, me)
    ensures MirrorsBut(view, Close(net, c), me, c)
    ensures forall m :: m in Close(net, c).on[me] ==> m.chan != c
  {
    forall m | m in Close(net, c).on[me]
      ensures m.chan in Close(net, c).users && m.chan.name in view && m.chan != c
      ensures MirrorsRoom(view[m.chan.name], Close(net, c), m.chan)
    {
      assert m in net.on[me];
      RoomFrame(view[m.chan.name], net, Close(net, c), m.chan);
    }
  }

  lemma CloseViews(view: View, view': View, net: Net, c: Channel, me: Nick)
    requires Linked(net) && NamesIdentify(net) && c in net.users && me in net.on
    requires Mirrors(view, net, me)
    requires forall s :: s in view && s != c.name ==> s in view' && view'[s] == view[s]
    ensures Mirrors(view', Close(net, c), me)
  {
    CloseBut(view, net, c, me);
    forall m | m in Close(net, c).on[me]
      ensures m.chan in net.users && m.chan.name != c.name
    {
      assert m in net.on[me];
    }
  }

  lemma OpenMirrors(view: View, net: Net, c: Channel, me: Nick)
    requires Linked(net) && c !in net.users && me in net.on
    requires Mirrors(view, net, me)
    ensures Mirrors(view, OpenChannel(net, c), me)
  {
    forall m | m in net.on[me]
      ensures m.chan in net.users && MirrorsRoom(view[m.chan.name], OpenChannel(net, c), m.chan)
    {
      RoomFrame(view[m.chan.name], net, OpenChannel(net, c), m.chan);
    }
  }

  lemma RegisterMirrors(view: View, net: Net, n: Nick, name: string, handle: Handle, me: Nick)
    requires Linked(net) && n !in net.names && me in net.on
    requires Mirrors(view, net, me)
    ensures Mirrors(view, Register(net, n, name, handle), me)
  {
    forall m | m in net.on[me]
      ensures m.chan in net.users && MirrorsRoom(view[m.chan.name], Register(net, n, name, handle), m.chan)
    {
      RoomFrame(view[m.chan.name], net, Register(net, n, name, handle), m.chan);
    }
  }

  lemma ForgetMirrors(view: View, net: Net, gone: set<Nick>, me: Nick)
    requires Linked(net) && me in net.on && me !in gone
    requires forall n :: n in gone && n in net.on ==> net.on[n] == []
    requires Mirrors(view, net, me)
    ensures Mirrors(view, Forget(net, gone), me)
  {
    forall m | m in net.on[me]
      ensures m.chan in net.users && MirrorsRoom(view[m.chan.name], Forget(net, gone), m.chan)
    {
      RoomFrame(view[m.chan.name], net, Forget(net, gone), m.chan);
    }
  }

  /** The client is told of every rename, whatever channels it is on. */
  lemma RenameMirrors(view: View, net: Net, n: Nick, newNick: string, me: Nick)
    requires Linked(net) && NamesIdentify(net) && n in net.names && me in net.on
    requires forall m :: m in net.names ==> net.names[m] != newNick || m == n
    requires Mirrors(view, net, me)
    ensures Mirrors(Replay(view, [NickChange(net.names[n], newNick)], net.names[me]), Rename(net, n, newNick), me)
  {
    ReplayOne(view, NickChange(net.names[n], newNick), net.names[me]);
    forall m | m in net.on[me]
      ensures m.chan in net.users && m.chan.name in view
      ensures MirrorsRoom(Renamed(view[m.chan.name], net.names[n], newNick), Rename(net, n, newNick), m.chan)
    {
      RoomRename(view[m.chan.name], net, n, newNick, m.chan);
    }
  }
}
