/** Whole runs of the network: what holds in every reachable state, and what the
    gateway user's client knows after any run. */
module NetworkRuns {
  import opened Modes
  import opened Network
  import opened NetworkInvariants
  import opened RoomIndex
  import opened ClientMirror
  import opened Text

  /** One call from outside. `me` is the gateway user. */
  datatype Op =
    | OpRegister(n: Nick, name: string, handle: Handle)
    | OpOpen(c: Channel)
    | OpJoin(cu: ChanUser, status: Mask)
    | OpMode(cu: ChanUser, add: bool, modes: Mask)
    | OpPart(n: Nick, c: Channel)
    | OpKick(n: Nick, c: Channel)
    | OpQuit(n: Nick)
    | OpRename(n: Nick, newNick: string)
    | OpDrop(n: Nick)
    | OpClose(c: Channel)
    | OpAddBuddy(cu: ChanUser, name: string, handle: Handle, status: Mask)
    | OpTag(cu: ChanUser, handle: Handle)
    | OpRenameBuddy(cu: ChanUser, handle: Handle, newNick: string)
    | OpLoseBuddy(n: Nick, c: Channel)

  ghost predicate Good(net: Net, me: Nick) {
    Linked(net) && Indexed(net) && RoomsIndexed(net) && ChannelsIdentify(net) && me in net.on && !me.chat
  }

  /** So it is at the start. */
  lemma AloneIsGood(user: Nick, name: string, handle: Handle)
    requires !user.chat
    ensures Good(Alone(user, name, handle), user)
  {}

  // The calls are dealt with in four groups; the last is those of chat buddies.

  predicate OfArrival(op: Op) {
    op.OpRegister? || op.OpOpen? || op.OpJoin? || op.OpMode?
  }

  predicate OfDeparture(op: Op) {
    op.OpPart? || op.OpKick? || op.OpQuit?
  }

  predicate OfChange(op: Op) {
    op.OpRename? || op.OpDrop? || op.OpClose?
  }

  predicate OfBuddies(op: Op) {
    !OfArrival(op) && !OfDeparture(op) && !OfChange(op)
  }

  /** What the callers see to. A fresh cell is not allocated yet; nicknames are
      checked with `getNick`, and channel names with `getChannel`; nobody renames or
      deletes the gateway user. Only a contact can be kicked, from its status channel,
      so that the gateway user never is. Chat buddies come and go with their room only;
      libpurple keeps the handles of a room distinct. */
  ghost predicate Enabled(net: Net, me: Nick, op: Op) {
    if OfArrival(op) then ArrivalEnabled(net, me, op)
    else if OfDeparture(op) then DepartureEnabled(net, me, op)
    else if OfChange(op) then ChangeEnabled(net, me, op)
    else BuddyEnabled(net, me, op)
  }

  ghost predicate ArrivalEnabled(net: Net, me: Nick, op: Op)
    requires OfArrival(op)
  {
    match op
    case OpRegister(n, name, _) => n !in net.names && FreeName(net, name) && !n.chat
    case OpOpen(c) => c !in net.users && forall d :: d in net.users ==> d.name != c.name
    case OpJoin(cu, _) =>
      cu !in net.cells && cu.nick in net.on && !cu.nick.chat && cu.chan in net.users && !IsOn(net, cu.nick, cu.chan)
    case OpMode(cu, _, _) => cu in net.cells
  }

  ghost predicate DepartureEnabled(net: Net, me: Nick, op: Op)
    requires OfDeparture(op)
  {
    match op
    case OpPart(n, c) => n in net.on && !n.chat && c in net.users && IsOn(net, n, c)
    case OpKick(n, c) => n in net.on && n != me && !n.chat && c in net.users && !c.room && IsOn(net, n, c)
    case OpQuit(n) => n in net.on && !n.chat
  }

  ghost predicate ChangeEnabled(net: Net, me: Nick, op: Op)
    requires OfChange(op)
  {
    match op
    case OpRename(n, newNick) => n in net.names && n != me && FreeFor(net, n, newNick)
    case OpDrop(n) => n in net.on && n != me
    case OpClose(c) => c in net.users
  }

  ghost predicate BuddyEnabled(net: Net, me: Nick, op: Op)
    requires OfBuddies(op)
  {
    match op
    case OpAddBuddy(cu, name, h, _) =>
      && cu.nick !in net.names && cu.nick.chat && cu !in net.cells && FreeName(net, name)
      && cu.chan in net.users && cu.chan in net.buddies && cu.chan.room && h !in net.buddies[cu.chan]
    case OpTag(cu, h) =>
      && cu in net.cells && cu.chan in net.buddies && cu.chan.room && !cu.nick.chat
      && (h !in net.buddies[cu.chan] || net.buddies[cu.chan][h] == cu)
      && (forall g :: g in net.buddies[cu.chan] && net.buddies[cu.chan][g] == cu ==> g == h)
    case OpRenameBuddy(cu, h, newNick) =>
      && cu in net.cells && cu.nick in net.handles && cu.chan in net.buddies
      && cu.nick.chat && FreeFor(net, cu.nick, newNick)
      && (h in net.buddies[cu.chan] ==> h == net.handles[cu.nick])
    case OpLoseBuddy(n, c) => n in net.on && n.chat && c in net.users && IsOn(net, n, c)
  }

  ghost function Step(net: Net, me: Nick, op: Op): Net
    requires Good(net, me) && Enabled(net, me, op)
  {
    if OfArrival(op) then ArrivalStep(net, me, op)
    else if OfDeparture(op) then DepartureStep(net, me, op)
    else if OfChange(op) then ChangeStep(net, me, op)
    else BuddyStep(net, me, op)
  }

  ghost function ArrivalStep(net: Net, me: Nick, op: Op): Net
    requires Good(net, me) && Enabled(net, me, op) && OfArrival(op)
  {
    match op
    case OpRegister(n, name, handle) => Register(net, n, name, handle)
    case OpOpen(c) => OpenChannel(net, c)
    case OpJoin(cu, status) => Enter(net, cu, status)
    case OpMode(cu, add, modes) => ChangeMode(net, cu, add, modes)
  }

  ghost function DepartureStep(net: Net, me: Nick, op: Op): Net
    requires Good(net, me) && Enabled(net, me, op) && OfDeparture(op)
  {
    match op
    case OpPart(n, c) => Detach(net, n, c)
    case OpKick(n, c) => Detach(net, n, c)
    case OpQuit(n) => LeaveAll(net, n)
  }

  ghost function ChangeStep(net: Net, me: Nick, op: Op): Net
    requires Good(net, me) && Enabled(net, me, op) && OfChange(op)
  {
    match op
    case OpRename(n, newNick) => Rename(net, n, newNick)
    case OpDrop(n) => Forget(LeaveAll(net, n), {n})
    case OpClose(c) => CloseRoom(net, c)
  }

  ghost function BuddyStep(net: Net, me: Nick, op: Op): Net
    requires Good(net, me) && Enabled(net, me, op) && OfBuddies(op)
  {
    match op
    case OpAddBuddy(cu, name, h, status) => AddBuddy(net, cu, name, h, status)
    case OpTag(cu, h) => Tag(net, cu.chan, h, cu)
    case OpRenameBuddy(cu, h, newNick) => RenameBuddy(net, cu, h, newNick)
    case OpLoseBuddy(n, c) => LoseBuddy(net, n, c)
  }

  ghost function Sends(net: Net, me: Nick, op: Op): seq<Delivery>
    requires Good(net, me) && Enabled(net, me, op)
  {
    if OfArrival(op) then ArrivalSends(net, me, op)
    else if OfDeparture(op) then DepartureSends(net, me, op)
    else if OfChange(op) then ChangeSends(net, me, op)
    else BuddySends(net, me, op)
  }

  ghost function ArrivalSends(net: Net, me: Nick, op: Op): seq<Delivery>
    requires Good(net, me) && Enabled(net, me, op) && OfArrival(op)
  {
    match op
    case OpRegister(n, name, handle) => []
    case OpOpen(c) => []
    case OpJoin(cu, status) => JoinSends(net, cu, status)
    case OpMode(cu, add, modes) => ChangeModeSends(net, cu, add, modes)
  }

  ghost function DepartureSends(net: Net, me: Nick, op: Op): seq<Delivery>
    requires Good(net, me) && Enabled(net, me, op) && OfDeparture(op)
  {
    match op
    case OpPart(n, c) => PartSends(net, n, c)
    case OpKick(n, c) => KickSends(net, n, c)
    case OpQuit(n) => QuitSends(net, n)
  }

  ghost function ChangeSends(net: Net, me: Nick, op: Op): seq<Delivery>
    requires Good(net, me) && Enabled(net, me, op) && OfChange(op)
  {
    match op
    case OpRename(n, newNick) => RenameSends(net, me, n, newNick)
    case OpDrop(n) => QuitSends(net, n)
    case OpClose(c) => CloseRoomSends(net, c)
  }

  ghost function BuddySends(net: Net, me: Nick, op: Op): seq<Delivery>
    requires Good(net, me) && Enabled(net, me, op) && OfBuddies(op)
  {
    match op
    case OpAddBuddy(cu, name, h, status) => AddBuddySends(net, cu, name, h, status)
    case OpTag(cu, h) => []
    case OpRenameBuddy(cu, h, newNick) => RenameSends(net, me, cu.nick, newNick)
    case OpLoseBuddy(n, c) => PartSends(net, n, c)
  }

  lemma GoodIdentifies(net: Net, me: Nick)
    requires Good(net, me)
    ensures NamesIdentify(net)
  {}

  // ---------------------------------------------------------------- one call keeps the state good

  lemma AddBuddyKeepsLinked(net: Net, cu: ChanUser, name: string, h: Handle, status: Mask)
    requires Linked(net) && cu.nick !in net.names && cu !in net.cells && cu.chan in net.users
    ensures Linked(AddBuddy(net, cu, name, h, status))
  {
    var registered := Register(net, cu.nick, name, h);
    RegisterKeepsLinked(net, cu.nick, name, h);
    NewBuddyIsOff(net, cu.nick, name, h, cu.chan);
    EnterKeepsLinked(registered, cu, status);
    TagKeepsLinked(Enter(registered, cu, status), cu, h);
  }

  lemma RenameBuddyKeepsLinked(net: Net, cu: ChanUser, h: Handle, newNick: string)
    requires Linked(net) && cu in net.cells
    ensures Linked(RenameBuddy(net, cu, h, newNick))
  {}

  lemma LoseBuddyKeepsLinked(net: Net, n: Nick, c: Channel)
    requires Linked(net) && RoomsIndexed(net) && n in net.on && n.chat && c in net.users && IsOn(net, n, c)
    ensures Linked(LoseBuddy(net, n, c))
  {
    LoseBuddyIsDrop(net, n, c);
    DropKeepsLinked(net, n);
  }

  lemma ClosedChatsAreOff(net: Net, c: Channel, n: Nick)
    requires Linked(net) && RoomsIndexed(net) && c in net.users && n in Chats(net.users[c])
    ensures n in net.on && Close(net, c).on[n] == []
  {
    var x :| x in net.users[c] && x.nick.chat && x.nick == n;
    assert IsOn(net, n, c);
    OnlyHere(net, n, c);
  }

  lemma CloseRoomKeepsLinked(net: Net, c: Channel)
    requires Linked(net) && RoomsIndexed(net) && c in net.users
    ensures Linked(CloseRoom(net, c))
  {
    CloseKeepsLinked(net, c);
    forall n | n in Chats(net.users[c])
      ensures n in net.on && Close(net, c).on[n] == []
    {
      ClosedChatsAreOff(net, c, n);
    }
    ForgetKeepsLinked(Close(net, c), Chats(net.users[c]));
  }

  lemma ArrivalKeepsLinked(net: Net, me: Nick, op: Op)
    requires Good(net, me) && Enabled(net, me, op) && OfArrival(op)
    ensures Linked(Step(net, me, op))
  {
    match op
    case OpRegister(n, name, handle) => RegisterKeepsLinked(net, n, name, handle);
    case OpOpen(c) => OpenKeepsLinked(net, c);
    case OpJoin(cu, status) => EnterKeepsLinked(net, cu, status);
    case OpMode(cu, add, modes) => ChangeModeKeepsLinked(net, cu, add, modes);
  }

  lemma DepartureKeepsLinked(net: Net, me: Nick, op: Op)
    requires Good(net, me) && Enabled(net, me, op) && OfDeparture(op)
    ensures Linked(Step(net, me, op))
  {
    match op
    case OpPart(n, c) => DetachKeepsLinked(net, n, c);
    case OpKick(n, c) => DetachKeepsLinked(net, n, c);
    case OpQuit(n) => LeaveAllKeepsLinked(net, n);
  }

  lemma ChangeIs(net: Net, me: Nick, op: Op)
    requires Good(net, me) && Enabled(net, me, op) && OfChange(op)
    ensures match op
            case OpRename(n, newNick) =>
              n in net.names && n != me && FreeFor(net, n, newNick) && Step(net, me, op) == Rename(net, n, newNick)
            case OpDrop(n) => n in net.on && n != me && Step(net, me, op) == Forget(LeaveAll(net, n), {n})
            case OpClose(c) => c in net.users && Step(net, me, op) == CloseRoom(net, c)
  {}

  lemma ChangeKeepsLinked(net: Net, me: Nick, op: Op)
    requires Good(net, me) && Enabled(net, me, op) && OfChange(op)
    ensures Linked(Step(net, me, op))
  {
    ChangeIs(net, me, op);
    match op
    case OpRename(n, newNick) => RenameKeepsLinked(net, n, newNick);
    case OpDrop(n) => DropKeepsLinked(net, n);
    case OpClose(c) => CloseRoomKeepsLinked(net, c);
  }

  lemma BuddyKeepsLinked(net: Net, me: Nick, op: Op)
    requires Good(net, me) && Enabled(net, me, op) && OfBuddies(op)
    ensures Linked(Step(net, me, op))
  {
    match op
    case OpAddBuddy(cu, name, h, status) => AddBuddyKeepsLinked(net, cu, name, h, status);
    case OpTag(cu, h) => TagKeepsLinked(net, cu, h);
    case OpRenameBuddy(cu, h, newNick) => RenameBuddyKeepsLinked(net, cu, h, newNick);
    case OpLoseBuddy(n, c) => LoseBuddyKeepsLinked(net, n, c);
  }

  lemma StepKeepsLinked(net: Net, me: Nick, op: Op)
    requires Good(net, me) && Enabled(net, me, op)
    ensures Linked(Step(net, me, op))
  {
    if OfArrival(op) {
      ArrivalKeepsLinked(net, me, op);
    } else if OfDeparture(op) {
      DepartureKeepsLinked(net, me, op);
    } else if OfChange(op) {
      ChangeKeepsLinked(net, me, op);
    } else {
      BuddyKeepsLinked(net, me, op);
    }
  }

  lemma DropKeepsIndexed(net: Net, n: Nick)
    requires Indexed(net) && n in net.on
    ensures Indexed(Forget(LeaveAll(net, n), {n}))
  {
    SameIndex(net, LeaveAll(net, n));
    ForgetKeepsIndexed(LeaveAll(net, n), {n});
  }

  lemma CloseRoomKeepsIndexed(net: Net, c: Channel)
    requires Indexed(net) && c in net.users
    ensures Indexed(CloseRoom(net, c))
  {
    SameIndex(net, Close(net, c));
    ForgetKeepsIndexed(Close(net, c), Chats(net.users[c]));
  }

  lemma LoseBuddyKeepsIndexed(net: Net, n: Nick, c: Channel)
    requires Indexed(net) && n in net.on && c in net.users && c in net.buddies
    ensures Indexed(LoseBuddy(net, n, c))
  {
    SameIndex(net, Detach(net, n, c));
    ForgetKeepsIndexed(Detach(net, n, c), {n});
  }

  lemma SameIndex(net: Net, after: Net)
    requires Indexed(net) && after.names == net.names && after.index == net.index
    ensures Indexed(after)
  {}

  lemma ArrivalKeepsIndexed(net: Net, me: Nick, op: Op)
    requires Good(net, me) && Enabled(net, me, op) && OfArrival(op)
    ensures Indexed(Step(net, me, op))
  {
    match op
    case OpRegister(n, name, handle) => RegisterKeepsIndexed(net, n, name, handle);
    case OpOpen(c) => SameIndex(net, OpenChannel(net, c));
    case OpJoin(cu, status) => SameIndex(net, Enter(net, cu, status));
    case OpMode(cu, add, modes) => SameIndex(net, ChangeMode(net, cu, add, modes));
  }

  lemma DepartureKeepsIndexed(net: Net, me: Nick, op: Op)
    requires Good(net, me) && Enabled(net, me, op) && OfDeparture(op)
    ensures Indexed(Step(net, me, op))
  {
    match op
    case OpPart(n, c) => SameIndex(net, Detach(net, n, c));
    case OpKick(n, c) => SameIndex(net, Detach(net, n, c));
    case OpQuit(n) => SameIndex(net, LeaveAll(net, n));
  }

  lemma ChangeKeepsIndexed(net: Net, me: Nick, op: Op)
    requires Good(net, me) && Enabled(net, me, op) && OfChange(op)
    ensures Indexed(Step(net, me, op))
  {
    ChangeIs(net, me, op);
    match op
    case OpRename(n, newNick) => RenameKeepsIndexed(net, n, newNick);
    case OpDrop(n) => DropKeepsIndexed(net, n);
    case OpClose(c) => CloseRoomKeepsIndexed(net, c);
  }

  lemma BuddyKeepsIndexed(net: Net, me: Nick, op: Op)
    requires Good(net, me) && Enabled(net, me, op) && OfBuddies(op)
    ensures Indexed(Step(net, me, op))
  {
    match op
    case OpAddBuddy(cu, name, h, status) =>
      RegisterKeepsIndexed(net, cu.nick, name, h);
      SameIndex(Register(net, cu.nick, name, h), AddBuddy(net, cu, name, h, status));
    case OpTag(cu, h) => SameIndex(net, Tag(net, cu.chan, h, cu));
    case OpRenameBuddy(cu, h, newNick) =>
      RenameKeepsIndexed(net, cu.nick, newNick);
      SameIndex(Rename(net, cu.nick, newNick), RenameBuddy(net, cu, h, newNick));
    case OpLoseBuddy(n, c) => LoseBuddyKeepsIndexed(net, n, c);
  }

  lemma StepKeepsIndexed(net: Net, me: Nick, op: Op)
    requires Good(net, me) && Enabled(net, me, op)
    ensures Indexed(Step(net, me, op))
  {
    if OfArrival(op) {
      ArrivalKeepsIndexed(net, me, op);
    } else if OfDeparture(op) {
      DepartureKeepsIndexed(net, me, op);
    } else if OfChange(op) {
      ChangeKeepsIndexed(net, me, op);
    } else {
      BuddyKeepsIndexed(net, me, op);
    }
  }

  lemma ArrivalKeepsRooms(net: Net, me: Nick, op: Op)
    requires Good(net, me) && Enabled(net, me, op) && OfArrival(op)
    ensures RoomsIndexed(Step(net, me, op))
  {
    match op
    case OpRegister(n, name, handle) => RegisterKeepsRooms(net, n, name, handle);
    case OpOpen(c) => OpenKeepsRooms(net, c);
    case OpJoin(cu, status) => EnterKeeps(net, cu, status);
    case OpMode(cu, add, modes) => SameRooms(net, ChangeMode(net, cu, add, modes));
  }

  lemma DepartureKeepsRooms(net: Net, me: Nick, op: Op)
    requires Good(net, me) && Enabled(net, me, op) && OfDeparture(op)
    ensures RoomsIndexed(Step(net, me, op))
  {
    match op
    case OpPart(n, c) => DetachKeeps(net, n, c);
    case OpKick(n, c) => DetachKeeps(net, n, c);
    case OpQuit(n) => LeaveAllKeeps(net, n);
  }

  lemma RenameKeepsRooms(net: Net, n: Nick, newNick: string)
    requires RoomsIndexed(net) && n in net.names
    ensures RoomsIndexed(Rename(net, n, newNick))
  {
    SameRooms(net, Rename(net, n, newNick));
  }

  lemma ChangeKeepsRooms(net: Net, me: Nick, op: Op)
    requires Good(net, me) && Enabled(net, me, op) && OfChange(op)
    ensures RoomsIndexed(Step(net, me, op))
  {
    ChangeIs(net, me, op);
    match op
    case OpRename(n, newNick) => RenameKeepsRooms(net, n, newNick);
    case OpDrop(n) => DropKeeps(net, n);
    case OpClose(c) => CloseRoomKeeps(net, c);
  }

  lemma BuddyKeepsRooms(net: Net, me: Nick, op: Op)
    requires Good(net, me) && Enabled(net, me, op) && OfBuddies(op)
    ensures RoomsIndexed(Step(net, me, op))
  {
    match op
    case OpAddBuddy(cu, name, h, status) => AddBuddyKeeps(net, cu, name, h, status);
    case OpTag(cu, h) => TagKeeps(net, cu, h);
    case OpRenameBuddy(cu, h, newNick) => RenameBuddyKeeps(net, cu, h, newNick);
    case OpLoseBuddy(n, c) => LoseBuddyKeeps(net, n, c);
  }

  lemma StepKeepsRooms(net: Net, me: Nick, op: Op)
    requires Good(net, me) && Enabled(net, me, op)
    ensures RoomsIndexed(Step(net, me, op))
  {
    if OfArrival(op) {
      ArrivalKeepsRooms(net, me, op);
    } else if OfDeparture(op) {
      DepartureKeepsRooms(net, me, op);
    } else if OfChange(op) {
      ChangeKeepsRooms(net, me, op);
    } else {
      BuddyKeepsRooms(net, me, op);
    }
  }

  lemma StepKeepsChannels(net: Net, me: Nick, op: Op)
    requires Good(net, me) && Enabled(net, me, op)
    ensures ChannelsIdentify(Step(net, me, op))
  {}

  ghost predicate KeepsMe(net: Net, after: Net, me: Nick) {
    me in after.on && me in after.names && me in net.names && after.names[me] == net.names[me]
  }

  lemma CloseKeepsMe(net: Net, c: Channel, me: Nick)
    requires me in net.names && me in net.on && !me.chat && c in net.users
    ensures KeepsMe(net, CloseRoom(net, c), me)
  {}

  lemma DropKeepsMe(net: Net, n: Nick, me: Nick)
    requires me in net.names && me in net.on && me != n && n in net.on
    ensures KeepsMe(net, Forget(LeaveAll(net, n), {n}), me)
    ensures Forget(LeaveAll(net, n), {n}).on[me] == LeaveAll(net, n).on[me]
  {}

  lemma RenameKeepsMe(net: Net, n: Nick, newNick: string, me: Nick)
    requires me in net.names && me in net.on && me != n && n in net.names
    ensures KeepsMe(net, Rename(net, n, newNick), me)
  {}

  lemma AddBuddyKeepsMe(net: Net, cu: ChanUser, name: string, h: Handle, status: Mask, me: Nick)
    requires me in net.names && me in net.on && cu.nick != me && cu.chan in net.users && cu.chan in net.buddies
    ensures KeepsMe(net, AddBuddy(net, cu, name, h, status), me)
  {}

  lemma RenameBuddyKeepsMe(net: Net, cu: ChanUser, h: Handle, newNick: string, me: Nick)
    requires me in net.names && me in net.on && me != cu.nick && cu.nick in net.names
    requires cu.nick in net.handles && cu.chan in net.buddies
    ensures KeepsMe(net, RenameBuddy(net, cu, h, newNick), me)
  {}

  lemma LoseBuddyKeepsMe(net: Net, n: Nick, c: Channel, me: Nick)
    requires me in net.names && me in net.on && me != n && n in net.on && c in net.users && c in net.buddies
    ensures KeepsMe(net, LoseBuddy(net, n, c), me)
    ensures LoseBuddy(net, n, c).on[me] == Detach(net, n, c).on[me]
  {}

  lemma ArrivalKeepsMe(net: Net, me: Nick, op: Op)
    requires Good(net, me) && Enabled(net, me, op) && OfArrival(op)
    ensures KeepsMe(net, Step(net, me, op), me)
  {}

  lemma DepartureKeepsMe(net: Net, me: Nick, op: Op)
    requires Good(net, me) && Enabled(net, me, op) && OfDeparture(op)
    ensures KeepsMe(net, Step(net, me, op), me)
  {}

  lemma ChangeKeepsMe(net: Net, me: Nick, op: Op)
    requires Good(net, me) && Enabled(net, me, op) && OfChange(op)
    ensures KeepsMe(net, Step(net, me, op), me)
  {
    ChangeIs(net, me, op);
    match op
    case OpClose(c) => CloseKeepsMe(net, c, me);
    case OpDrop(n) => DropKeepsMe(net, n, me);
    case OpRename(n, newNick) => RenameKeepsMe(net, n, newNick, me);
  }

  lemma BuddyKeepsMe(net: Net, me: Nick, op: Op)
    requires Good(net, me) && Enabled(net, me, op) && OfBuddies(op)
    ensures KeepsMe(net, Step(net, me, op), me)
  {
    match op
    case OpAddBuddy(cu, name, h, status) => AddBuddyKeepsMe(net, cu, name, h, status, me);
    case OpTag(_, _) =>
    case OpRenameBuddy(cu, h, newNick) => RenameBuddyKeepsMe(net, cu, h, newNick, me);
    case OpLoseBuddy(n, c) => LoseBuddyKeepsMe(net, n, c, me);
  }

  lemma StepKeepsMe(net: Net, me: Nick, op: Op)
    requires Good(net, me) && Enabled(net, me, op)
    ensures KeepsMe(net, Step(net, me, op), me)
  {
    if OfArrival(op) {
      ArrivalKeepsMe(net, me, op);
    } else if OfDeparture(op) {
      DepartureKeepsMe(net, me, op);
    } else if OfChange(op) {
      ChangeKeepsMe(net, me, op);
    } else {
      BuddyKeepsMe(net, me, op);
    }
  }

  /** Every call keeps the membership vectors, the allocated cells, the nick index
      and the room indexes in agreement. */
  lemma StepKeepsGood(net: Net, me: Nick, op: Op)
    requires Good(net, me) && Enabled(net, me, op)
    ensures Good(Step(net, me, op), me)
  {
    StepKeepsLinked(net, me, op);
    StepKeepsIndexed(net, me, op);
    StepKeepsRooms(net, me, op);
    StepKeepsChannels(net, me, op);
    StepKeepsMe(net, me, op);
  }

  // ---------------------------------------------------------------- one call keeps the client right

  lemma JoinMirrors(view: View, net: Net, cu: ChanUser, status: Mask, me: Nick)
    requires Linked(net) && NamesIdentify(net) && cu.nick in net.on && cu.chan in net.users && me in net.on
    requires cu !in net.cells && !IsOn(net, cu.nick, cu.chan)
    requires Mirrors(view, net, me)
    ensures Mirrors(Replay(view, Inbox(JoinSends(net, cu, status), me), net.names[me]), Enter(net, cu, status), me)
  {
    EnterKeepsLinked(net, cu, status);
    if cu.nick == me {
      EnterSelfMirrors(view, net, cu, status);
    } else {
      EnterOtherMirrors(view, net, cu, status, me);
    }
  }

  lemma DropMirrors(view: View, net: Net, n: Nick, me: Nick)
    requires Linked(net) && NamesIdentify(net) && n in net.on && me in net.on && me != n
    requires Mirrors(view, net, me)
    ensures Mirrors(Replay(view, Inbox(QuitSends(net, n), me), net.names[me]), Forget(LeaveAll(net, n), {n}), me)
  {
    QuitMirrors(view, net, n, me);
    LeaveAllKeepsLinked(net, n);
    ForgetMirrors(Replay(view, Inbox(QuitSends(net, n), me), net.names[me]), LeaveAll(net, n), {n}, me);
  }

  lemma RenameOpMirrors(view: View, net: Net, n: Nick, newNick: string, me: Nick)
    requires Good(net, me) && n in net.names && FreeFor(net, n, newNick) && Mirrors(view, net, me)
    ensures Mirrors(Replay(view, Inbox(RenameSends(net, me, n, newNick), me), net.names[me]),
                    Rename(net, n, newNick), me)
  {
    GoodIdentifies(net, me);
    InboxTo(me, [NickChange(net.names[n], newNick)], me);
    ToOne(me, NickChange(net.names[n], newNick));
    RenameMirrors(view, net, n, newNick, me);
  }

  /** The view depends on the members, their names and their modes only. */
  lemma SameView(view: View, net: Net, after: Net, me: Nick)
    requires me in net.on && Mirrors(view, net, me)
    requires after.on == net.on && after.users == net.users && after.names == net.names && after.cells == net.cells
    ensures Mirrors(view, after, me)
  {
    forall m | m in net.on[me]
      ensures m.chan in after.users && MirrorsRoom(view[m.chan.name], after, m.chan)
    {
      RoomFrame(view[m.chan.name], net, after, m.chan);
    }
  }

  lemma AddBuddyMirrors(view: View, net: Net, cu: ChanUser, name: string, h: Handle, status: Mask, me: Nick)
    requires Good(net, me) && Enabled(net, me, OpAddBuddy(cu, name, h, status)) && Mirrors(view, net, me)
    ensures Mirrors(Replay(view, Inbox(AddBuddySends(net, cu, name, h, status), me), net.names[me]),
                    AddBuddy(net, cu, name, h, status), me)
  {
    var registered := Register(net, cu.nick, name, h);
    RegisterKeepsLinked(net, cu.nick, name, h);
    RegisterKeepsIndexed(net, cu.nick, name, h);
    IndexedIdentifies(registered);
    NewBuddyIsOff(net, cu.nick, name, h, cu.chan);
    RegisterMirrors(view, net, cu.nick, name, h, me);
    JoinMirrors(view, registered, cu, status, me);
    SameView(Replay(view, Inbox(AddBuddySends(net, cu, name, h, status), me), net.names[me]),
             Enter(registered, cu, status), AddBuddy(net, cu, name, h, status), me);
  }

  lemma IndexedIdentifies(net: Net)
    requires Indexed(net) && ChannelsIdentify(net)
    ensures NamesIdentify(net)
  {}

  lemma RenameBuddyMirrors(view: View, net: Net, cu: ChanUser, h: Handle, newNick: string, me: Nick)
    requires Good(net, me) && cu in net.cells && FreeFor(net, cu.nick, newNick) && Mirrors(view, net, me)
    ensures Mirrors(Replay(view, Inbox(RenameSends(net, me, cu.nick, newNick), me), net.names[me]),
                    RenameBuddy(net, cu, h, newNick), me)
  {
    RenameOpMirrors(view, net, cu.nick, newNick, me);
    SameView(Replay(view, Inbox(RenameSends(net, me, cu.nick, newNick), me), net.names[me]),
             Rename(net, cu.nick, newNick), RenameBuddy(net, cu, h, newNick), me);
  }

  lemma LoseBuddyMirrors(view: View, net: Net, n: Nick, c: Channel, me: Nick)
    requires Linked(net) && NamesIdentify(net) && RoomsIndexed(net) && me in net.on && !me.chat && Mirrors(view, net, me)
    requires n in net.on && n.chat && c in net.users && c in net.buddies && IsOn(net, n, c)
    ensures Mirrors(Replay(view, Inbox(PartSends(net, n, c), me), net.names[me]), LoseBuddy(net, n, c), me)
  {
    PartMirrors(view, net, n, c, me);
    DetachKeepsLinked(net, n, c);
    OnlyHere(net, n, c);
    ForgetMirrors(Replay(view, Inbox(PartSends(net, n, c), me), net.names[me]), Detach(net, n, c), {n}, me);
  }

  lemma NotChatsAmong(net: Net, c: Channel, me: Nick)
    requires Linked(net) && c in net.users && me in net.on && !me.chat
    ensures DistinctNicks(NotChats(net.users[c]))
    ensures Among(NotChats(net.users[c]), me) <==> IsOn(net, me, c)
  {
    VectorDistinct(NotChats(net.users[c]));
    AmongIs(NotChats(net.users[c]), me);
  }

  /** The client is told that it parts a closing room if it is in it, and nothing else. */
  lemma CloseRoomInbox(net: Net, c: Channel, me: Nick)
    requires Linked(net) && c in net.users && me in net.on && !me.chat
    ensures Inbox(CloseRoomSends(net, c), me) == if IsOn(net, me, c) then [Part(net.names[me], c.name)] else []
  {
    NotChatsAmong(net, c, me);
    CloseInbox(net, c, NotChats(net.users[c]), me);
  }

  lemma CloseRoomReplay(view: View, net: Net, c: Channel, me: Nick, s: string)
    requires Linked(net) && c in net.users && me in net.on && !me.chat && s in view && s != c.name
    ensures s in Replay(view, Inbox(CloseRoomSends(net, c), me), net.names[me])
    ensures Replay(view, Inbox(CloseRoomSends(net, c), me), net.names[me])[s] == view[s]
  {
    CloseRoomInbox(net, c, me);
    ReplayOne(view, Part(net.names[me], c.name), net.names[me]);
  }

  lemma CloseRoomMirrors(view: View, net: Net, c: Channel, me: Nick)
    requires Good(net, me) && c in net.users && Mirrors(view, net, me)
    ensures Mirrors(Replay(view, Inbox(CloseRoomSends(net, c), me), net.names[me]), CloseRoom(net, c), me)
  {
    var view' := Replay(view, Inbox(CloseRoomSends(net, c), me), net.names[me]);
    GoodIdentifies(net, me);
    forall s | s in view && s != c.name
      ensures s in view' && view'[s] == view[s]
    {
      CloseRoomReplay(view, net, c, me, s);
    }
    CloseViews(view, view', net, c, me);
    CloseKeepsLinked(net, c);
    forall n | n in Chats(net.users[c])
      ensures n in net.on && Close(net, c).on[n] == []
    {
      ClosedChatsAreOff(net, c, n);
    }
    ForgetMirrors(view', Close(net, c), Chats(net.users[c]), me);
  }

  lemma ArrivalMirrors(view: View, net: Net, me: Nick, op: Op)
    requires Good(net, me) && Enabled(net, me, op) && Mirrors(view, net, me)
    requires op.OpRegister? || op.OpOpen?
    ensures me in Step(net, me, op).on
    ensures Mirrors(Replay(view, Inbox(Sends(net, me, op), me), net.names[me]), Step(net, me, op), me)
  {
    GoodIdentifies(net, me);
    match op
    case OpRegister(n, name, handle) => RegisterMirrors(view, net, n, name, handle, me);
    case OpOpen(c) => OpenMirrors(view, net, c, me);
  }

  lemma EntryMirrors(view: View, net: Net, me: Nick, op: Op)
    requires Good(net, me) && Enabled(net, me, op) && Mirrors(view, net, me)
    requires op.OpJoin? || op.OpMode?
    ensures me in Step(net, me, op).on
    ensures Mirrors(Replay(view, Inbox(Sends(net, me, op), me), net.names[me]), Step(net, me, op), me)
  {
    GoodIdentifies(net, me);
    match op
    case OpJoin(cu, status) => JoinMirrors(view, net, cu, status, me);
    case OpMode(cu, add, modes) => ChangeModeMirrors(view, net, cu, add, modes, me);
  }

  lemma DepartureMirrors(view: View, net: Net, me: Nick, op: Op)
    requires Good(net, me) && Enabled(net, me, op) && Mirrors(view, net, me)
    requires op.OpPart? || op.OpKick? || op.OpQuit?
    ensures me in Step(net, me, op).on
    ensures Mirrors(Replay(view, Inbox(Sends(net, me, op), me), net.names[me]), Step(net, me, op), me)
  {
    GoodIdentifies(net, me);
    match op
    case OpPart(n, c) => PartMirrors(view, net, n, c, me);
    case OpKick(n, c) => KickMirrors(view, net, n, c, me);
    case OpQuit(n) => QuitMirrors(view, net, n, me);
  }

  lemma RenameStepMirrors(view: View, net: Net, me: Nick, op: Op)
    requires Good(net, me) && Enabled(net, me, op) && Mirrors(view, net, me)
    requires op.OpRename?
    ensures me in Step(net, me, op).on
    ensures Mirrors(Replay(view, Inbox(Sends(net, me, op), me), net.names[me]), Step(net, me, op), me)
  {
    GoodIdentifies(net, me);
    RenameOpMirrors(view, net, op.n, op.newNick, me);
  }

  lemma DropStep(net: Net, me: Nick, op: Op)
    requires Good(net, me) && Enabled(net, me, op) && op.OpDrop?
    ensures NamesIdentify(net) && me != op.n && op.n in net.on && me in net.names
    ensures Step(net, me, op) == Forget(LeaveAll(net, op.n), {op.n}) && Sends(net, me, op) == QuitSends(net, op.n)
    ensures me in Forget(LeaveAll(net, op.n), {op.n}).on
    ensures Forget(LeaveAll(net, op.n), {op.n}).on[me] == LeaveAll(net, op.n).on[me]
  {
    GoodIdentifies(net, me);
    DropKeepsMe(net, op.n, me);
  }

  lemma DropMirrorsStep(view: View, net: Net, me: Nick, op: Op)
    requires Good(net, me) && Enabled(net, me, op) && Mirrors(view, net, me)
    requires op.OpDrop?
    ensures me in Step(net, me, op).on
    ensures Mirrors(Replay(view, Inbox(Sends(net, me, op), me), net.names[me]), Step(net, me, op), me)
  {
    DropStep(net, me, op);
    DropMirrors(view, net, op.n, me);
  }

  lemma CloseMirrorsStep(view: View, net: Net, me: Nick, op: Op)
    requires Good(net, me) && Enabled(net, me, op) && Mirrors(view, net, me)
    requires op.OpClose?
    ensures me in Step(net, me, op).on
    ensures Mirrors(Replay(view, Inbox(Sends(net, me, op), me), net.names[me]), Step(net, me, op), me)
  {
    GoodIdentifies(net, me);
    CloseRoomMirrors(view, net, op.c, me);
  }

  lemma BuddyInMirrors(view: View, net: Net, me: Nick, op: Op)
    requires Good(net, me) && Enabled(net, me, op) && Mirrors(view, net, me)
    requires op.OpAddBuddy?
    ensures me in Step(net, me, op).on
    ensures Mirrors(Replay(view, Inbox(Sends(net, me, op), me), net.names[me]), Step(net, me, op), me)
  {
    StepKeepsMe(net, me, op);
    AddBuddyMirrors(view, net, op.cu, op.name, op.handle, op.status, me);
  }

  lemma TagMirrorsStep(view: View, net: Net, me: Nick, op: Op)
    requires Good(net, me) && Enabled(net, me, op) && Mirrors(view, net, me)
    requires op.OpTag?
    ensures me in Step(net, me, op).on
    ensures Mirrors(Replay(view, Inbox(Sends(net, me, op), me), net.names[me]), Step(net, me, op), me)
  {
    GoodIdentifies(net, me);
    SameView(view, net, Tag(net, op.cu.chan, op.handle, op.cu), me);
  }

  lemma BuddyRenameMirrors(view: View, net: Net, me: Nick, op: Op)
    requires Good(net, me) && Enabled(net, me, op) && Mirrors(view, net, me)
    requires op.OpRenameBuddy?
    ensures me in Step(net, me, op).on
    ensures Mirrors(Replay(view, Inbox(Sends(net, me, op), me), net.names[me]), Step(net, me, op), me)
  {
    GoodIdentifies(net, me);
    RenameBuddyMirrors(view, net, op.cu, op.handle, op.newNick, me);
  }

  lemma LoseBuddyStep(net: Net, me: Nick, op: Op)
    requires Good(net, me) && Enabled(net, me, op) && op.OpLoseBuddy?
    ensures NamesIdentify(net) && me != op.n && me in net.names
    ensures op.n in net.on && op.n.chat && op.c in net.users && op.c in net.buddies && IsOn(net, op.n, op.c)
    ensures Step(net, me, op) == LoseBuddy(net, op.n, op.c) && Sends(net, me, op) == PartSends(net, op.n, op.c)
    ensures me in LoseBuddy(net, op.n, op.c).on
    ensures LoseBuddy(net, op.n, op.c).on[me] == Detach(net, op.n, op.c).on[me]
  {
    GoodIdentifies(net, me);
    LoseBuddyKeepsMe(net, op.n, op.c, me);
  }

  lemma BuddyOutMirrors(view: View, net: Net, me: Nick, op: Op)
    requires Good(net, me) && Enabled(net, me, op) && Mirrors(view, net, me)
    requires op.OpLoseBuddy?
    ensures me in Step(net, me, op).on
    ensures Mirrors(Replay(view, Inbox(Sends(net, me, op), me), net.names[me]), Step(net, me, op), me)
  {
    LoseBuddyStep(net, me, op);
    LoseBuddyMirrors(view, net, op.n, op.c, me);
  }

  /** Every call keeps the client's view right. */
  lemma StepMirrors(view: View, net: Net, me: Nick, op: Op)
    requires Good(net, me) && Enabled(net, me, op) && Mirrors(view, net, me)
    ensures me in Step(net, me, op).on
    ensures Mirrors(Replay(view, Inbox(Sends(net, me, op), me), net.names[me]), Step(net, me, op), me)
  {
    if op.OpRegister? || op.OpOpen? {
      ArrivalMirrors(view, net, me, op);
    } else if op.OpJoin? || op.OpMode? {
      EntryMirrors(view, net, me, op);
    } else if op.OpPart? || op.OpKick? || op.OpQuit? {
      DepartureMirrors(view, net, me, op);
    } else if op.OpRename? {
      RenameStepMirrors(view, net, me, op);
    } else if op.OpDrop? {
      DropMirrorsStep(view, net, me, op);
    } else if op.OpClose? {
      CloseMirrorsStep(view, net, me, op);
    } else if op.OpAddBuddy? {
      BuddyInMirrors(view, net, me, op);
    } else if op.OpTag? {
      TagMirrorsStep(view, net, me, op);
    } else if op.OpRenameBuddy? {
      BuddyRenameMirrors(view, net, me, op);
    } else {
      BuddyOutMirrors(view, net, me, op);
    }
  }

  // ---------------------------------------------------------------- whole runs

  ghost predicate IsRun(net: Net, me: Nick, ops: seq<Op>)
    requires Good(net, me)
    decreases |ops|
  {
    ops == [] ||
    (Enabled(net, me, ops[0]) && (StepKeepsGood(net, me, ops[0]); IsRun(Step(net, me, ops[0]), me, ops[1..])))
  }

  ghost function RunNet(net: Net, me: Nick, ops: seq<Op>): (r: Net)
    requires Good(net, me) && IsRun(net, me, ops)
    ensures Good(r, me)
    decreases |ops|
  {
    if ops == [] then net
    else
      StepKeepsGood(net, me, ops[0]);
      RunNet(Step(net, me, ops[0]), me, ops[1..])
  }

  /** Everything sent during the run, in order. */
  ghost function RunSends(net: Net, me: Nick, ops: seq<Op>): seq<Delivery>
    requires Good(net, me) && IsRun(net, me, ops)
    decreases |ops|
  {
    if ops == [] then []
    else
      StepKeepsGood(net, me, ops[0]);
      Sends(net, me, ops[0]) + RunSends(Step(net, me, ops[0]), me, ops[1..])
  }

  /** After any run, a client that replays the messages it was sent, and nothing
      else, holds for every channel it is on exactly the server's members, under
      their current nicknames, with their modes. */
  lemma {:induction false} RunMirrors(view: View, net: Net, me: Nick, ops: seq<Op>)
    requires Good(net, me) && IsRun(net, me, ops) && Mirrors(view, net, me)
    ensures Mirrors(Replay(view, Inbox(RunSends(net, me, ops), me), net.names[me]), RunNet(net, me, ops), me)
    decreases |ops|
  {
    if ops != [] {
      var op := ops[0];
      StepKeepsGood(net, me, op);
      StepKeepsMe(net, me, op);
      StepMirrors(view, net, me, op);
      var next, sent := Step(net, me, op), Sends(net, me, op);
      var view' := Replay(view, Inbox(sent, me), net.names[me]);
      RunMirrors(view', next, me, ops[1..]);
      InboxAppend(sent, RunSends(next, me, ops[1..]), me);
      ReplayAppend(view, Inbox(sent, me), Inbox(RunSends(next, me, ops[1..]), me), net.names[me]);
    }
  }

  // ---------------------------------------------------------------- which channels

  /** The client believes to be on no channel that it is not on. */
  ghost predicate NoStaleRoom(view: View, net: Net, me: Nick)
    requires me in net.on
  {
    forall s :: s in view ==> exists cu :: cu in net.on[me] && cu.chan.name == s
  }

  /** A message about the receiver itself joining or leaving. */
  predicate AboutSelf(m: Msg, me: string) {
    match m
    case Join(who, _) => who == me
    case Part(who, _) => who == me
    case Kick(_, victim) => victim == me
    case Quit(who) => who == me
    case _ => false
  }

  lemma {:induction false} OthersKeepRooms(view: View, ms: seq<Msg>, me: string)
    requires forall i :: 0 <= i < |ms| ==> !AboutSelf(ms[i], me)
    ensures Replay(view, ms, me).Keys == view.Keys
  {
    if ms != [] {
      OthersKeepRooms(view, ms[..|ms| - 1], me);
    }
  }

  lemma SelfEntersOnly(view: View, view': View, net: Net, cu: ChanUser, status: Mask)
    requires cu.nick in net.on && cu.chan in net.users && NoStaleRoom(view, net, cu.nick)
    requires view'.Keys == view.Keys + {cu.chan.name}
    ensures NoStaleRoom(view', Enter(net, cu, status), cu.nick)
  {
    var after := Enter(net, cu, status);
    forall s | s in view'
      ensures exists m :: m in after.on[cu.nick] && m.chan.name == s
    {
      if s == cu.chan.name {
        assert cu in after.on[cu.nick];
      } else {
        var m :| m in net.on[cu.nick] && m.chan.name == s;
        assert m in after.on[cu.nick];
      }
    }
  }

  lemma SelfLeavesOnly(view: View, view': View, net: Net, after: Net, me: Nick, c: Channel)
    requires Linked(net) && me in net.on && me in after.on && NoStaleRoom(view, net, me)
    requires after.on[me] == OffChan(net.on[me], c)
    requires view'.Keys == view.Keys - {c.name}
    ensures NoStaleRoom(view', after, me)
  {
    forall s | s in view'
      ensures exists m :: m in after.on[me] && m.chan.name == s
    {
      var m :| m in net.on[me] && m.chan.name == s;
      assert m in after.on[me];
    }
  }

  lemma UnaffectedRooms(view: View, view': View, net: Net, after: Net, me: Nick)
    requires me in net.on && me in after.on && NoStaleRoom(view, net, me)
    requires after.on[me] == net.on[me] && view'.Keys == view.Keys
    ensures NoStaleRoom(view', after, me)
  {}

  lemma SelfPartKeys(view: View, chan: string, me: string)
    ensures Replay(view, [Part(me, chan)], me).Keys == view.Keys - {chan}
  {
    ReplayOne(view, Part(me, chan), me);
  }

  lemma SelfJoinNoStale(view: View, net: Net, cu: ChanUser, status: Mask)
    requires Linked(net) && cu.nick in net.on && cu.chan in net.users && NoStaleRoom(view, net, cu.nick)
    requires cu !in net.cells && Linked(Enter(net, cu, status))
    ensures NoStaleRoom(Replay(view, Inbox(JoinSends(net, cu, status), cu.nick), net.names[cu.nick]),
                        Enter(net, cu, status), cu.nick)
  {
    EnterDistinct(net, cu, status, cu.nick);
    SelfJoinRooms(view, Enter(net, cu, status), cu, status);
    SelfEntersOnly(view, Replay(view, Inbox(JoinSends(net, cu, status), cu.nick), net.names[cu.nick]), net, cu, status);
  }

  lemma SelfJoinRooms(view: View, after: Net, cu: ChanUser, status: Mask)
    requires cu.nick in after.names && cu.chan in after.users
    requires forall x :: x in after.users[cu.chan] ==> x in after.cells && x.nick in after.names
    requires DistinctNicks(after.users[cu.chan]) && Among(after.users[cu.chan], cu.nick)
    ensures Replay(view, Inbox(EnterSends(after, cu, status), cu.nick), after.names[cu.nick]).Keys
         == view.Keys + {cu.chan.name}
  {
    EnterSelfReplay(view, after, cu, status);
  }

  lemma OtherJoinAbout(net: Net, after: Net, cu: ChanUser, status: Mask, me: string, ms: seq<Msg>)
    requires cu.nick in after.names && after.names[cu.nick] != me
    requires ms == [] || ms == [JoinMsg(after, cu)] + StatusMsgs(after, cu, status)
    ensures forall i :: 0 <= i < |ms| ==> !AboutSelf(ms[i], me)
  {}

  lemma OtherJoinNoStale(view: View, net: Net, cu: ChanUser, status: Mask, me: Nick)
    requires Linked(net) && NamesIdentify(net) && me in net.on && NoStaleRoom(view, net, me)
    requires cu !in net.cells && cu.nick in net.on && cu.chan in net.users && cu.nick != me
    requires Linked(Enter(net, cu, status))
    ensures NoStaleRoom(Replay(view, Inbox(JoinSends(net, cu, status), me), net.names[me]), Enter(net, cu, status), me)
  {
    EnterDistinct(net, cu, status, me);
    EnterInbox(Enter(net, cu, status), cu, status, me);
    var inbox := Inbox(JoinSends(net, cu, status), me);
    OtherJoinAbout(net, Enter(net, cu, status), cu, status, net.names[me], inbox);
    OthersKeepRooms(view, inbox, net.names[me]);
  }

  lemma JoinNoStale(view: View, net: Net, cu: ChanUser, status: Mask, me: Nick)
    requires Linked(net) && NamesIdentify(net) && me in net.on && NoStaleRoom(view, net, me)
    requires cu !in net.cells && cu.nick in net.on && cu.chan in net.users && !IsOn(net, cu.nick, cu.chan)
    ensures NoStaleRoom(Replay(view, Inbox(JoinSends(net, cu, status), me), net.names[me]), Enter(net, cu, status), me)
  {
    EnterKeepsLinked(net, cu, status);
    if cu.nick == me {
      SelfJoinNoStale(view, net, cu, status);
    } else {
      OtherJoinNoStale(view, net, cu, status, me);
    }
  }

  lemma PartNoStale(view: View, net: Net, n: Nick, c: Channel, me: Nick)
    requires Linked(net) && NamesIdentify(net) && n in net.on && c in net.users && me in net.on
    requires NoStaleRoom(view, net, me)
    ensures NoStaleRoom(Replay(view, Inbox(PartSends(net, n, c), me), net.names[me]), Detach(net, n, c), me)
  {
    PartInbox(net, n, c, me);
    var inbox := Inbox(PartSends(net, n, c), me);
    if n == me {
      SelfPartKeys(view, c.name, net.names[me]);
      SelfLeavesOnly(view, Replay(view, inbox, net.names[me]), net, Detach(net, n, c), me, c);
    } else {
      assert net.names[n] != net.names[me];
      OthersKeepRooms(view, inbox, net.names[me]);
    }
  }

  lemma SelfQuits(view: View, view': View, net: Net, me: Nick)
    requires Linked(net) && me in net.on && NoStaleRoom(view, net, me)
    requires view' == if Shares(net, me, me) then map[] else view
    ensures NoStaleRoom(view', LeaveAll(net, me), me)
  {
    if !Shares(net, me, me) {
      SharesSelf(net, me);
    }
  }

  lemma QuitNoStale(view: View, net: Net, n: Nick, me: Nick)
    requires Good(net, me) && n in net.on && NoStaleRoom(view, net, me)
    ensures NoStaleRoom(Replay(view, Inbox(QuitSends(net, n), me), net.names[me]), LeaveAll(net, n), me)
  {
    var view' := Replay(view, Inbox(QuitSends(net, n), me), net.names[me]);
    GoodIdentifies(net, me);
    QuitExactlyOnce(net, n, me);
    if n == me {
      ReplayOne(view, Quit(net.names[n]), net.names[me]);
      SelfQuits(view, view', net, me);
    } else {
      assert net.names[n] != net.names[me];
      OthersKeepRooms(view, Inbox(QuitSends(net, n), me), net.names[me]);
      UnaffectedRooms(view, view', net, LeaveAll(net, n), me);
    }
  }

  lemma SharesSelf(net: Net, n: Nick)
    requires Linked(net) && n in net.on && !Shares(net, n, n)
    ensures net.on[n] == []
  {
    if net.on[n] != [] {
      SharesIfAny(net, n);
    }
  }

  lemma SharesIfAny(net: Net, n: Nick)
    requires Linked(net) && n in net.on && net.on[n] != []
    ensures Shares(net, n, n)
  {
    var cu := net.on[n][0];
    assert cu in net.on[n] && cu in net.cells && IsOn(net, n, cu.chan);
  }

  lemma CloseNoStale(view: View, net: Net, c: Channel, me: Nick)
    requires Linked(net) && c in net.users && me in net.on && !me.chat && NoStaleRoom(view, net, me)
    ensures me in CloseRoom(net, c).on
    ensures NoStaleRoom(Replay(view, Inbox(CloseRoomSends(net, c), me), net.names[me]), CloseRoom(net, c), me)
  {
    CloseRoomInbox(net, c, me);
    if IsOn(net, me, c) {
      SelfPartKeys(view, c.name, net.names[me]);
      SelfLeavesOnly(view, Replay(view, [Part(net.names[me], c.name)], net.names[me]), net, CloseRoom(net, c), me, c);
    } else {
      OffChanSame(net, me, c);
    }
  }

  lemma OffChanSame(net: Net, n: Nick, c: Channel)
    requires Linked(net) && n in net.on && !IsOn(net, n, c)
    ensures OffChan(net.on[n], c) == net.on[n]
  {
    OffChanNone(net.on[n], c);
  }

  lemma ModeNoStale(view: View, net: Net, cu: ChanUser, add: bool, modes: Mask, me: Nick)
    requires Good(net, me) && cu in net.cells && NoStaleRoom(view, net, me)
    ensures NoStaleRoom(Replay(view, Inbox(ChangeModeSends(net, cu, add, modes), me), net.names[me]),
                        ChangeMode(net, cu, add, modes), me)
  {
    ModeInbox(net, cu, add, modes, me);
    OthersKeepRooms(view, Inbox(ChangeModeSends(net, cu, add, modes), me), net.names[me]);
  }

  lemma RenameNoStale(view: View, net: Net, n: Nick, newNick: string, me: Nick)
    requires me in net.on && me in net.names && n in net.names && NoStaleRoom(view, net, me)
    ensures NoStaleRoom(Replay(view, Inbox(RenameSends(net, me, n, newNick), me), net.names[me]),
                        Rename(net, n, newNick), me)
  {
    InboxTo(me, [NickChange(net.names[n], newNick)], me);
    ToOne(me, NickChange(net.names[n], newNick));
    ReplayOne(view, NickChange(net.names[n], newNick), net.names[me]);
  }

  lemma ArrivalNoStale(view: View, net: Net, me: Nick, op: Op)
    requires Good(net, me) && Enabled(net, me, op) && NoStaleRoom(view, net, me)
    requires op.OpRegister? || op.OpOpen?
    ensures me in Step(net, me, op).on
    ensures NoStaleRoom(Replay(view, Inbox(Sends(net, me, op), me), net.names[me]), Step(net, me, op), me)
  {
    GoodIdentifies(net, me);
    match op
    case OpRegister(n, name, handle) =>
    case OpOpen(c) =>
  }

  lemma EntryNoStale(view: View, net: Net, me: Nick, op: Op)
    requires Good(net, me) && Enabled(net, me, op) && NoStaleRoom(view, net, me)
    requires op.OpJoin? || op.OpMode?
    ensures me in Step(net, me, op).on
    ensures NoStaleRoom(Replay(view, Inbox(Sends(net, me, op), me), net.names[me]), Step(net, me, op), me)
  {
    GoodIdentifies(net, me);
    match op
    case OpJoin(cu, status) => JoinNoStale(view, net, cu, status, me);
    case OpMode(cu, add, modes) => ModeNoStale(view, net, cu, add, modes, me);
  }

  lemma DepartureNoStale(view: View, net: Net, me: Nick, op: Op)
    requires Good(net, me) && Enabled(net, me, op) && NoStaleRoom(view, net, me)
    requires op.OpPart? || op.OpKick? || op.OpQuit?
    ensures me in Step(net, me, op).on
    ensures NoStaleRoom(Replay(view, Inbox(Sends(net, me, op), me), net.names[me]), Step(net, me, op), me)
  {
    GoodIdentifies(net, me);
    match op
    case OpPart(n, c) => PartNoStale(view, net, n, c, me);
    case OpKick(n, c) => KickOtherNoStale(view, net, n, c, me);
    case OpQuit(n) => QuitNoStale(view, net, n, me);
  }

  lemma RenameStepNoStale(view: View, net: Net, me: Nick, op: Op)
    requires Good(net, me) && Enabled(net, me, op) && NoStaleRoom(view, net, me)
    requires op.OpRename?
    ensures me in Step(net, me, op).on
    ensures NoStaleRoom(Replay(view, Inbox(Sends(net, me, op), me), net.names[me]), Step(net, me, op), me)
  {
    GoodIdentifies(net, me);
    RenameNoStale(view, net, op.n, op.newNick, me);
  }

  lemma DropNoStaleStep(view: View, net: Net, me: Nick, op: Op)
    requires Good(net, me) && Enabled(net, me, op) && NoStaleRoom(view, net, me)
    requires op.OpDrop?
    ensures me in Step(net, me, op).on
    ensures NoStaleRoom(Replay(view, Inbox(Sends(net, me, op), me), net.names[me]), Step(net, me, op), me)
  {
    DropStep(net, me, op);
    QuitNoStale(view, net, op.n, me);
  }

  lemma CloseNoStaleStep(view: View, net: Net, me: Nick, op: Op)
    requires Good(net, me) && Enabled(net, me, op) && NoStaleRoom(view, net, me)
    requires op.OpClose?
    ensures me in Step(net, me, op).on
    ensures NoStaleRoom(Replay(view, Inbox(Sends(net, me, op), me), net.names[me]), Step(net, me, op), me)
  {
    GoodIdentifies(net, me);
    CloseNoStale(view, net, op.c, me);
  }

  lemma BuddyInNoStale(view: View, net: Net, me: Nick, op: Op)
    requires Good(net, me) && Enabled(net, me, op) && NoStaleRoom(view, net, me)
    requires op.OpAddBuddy?
    ensures me in Step(net, me, op).on
    ensures NoStaleRoom(Replay(view, Inbox(Sends(net, me, op), me), net.names[me]), Step(net, me, op), me)
  {
    StepKeepsMe(net, me, op);
    AddBuddyNoStale(view, net, op.cu, op.name, op.handle, op.status, me);
  }

  lemma TagNoStaleStep(view: View, net: Net, me: Nick, op: Op)
    requires Good(net, me) && Enabled(net, me, op) && NoStaleRoom(view, net, me)
    requires op.OpTag?
    ensures me in Step(net, me, op).on
    ensures NoStaleRoom(Replay(view, Inbox(Sends(net, me, op), me), net.names[me]), Step(net, me, op), me)
  {
  }

  lemma BuddyRenameNoStale(view: View, net: Net, me: Nick, op: Op)
    requires Good(net, me) && Enabled(net, me, op) && NoStaleRoom(view, net, me)
    requires op.OpRenameBuddy?
    ensures me in Step(net, me, op).on
    ensures NoStaleRoom(Replay(view, Inbox(Sends(net, me, op), me), net.names[me]), Step(net, me, op), me)
  {
    GoodIdentifies(net, me);
    RenameNoStale(view, net, op.cu.nick, op.newNick, me);
  }

  lemma BuddyOutNoStale(view: View, net: Net, me: Nick, op: Op)
    requires Good(net, me) && Enabled(net, me, op) && NoStaleRoom(view, net, me)
    requires op.OpLoseBuddy?
    ensures me in Step(net, me, op).on
    ensures NoStaleRoom(Replay(view, Inbox(Sends(net, me, op), me), net.names[me]), Step(net, me, op), me)
  {
    LoseBuddyStep(net, me, op);
    PartNoStale(view, net, op.n, op.c, me);
  }

  /** Every call also keeps the client's list of channels right: with `StepMirrors`,
      its view is then exactly the truth. */
  lemma StepNoStale(view: View, net: Net, me: Nick, op: Op)
    requires Good(net, me) && Enabled(net, me, op) && NoStaleRoom(view, net, me)
    ensures me in Step(net, me, op).on
    ensures NoStaleRoom(Replay(view, Inbox(Sends(net, me, op), me), net.names[me]), Step(net, me, op), me)
  {
    if op.OpRegister? || op.OpOpen? {
      ArrivalNoStale(view, net, me, op);
    } else if op.OpJoin? || op.OpMode? {
      EntryNoStale(view, net, me, op);
    } else if op.OpPart? || op.OpKick? || op.OpQuit? {
      DepartureNoStale(view, net, me, op);
    } else if op.OpRename? {
      RenameStepNoStale(view, net, me, op);
    } else if op.OpDrop? {
      DropNoStaleStep(view, net, me, op);
    } else if op.OpClose? {
      CloseNoStaleStep(view, net, me, op);
    } else if op.OpAddBuddy? {
      BuddyInNoStale(view, net, me, op);
    } else if op.OpTag? {
      TagNoStaleStep(view, net, me, op);
    } else if op.OpRenameBuddy? {
      BuddyRenameNoStale(view, net, me, op);
    } else {
      BuddyOutNoStale(view, net, me, op);
    }
  }

  lemma AddBuddyNoStale(view: View, net: Net, cu: ChanUser, name: string, h: Handle, status: Mask, me: Nick)
    requires Good(net, me) && Enabled(net, me, OpAddBuddy(cu, name, h, status)) && NoStaleRoom(view, net, me)
    ensures NoStaleRoom(Replay(view, Inbox(AddBuddySends(net, cu, name, h, status), me), net.names[me]),
                        AddBuddy(net, cu, name, h, status), me)
  {
    var registered := Register(net, cu.nick, name, h);
    RegisterKeepsLinked(net, cu.nick, name, h);
    RegisterKeepsIndexed(net, cu.nick, name, h);
    IndexedIdentifies(registered);
    NewBuddyIsOff(net, cu.nick, name, h, cu.chan);
    JoinNoStale(view, registered, cu, status, me);
  }

  lemma KickOtherNoStale(view: View, net: Net, n: Nick, c: Channel, me: Nick)
    requires Linked(net) && NamesIdentify(net) && n in net.on && c in net.users && me in net.on
    requires NoStaleRoom(view, net, me) && n != me
    ensures NoStaleRoom(Replay(view, Inbox(KickSends(net, n, c), me), net.names[me]), Detach(net, n, c), me)
  {
    KickInbox(net, n, c, me);
    assert net.names[n] != net.names[me];
    OthersKeepRooms(view, Inbox(KickSends(net, n, c), me), net.names[me]);
  }

  /** Over any run the client also knows exactly which channels it is on. */
  lemma {:induction false} RunNoStale(view: View, net: Net, me: Nick, ops: seq<Op>)
    requires Good(net, me) && IsRun(net, me, ops) && NoStaleRoom(view, net, me)
    ensures NoStaleRoom(Replay(view, Inbox(RunSends(net, me, ops), me), net.names[me]), RunNet(net, me, ops), me)
    decreases |ops|
  {
    if ops != [] {
      var op := ops[0];
      StepKeepsGood(net, me, op);
      StepKeepsMe(net, me, op);
      StepNoStale(view, net, me, op);
      var next, sent := Step(net, me, op), Sends(net, me, op);
      RunNoStale(Replay(view, Inbox(sent, me), net.names[me]), next, me, ops[1..]);
      InboxAppend(sent, RunSends(next, me, ops[1..]), me);
      ReplayAppend(view, Inbox(sent, me), Inbox(RunSends(next, me, ops[1..]), me), net.names[me]);
    }
  }

  /** From the start, when the client is on no channel, it need not know anything: after
      any run the channels it holds are those it is on, each with exactly its members
      and their modes. */
  lemma ClientKnowsItsChannels(net: Net, me: Nick, ops: seq<Op>)
    requires Good(net, me) && IsRun(net, me, ops) && net.on[me] == []
    ensures var view, after := Replay(map[], Inbox(RunSends(net, me, ops), me), net.names[me]), RunNet(net, me, ops);
            && Mirrors(view, after, me)
            && view.Keys == (set cu | cu in after.on[me] :: cu.chan.name)
  {
    RunMirrors(map[], net, me, ops);
    RunNoStale(map[], net, me, ops);
  }

  /** In every state that is reached from the start, whatever is called. */
  lemma ClientKnowsFromTheStart(user: Nick, name: string, handle: Handle, ops: seq<Op>)
    requires !user.chat && (AloneIsGood(user, name, handle); IsRun(Alone(user, name, handle), user, ops))
    ensures Good(Alone(user, name, handle), user)
    ensures var net := Alone(user, name, handle);
            var view, after := Replay(map[], Inbox(RunSends(net, user, ops), user), name), RunNet(net, user, ops);
            && Good(after, user) && Mirrors(view, after, user)
            && view.Keys == (set cu | cu in after.on[user] :: cu.chan.name)
  {
    AloneIsGood(user, name, handle);
    ClientKnowsItsChannels(Alone(user, name, handle), user, ops);
  }
}
