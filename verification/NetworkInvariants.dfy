/** What every transformer of the network keeps: the two membership vectors, the
    allocated cells and the nick index agree. */
module NetworkInvariants {
  import opened Modes
  import opened Network
  import opened Text

  /** `IRC::users` is keyed by current nickname, and no two keys are equal
      ignoring case. */
  ghost predicate Indexed(net: Net) {
    && (forall n :: n in net.names ==> net.names[n] in net.index && net.index[net.names[n]] == n)
    && (forall k :: k in net.index ==> net.index[k] in net.names && net.names[net.index[k]] == k)
    && (forall j, k :: j in net.index && k in net.index && Lower(j) == Lower(k) ==> j == k)
  }

  lemma DetachNicks(net: Net, n: Nick, c: Channel)
    requires Linked(net) && n in net.on && c in net.users
    ensures NicksSound(Detach(net, n, c))
  {}

  lemma DetachChannels(net: Net, n: Nick, c: Channel)
    requires Linked(net) && n in net.on && c in net.users
    ensures ChannelsSound(Detach(net, n, c))
  {}

  lemma DetachCells(net: Net, n: Nick, c: Channel)
    requires Linked(net) && n in net.on && c in net.users
    ensures CellsLinked(Detach(net, n, c))
  {}

  lemma DetachKeepsLinked(net: Net, n: Nick, c: Channel)
    requires Linked(net) && n in net.on && c in net.users
    ensures Linked(Detach(net, n, c))
  {
    DetachNicks(net, n, c);
    DetachChannels(net, n, c);
    DetachCells(net, n, c);
  }

  lemma EnterNicks(net: Net, cu: ChanUser, status: Mask)
    requires Linked(net) && cu.nick in net.on && cu.chan in net.users
    requires cu !in net.cells && !IsOn(net, cu.nick, cu.chan)
    ensures NicksSound(Enter(net, cu, status))
  {}

  lemma EnterChannels(net: Net, cu: ChanUser, status: Mask)
    requires Linked(net) && cu.nick in net.on && cu.chan in net.users
    requires cu !in net.cells && !IsOn(net, cu.nick, cu.chan)
    ensures ChannelsSound(Enter(net, cu, status))
  {}

  lemma EnterCells(net: Net, cu: ChanUser, status: Mask)
    requires Linked(net) && cu.nick in net.on && cu.chan in net.users
    requires cu !in net.cells && !IsOn(net, cu.nick, cu.chan)
    ensures CellsLinked(Enter(net, cu, status))
  {}

  lemma EnterKeepsLinked(net: Net, cu: ChanUser, status: Mask)
    requires Linked(net) && cu.nick in net.on && cu.chan in net.users
    requires cu !in net.cells && !IsOn(net, cu.nick, cu.chan)
    ensures Linked(Enter(net, cu, status))
  {
    EnterNicks(net, cu, status);
    EnterChannels(net, cu, status);
    EnterCells(net, cu, status);
  }

  lemma ChangeModeKeepsLinked(net: Net, cu: ChanUser, add: bool, modes: Mask)
    requires Linked(net) && cu in net.cells
    ensures Linked(ChangeMode(net, cu, add, modes))
  {}

  lemma LeaveAllNicks(net: Net, n: Nick)
    requires Linked(net) && n in net.on
    ensures NicksSound(LeaveAll(net, n))
  {}

  lemma LeaveAllVector(net: Net, n: Nick, c: Channel)
    requires Linked(net) && n in net.on && c in net.users
    ensures NoDup(LeaveAll(net, n).users[c])
    ensures forall cu :: cu in LeaveAll(net, n).users[c] ==> cu in LeaveAll(net, n).cells && cu.chan == c
  {}

  lemma LeaveAllChannels(net: Net, n: Nick)
    requires Linked(net) && n in net.on
    ensures ChannelsSound(LeaveAll(net, n))
  {
    forall c | c in net.users
      ensures NoDup(LeaveAll(net, n).users[c])
      ensures forall cu :: cu in LeaveAll(net, n).users[c] ==> cu in LeaveAll(net, n).cells && cu.chan == c
    {
      LeaveAllVector(net, n, c);
    }
  }

  lemma LeaveAllCells(net: Net, n: Nick)
    requires Linked(net) && n in net.on
    ensures CellsLinked(LeaveAll(net, n))
  {}

  lemma LeaveAllKeepsLinked(net: Net, n: Nick)
    requires Linked(net) && n in net.on
    ensures Linked(LeaveAll(net, n))
  {
    LeaveAllNicks(net, n);
    LeaveAllChannels(net, n);
    LeaveAllCells(net, n);
  }

  lemma RegisterKeepsLinked(net: Net, n: Nick, name: string, handle: Handle)
    requires Linked(net) && n !in net.names
    ensures Linked(Register(net, n, name, handle))
  {}

  lemma RenameKeepsLinked(net: Net, n: Nick, newNick: string)
    requires Linked(net) && n in net.names
    ensures Linked(Rename(net, n, newNick))
  {}

  lemma ForgetKeepsLinked(net: Net, gone: set<Nick>)
    requires Linked(net) && gone <= net.names.Keys
    requires forall n :: n in gone ==> net.on[n] == []
    ensures Linked(Forget(net, gone))
  {}

  lemma CloseVector(net: Net, c: Channel, n: Nick)
    requires Linked(net) && c in net.users && n in net.on
    ensures NoDup(OffChan(net.on[n], c))
    ensures forall cu :: cu in OffChan(net.on[n], c) ==> cu in Close(net, c).cells && cu.nick == n
  {
    assert NoDup(net.on[n]);
  }

  lemma CloseNicks(net: Net, c: Channel)
    requires Linked(net) && c in net.users
    ensures NicksSound(Close(net, c))
  {
    forall n | n in net.on
      ensures NoDup(OffChan(net.on[n], c))
      ensures forall cu :: cu in OffChan(net.on[n], c) ==> cu in Close(net, c).cells && cu.nick == n
    {
      CloseVector(net, c, n);
    }
  }

  lemma CloseChannels(net: Net, c: Channel)
    requires Linked(net) && c in net.users
    ensures ChannelsSound(Close(net, c))
  {}

  lemma CloseCells(net: Net, c: Channel)
    requires Linked(net) && c in net.users
    ensures CellsLinked(Close(net, c))
  {}

  lemma CloseKeepsLinked(net: Net, c: Channel)
    requires Linked(net) && c in net.users
    ensures Linked(Close(net, c))
  {
    CloseNicks(net, c);
    CloseChannels(net, c);
    CloseCells(net, c);
  }

  lemma OpenKeepsLinked(net: Net, c: Channel)
    requires Linked(net) && c !in net.users
    ensures Linked(OpenChannel(net, c))
  {}

  lemma NoModes(net: Net, cu: ChanUser, add: bool)
    requires cu in net.cells
    ensures ChangeMode(net, cu, add, {}) == net
  {
    assert net.cells[cu] + {} == net.cells[cu] && net.cells[cu] - {} == net.cells[cu];
    assert ChangeMode(net, cu, add, {}).cells == net.cells;
  }

  lemma {:induction false} OffChanNone(s: seq<ChanUser>, c: Channel)
    ensures (forall cu :: cu in s ==> cu.chan != c) ==> OffChan(s, c) == s
  {
    if s != [] {
      OffChanNone(s[..|s| - 1], c);
      assert s == s[..|s| - 1] + [s[|s| - 1]];
    }
  }

  lemma DropKeepsLinked(net: Net, n: Nick)
    requires Linked(net) && n in net.on
    ensures Linked(Forget(LeaveAll(net, n), {n}))
  {
    LeaveAllKeepsLinked(net, n);
    ForgetKeepsLinked(LeaveAll(net, n), {n});
  }

  lemma NewBuddyIsOff(net: Net, n: Nick, name: string, h: Handle, c: Channel)
    requires Linked(net) && n !in net.names
    ensures !IsOn(Register(net, n, name, h), n, c)
  {}

  lemma TagKeepsLinked(net: Net, cu: ChanUser, h: Handle)
    requires Linked(net) && cu.chan in net.buddies
    ensures Linked(Tag(net, cu.chan, h, cu))
  {}

  /** What the gateway user is sent when a nick is renamed. */
  function RenameSends(net: Net, me: Nick, n: Nick, newNick: string): seq<Delivery>
    requires n in net.names
  {
    [Delivery(me, NickChange(net.names[n], newNick))]
  }

  /** What `join` sends for a nick that is not on the channel yet. */
  ghost function JoinSends(net: Net, cu: ChanUser, status: Mask): seq<Delivery>
    requires Linked(net) && cu !in net.cells && cu.nick in net.on && cu.chan in net.users
  {
    EnterSends(Enter(net, cu, status), cu, status)
  }

  /** What `addBuddy` sends for a new chat buddy. */
  ghost function AddBuddySends(net: Net, cu: ChanUser, name: string, h: Handle, status: Mask): seq<Delivery>
    requires Linked(net) && cu !in net.cells && cu.nick !in net.names && cu.chan in net.users
  {
    RegisterKeepsLinked(net, cu.nick, name, h);
    JoinSends(Register(net, cu.nick, name, h), cu, status)
  }

  // ---------------------------------------------------------------- the nick index

  /** `getNick(name)` finds nobody. */
  ghost predicate FreeName(net: Net, name: string) {
    forall k :: k in net.index ==> Lower(k) != Lower(name)
  }

  /** No other nick has `name`, ignoring case: the collision check of `m_svsnick`. */
  ghost predicate FreeFor(net: Net, n: Nick, name: string) {
    forall k :: k in net.index && net.index[k] != n ==> Lower(k) != Lower(name)
  }

  /** A name is free exactly when no key of the index differs from it in case only. */
  lemma FreeNameIs(net: Net, name: string)
    ensures FreeName(net, name) <==> forall k :: k in net.index ==> !SameButCase(k, name)
  {
    forall k | k in net.index
      ensures Lower(k) == Lower(name) <==> SameButCase(k, name)
    {
      LowerIs(k, name);
    }
  }

  /** And it is free for a nick exactly when no key of another does. */
  lemma FreeForIs(net: Net, n: Nick, name: string)
    ensures FreeFor(net, n, name) <==> forall k :: k in net.index && net.index[k] != n ==> !SameButCase(k, name)
  {
    forall k | k in net.index
      ensures Lower(k) == Lower(name) <==> SameButCase(k, name)
    {
      LowerIs(k, name);
    }
  }

  /** What the search for a name tells about a nick that is to have it. */
  lemma FoundOrFree(net: Net, n: Nick, name: string, found: Nick?)
    requires Indexed(net) && (found == null ==> FreeName(net, name))
    requires found != null ==> exists k :: k in net.index && net.index[k] == found && SameButCase(k, name)
    ensures FreeFor(net, n, name) <==> found == null || found == n
  {
    if found != null {
      var k :| k in net.index && net.index[k] == found && SameButCase(k, name);
      LowerIs(k, name);
    }
  }

  /** While the index is right, no two nicks have names that differ in case only. */
  lemma NamesDiffer(net: Net, a: Nick, b: Nick)
    requires Indexed(net) && a in net.names && b in net.names && SameButCase(net.names[a], net.names[b])
    ensures a == b
  {
    LowerIs(net.names[a], net.names[b]);
  }

  /** An add keeps the index right if and only if the name was free: under a name that
      is taken, a nick is lost from the index, or two keys become equal ignoring case. */
  lemma RegisterKeepsIndexed(net: Net, n: Nick, name: string, handle: Handle)
    requires Indexed(net) && n !in net.names
    ensures Indexed(Register(net, n, name, handle)) <==> FreeName(net, name)
  {
    if FreeName(net, name) {
      GuardedAdd(net, n, name, handle);
    }
    if Indexed(Register(net, n, name, handle)) {
      forall k | k in net.index
        ensures Lower(k) != Lower(name)
      {
        StillKeyed(net, n, name, handle, k);
      }
    }
  }

  lemma GuardedAdd(net: Net, n: Nick, name: string, handle: Handle)
    requires Indexed(net) && n !in net.names && FreeName(net, name)
    ensures Indexed(Register(net, n, name, handle))
  {
    assert name !in net.index;
  }

  lemma StillKeyed(net: Net, n: Nick, name: string, handle: Handle, k: string)
    requires Indexed(net) && n !in net.names && k in net.index
    requires Indexed(Register(net, n, name, handle))
    ensures Lower(k) != Lower(name)
  {
    var after, m := Register(net, n, name, handle), net.index[k];
    assert m != n && after.names[m] == k && after.index[k] == m && after.index[name] == n;
  }

  lemma RenameKeepsIndexed(net: Net, n: Nick, newNick: string)
    requires Indexed(net) && n in net.names && FreeFor(net, n, newNick)
    ensures Indexed(Rename(net, n, newNick))
  {
    var after := Rename(net, n, newNick);
    assert forall k :: k in after.index && k != newNick ==> k in net.index && net.index[k] != n;
  }

  /** A rename that skips the check breaks the index in the same way. */
  lemma UnguardedRenameBreaks(net: Net, n: Nick, newNick: string)
    requires Indexed(net) && n in net.names && Indexed(Rename(net, n, newNick))
    ensures FreeFor(net, n, newNick)
  {
    var after := Rename(net, n, newNick);
    forall k | k in net.index && net.index[k] != n
      ensures Lower(k) != Lower(newNick)
    {
      var m := net.index[k];
      assert after.names[m] == k && k in after.index && after.index[k] == m;
      assert newNick in after.index && after.index[newNick] == n;
    }
  }

  lemma ForgetKeepsIndexed(net: Net, gone: set<Nick>)
    requires Indexed(net)
    ensures Indexed(Forget(net, gone))
  {}
}
