/** The methods that do more than one call's work: each is a run of calls, so that
    what holds over runs holds over them. */
module NetworkCalls {
  import opened Basics
  import opened Modes
  import opened Network
  import opened NetworkInvariants
  import opened NetworkLoops
  import opened NetworkRuns
  import opened RoomIndex

  /** One more call at the end of a run. */
  lemma {:induction false} RunMore(net: Net, me: Nick, ops: seq<Op>, op: Op)
    requires Good(net, me) && IsRun(net, me, ops) && Enabled(RunNet(net, me, ops), me, op)
    ensures IsRun(net, me, ops + [op])
    ensures RunNet(net, me, ops + [op]) == Step(RunNet(net, me, ops), me, op)
    ensures RunSends(net, me, ops + [op]) == RunSends(net, me, ops) + Sends(RunNet(net, me, ops), me, op)
    decreases |ops|
  {
    if ops == [] {
      RunOne(net, me, op);
      NothingBefore(ops, op, Sends(net, me, op));
    } else {
      StepKeepsGood(net, me, ops[0]);
      RunMore(Step(net, me, ops[0]), me, ops[1..], op);
      RunFirst(net, me, ops[0], ops[1..] + [op]);
      FirstAndLast(ops, op);
      var next := Step(net, me, ops[0]);
      Associative(Sends(net, me, ops[0]), RunSends(next, me, ops[1..]), Sends(RunNet(net, me, ops), me, op));
    }
  }

  /** One call at the beginning. */
  lemma RunFirst(net: Net, me: Nick, op: Op, ops: seq<Op>)
    requires Good(net, me) && Enabled(net, me, op) && Good(Step(net, me, op), me) && IsRun(Step(net, me, op), me, ops)
    ensures IsRun(net, me, [op] + ops)
    ensures RunNet(net, me, [op] + ops) == RunNet(Step(net, me, op), me, ops)
    ensures RunSends(net, me, [op] + ops) == Sends(net, me, op) + RunSends(Step(net, me, op), me, ops)
  {
    assert ([op] + ops)[0] == op && ([op] + ops)[1..] == ops;
  }

  lemma RunOne(net: Net, me: Nick, op: Op)
    requires Good(net, me) && Enabled(net, me, op)
    ensures IsRun(net, me, [op]) && RunNet(net, me, [op]) == Step(net, me, op)
    ensures RunSends(net, me, [op]) == Sends(net, me, op)
  {
    StepKeepsGood(net, me, op);
    RunNothing(Step(net, me, op), me);
    RunFirst(net, me, op, []);
    NothingBehind(op, Sends(net, me, op));
  }

  lemma NothingBefore(ops: seq<Op>, op: Op, sent: seq<Delivery>)
    requires ops == []
    ensures ops + [op] == [op] && [] + sent == sent
  {}

  lemma NothingBehind(op: Op, sent: seq<Delivery>)
    ensures [op] + [] == [op] && sent + [] == sent
  {}

  lemma FirstAndLast(ops: seq<Op>, op: Op)
    requires ops != []
    ensures ops + [op] == [ops[0]] + (ops[1..] + [op])
  {}

  lemma OneAndOne(a: Op, b: Op)
    ensures [a] + [b] == [a, b]
  {}

  lemma RunNothing(net: Net, me: Nick)
    requires Good(net, me)
    ensures IsRun(net, me, []) && RunNet(net, me, []) == net && RunSends(net, me, []) == []
  {}

  lemma RunTwo(net: Net, me: Nick, a: Op, b: Op)
    requires Good(net, me) && Enabled(net, me, a) && Good(Step(net, me, a), me) && Enabled(Step(net, me, a), me, b)
    ensures IsRun(net, me, [a, b]) && RunNet(net, me, [a, b]) == Step(Step(net, me, a), me, b)
    ensures RunSends(net, me, [a, b]) == Sends(net, me, a) + Sends(Step(net, me, a), me, b)
  {
    RunOne(Step(net, me, a), me, b);
    RunFirst(net, me, a, [b]);
    OneAndOne(a, b);
  }

  /** Two changes of the modes of one cell. */
  lemma TwoModes(net: Net, me: Nick, cu: ChanUser, add: bool, first: Mask, second: Mask)
    requires Good(net, me) && cu in net.cells && cu.nick in net.names && cu.chan in net.users
    ensures var ops := [OpMode(cu, add, first), OpMode(cu, !add, second)];
            && IsRun(net, me, ops)
            && RunNet(net, me, ops) == ChangeMode(ChangeMode(net, cu, add, first), cu, !add, second)
            && RunSends(net, me, ops) == ChangeModeSends(net, cu, add, first) + ChangeModeSends(net, cu, !add, second)
  {
    var a, b := OpMode(cu, add, first), OpMode(cu, !add, second);
    StepKeepsGood(net, me, a);
    RunTwo(net, me, a, b);
    SameModeSends(net, ChangeMode(net, cu, add, first), cu, !add, second);
  }

  lemma SameModeSends(a: Net, b: Net, cu: ChanUser, add: bool, modes: Mask)
    requires cu.nick in a.names && cu.chan in a.users && a.names == b.names && a.users == b.users
    ensures ChangeModeSends(a, cu, add, modes) == ChangeModeSends(b, cu, add, modes)
  {}

  /** `Nick::join` of a nick that is there already is a run of two mode changes. */
  lemma RejoinIsRun(net: Net, me: Nick, cu: ChanUser, status: Mask)
    requires Good(net, me) && cu in net.cells && cu.nick in net.names && cu.chan in net.users
    ensures var ops := [OpMode(cu, false, net.cells[cu] - status), OpMode(cu, true, status - net.cells[cu])];
            && IsRun(net, me, ops) && RunNet(net, me, ops) == Rejoin(net, cu, status)
            && RunSends(net, me, ops) == RejoinSends(net, cu, status)
  {
    TwoModes(net, me, cu, false, net.cells[cu] - status, status - net.cells[cu]);
  }

  /** So is `ConversationChannel::updateBuddy`. */
  lemma UpdateIsRun(net: Net, me: Nick, cu: ChanUser, mnew: Mask)
    requires Good(net, me) && cu in net.cells && cu.nick in net.names && cu.chan in net.users
    ensures var ops := [OpMode(cu, true, mnew - net.cells[cu]), OpMode(cu, false, net.cells[cu] - mnew)];
            && IsRun(net, me, ops) && RunNet(net, me, ops) == net.(cells := net.cells[cu := mnew])
            && RunSends(net, me, ops) == ChangeModeSends(net, cu, true, mnew - net.cells[cu])
                                         + ChangeModeSends(net, cu, false, net.cells[cu] - mnew)
  {
    TwoModes(net, me, cu, true, mnew - net.cells[cu], net.cells[cu] - mnew);
    UpdateEffect(net, cu, mnew);
  }

  /** `ConversationChannel::addBuddy` of the gateway user that is not in the room is a
      join and an entry in `cbuddies`. */
  lemma AddMeIsRun(net: Net, me: Nick, cu: ChanUser, h: Handle, status: Mask)
    requires Good(net, me) && cu.nick == me && Enabled(net, me, OpJoin(cu, status)) && cu.chan.room
    requires h !in net.buddies[cu.chan]
    ensures var ops := [OpJoin(cu, status), OpTag(cu, h)];
            && IsRun(net, me, ops) && RunNet(net, me, ops) == Tag(Enter(net, cu, status), cu.chan, h, cu)
            && RunSends(net, me, ops) == JoinSends(net, cu, status)
  {
    var a, b := OpJoin(cu, status), OpTag(cu, h);
    StepKeepsGood(net, me, a);
    NewCellHasNoEntry(net, cu, status, h);
    RunTwo(net, me, a, b);
    NothingBehind(b, JoinSends(net, cu, status));
  }

  /** The gateway user that is in the room already joins it again and has its entry made. */
  lemma AddMeAgainIsRun(net: Net, me: Nick, cu: ChanUser, h: Handle, status: Mask)
    requires Good(net, me) && cu in net.cells && cu.nick == me && cu.chan in net.buddies && cu.chan.room
    requires h !in net.buddies[cu.chan] || net.buddies[cu.chan][h] == cu
    requires forall g :: g in net.buddies[cu.chan] && net.buddies[cu.chan][g] == cu ==> g == h
    ensures cu.nick in net.names && cu.chan in net.users
    ensures var ops := [OpMode(cu, false, net.cells[cu] - status), OpMode(cu, true, status - net.cells[cu]), OpTag(cu, h)];
            && IsRun(net, me, ops) && RunNet(net, me, ops) == Tag(Rejoin(net, cu, status), cu.chan, h, cu)
            && RunSends(net, me, ops) == RejoinSends(net, cu, status)
  {
    var ops, tag := [OpMode(cu, false, net.cells[cu] - status), OpMode(cu, true, status - net.cells[cu])], OpTag(cu, h);
    RejoinIsRun(net, me, cu, status);
    RunMore(net, me, ops, tag);
    OneAtTheEnd(ops[0], ops[1], tag);
    PlusNothing(RejoinSends(net, cu, status));
  }

  lemma OneAtTheEnd(a: Op, b: Op, c: Op)
    ensures [a, b] + [c] == [a, b, c]
  {}

  lemma NewCellHasNoEntry(net: Net, cu: ChanUser, status: Mask, h: Handle)
    requires Linked(net) && EntriesSound(net) && cu !in net.cells && cu.nick in net.on && cu.chan in net.users
    ensures forall g :: g in net.buddies[cu.chan] ==> Enter(net, cu, status).buddies[cu.chan][g] != cu
  {}

  function Drops(ns: seq<Nick>): seq<Op> {
    seq(|ns|, i requires 0 <= i < |ns| => OpDrop(ns[i]))
  }

  /** `IRC::removeServer` is a run of deletions. */
  lemma {:induction false} DropAllIsRun(net: Net, me: Nick, gone: seq<Nick>)
    requires Good(net, me) && CanDrop(net, gone) && me !in gone
    ensures IsRun(net, me, Drops(gone)) && RunNet(net, me, Drops(gone)) == DropAll(net, gone)
    ensures RunSends(net, me, Drops(gone)) == DropSends(net, gone)
  {
    if gone == [] {
      RunNothing(net, me);
    } else {
      var front, n := gone[..|gone| - 1], gone[|gone| - 1];
      DropFront(net, gone);
      DropAllIsRun(net, me, front);
      DropsMore(gone);
      RunMore(net, me, Drops(front), OpDrop(n));
      DropNext(net, front, n);
    }
  }

  lemma DropsMore(ns: seq<Nick>)
    requires ns != []
    ensures var front, n := ns[..|ns| - 1], ns[|ns| - 1];
            ns == front + [n] && n in ns && Drops(ns) == Drops(front) + [OpDrop(n)]
  {}
}
