/** The master of the fork daemon as a transition system over its children. */
module IpcMaster {
  import opened Basics
  import opened Codec
  import opened Ipc
  import opened Text
  import opened Tokenizer

  /** `child_t`. `inbox` is what has arrived and was not read, `closed` whether the
      child has hung up, `sent` what was written to it. */
  datatype Peer = Peer(fd: int, username: string, inbox: string, closed: bool, sent: seq<Line>)

  /** `Crashed` is a MalformedMessage that nothing catches. */
  datatype Status = Running | Stopped | Crashed

  datatype Master = Master(peers: seq<Peer>, status: Status)

  // ---------------------------------------------------------------- handlers

  function Tell(p: Peer, l: Line): Peer {
    p.(sent := p.sent + [l])
  }

  /** `ipc_master_broadcast`; `but` is the index of the child that is left out, or -1. */
  function TellAll(ps: seq<Peer>, l: Line, but: int): (r: seq<Peer>)
    ensures |r| == |ps|
  {
    seq(|ps|, i requires 0 <= i < |ps| => if i == but then ps[i] else Tell(ps[i], l))
  }

  /** `strcasecmp` finds no difference. */
  predicate SameName(a: string, b: string) {
    Lower(a) == Lower(b)
  }

  /** They are the same but for the case of their letters. */
  lemma SameNameIs(a: string, b: string)
    ensures SameName(a, b) <==> SameButCase(a, b)
  {
    LowerIs(a, b);
  }

  predicate Clash(ps: seq<Peer>, k: nat, name: string) {
    exists i :: 0 <= i < |ps| && i != k && SameName(ps[i].username, name)
  }

  const ELSEWHERE: string := "You are logged from another location."

  function DieLine(name: string): Line {
    Line("DIE", [name, ELSEWHERE])
  }

  function Registered(ps: seq<Peer>, k: nat, name: string): (r: seq<Peer>)
    requires k < |ps|
    ensures |r| == |ps|
  {
    seq(|ps|, i requires 0 <= i < |ps| =>
      if i == k then ps[i].(username := name)
      else if SameName(ps[i].username, name) then Tell(ps[i], DieLine(name))
      else ps[i])
  }

  /** `m_user`. A name with a space cannot be followed by another argument. */
  function UserStep(m: Master, k: nat, name: string): Master
    requires k < |m.peers|
  {
    if Spaced(name) && Clash(m.peers, k, name) then
      Master(m.peers[k := m.peers[k].(username := name)], Crashed)
    else m.(peers := Registered(m.peers, k, name))
  }

  datatype Cmd = WALLOPS | REHASH | DIE | OPER | USER

  /** `ipc_cmds`. */
  const TABLE: seq<(string, Cmd, nat)> :=
    [("WALLOPS", WALLOPS, 2), ("REHASH", REHASH, 0), ("DIE", DIE, 2), ("OPER", OPER, 1), ("USER", USER, 1)]

  function Dispatch(m: Master, k: nat, l: Line): Master
    requires k < |m.peers|
  {
    if l.cmd == "WALLOPS" && |l.args| >= 2 then m.(peers := TellAll(m.peers, l, -1))
    else if l.cmd == "REHASH" then m.(peers := TellAll(m.peers, Line("REHASH", []), -1))
    else if l.cmd == "DIE" && |l.args| >= 2 then Master(TellAll(m.peers, l, -1), Stopped)
    else if l.cmd == "OPER" && |l.args| >= 1 then m.(peers := TellAll(m.peers, l, k))
    else if l.cmd == "USER" && |l.args| >= 1 then UserStep(m, k, l.args[0])
    else m
  }

  // ---------------------------------------------------------------- steps

  function Without(ps: seq<Peer>, fd: int): seq<Peer> {
    if ps == [] then []
    else Without(ps[..|ps| - 1], fd) + (if ps[|ps| - 1].fd != fd then [ps[|ps| - 1]] else [])
  }

  /** One call of `ipc_read` for child `k`. */
  function ReadStep(m: Master, k: nat): Master
    requires k < |m.peers|
  {
    var p := m.peers[k];
    if p.inbox == "" then
      if p.closed then m.(peers := Without(m.peers, p.fd)) else m
    else
      var n := Next(p.inbox);
      if n.None? then m
      else Dispatch(m.(peers := m.peers[k := p.(inbox := n.value.1)]), k, n.value.0)
  }

  datatype Op =
    | Accept(fd: int)
    | Deliver(k: nat, bytes: string)
    | HangUp(k: nat)
    | Read(k: nat)

  /** The kernel gives a new socket a descriptor that no open one has. */
  predicate Enabled(m: Master, op: Op) {
    m.status == Running &&
    match op
    case Accept(fd) => forall p :: p in m.peers ==> p.fd != fd
    case Deliver(k, _) => k < |m.peers| && !m.peers[k].closed
    case HangUp(k) => k < |m.peers|
    case Read(k) => k < |m.peers|
  }

  /** `new_client_cb` in the parent, what the children do, and `ipc_read`. */
  function Step(m: Master, maxcon: int, op: Op): Master
    requires Enabled(m, op)
  {
    match op
    case Accept(fd) =>
      if maxcon > 0 && |m.peers| >= maxcon then m
      else m.(peers := m.peers + [Peer(fd, "", "", false, [])])
    case Deliver(k, bytes) => m.(peers := m.peers[k := m.peers[k].(inbox := m.peers[k].inbox + bytes)])
    case HangUp(k) => m.(peers := m.peers[k := m.peers[k].(closed := true)])
    case Read(k) => ReadStep(m, k)
  }

  // ---------------------------------------------------------------- single login

  predicate ToldToDie(p: Peer) {
    exists i :: 0 <= i < |p.sent| && p.sent[i].cmd == "DIE"
  }

  /** Of two children of one user, at least one has been told to die. */
  predicate OneLogin(ps: seq<Peer>) {
    forall i, j :: 0 <= i < j < |ps| && ps[i].username != "" && SameName(ps[i].username, ps[j].username) ==>
      ToldToDie(ps[i]) || ToldToDie(ps[j])
  }

  predicate FdsDistinct(ps: seq<Peer>) {
    forall i, j :: 0 <= i < j < |ps| ==> ps[i].fd != ps[j].fd
  }

  /** `b` is `a` with perhaps more messages sent and other bytes to read. */
  predicate Grown(a: Peer, b: Peer) {
    b.fd == a.fd && b.username == a.username && |a.sent| <= |b.sent| && b.sent[..|a.sent|] == a.sent
  }

  predicate AllGrown(ps: seq<Peer>, qs: seq<Peer>) {
    |ps| == |qs| && forall i :: 0 <= i < |ps| ==> Grown(ps[i], qs[i])
  }

  lemma GrownStaysTold(a: Peer, b: Peer)
    requires Grown(a, b) && ToldToDie(a)
    ensures ToldToDie(b)
  {
    var i :| 0 <= i < |a.sent| && a.sent[i].cmd == "DIE";
    assert b.sent[i] == b.sent[..|a.sent|][i];
  }

  lemma GrownKeepsLogin(ps: seq<Peer>, qs: seq<Peer>)
    requires OneLogin(ps) && AllGrown(ps, qs)
    ensures OneLogin(qs)
  {
    forall i, j | 0 <= i < j < |qs| && qs[i].username != "" && SameName(qs[i].username, qs[j].username)
      ensures ToldToDie(qs[i]) || ToldToDie(qs[j])
    {
      if ToldToDie(ps[i]) {
        GrownStaysTold(ps[i], qs[i]);
      } else {
        GrownStaysTold(ps[j], qs[j]);
      }
    }
  }

  /** Whoever registers, everybody else of that name has been told to die, and the
      registrant has not been told anything. */
  lemma LatestWins(m: Master, k: nat, name: string)
    requires k < |m.peers| && UserStep(m, k, name).status != Crashed
    ensures var after := UserStep(m, k, name).peers;
            && |after| == |m.peers| && after[k] == m.peers[k].(username := name)
            && (forall i :: 0 <= i < |after| && i != k && SameName(after[i].username, name) ==>
                  ToldToDie(after[i]) && after[i].sent == m.peers[i].sent + [DieLine(name)])
            && (forall i :: 0 <= i < |after| && i != k && !SameName(after[i].username, name) ==> after[i] == m.peers[i])
  {
    var after := UserStep(m, k, name).peers;
    forall i | 0 <= i < |after| && i != k && SameName(after[i].username, name)
      ensures ToldToDie(after[i]) && after[i].sent == m.peers[i].sent + [DieLine(name)]
    {
      assert after[i].sent[|m.peers[i].sent|] == DieLine(name);
    }
  }

  lemma RegisterKeepsLogin(m: Master, k: nat, name: string)
    requires k < |m.peers| && OneLogin(m.peers) && UserStep(m, k, name).status != Crashed
    ensures OneLogin(UserStep(m, k, name).peers)
  {
    var ps, qs := m.peers, UserStep(m, k, name).peers;
    LatestWins(m, k, name);
    forall i, j | 0 <= i < j < |qs| && qs[i].username != "" && SameName(qs[i].username, qs[j].username)
      ensures ToldToDie(qs[i]) || ToldToDie(qs[j])
    {
      if i != k && j != k {
        if ToldToDie(ps[i]) {
          GrownStaysTold(ps[i], qs[i]);
        } else {
          GrownStaysTold(ps[j], qs[j]);
        }
      }
    }
  }

  lemma BroadcastGrows(ps: seq<Peer>, l: Line, but: int)
    ensures AllGrown(ps, TellAll(ps, l, but))
  {}

  lemma DispatchKeepsLogin(m: Master, k: nat, l: Line)
    requires k < |m.peers| && OneLogin(m.peers) && Dispatch(m, k, l).status != Crashed
    ensures OneLogin(Dispatch(m, k, l).peers)
  {
    if l.cmd == "USER" && |l.args| >= 1 {
      RegisterKeepsLogin(m, k, l.args[0]);
    } else {
      BroadcastGrows(m.peers, l, -1);
      BroadcastGrows(m.peers, l, k);
      BroadcastGrows(m.peers, Line("REHASH", []), -1);
      if Dispatch(m, k, l).peers != m.peers {
        GrownKeepsLogin(m.peers, Dispatch(m, k, l).peers);
      }
    }
  }

  lemma {:induction false} WithoutNone(ps: seq<Peer>, fd: int)
    requires forall i :: 0 <= i < |ps| ==> ps[i].fd != fd
    ensures Without(ps, fd) == ps
  {
    if ps != [] {
      WithoutNone(ps[..|ps| - 1], fd);
      assert ps == ps[..|ps| - 1] + [ps[|ps| - 1]];
    }
  }

  /** As descriptors are distinct, the loop that erases by descriptor erases one child. */
  lemma {:induction false} WithoutAt(ps: seq<Peer>, k: nat)
    requires k < |ps| && FdsDistinct(ps)
    ensures Without(ps, ps[k].fd) == ps[..k] + ps[k + 1..]
  {
    var front := ps[..|ps| - 1];
    if k == |ps| - 1 {
      WithoutNone(front, ps[k].fd);
    } else {
      WithoutAt(front, k);
      assert front[..k] == ps[..k] && front[k + 1..] + [ps[|ps| - 1]] == ps[k + 1..];
    }
  }

  lemma EraseKeeps(ps: seq<Peer>, k: nat)
    requires k < |ps| && FdsDistinct(ps) && OneLogin(ps)
    ensures var qs := ps[..k] + ps[k + 1..]; FdsDistinct(qs) && OneLogin(qs)
  {
    var qs := ps[..k] + ps[k + 1..];
    forall i | 0 <= i < |qs|
      ensures qs[i] == ps[if i < k then i else i + 1]
    {}
  }

  lemma ReadKeeps(m: Master, k: nat)
    requires k < |m.peers| && FdsDistinct(m.peers) && OneLogin(m.peers) && ReadStep(m, k).status != Crashed
    ensures OneLogin(ReadStep(m, k).peers)
  {
    var p := m.peers[k];
    if p.inbox == "" {
      WithoutAt(m.peers, k);
      EraseKeeps(m.peers, k);
    } else if Next(p.inbox).Some? {
      var n := Next(p.inbox).value;
      var ps := m.peers[k := p.(inbox := n.1)];
      GrownKeepsLogin(m.peers, ps);
      DispatchKeepsLogin(m.(peers := ps), k, n.0);
    }
  }

  lemma DispatchKeepsFds(m: Master, k: nat, l: Line)
    requires k < |m.peers| && FdsDistinct(m.peers)
    ensures FdsDistinct(Dispatch(m, k, l).peers)
  {}

  lemma ReadKeepsFds(m: Master, k: nat)
    requires k < |m.peers| && FdsDistinct(m.peers) && OneLogin(m.peers)
    ensures FdsDistinct(ReadStep(m, k).peers)
  {
    var p := m.peers[k];
    if p.inbox == "" {
      WithoutAt(m.peers, k);
      EraseKeeps(m.peers, k);
    } else if Next(p.inbox).Some? {
      var n := Next(p.inbox).value;
      DispatchKeepsFds(m.(peers := m.peers[k := p.(inbox := n.1)]), k, n.0);
    }
  }

  ghost predicate Safe(m: Master) {
    m.status != Crashed ==> FdsDistinct(m.peers) && OneLogin(m.peers)
  }

  lemma StepKeepsSafe(m: Master, maxcon: int, op: Op)
    requires Safe(m) && Enabled(m, op)
    ensures Safe(Step(m, maxcon, op))
  {
    match op
    case Accept(fd) =>
    case Deliver(k, bytes) => GrownKeepsLogin(m.peers, Step(m, maxcon, op).peers);
    case HangUp(k) => GrownKeepsLogin(m.peers, Step(m, maxcon, op).peers);
    case Read(k) =>
      if ReadStep(m, k).status != Crashed {
        ReadKeeps(m, k);
        ReadKeepsFds(m, k);
      }
  }

  predicate IsRun(m: Master, maxcon: int, ops: seq<Op>)
    decreases |ops|
  {
    ops == [] || (Enabled(m, ops[0]) && IsRun(Step(m, maxcon, ops[0]), maxcon, ops[1..]))
  }

  function Run(m: Master, maxcon: int, ops: seq<Op>): Master
    requires IsRun(m, maxcon, ops)
    decreases |ops|
  {
    if ops == [] then m else Run(Step(m, maxcon, ops[0]), maxcon, ops[1..])
  }

  const START: Master := Master([], Running)

  lemma {:induction false} RunKeepsSafe(m: Master, maxcon: int, ops: seq<Op>)
    requires IsRun(m, maxcon, ops) && Safe(m)
    ensures Safe(Run(m, maxcon, ops))
    decreases |ops|
  {
    if ops != [] {
      StepKeepsSafe(m, maxcon, ops[0]);
      RunKeepsSafe(Step(m, maxcon, ops[0]), maxcon, ops[1..]);
    }
  }

  /** Whatever bytes the children write, however they are split, and whenever they
      come and go: of two children of one user, one has been told to die. */
  lemma SingleLogin(maxcon: int, ops: seq<Op>)
    requires IsRun(START, maxcon, ops) && Run(START, maxcon, ops).status != Crashed
    ensures OneLogin(Run(START, maxcon, ops).peers)
  {
    RunKeepsSafe(START, maxcon, ops);
  }

  /** The one way the master dies of a message: a name with a space that somebody
      else has too. */
  lemma CrashIff(m: Master, maxcon: int, op: Op)
    requires Enabled(m, op)
    ensures Step(m, maxcon, op).status == Crashed <==>
              && op.Read? && Next(m.peers[op.k].inbox).Some?
              && var l := Next(m.peers[op.k].inbox).value.0;
              && l.cmd == "USER" && |l.args| >= 1 && Spaced(l.args[0])
              && Clash(m.peers, op.k, l.args[0])
  {
    if op.Read? {
      ReadCrashes(m, op.k);
    }
  }

  lemma ReadCrashes(m: Master, k: nat)
    requires m.status == Running && k < |m.peers|
    ensures ReadStep(m, k).status == Crashed <==>
              && Next(m.peers[k].inbox).Some?
              && var l := Next(m.peers[k].inbox).value.0;
              && l.cmd == "USER" && |l.args| >= 1 && Spaced(l.args[0]) && Clash(m.peers, k, l.args[0])
  {
    if Next(m.peers[k].inbox).Some? {
      var n := Next(m.peers[k].inbox).value;
      var ps := m.peers[k := m.peers[k].(inbox := n.1)];
      assert forall i :: 0 <= i < |ps| ==> ps[i].username == m.peers[i].username;
      if |n.0.args| >= 1 {
        SameClash(m.peers, ps, k, n.0.args[0]);
      }
    }
  }

  lemma SameClash(ps: seq<Peer>, qs: seq<Peer>, k: nat, name: string)
    requires |ps| == |qs| && forall i :: 0 <= i < |ps| ==> qs[i].username == ps[i].username
    ensures Clash(ps, k, name) <==> Clash(qs, k, name)
  {
    if Clash(ps, k, name) {
      var i :| 0 <= i < |ps| && i != k && SameName(ps[i].username, name);
      assert SameName(qs[i].username, name);
    }
    if Clash(qs, k, name) {
      var i :| 0 <= i < |qs| && i != k && SameName(qs[i].username, name);
      assert SameName(ps[i].username, name);
    }
  }

  /** Children that only ever name themselves by words cannot crash it. */
  lemma WordsNeverCrash(m: Master, maxcon: int, op: Op)
    requires Enabled(m, op)
    requires op.Read? && Next(m.peers[op.k].inbox).Some? ==>
               forall a :: a in Next(m.peers[op.k].inbox).value.0.args ==> !Spaced(a)
    ensures Step(m, maxcon, op).status != Crashed
  {
    CrashIff(m, maxcon, op);
  }

  /** The order to die fits in the child's buffer exactly up to this length. */
  lemma DieArrives(name: string)
    requires Word(name) && name[0] != ':' && NoCrlf(name) && NUL !in name
    ensures Deliverable(DieLine(name)) <==> |name| <= 466
  {
    var text := FormatLine(DieLine(name));
    DieText(name);
    assert ' ' == ELSEWHERE[3] && Last(ELSEWHERE) == '.';
    assert ArgsSurvive(DieLine(name).args);
    forall i: nat | i + 1 < |text|
      ensures !CrlfAt(text, i)
    {
      if 4 <= i && i + 1 < 4 + |name| {
        assert !CrlfAt(name, i - 4);
      }
    }
    forall i | 0 <= i < |text|
      ensures text[i] != NUL
    {
      if 4 <= i < 4 + |name| {
        assert text[i] in name;
      }
    }
  }

  lemma DieText(name: string)
    requires Word(name) && name[0] != ':'
    ensures var text := FormatLine(DieLine(name));
            && text == "DIE " + name + (" :" + ELSEWHERE) && |text| == 43 + |name|
  {
    assert ' ' == ELSEWHERE[3];
    TwoArgs(name, ELSEWHERE);
    assert |ELSEWHERE| == 37;
  }

  lemma TwoArgs(a: string, b: string)
    requires Word(a) && a[0] != ':' && Trailing(b)
    ensures FormatArgs([a, b]) == " " + a + (" :" + b)
  {
    assert FormatArgs([b]) == " :" + b by {
      assert [b][1..] == [];
    }
    assert [a, b][1..] == [b];
  }

  // ---------------------------------------------------------------- who is sent what

  /** The next message of child `k`, which is not closed without more to read, is `l`;
      `rest` is what has arrived behind it. */
  predicate Reads(m: Master, k: nat, l: Line, rest: string) {
    m.status == Running && k < |m.peers| && m.peers[k].inbox != "" && Next(m.peers[k].inbox) == Some((l, rest))
  }

  /** `q` is `p` but for what it was sent, and for what child `k` still has to read. */
  predicate SameButSent(p: Peer, q: Peer, i: nat, k: nat, rest: string) {
    && q.fd == p.fd && q.username == p.username && q.closed == p.closed
    && q.inbox == (if i == k then rest else p.inbox)
  }

  predicate OnlySent(m: Master, after: Master, k: nat, rest: string) {
    |after.peers| == |m.peers| && forall i :: 0 <= i < |m.peers| ==> SameButSent(m.peers[i], after.peers[i], i, k, rest)
  }

  /** OPER is passed on to every other child, and to the sender not. */
  lemma OperIsTold(m: Master, k: nat, l: Line, rest: string)
    requires Reads(m, k, l, rest) && l.cmd == "OPER" && |l.args| >= 1
    ensures var after := ReadStep(m, k);
            && after.status == Running && OnlySent(m, after, k, rest)
            && after.peers[k].sent == m.peers[k].sent
            && forall i :: 0 <= i < |m.peers| && i != k ==> after.peers[i].sent == m.peers[i].sent + [l]
  {}

  /** WALLOPS is passed on to every child, the sender too. */
  lemma WallopsIsTold(m: Master, k: nat, l: Line, rest: string)
    requires Reads(m, k, l, rest) && l.cmd == "WALLOPS" && |l.args| >= 2
    ensures var after := ReadStep(m, k);
            && after.status == Running && OnlySent(m, after, k, rest)
            && forall i :: 0 <= i < |m.peers| ==> after.peers[i].sent == m.peers[i].sent + [l]
  {}

  /** So is DIE, and then the master ends. */
  lemma DieIsTold(m: Master, k: nat, l: Line, rest: string)
    requires Reads(m, k, l, rest) && l.cmd == "DIE" && |l.args| >= 2
    ensures var after := ReadStep(m, k);
            && after.status == Stopped && OnlySent(m, after, k, rest)
            && forall i :: 0 <= i < |m.peers| ==> after.peers[i].sent == m.peers[i].sent + [l]
  {}

  /** For a REHASH, whatever its arguments, every child is sent one without any. */
  lemma RehashIsTold(m: Master, k: nat, l: Line, rest: string)
    requires Reads(m, k, l, rest) && l.cmd == "REHASH"
    ensures var after := ReadStep(m, k);
            && after.status == Running && OnlySent(m, after, k, rest)
            && forall i :: 0 <= i < |m.peers| ==> after.peers[i].sent == m.peers[i].sent + [Line("REHASH", [])]
  {}

  /** USER names the child, unless nothing catches an exception, tells every other child of
      that name to die, and tells the others, and the child itself, nothing. */
  lemma UserIsTold(m: Master, k: nat, l: Line, rest: string)
    requires Reads(m, k, l, rest) && l.cmd == "USER" && |l.args| >= 1 && ReadStep(m, k).status != Crashed
    ensures var after, name := ReadStep(m, k), l.args[0];
            && after.status == Running && |after.peers| == |m.peers|
            && after.peers[k] == m.peers[k].(username := name, inbox := rest)
            && (forall i :: 0 <= i < |m.peers| && i != k && SameButCase(m.peers[i].username, name) ==>
                  after.peers[i] == m.peers[i].(sent := m.peers[i].sent
                                                  + [Line("DIE", [name, "You are logged from another location."])]))
            && (forall i :: 0 <= i < |m.peers| && i != k && !SameButCase(m.peers[i].username, name) ==>
                  after.peers[i] == m.peers[i])
  {
    forall i | 0 <= i < |m.peers|
      ensures SameName(m.peers[i].username, l.args[0]) <==> SameButCase(m.peers[i].username, l.args[0])
    {
      SameNameIs(m.peers[i].username, l.args[0]);
    }
  }

  /** Before the exception that nothing catches, nobody has been told anything. */
  lemma CrashTellsNobody(m: Master, k: nat, l: Line, rest: string)
    requires Reads(m, k, l, rest) && ReadStep(m, k).status == Crashed
    ensures l.cmd == "USER" && |l.args| >= 1 && ' ' in l.args[0]
    ensures ReadStep(m, k).peers == m.peers[k := m.peers[k].(username := l.args[0], inbox := rest)]
    ensures exists i :: 0 <= i < |m.peers| && i != k && SameButCase(m.peers[i].username, l.args[0])
  {
    var name, ps := l.args[0], m.peers[k := m.peers[k].(inbox := rest)];
    assert Clash(ps, k, name);
    var i :| 0 <= i < |ps| && i != k && SameName(ps[i].username, name);
    SameNameIs(m.peers[i].username, name);
    assert ps[k := ps[k].(username := name)] == m.peers[k := m.peers[k].(username := name, inbox := rest)];
  }

  /** Whether a message is one of the table, with arguments enough. */
  predicate Complete(l: Line) {
    || (l.cmd == "WALLOPS" && |l.args| >= 2)
    || l.cmd == "REHASH"
    || (l.cmd == "DIE" && |l.args| >= 2)
    || (l.cmd == "OPER" && |l.args| >= 1)
    || (l.cmd == "USER" && |l.args| >= 1)
  }

  /** Any other message is taken and changes nothing else. */
  lemma OthersAreIgnored(m: Master, k: nat, l: Line, rest: string)
    requires Reads(m, k, l, rest) && !Complete(l)
    ensures ReadStep(m, k) == m.(peers := m.peers[k := m.peers[k].(inbox := rest)])
  {}

  /** The master ends in order exactly for a DIE with two arguments. */
  lemma StoppedIff(m: Master, maxcon: int, op: Op)
    requires Enabled(m, op)
    ensures Step(m, maxcon, op).status == Stopped <==>
              && op.Read? && m.peers[op.k].inbox != "" && Next(m.peers[op.k].inbox).Some?
              && var l := Next(m.peers[op.k].inbox).value.0;
              && l.cmd == "DIE" && |l.args| >= 2
  {}

  /** There are never more children than the limit, if there is one; below it a new
      child is taken, with nothing said and nothing to read. */
  lemma {:induction false} NeverTooMany(maxcon: int, ops: seq<Op>, m: Master)
    requires IsRun(m, maxcon, ops) && (maxcon > 0 ==> |m.peers| <= maxcon)
    ensures maxcon > 0 ==> |Run(m, maxcon, ops).peers| <= maxcon
    decreases |ops|
  {
    if ops != [] {
      var next := Step(m, maxcon, ops[0]);
      if ops[0].Read? {
        ReadTakesNobody(m, ops[0].k);
      }
      NeverTooMany(maxcon, ops[1..], next);
    }
  }

  lemma ReadTakesNobody(m: Master, k: nat)
    requires k < |m.peers|
    ensures |ReadStep(m, k).peers| <= |m.peers|
  {
    WithoutLess(m.peers, m.peers[k].fd);
  }

  lemma {:induction false} WithoutLess(ps: seq<Peer>, fd: int)
    ensures |Without(ps, fd)| <= |ps|
  {
    if ps != [] {
      WithoutLess(ps[..|ps| - 1], fd);
    }
  }

  lemma NewChildIsTaken(m: Master, maxcon: int, fd: int)
    requires Enabled(m, Accept(fd)) && (maxcon <= 0 || |m.peers| < maxcon)
    ensures var after := Step(m, maxcon, Accept(fd));
            && after.status == Running && |after.peers| == |m.peers| + 1 && after.peers[..|m.peers|] == m.peers
            && after.peers[|m.peers|].fd == fd && after.peers[|m.peers|].username == ""
            && after.peers[|m.peers|].sent == [] && after.peers[|m.peers|].inbox == ""
  {}

  // ---------------------------------------------------------------- the program's own children

  const NICK_MAX: nat := 29

  /** The characters of `nick_lc_chars` and of `nick_uc_chars`. */
  predicate NickChar(c: char) {
    || '0' <= c <= '9' || 'a' <= c <= 'z' || 'A' <= c <= 'Z'
    || c in ['{', '}', '^', '`', '-', '_', '|', '[', ']', '~', '\\']
  }

  /** They are the digits, the minus sign, and everything from "A" to "~". */
  lemma NickCharIs(c: char)
    ensures NickChar(c) <==> 48 <= c as int <= 57 || c as int == 45 || 65 <= c as int <= 126
    ensures NICK_MAX == 29
  {}

  /** `Nick::isValidNickname`, which the nickname of every user has passed. */
  predicate ValidNickname(s: string) {
    && s != "" && !('0' <= s[0] <= '9') && |s| <= NICK_MAX
    && forall c :: c in s ==> NickChar(c)
  }

  lemma ValidNicknameIs(s: string)
    ensures ValidNickname(s) <==>
              && 1 <= |s| <= 29 && !(48 <= s[0] as int <= 57)
              && forall i :: 0 <= i < |s| ==> 48 <= s[i] as int <= 57 || s[i] as int == 45 || 65 <= s[i] as int <= 126
  {
    forall i | 0 <= i < |s|
      ensures NickChar(s[i]) <==> 48 <= s[i] as int <= 57 || s[i] as int == 45 || 65 <= s[i] as int <= 126
    {
      NickCharIs(s[i]);
    }
  }

  lemma NicknameIsPlain(name: string)
    requires ValidNickname(name)
    ensures Word(name) && !Trailing(name) && NoCrlf(name) && NUL !in name
  {
    assert !NickChar(' ') && !NickChar(':') && !NickChar('\r') && !NickChar(NUL);
  }

  /** What a child says of its user, and what the others are told of it, fit. */
  lemma NicknamesAreDelivered(name: string)
    requires ValidNickname(name)
    ensures Deliverable(Line("USER", [name])) && Deliverable(DieLine(name))
  {
    NicknameIsPlain(name);
    DieArrives(name);
    UserText(name);
    var text := FormatLine(Line("USER", [name]));
    assert Upper("USER") == "USER";
    forall i: nat | i + 1 < |text|
      ensures !CrlfAt(text, i)
    {
      if 5 <= i {
        assert !CrlfAt(name, i - 5);
      }
    }
    forall i | 0 <= i < |text|
      ensures text[i] != NUL
    {
      if 5 <= i {
        assert text[i] in name;
      }
    }
  }

  lemma UserText(name: string)
    requires Word(name) && !Trailing(name)
    ensures FormatLine(Line("USER", [name])) == "USER " + name
  {
    assert [name][1..] == [] && " " + name + "" == " " + name;
    assert FormatArgs([name]) == " " + name;
    assert "USER" + (" " + name) == "USER " + name;
  }

  /** The registration of a child of the program itself never crashes the master, and
      everybody else of the name is sent an order that reaches it. */
  lemma OwnChildrenAreSafe(m: Master, k: nat, name: string, rest: string)
    requires m.status == Running && k < |m.peers| && ValidNickname(name)
    requires m.peers[k].inbox == Wire(Line("USER", [name])) + rest
    ensures var after := ReadStep(m, k);
            && after.status == Running && |after.peers| == |m.peers|
            && after.peers[k] == m.peers[k].(username := name, inbox := rest)
            && (forall i :: 0 <= i < |m.peers| && i != k && SameName(m.peers[i].username, name) ==>
                  after.peers[i].sent == m.peers[i].sent + [DieLine(name)])
            && Deliverable(DieLine(name))
  {
    NicknamesAreDelivered(name);
    NicknameIsPlain(name);
    MessageTaken(Line("USER", [name]), rest);
    assert Wire(Line("USER", [name])) + rest != "";
    var ps := m.peers[k := m.peers[k].(inbox := rest)];
    LatestWins(m.(peers := ps), k, name);
  }
}
