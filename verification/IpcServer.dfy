/** `DaemonForkServerPoll` in the master process: the list of children, the static
    buffer of `ipc_read`, and the handlers, each proved to be the step of `IpcMaster`. */
module IpcServer {
  import opened Basics
  import opened Codec
  import opened Ipc
  import opened IpcMaster
  import opened Text

  /** `child_t`; the bytes of its socket are `inbox` and `sent`. */
  class Child {
    const fd: int
    var username: string
    var inbox: string
    var closed: bool
    var sent: seq<Line>

    constructor (fd: int)
      ensures PeerOf(this) == Peer(fd, "", "", false, [])
    {
      this.fd, username, inbox, closed, sent := fd, "", "", false, [];
    }
  }

  function PeerOf(c: Child): Peer
    reads c
  {
    Peer(c.fd, c.username, c.inbox, c.closed, c.sent)
  }

  function Peers(cs: seq<Child>): (r: seq<Peer>)
    reads set c | c in cs
    ensures |r| == |cs| && forall i :: 0 <= i < |cs| ==> r[i] == PeerOf(cs[i])
  {
    if cs == [] then [] else Peers(cs[..|cs| - 1]) + [PeerOf(cs[|cs| - 1])]
  }

  class Server {
    var childs: seq<Child>
    const maxcon: int
    var status: Status
    /** The static buffer. */
    const buf: array<char>

    ghost predicate Valid()
      reads this
    {
      buf.Length == PEEK + 1 && forall i, j :: 0 <= i < j < |childs| ==> childs[i] != childs[j]
    }

    ghost function Value(): Master
      reads this, set c | c in childs
    {
      Master(Peers(childs), status)
    }

    constructor (maxcon: int)
      ensures Valid() && this.maxcon == maxcon && Value() == START && fresh(buf)
    {
      childs, status := [], Running;
      this.maxcon := maxcon;
      buf := new char[PEEK + 1];
    }

    /** `new_client_cb`, in the parent. */
    method NewClient(fd: int)
      requires Valid() && Enabled(Value(), Accept(fd))
      modifies this`childs
      ensures Valid() && Value() == Step(old(Value()), maxcon, Accept(fd))
    {
      if maxcon > 0 && |childs| >= maxcon {
        return;
      }
      ghost var cs, ps := childs, Peers(childs);
      var child := new Child(fd);
      childs := childs + [child];
      SamePeers(cs, ps);
      PeersMore(cs, child);
    }

    /** `ipc_master_send`, when `write` succeeds. */
    method MasterSend(child: Child, m: Line)
      modifies child`sent
      ensures child.sent == old(child.sent) + [m]
    {
      child.sent := child.sent + [m];
    }

    /** `ipc_master_broadcast`. */
    method Broadcast(m: Line, butone: Child?, ghost but: int)
      requires Valid() && (butone == null ==> but == -1)
      requires butone != null ==> 0 <= but < |childs| && childs[but] == butone
      modifies set c | c in childs
      ensures Value() == old(Value()).(peers := TellAll(old(Value()).peers, m, but))
    {
      ghost var ps := Peers(childs);
      for it := 0 to |childs|
        invariant forall i :: 0 <= i < it ==> PeerOf(childs[i]) == TellAll(ps, m, but)[i]
        invariant forall i :: it <= i < |childs| ==> PeerOf(childs[i]) == ps[i]
      {
        if butone != childs[it] {
          MasterSend(childs[it], m);
        }
      }
      assert Peers(childs) == TellAll(ps, m, but);
    }

    /** `m_user`; not `ok` is a MalformedMessage, which leaves `ipc_read`. */
    method User(child: Child, m: Line, ghost k: nat) returns (ok: bool)
      requires Valid() && status == Running && k < |childs| && childs[k] == child && |m.args| >= 1
      modifies set c | c in childs
      ensures Master(Peers(childs), if ok then Running else Crashed) == UserStep(old(Value()), k, m.args[0])
    {
      ghost var ps := Peers(childs);
      child.username := m.args[0];
      assert Peers(childs) == ps[k := ps[k].(username := m.args[0])];
      NamedFirst(ps, k, m.args[0]);
      ok := UserLoop(child, k);
    }

    /** Its loop: any other child of that name is told to die. */
    method UserLoop(child: Child, ghost k: nat) returns (ok: bool)
      requires Valid() && k < |childs| && childs[k] == child
      modifies (set c | c in childs)`sent
      ensures ok <==> !(Spaced(child.username) && Clash(old(Peers(childs)), k, child.username))
      ensures Peers(childs) == if ok then Registered(old(Peers(childs)), k, child.username) else old(Peers(childs))
    {
      ghost var ps := Peers(childs);
      for it := 0 to |childs|
        invariant forall i :: it <= i < |childs| || i == k ==> childs[i].sent == old(childs[i].sent)
        invariant forall i :: 0 <= i < it && i != k ==>
                    childs[i].sent == if SameName(childs[i].username, child.username)
                                      then old(childs[i].sent) + [DieLine(child.username)] else old(childs[i].sent)
        invariant Spaced(child.username) ==>
                    forall i :: 0 <= i < it && i != k ==> !SameName(childs[i].username, child.username)
      {
        if childs[it] != child {
          ok := UserVisit(childs[it], child);
          if !ok {
            UserCrashes(ps, k, child.username, it);
            SamePeers(childs, ps);
            return;
          }
        }
      }
      ok := true;
      ghost var goal := Registered(ps, k, child.username);
      assert forall i :: 0 <= i < |childs| ==> PeerOf(childs[i]) == goal[i];
      SamePeers(childs, goal);
    }

    /** What it does with one other child. */
    method UserVisit(other: Child, child: Child) returns (ok: bool)
      requires other != child
      modifies other`sent
      ensures ok <==> !(SameName(other.username, child.username) && Spaced(child.username))
      ensures other.sent == if ok && SameName(other.username, child.username)
                            then old(other.sent) + [DieLine(child.username)] else old(other.sent)
    {
      ok := true;
      if Lower(other.username) == Lower(child.username) {
        var die;
        ok, die := DieMessage(child.username);
        if ok {
          MasterSend(other, die);
        }
      }
    }

    /** The message that `m_user` puts together for the others; a name with a space
        admits no second argument. */
    method DieMessage(name: string) returns (ok: bool, die: Line)
      ensures ok <==> !Spaced(name)
      ensures ok ==> die == DieLine(name)
    {
      var m := new Message("DIE");
      ok := m.AddArg(name);
      assert ok && m.args == [name];
      ok := m.AddArg("You are logged from another location.");
      die := Line(m.cmd, m.args);
    }

    /** The handler of one command of the table. */
    method Handle(cmd: Cmd, child: Child, m: Line, ghost k: nat)
      requires Valid() && status == Running && k < |childs| && childs[k] == child
      requires m.cmd == NameOf(cmd) && |m.args| >= MinArgs(cmd)
      modifies this`status, set c | c in childs
      ensures Value() == Dispatch(old(Value()), k, m)
    {
      match cmd
      case WALLOPS =>
        Broadcast(m, null, -1);
      case REHASH =>
        Broadcast(Line("REHASH", []), null, -1);
      case DIE =>
        Broadcast(m, null, -1);
        Halt(Stopped);
      case OPER =>
        Broadcast(m, child, k);
      case USER =>
        Register(child, m, k);
    }

    /** USER: nothing catches a MalformedMessage. */
    method Register(child: Child, m: Line, ghost k: nat)
      requires Valid() && status == Running && k < |childs| && childs[k] == child && |m.args| >= 1
      modifies this`status, set c | c in childs
      ensures Value() == UserStep(old(Value()), k, m.args[0])
    {
      var ok := User(child, m, k);
      if !ok {
        Halt(Crashed);
      }
    }

    /** The process ends: it quits, or nothing catches the exception. */
    method Halt(how: Status)
      modifies this`status
      ensures status == how && Value() == old(Value()).(status := how)
    {
      status := how;
    }

    /** The search in `ipc_cmds`. */
    method FindCmd(cmd: string) returns (i: nat)
      ensures i <= |TABLE| && (i < |TABLE| ==> TABLE[i].0 == cmd)
      ensures i == |TABLE| ==> forall j :: 0 <= j < |TABLE| ==> TABLE[j].0 != cmd
    {
      i := 0;
      while i < |TABLE| && cmd != TABLE[i].0
        invariant i <= |TABLE| && forall j :: 0 <= j < i ==> TABLE[j].0 != cmd
      {
        i := i + 1;
      }
    }

    /** `recv` with MSG_PEEK, and the NUL that `ipc_read` puts after it. */
    method Peek(child: Child) returns (r: nat)
      requires Valid()
      modifies buf
      ensures r == |Peeked(child.inbox)| && CString(buf[..]) == CString(Peeked(child.inbox))
      ensures buf[..r] == Peeked(child.inbox)
    {
      r := if |child.inbox| < PEEK then |child.inbox| else PEEK;
      forall i | 0 <= i < r {
        buf[i] := child.inbox[i];
      }
      buf[r] := NUL;
      assert buf[..r] == Peeked(child.inbox);
      CStringEnds(buf[..], r);
    }

    /** `ipc_read` for a child; whether it wants to be called again. */
    method IpcRead(child: Child, ghost k: nat) returns (again: bool)
      requires Valid() && status == Running && k < |childs| && childs[k] == child
      modifies this`childs, this`status, buf, set c | c in childs
      ensures Valid() && Value() == ReadStep(old(Value()), k)
      ensures again <==> !(old(child.inbox) == "" && old(child.closed))
    {
      if child.inbox == "" {
        if !child.closed {
          return true;
        }
        Erase(child.fd);
        return false;
      }
      ghost var ps := Peers(childs);
      var got, m := TakeLine(child);
      SamePeers(childs, ps[k := ps[k].(inbox := child.inbox)]);
      if got {
        HandleLine(child, m, k);
      }
      return true;
    }

    /** The first line that has arrived, if it is there and fits. */
    method TakeLine(child: Child) returns (got: bool, m: Line)
      requires Valid()
      modifies buf, child`inbox
      ensures got <==> Next(old(child.inbox)).Some?
      ensures got ==> Next(old(child.inbox)) == Some((m, child.inbox))
      ensures !got ==> child.inbox == old(child.inbox)
    {
      got, m := false, Line("", []);
      ghost var was := child.inbox;
      var r := Peek(child);
      var seen := CString(buf[..]);
      assert buf[..|seen|] == seen && seen == child.inbox[..|seen|];
      var eol := FindCrlf(seen);
      TakesLine(was, seen, eol);
      if eol < |seen| {
        r := eol + 2;
        var line := CutAt(seen, r);
        assert line == child.inbox[..eol];
        var parsed := Message.Parse(line);
        got, m := true, Line(parsed.cmd, parsed.args);
        child.inbox := child.inbox[r..];
      }
    }

    /** The buffer once its end of line is overwritten, as a C string. */
    method CutAt(seen: string, r: nat) returns (line: string)
      requires Valid() && 2 <= r <= |seen| <= buf.Length && buf[..|seen|] == seen && NUL !in seen
      modifies buf
      ensures line == seen[..r - 2]
    {
      buf[r - 2] := NUL;
      CStringEnds(buf[..], r - 2);
      assert buf[..][..r - 2] == seen[..r - 2];
      NoNul(seen[..r - 2]);
      line := CString(buf[..]);
    }

    method HandleLine(child: Child, m: Line, ghost k: nat)
      requires Valid() && status == Running && k < |childs| && childs[k] == child
      modifies this`status, set c | c in childs
      ensures Value() == Dispatch(old(Value()), k, m)
    {
      var i := FindCmd(m.cmd);
      if i == |TABLE| || |m.args| < TABLE[i].2 {
        Ignored(Value(), k, m);
        return;
      }
      TableRow(i);
      Handle(TABLE[i].1, child, m, k);
    }

    /** A child has left: the loop erases by descriptor. */
    method Erase(fd: int)
      requires Valid()
      modifies this`childs
      ensures Valid() && Value() == old(Value()).(peers := IpcMaster.Without(old(Value()).peers, fd))
      ensures childs == Kept(old(childs), fd)
    {
      ghost var cs, ps := childs, Peers(childs);
      childs := KeepOthers(childs, fd);
      KeptDistinct(cs, fd);
      SamePeers(cs, ps);
      KeptPeers(cs, fd);
    }

    /** Its loop. */
    static method KeepOthers(cs: seq<Child>, fd: int) returns (r: seq<Child>)
      ensures r == Kept(cs, fd)
    {
      r := cs;
      var it := 0;
      ghost var k := 0;
      while it < |r|
        invariant k <= |cs| && it == |Kept(cs[..k], fd)| && r == Kept(cs[..k], fd) + cs[k..]
        decreases |cs| - k
      {
        KeptStep(cs, fd, k);
        if r[it].fd == fd {
          r := r[..it] + r[it + 1..];
        } else {
          it := it + 1;
        }
        k := k + 1;
      }
      assert k == |cs|;
      assert cs[..k] == cs && r == Kept(cs, fd);
    }
  }

  function NameOf(cmd: Cmd): string {
    match cmd
    case WALLOPS => "WALLOPS"
    case REHASH => "REHASH"
    case DIE => "DIE"
    case OPER => "OPER"
    case USER => "USER"
  }

  function MinArgs(cmd: Cmd): nat {
    match cmd
    case WALLOPS => 2
    case REHASH => 0
    case DIE => 2
    case OPER => 1
    case USER => 1
  }

  lemma TableRow(i: nat)
    requires i < |TABLE|
    ensures NameOf(TABLE[i].1) == TABLE[i].0 && MinArgs(TABLE[i].1) == TABLE[i].2
  {}

  lemma Ignored(m: Master, k: nat, l: Line)
    requires k < |m.peers|
    requires forall i :: 0 <= i < |TABLE| && TABLE[i].0 == l.cmd ==> |l.args| < TABLE[i].2
    ensures Dispatch(m, k, l) == m
  {
    assert TABLE[0].0 == "WALLOPS" && TABLE[1].0 == "REHASH" && TABLE[2].0 == "DIE";
    assert TABLE[3].0 == "OPER" && TABLE[4].0 == "USER";
  }

  lemma {:induction false} NoNul(s: string)
    requires NUL !in s
    ensures CString(s) == s
  {
    if s != "" {
      NoNul(s[1..]);
    }
  }

  lemma {:induction false} CStringEnds(s: string, r: nat)
    requires r < |s| && s[r] == NUL
    ensures CString(s) == CString(s[..r])
  {
    if r > 0 && s[0] != NUL {
      CStringEnds(s[1..], r - 1);
      assert s[1..][..r - 1] == s[..r][1..];
    }
  }

  /** The children whose descriptor is another one. */
  function Kept(cs: seq<Child>, fd: int): seq<Child> {
    if cs == [] then []
    else Kept(cs[..|cs| - 1], fd) + (if cs[|cs| - 1].fd != fd then [cs[|cs| - 1]] else [])
  }

  lemma KeptStep(cs: seq<Child>, fd: int, k: nat)
    requires k < |cs|
    ensures var done, it := Kept(cs[..k], fd), |Kept(cs[..k], fd)|;
            && (done + cs[k..])[it] == cs[k]
            && (if cs[k].fd == fd then
                  && Kept(cs[..k + 1], fd) == done
                  && (done + cs[k..])[..it] + (done + cs[k..])[it + 1..] == done + cs[k + 1..]
                else
                  Kept(cs[..k + 1], fd) == done + [cs[k]] && done + cs[k..] == done + [cs[k]] + cs[k + 1..])
  {
    assert cs[..k + 1][..k] == cs[..k] && cs[k..] == [cs[k]] + cs[k + 1..];
  }

  lemma {:induction false} KeptPeers(cs: seq<Child>, fd: int)
    ensures Peers(Kept(cs, fd)) == IpcMaster.Without(Peers(cs), fd)
  {
    if cs != [] {
      var front, last := cs[..|cs| - 1], cs[|cs| - 1];
      KeptPeers(front, fd);
      assert Peers(cs)[..|cs| - 1] == Peers(front);
      if last.fd != fd {
        assert (Kept(front, fd) + [last])[..|Kept(front, fd)|] == Kept(front, fd);
      }
    }
  }

  lemma {:induction false} KeptDistinct(cs: seq<Child>, fd: int)
    requires forall i, j :: 0 <= i < j < |cs| ==> cs[i] != cs[j]
    ensures forall i, j :: 0 <= i < j < |Kept(cs, fd)| ==> Kept(cs, fd)[i] != Kept(cs, fd)[j]
    ensures forall c :: c in Kept(cs, fd) ==> c in cs
  {
    if cs != [] {
      var front, last := cs[..|cs| - 1], cs[|cs| - 1];
      KeptDistinct(front, fd);
      assert last in cs && last !in front;
    }
  }

  lemma TakesLine(inbox: string, seen: string, eol: nat)
    requires seen == CString(Peeked(inbox)) && eol == FindCrlf(seen)
    ensures eol < |seen| ==>
              && eol + 2 <= |seen| && eol + 2 <= |inbox|
              && Next(inbox) == Some((ParseLine(inbox[..eol]), inbox[eol + 2..]))
    ensures eol >= |seen| ==> Next(inbox) == None
  {}

  lemma PeersMore(cs: seq<Child>, c: Child)
    ensures Peers(cs + [c]) == Peers(cs) + [PeerOf(c)]
  {
    assert (cs + [c])[..|cs|] == cs;
  }

  lemma SamePeers(cs: seq<Child>, ps: seq<Peer>)
    requires |cs| == |ps| && forall i :: 0 <= i < |cs| ==> PeerOf(cs[i]) == ps[i]
    ensures Peers(cs) == ps
  {}

  lemma NamedFirst(ps: seq<Peer>, k: nat, name: string)
    requires k < |ps|
    ensures var named := ps[k := ps[k].(username := name)];
            && Registered(named, k, name) == Registered(ps, k, name)
            && (Clash(named, k, name) <==> Clash(ps, k, name))
  {
    var named := ps[k := ps[k].(username := name)];
    assert forall i :: 0 <= i < |ps| && i != k ==> named[i] == ps[i];
  }

  lemma UserCrashes(ps: seq<Peer>, k: nat, name: string, it: nat)
    requires k < |ps| && it < |ps| && it != k && Spaced(name) && SameName(ps[it].username, name)
    ensures Clash(ps, k, name)
  {}
}
