/** The IRC network graph: nicks, channels and the ChanUser cells that tie them,
    as heap objects, and the state transformers their methods are proved against. */
module Network {
  import opened Modes

  /** `im::ChatBuddy`: libpurple's chat buddy, an opaque identity. */
  datatype Handle = Handle(id: nat, isMe: bool)

  /** What a client can be sent about the membership of channels. Senders and
      receivers are formatted when the message is sent, so they are names. */
  datatype Msg =
    | Join(who: string, chan: string)
    | Names(chan: string, entries: seq<NameEntry>)
    | Mode(chan: string, add: bool, letters: string, target: string)
    | Part(who: string, chan: string)
    | Kick(chan: string, victim: string)
    | Quit(who: string)
    | NickChange(who: string, newNick: string)

  datatype NameEntry = NameEntry(prefix: string, nick: string)

  /** One call of `Nick::send`. */
  datatype Delivery = Delivery(to: Nick, m: Msg)

  /** Everything the objects of the network hold, field by field. `cells` holds the
      ChanUsers that are allocated, with their status: `delete` removes one. */
  datatype Net = Net(
    names: map<Nick, string>,                      // Entity::name of each nick
    on: map<Nick, seq<ChanUser>>,                  // Nick::channels
    handles: map<Nick, Handle>,                    // ChatBuddy::im_cbuddy
    users: map<Channel, seq<ChanUser>>,            // Channel::users
    buddies: map<Channel, map<Handle, ChanUser>>,  // ConversationChannel::cbuddies
    cells: map<ChanUser, Mask>,
    index: map<string, Nick>)                      // IRC::users

  // ---------------------------------------------------------------- vectors

  ghost predicate NoDup(s: seq<ChanUser>) {
    forall i, j :: 0 <= i < j < |s| ==> s[i] != s[j]
  }

  /** The entries of a nick's `channels` that are not on `c`. */
  function OffChan(s: seq<ChanUser>, c: Channel): (r: seq<ChanUser>)
    ensures forall cu :: cu in r ==> cu in s && cu.chan != c
    ensures forall cu :: cu in s && cu.chan != c ==> cu in r
    ensures NoDup(s) ==> NoDup(r)
  {
    if s == [] then []
    else OffChan(s[..|s| - 1], c) + (if s[|s| - 1].chan != c then [s[|s| - 1]] else [])
  }

  /** The entries of a channel's `users` that are not of `n`. */
  function OffNick(s: seq<ChanUser>, n: Nick): (r: seq<ChanUser>)
    ensures forall cu :: cu in r ==> cu in s && cu.nick != n
    ensures forall cu :: cu in s && cu.nick != n ==> cu in r
    ensures NoDup(s) ==> NoDup(r)
  {
    if s == [] then []
    else OffNick(s[..|s| - 1], n) + (if s[|s| - 1].nick != n then [s[|s| - 1]] else [])
  }

  // ---------------------------------------------------------------- messages

  /** `forAll` to the nick of each entry in turn, and `others` after it unless
      that nick is `but`. */
  function Deliver(us: seq<ChanUser>, forAll: seq<Msg>, others: seq<Msg>, but: Nick?): seq<Delivery> {
    if us == [] then []
    else
      var n := us[|us| - 1].nick;
      Deliver(us[..|us| - 1], forAll, others, but) + To(n, forAll) + (if n != but then To(n, others) else [])
  }

  function To(n: Nick, ms: seq<Msg>): seq<Delivery> {
    seq(|ms|, i requires 0 <= i < |ms| => Delivery(n, ms[i]))
  }

  lemma ToOne(n: Nick, m: Msg)
    ensures To(n, [m]) == [Delivery(n, m)]
  {}

  lemma ToNone(n: Nick)
    ensures To(n, []) == []
  {}

  /** What `n` was sent. */
  function Inbox(sent: seq<Delivery>, n: Nick): seq<Msg> {
    if sent == [] then []
    else Inbox(sent[..|sent| - 1], n) + (if sent[|sent| - 1].to == n then [sent[|sent| - 1].m] else [])
  }

  /** The entries of a NAMES reply (`sendNames`). */
  function NameEntries(net: Net, us: seq<ChanUser>): seq<NameEntry>
    requires forall cu :: cu in us ==> cu in net.cells && cu.nick in net.names
  {
    seq(|us|, i requires 0 <= i < |us| => NameEntry(PrefixOf(net.cells[us[i]]), net.names[us[i].nick]))
  }

  // ---------------------------------------------------------------- the invariant

  /** Each nick's `channels` holds allocated cells of its own, each once. */
  ghost predicate NicksSound(net: Net) {
    && net.on.Keys == net.names.Keys == net.handles.Keys
    && (forall n :: n in net.on ==> NoDup(net.on[n]))
    && (forall n, cu :: n in net.on && cu in net.on[n] ==> cu in net.cells && cu.nick == n)
  }

  /** Each channel's `users` holds allocated cells of its own, each once. */
  ghost predicate ChannelsSound(net: Net) {
    && net.buddies.Keys == net.users.Keys
    && (forall c :: c in net.users ==> NoDup(net.users[c]))
    && (forall c, cu :: c in net.users && cu in net.users[c] ==> cu in net.cells && cu.chan == c)
  }

  /** Each allocated cell is in both vectors, and is the only one of its pair. */
  ghost predicate CellsLinked(net: Net) {
    && (forall cu :: cu in net.cells ==>
          cu.nick in net.on && cu in net.on[cu.nick] && cu.chan in net.users && cu in net.users[cu.chan])
    && (forall a, b :: a in net.cells && b in net.cells && a.nick == b.nick && a.chan == b.chan ==> a == b)
  }

  /** Both vectors and the allocated cells agree: a cell is in its nick's `channels`
      iff it is in its channel's `users` iff it is allocated, there is at most one
      per nick and channel, and no vector holds a freed cell. */
  ghost predicate Linked(net: Net) {
    NicksSound(net) && ChannelsSound(net) && CellsLinked(net)
  }

  /** `getChanUser`: whether `n` is on `c`, and its cell there. */
  ghost predicate IsOn(net: Net, n: Nick, c: Channel) {
    exists cu :: cu in net.cells && cu.nick == n && cu.chan == c
  }

  // ---------------------------------------------------------------- transformers

  /** The state after `c` lost `n` (or as it was, if `n` was not on `c`). */
  function Detach(net: Net, n: Nick, c: Channel): Net
    requires n in net.on && c in net.users && c in net.buddies
  {
    net.(on := net.on[n := OffChan(net.on[n], c)],
         users := net.users[c := OffNick(net.users[c], n)],
         buddies := net.buddies[c := OffBuddy(net.buddies[c], n)],
         cells := map cu | cu in net.cells && !(cu.nick == n && cu.chan == c) :: net.cells[cu])
  }

  function OffBuddy(m: map<Handle, ChanUser>, n: Nick): map<Handle, ChanUser> {
    map h | h in m && m[h].nick != n :: m[h]
  }

  /** `Nick::join` for a nick that is not on the channel yet (`Channel::addUser`),
      `cu` being the cell that is allocated. */
  function Enter(net: Net, cu: ChanUser, status: Mask): Net
    requires cu.nick in net.on && cu.chan in net.users
  {
    net.(on := net.on[cu.nick := net.on[cu.nick] + [cu]],
         users := net.users[cu.chan := net.users[cu.chan] + [cu]],
         cells := net.cells[cu := status])
  }

  function JoinMsg(net: Net, cu: ChanUser): Msg
    requires cu.nick in net.names
  {
    Join(net.names[cu.nick], cu.chan.name)
  }

  /** `getModeMessage`; every letter is followed by the same nickname. */
  function ModeMsg(net: Net, cu: ChanUser, add: bool, modes: Mask): Msg
    requires cu.nick in net.names
  {
    Mode(cu.chan.name, add, LettersOf(modes), net.names[cu.nick])
  }

  function NamesMsg(net: Net, c: Channel): Msg
    requires c in net.users && forall u :: u in net.users[c] ==> u in net.cells && u.nick in net.names
  {
    Names(c.name, NameEntries(net, net.users[c]))
  }

  /** What `Channel::addUser` sends, once the state is `after`. */
  function EnterSends(after: Net, cu: ChanUser, status: Mask): seq<Delivery>
    requires cu.nick in after.names && cu.chan in after.users
    requires forall u :: u in after.users[cu.chan] ==> u in after.cells && u.nick in after.names
  {
    Deliver(after.users[cu.chan], [JoinMsg(after, cu)], StatusMsgs(after, cu, status), cu.nick)
    + [Delivery(cu.nick, NamesMsg(after, cu.chan))]
  }

  function StatusMsgs(net: Net, cu: ChanUser, status: Mask): seq<Msg>
    requires cu.nick in net.names
  {
    if status == {} then [] else [ModeMsg(net, cu, true, status)]
  }

  /** `Channel::setMode` and `Channel::delMode`. */
  function ChangeMode(net: Net, cu: ChanUser, add: bool, modes: Mask): Net
    requires cu in net.cells
  {
    net.(cells := net.cells[cu := if add then net.cells[cu] + modes else net.cells[cu] - modes])
  }

  function ChangeModeSends(net: Net, cu: ChanUser, add: bool, modes: Mask): seq<Delivery>
    requires cu.nick in net.names && cu.chan in net.users
  {
    if modes == {} then []
    else Deliver(net.users[cu.chan], [ModeMsg(net, cu, add, modes)], [], null)
  }

  /** `Nick::join` for a nick that is already on the channel. */
  function Rejoin(net: Net, cu: ChanUser, status: Mask): Net
    requires cu in net.cells
  {
    ChangeMode(ChangeMode(net, cu, false, net.cells[cu] - status), cu, true, status - net.cells[cu])
  }

  /** What it sends. */
  function RejoinSends(net: Net, cu: ChanUser, status: Mask): seq<Delivery>
    requires cu in net.cells && cu.nick in net.names && cu.chan in net.users
  {
    ChangeModeSends(net, cu, false, net.cells[cu] - status) + ChangeModeSends(net, cu, true, status - net.cells[cu])
  }

  /** What `Nick::part` sends. */
  function PartSends(net: Net, n: Nick, c: Channel): seq<Delivery>
    requires n in net.names && c in net.users
  {
    var m := Part(net.names[n], c.name);
    [Delivery(n, m)] + Deliver(OffNick(net.users[c], n), [m], [], null)
  }

  /** What `Nick::kicked` sends; the victim itself is sent nothing. */
  function KickSends(net: Net, n: Nick, c: Channel): seq<Delivery>
    requires n in net.names && c in net.users
  {
    Deliver(OffNick(net.users[c], n), [Kick(c.name, net.names[n])], [], null)
  }

  /** The nicks of `us`, in order, that `sended` does not hold yet, each once. */
  function Unseen(us: seq<ChanUser>, sended: seq<Nick>): seq<Nick> {
    if us == [] then []
    else
      var before := Unseen(us[..|us| - 1], sended);
      var n := us[|us| - 1].nick;
      if n in sended || n in before then before else before + [n]
  }

  /** The recipients of a QUIT, in order, over the quitter's channels. */
  function Recipients(net: Net, chans: seq<ChanUser>): seq<Nick>
    requires forall cu :: cu in chans ==> cu.chan in net.users
  {
    if chans == [] then []
    else
      var before := Recipients(net, chans[..|chans| - 1]);
      before + Unseen(net.users[chans[|chans| - 1].chan], before)
  }

  function Same(ns: seq<Nick>, m: Msg): seq<Delivery> {
    seq(|ns|, i requires 0 <= i < |ns| => Delivery(ns[i], m))
  }

  /** What `Nick::quit` sends. */
  function QuitSends(net: Net, n: Nick): seq<Delivery>
    requires n in net.names && n in net.on
    requires forall cu :: cu in net.on[n] ==> cu.chan in net.users
  {
    Same(Recipients(net, net.on[n]), Quit(net.names[n]))
  }

  /** The state after `Nick::quit`. */
  function LeaveAll(net: Net, n: Nick): Net
    requires n in net.on
  {
    net.(on := net.on[n := []],
         users := map c | c in net.users :: OffNick(net.users[c], n),
         buddies := map c | c in net.buddies :: OffBuddy(net.buddies[c], n),
         cells := map cu | cu in net.cells && cu.nick != n :: net.cells[cu])
  }

  /** `IRC::addNick` of a new nick, which is on no channel. */
  function Register(net: Net, n: Nick, name: string, handle: Handle): Net {
    net.(names := net.names[n := name], on := net.on[n := []], handles := net.handles[n := handle],
         index := net.index[name := n])
  }

  /** `IRC::renameNick`. */
  function Rename(net: Net, n: Nick, newNick: string): Net
    requires n in net.names
  {
    net.(names := net.names[n := newNick], index := (net.index - {net.names[n]})[newNick := n])
  }

  /** The state once the nicks `gone`, which are on no channel, are deleted. */
  function Forget(net: Net, gone: set<Nick>): Net {
    net.(names := net.names - gone, on := net.on - gone, handles := net.handles - gone,
         index := map k | k in net.index && net.index[k] !in gone :: net.index[k])
  }

  /** A gateway that knows its user only. */
  function Alone(user: Nick, name: string, handle: Handle): Net {
    Net(map[user := name], map[user := []], map[user := handle], map[], map[], map[], map[name := user])
  }

  function OpenChannel(net: Net, c: Channel): Net {
    net.(users := net.users[c := []], buddies := net.buddies[c := map[]])
  }

  /** `Channel::~Channel`. */
  function Close(net: Net, c: Channel): Net {
    net.(users := net.users - {c}, buddies := net.buddies - {c},
         on := map n | n in net.on :: OffChan(net.on[n], c),
         cells := map cu | cu in net.cells && cu.chan != c :: net.cells[cu])
  }

  /** What `Channel::~Channel` sends: each member is told of its own part only. */
  function CloseSends(net: Net, c: Channel): seq<Delivery>
    requires c in net.users && forall cu :: cu in net.users[c] ==> cu.nick in net.names
  {
    PartEach(net, net.users[c], c)
  }

  function PartEach(net: Net, us: seq<ChanUser>, c: Channel): seq<Delivery>
    requires forall cu :: cu in us ==> cu.nick in net.names
  {
    seq(|us|, i requires 0 <= i < |us| => Delivery(us[i].nick, Part(net.names[us[i].nick], c.name)))
  }

  // ---------------------------------------------------------------- chat rooms

  /** `cbuddies[h] = cu`. */
  function Tag(net: Net, c: Channel, h: Handle, cu: ChanUser): Net
    requires c in net.buddies
  {
    net.(buddies := net.buddies[c := net.buddies[c][h := cu]])
  }

  /** `ConversationChannel::addBuddy` of somebody the room does not know yet: the
      nick is registered, joins and is entered in `cbuddies`. */
  function AddBuddy(net: Net, cu: ChanUser, name: string, h: Handle, status: Mask): Net
    requires cu.chan in net.users && cu.chan in net.buddies
  {
    Tag(Enter(Register(net, cu.nick, name, h), cu, status), cu.chan, h, cu)
  }

  /** `ConversationChannel::renameBuddy`. */
  function RenameBuddy(net: Net, cu: ChanUser, h: Handle, newNick: string): Net
    requires cu.nick in net.names && cu.nick in net.handles && cu.chan in net.buddies
  {
    var after := Rename(net, cu.nick, newNick);
    after.(buddies := net.buddies[cu.chan := (net.buddies[cu.chan] - {net.handles[cu.nick]})[h := cu]],
           handles := net.handles[cu.nick := h])
  }

  /** `ConversationChannel::delUser` of a chat buddy: it is deleted too. */
  function LoseBuddy(net: Net, n: Nick, c: Channel): Net
    requires n in net.on && c in net.users && c in net.buddies
  {
    Forget(Detach(net, n, c), {n})
  }

  /** The chat buddies of a channel. */
  function Chats(us: seq<ChanUser>): set<Nick> {
    set cu | cu in us && cu.nick.chat :: cu.nick
  }

  function NotChats(us: seq<ChanUser>): (r: seq<ChanUser>)
    ensures forall cu :: cu in r ==> cu in us && !cu.nick.chat
    ensures forall cu :: cu in us && !cu.nick.chat ==> cu in r
    ensures NoDup(us) ==> NoDup(r)
  {
    if us == [] then []
    else NotChats(us[..|us| - 1]) + (if us[|us| - 1].nick.chat then [] else [us[|us| - 1]])
  }

  /** `ConversationChannel::~ConversationChannel`, then `Channel::~Channel`. */
  function CloseRoom(net: Net, c: Channel): Net
    requires c in net.users
  {
    Forget(Close(net, c), Chats(net.users[c]))
  }

  /** The chat buddies are gone before anybody is told. */
  function CloseRoomSends(net: Net, c: Channel): seq<Delivery>
    requires c in net.users && forall cu :: cu in net.users[c] ==> cu.nick in net.names
  {
    PartEach(net, NotChats(net.users[c]), c)
  }

  class ChanUser {
    const nick: Nick
    const chan: Channel
    var status: Mask

    constructor (chan: Channel, nick: Nick, status: Mask)
      ensures this.chan == chan && this.nick == nick && this.status == status
    {
      this.nick, this.chan, this.status := nick, chan, status;
    }
  }

  class Nick {
    const server: string
    /** Whether this is an `irc::ChatBuddy`. */
    const chat: bool
    var nickname: string
    var channels: seq<ChanUser>
    var handle: Handle

    constructor (server: string, nickname: string, chat: bool, handle: Handle)
      ensures this.server == server && this.nickname == nickname && this.chat == chat && this.handle == handle
      ensures channels == []
    {
      this.server, this.nickname, this.chat, this.handle := server, nickname, chat, handle;
      channels := [];
    }
  }

  class Channel {
    const name: string
    /** Whether this is a `ConversationChannel`. */
    const room: bool
    var users: seq<ChanUser>
    var cbuddies: map<Handle, ChanUser>

    constructor (name: string, room: bool)
      ensures this.name == name && this.room == room && users == [] && cbuddies == map[]
    {
      this.name, this.room, users, cbuddies := name, room, [], map[];
    }
  }
}
