# minbif: a verified model

minbif is an IRC gateway to libpurple. This project models the parts of it that are its own:
the network graph of an IRC server (nicks, channels, chat rooms, the nick index), the codec of IRC
lines and the DCC SEND line, the protocol between the fork daemon and its children, the history of
the coincoin board, the translation of mIRC codes into tags, and four smaller algorithms. Dafny
proves that the methods do what the specification functions say, and what holds of those functions
in every state, over every run and for every input.

`dafny verify dfyconfig.toml` checks everything.

## How it is built

**The network.** `Network` holds the objects (`Nick`, `Channel`, `ChanUser`), a value `Net` with
the contents of all their fields, and a state transformer and a list of sent messages for each
operation. `Irc` holds the heap methods: class `IRC` keeps the fields and a ghost `net`, and every
method is proved to be its transformer and to send what the transformer's list says. C++'s virtual
`delUser` and `removeNick` become tests of `room` and `chat`. On the transformers rest:

- `NetworkInvariants`: a cell is in its nick's `channels` iff it is in its channel's `users` iff it
  is allocated; the nick index has exactly the registered nicks under their current names, which
  differ ignoring case.
- `RoomIndex`: `cbuddies` holds exactly the cells of the room's chat buddies, each under its handle.
- `ClientMirror` and `NetworkRuns`: a client that replays only what it was sent knows the members
  and their modes of every channel it is on; who receives what, and how often.
- `NetworkLaws`: what each transformer does, told by memberships, names and modes.
- `NetworkCalls`: the methods that make several calls are runs, so that what holds over runs holds
  of them too.
- `NetworkLoops` and `NetworkClosing`: how far the loops of the methods and of the destructors have
  got, as values.

**Lines.** `Tokenizer` is `stringtok`, `Codec` is `Message`, `WholeLine` a reader of lines with their
senders and receivers, `Dcc` the DCC SEND line, `ReadLoop` the loop of `readIO`, `Decimal` the number
conversions.

**The daemon.** `Ipc` is the framing on one socket, `IpcMaster` the transition system of the master,
`IpcServer` the objects of the master, whose methods are the steps of `IpcMaster`.

**The board.** `Board` holds the history, the numbering, the texts and the clocks; `BoardNames` says
what the words and clocks of a text mean; `BoardRoom` is the list of messages in memory, whose
methods refine it.

**The rest.** `Markup`, `Queue`, `Accounts`, `Acks` and `UrlEncode` each hold one algorithm;
`MarkupResets` says which inputs of `Markup` a reset spoils. `Basics` and `Text` are shared.

Most modules end with what their functions do to concrete characters: the letters of the modes, the
names of the colours, the bytes of an escape, the digits of a number.

## What turned out not to hold without a condition

- Adding a nick keeps the index right exactly when its name is free: `RegisterKeepsIndexed`. The
  nicks `request` (`src/im/request.cpp:289`) and the buddy icons' (`src/im/purple.cpp:166`) are added
  without a check, so that a user who has that name is lost from the index. A rename must pass the
  check of `svsnick` too (`UnguardedRenameBreaks`); the one that does not, of `NICK`, comes before
  there is anybody else. A rename of a chat buddy keeps `cbuddies` right exactly when the new handle
  is not another chat buddy's: `RenameBuddyKeeps`. The rename of anybody else in the room, the
  gateway user among them, uses a null pointer (`RenameBuddyAs`).
- A line comes back from the parser exactly under `LineSurvives`: among others a word and one space
  as the last argument does not. With sender and receiver, a reader of RFC 2812 gets it back exactly
  under `Readable`: they must be words, and the receiver must not start with a colon.
- A nickname of one character, and a colon, names no post of the board (`NickNames`).
- The file name of a DCC offer comes back exactly when no space is at its start or behind a space or
  a quote, and the size is neither zero nor beyond the receiver's type: `DccRoundTrip`. The receiver
  reads out of bounds exactly when an opening quote stands alone among the words of the quoted name
  (`OutOfBoundsIff`): so it does for a name that starts with a space, and for `a" " b`. The copy
  without quotes that `listen_cb` makes is not what it sends.
- An IPC line that is longer than the buffer, or that has a NUL, blocks its socket for good
  (`StuckForever`). The order to die does not fit when the user's name is longer than 466 characters
  (`DieArrives`), and a name with a space that another child has too ends the master (`CrashIff`).
  Only a foreign writer on the socket can cause these: a child registers the nickname of its user,
  which has at most 29 characters and no space (`OwnChildrenAreSafe`).
- A reset (`\017`) closes the tags and leaves the flags. Every character is still shown in the style
  of the codes exactly when nothing is shown after a code of bold, or underlined, text has come again
  behind a reset that came in the middle of it (`Harmless`, `MarkupMeans`); every tag is closed
  once exactly when what a reset has closed is not closed again (`Once`, `TagsAreClosed`). Without
  resets the first always holds, and the second when the input ends in text or has turned
  everything off (`NoResetOnce`).
- A clock finds its post exactly when no newer post was sent a whole number of days later under the
  same number (`ClockResolves`), which within a day, with answers in order, is so (`ADayIsEnough`).
  A new post is resolved against the list in the middle of its answer (`ReplyIsKept`).
- A line that is cut between two reads is taken for two lines: `TwoReads`.
- A line that is sent without delay overtakes those that wait, unless they are all the same line:
  `Overtakes`.

## Model

| member | source | states |
|---|---|---|
| Modes.LettersRoundTrip | src/irc/channel.cpp:87-105 | the letters of a MODE message, applied by a client to the shown modes it has, give the shown modes after the change |
| Modes.PrefixRoundTrip | src/irc/channel.cpp:53-61 | the prefix in a NAMES entry reads back as exactly the shown modes |
| Modes.LettersAre | src/irc/channel.cpp:46-51 | the letters q, o, h, v and the prefixes ~, @, %, + of the four modes |
| Modes.GetPrefix | src/irc/channel.cpp:53-61 | the loop collects the prefixes of exactly the modes that are set, in table order |
| Modes.GetLetters | src/irc/channel.cpp:87-105 | the loop collects the letters of exactly the given modes, in table order |
| Modes.MaskDifference | src/irc/conversation_channel.cpp:96-113 | after 32 steps the bits to add are those of the new mask that the old lacks, and the bits to delete the reverse |
| NetworkInvariants.DetachKeepsLinked | src/irc/nick.cpp:167-208 | part and kick keep both membership vectors and the allocated cells in agreement |
| NetworkInvariants.EnterKeepsLinked | src/irc/nick.cpp:148-165 | so does the join of a nick that is not there |
| NetworkInvariants.LeaveAllKeepsLinked | src/irc/nick.cpp:210-231 | so does quit |
| NetworkInvariants.CloseKeepsLinked | src/irc/channel.cpp:112-122 | so does the destruction of a channel |
| NetworkInvariants.RegisterKeepsIndexed | src/irc/irc.cpp:217-223 | adding a nick keeps the index keyed by current names, distinct ignoring case, if and only if its name was free |
| NetworkInvariants.FreeNameIs | src/irc/irc.cpp:232-244 | a name is free exactly when no key differs from it in the case of letters only |
| NetworkInvariants.FreeForIs | src/irc/cmds_channels.cpp:632-640 | and free for a nick exactly when no other nick's key does |
| NetworkInvariants.NamesDiffer | src/irc/irc.cpp:232-244 | while the index is right no two nicks have names that differ in case only |
| NetworkLaws.EnterIs | src/irc/nick.cpp:148-165 | a join adds one membership with its modes and changes nobody else's |
| NetworkLaws.DetachIs | src/irc/nick.cpp:167-208 | a part or a kick takes away one membership |
| NetworkLaws.LeaveAllIs | src/irc/nick.cpp:210-231 | a quit takes away all of one nick |
| NetworkLaws.CloseIs | src/irc/channel.cpp:112-122 | the end of a channel takes away all of one channel |
| NetworkLaws.ChangeModeIs | src/irc/channel.cpp:252-271 | a mode change changes just the given modes of one member |
| NetworkLaws.RejoinIs | src/irc/nick.cpp:151-160 | who joins again has just the modes given, and nothing else changes |
| NetworkLaws.RegisterIs | src/irc/irc.cpp:217-223 | a new nick is found under its name, and everybody else under theirs |
| NetworkLaws.RenameIs | src/irc/irc.cpp:225-230 | a renamed nick is found under the new name and not under the old |
| NetworkLaws.ForgetIs | src/irc/irc.cpp:303-324 | a deleted nick is found under no name, and everybody else under theirs |
| NetworkLaws.AddBuddyIs | src/irc/conversation_channel.cpp:72-94 | a new chat buddy is registered, in the room with its modes, and under its handle |
| NetworkLaws.RenameBuddyIs | src/irc/conversation_channel.cpp:115-132 | a renamed chat buddy is under its new name and its new handle only |
| NetworkLaws.CloseRoomIs | src/irc/conversation_channel.cpp:37-57 | a room that closes takes its members' places and its chat buddies' names along, and nobody else's |
| NetworkLaws.RenameInbox | src/irc/cmds_channels.cpp:641-645 | of a new name only the gateway user is told, once |
| NetworkInvariants.RenameKeepsIndexed | src/irc/irc.cpp:225-230 | a rename to a name that no other nick has keeps it |
| NetworkInvariants.UnguardedRenameBreaks | src/irc/irc.cpp:225-230 | and only such a rename does |
| NetworkInvariants.ForgetKeepsIndexed | src/irc/irc.cpp:303-324 | removals keep the index right |
| RoomIndex.AddBuddyKeeps | src/irc/conversation_channel.cpp:72-94 | a new chat buddy keeps `cbuddies`, the room's users and the registered chat buddies in agreement |
| RoomIndex.TagKeeps | src/irc/conversation_channel.cpp:72-94 | entering the gateway user in `cbuddies` keeps the agreement exactly when it had no other entry |
| RoomIndex.RenameBuddyKeeps | src/irc/conversation_channel.cpp:115-132 | a rename keeps it exactly when the new handle is not another chat buddy's |
| RoomIndex.DropKeeps | src/irc/irc.cpp:351-370 | deleting a nick keeps it |
| RoomIndex.DetachKeeps | src/irc/conversation_channel.cpp:134-150 | so does the departure of a nick that is no chat buddy |
| RoomIndex.LoseBuddyIsDrop | src/irc/conversation_channel.cpp:134-150 | a chat buddy that leaves its room is gone altogether: the state is that of deleting it |
| RoomIndex.CloseRoomKeeps | src/irc/conversation_channel.cpp:37-57 | so does the destruction of a room with all its chat buddies |
| ClientMirror.QuitExactlyOnce | src/irc/nick.cpp:210-231 | every nick that shares a channel with the quitter, however many, gets one QUIT, and nobody else gets any |
| ClientMirror.EnterInbox | src/irc/channel.cpp:149-175 | every member gets one JOIN and, but for the one who joins, one MODE if there are modes; the one who joins also gets the NAMES |
| ClientMirror.PartInbox | src/irc/nick.cpp:167-183 | a PART goes once to the nick itself and once to every other member |
| ClientMirror.KickInbox | src/irc/nick.cpp:194-208 | a KICK goes once to every member but the victim |
| ClientMirror.ModeInbox | src/irc/channel.cpp:252-271 | a MODE goes once to every member, and none is sent when no mode changes |
| ClientMirror.EnterSelfMirrors | src/irc/channel.cpp:124-175 | who joins knows the members and their modes from the replies |
| ClientMirror.EnterOtherMirrors | src/irc/channel.cpp:149-175 | a client on the channel knows the new member and its modes |
| ClientMirror.ChangeModeMirrors | src/irc/channel.cpp:252-271 | a mode change keeps a client's view right |
| ClientMirror.PartMirrors | src/irc/nick.cpp:167-183 | so does a part |
| ClientMirror.KickMirrors | src/irc/nick.cpp:194-208 | so does a kick |
| ClientMirror.QuitMirrors | src/irc/nick.cpp:210-231 | so does a quit |
| ClientMirror.RenameMirrors | src/irc/cmds_channels.cpp:641-645 | so does a rename |
| NetworkRuns.StepKeepsGood | src/irc/irc.cpp:217-370 | every call keeps membership, the nick index and the room indexes right |
| NetworkRuns.StepMirrors | src/irc/channel.cpp:112-271 | every call keeps the client's view of its channels right |
| NetworkRuns.RunMirrors | src/irc/nick.cpp:148-231 | after any run the client that replays only what it was sent holds, for every channel it is on, exactly the members with their modes |
| NetworkRuns.ClientKnowsItsChannels | src/irc/nick.cpp:148-231 | from nothing, after any run, its channels are exactly those the nick is on, each with exactly its members and their modes |
| NetworkRuns.AloneIsGood | src/irc/irc.cpp:108-109 | a gateway that knows its user only is in a right state |
| NetworkRuns.ClientKnowsFromTheStart | src/irc/irc.cpp:217-370 | over every run from that start every state is right, and the client knows exactly its channels, their members and modes |
| NetworkRuns.CloseRoomInbox | src/irc/conversation_channel.cpp:37-57 | when a room closes its member is told of its own PART, and of nothing else |
| NetworkRuns.RunNoStale | src/irc/nick.cpp:148-231 | over any run the client believes to be on no other channel |
| NetworkCalls.RejoinIsRun | src/irc/nick.cpp:151-160 | joining a channel again is a run of two mode changes, in state and messages |
| NetworkCalls.UpdateIsRun | src/irc/conversation_channel.cpp:96-113 | so is the change of a chat buddy's status |
| NetworkCalls.AddMeIsRun | src/irc/conversation_channel.cpp:72-94 | the gateway user's entry into a room it is not in is a run of a join and an entry in `cbuddies` |
| NetworkCalls.AddMeAgainIsRun | src/irc/conversation_channel.cpp:72-94 | when `createChannel` has had it join before, a run of two mode changes and the entry |
| NetworkCalls.DropAllIsRun | src/irc/irc.cpp:351-370 | removing a server is a run of deletions |
| Irc.IRC.GetChanUser | src/irc/nick.cpp:140-146 | finds the nick's cell on the channel if and only if it is there |
| Irc.IRC.Broadcast | src/irc/channel.cpp:203-208 | one copy to each entry of `users`, in order |
| Irc.IRC.ChangeModes | src/irc/channel.cpp:252-271 | the status changes by the given modes, everybody is told, and nothing happens without modes |
| Irc.IRC.SendNames | src/irc/channel.cpp:124-147 | the reply lists every member with its prefix |
| Irc.IRC.AddUser | src/irc/channel.cpp:149-175 | the new cell is last in `users`, and the announcements are those of `EnterSends` |
| Irc.IRC.NickJoin | src/irc/nick.cpp:148-165 | `Enter` if the nick is not there, else only the difference of the modes is changed and announced |
| Irc.IRC.ChannelDelUser | src/irc/channel.cpp:177-191 | the nick's cells are freed and out of `users`, and everybody else gets the message, if there is one |
| Irc.IRC.DelUser | src/irc/conversation_channel.cpp:134-150 | and its entry is out of `cbuddies` |
| Irc.IRC.NickPart | src/irc/nick.cpp:167-183 | the nick is off the channel, a chat buddy deleted; nothing happens if it is not there |
| Irc.IRC.NickKicked | src/irc/nick.cpp:194-208 | the victim is off the channel; nothing happens if it is not there |
| Irc.IRC.NickQuit | src/irc/nick.cpp:210-231 | the nick is on no channel, and the messages are those of `QuitSends` |
| Irc.IRC.RemoveChanUser | src/irc/nick.cpp:185-192 | the nick's `channels` loses exactly that cell |
| Irc.IRC.CloseChannel | src/irc/channel.cpp:112-122 | every member's cell is freed and out of its `channels`; each member is told of its own PART only |
| Irc.IRC.CloseRoomOf | src/irc/conversation_channel.cpp:37-57 | for any order of `cbuddies` the chat buddies are deleted in silence, and then the others part |
| Irc.IRC.GetNick | src/irc/irc.cpp:232-244 | finds a nick if and only if some key is the name but for the case of its letters |
| Text.LowerIs | src/core/util.cpp:118-123 | lower-case texts are equal if and only if the texts differ in the case of letters from A to Z only |
| Irc.IRC.FreshName | src/irc/conversation_channel.cpp:83-84 | appending underscores ends, on the first free name |
| Irc.IRC.AddNick | src/irc/irc.cpp:217-223 | the nick is in the index under its name |
| Irc.IRC.RenameNick | src/irc/irc.cpp:225-230 | the old key is gone and the new one points to the nick |
| Irc.IRC.RemoveNick | src/irc/irc.cpp:303-324 | the nick quits and is out of the index |
| Irc.IRC.Svsnick | src/irc/cmds_channels.cpp:632-645 | refused exactly when another nick has the name but for the case of its letters; else told and renamed |
| Irc.IRC.AddBuddyTo | src/irc/conversation_channel.cpp:72-94 | the four cases: a new chat buddy, a known one, the gateway user new or already there |
| Irc.IRC.UpdateBuddy | src/irc/conversation_channel.cpp:96-113 | the status becomes libpurple's, and what was added and deleted is announced; for a handle that is not in `cbuddies` a null pointer is used |
| Irc.IRC.RenameBuddyAs | src/irc/conversation_channel.cpp:115-132 | for a chat buddy the new name was free, and the new handle takes the place of the old; for any other nick, or none, a null pointer is used and nothing has changed |
| Irc.IRC.BuddyOnline | src/im/buddy.cpp:133-159 | the contact is on the status channel, voiced if and only if it is available; only a change is announced |
| Irc.IRC.BuddyOffline | src/im/buddy.cpp:160-161 | the contact quits if it is there |
| Irc.IRC.NewContact | src/im/buddy.cpp:315-326 | a new contact is registered under a name that was free |
| Irc.IRC.RemovedContact | src/im/buddy.cpp:353-357 | the contact is gone, and its QUIT was sent once although it quits twice |
| Irc.IRC.RemoveServer | src/irc/irc.cpp:351-370 | the restarting loop deletes exactly the server's nicks |
| Tokenizer.StringTok | src/core/util.cpp:29-55 | the first token and what is left |
| Tokenizer.TokensAreRuns | src/core/util.cpp:29-55 | calling it until it returns nothing gives exactly the maximal delimiter-free runs, in order |
| Tokenizer.CleanCut | src/core/util.cpp:29-55 | the tokens of two parts are those of the whole exactly when a delimiter is at the cut |
| Codec.Message.AddArg | src/irc/message.cpp:104-111 | appended unless the last argument has a space, which raises MalformedMessage |
| Codec.Message.SetArg | src/irc/message.cpp:113-125 | replaced or appended; MalformedMessage exactly behind an argument with a space |
| Codec.Message.Format | src/irc/message.cpp:48-70 | the loop prints the head, every argument with its colon where needed, and CRLF |
| Codec.Message.Parse | src/irc/message.cpp:133-150 | the loop takes the command and the arguments of any line and never meets MalformedMessage |
| Codec.Message.RebuildWithQuotes | src/irc/message.cpp:152-181 | the loop merges each quoted run in place and erases its words; fails exactly on a read out of bounds |
| Codec.ArgsRoundTrip | src/irc/message.cpp:48-150 | printed arguments parse back to themselves if and only if they survive |
| Codec.LineRoundTrip | src/irc/message.cpp:48-150 | a printed line parses back to itself if and only if the command is an upper-case word and the arguments survive, or the message is empty |
| WholeLine.WholeLineRoundTrip | src/irc/message.cpp:48-70 | a reader of RFC 2812 gets back the sender, the command, the receiver and the arguments that were printed if and only if they are readable; without a sender there is no prefix |
| WholeLine.ParamsBack | src/irc/message.cpp:59-65 | and the arguments if and only if none is empty and only the last has spaces or starts with a colon |
| Codec.NoMoreThanSent | src/irc/message.cpp:133-150 | parsing never gives more arguments than were printed |
| ReadLoop.ReadIO | src/irc/irc.cpp:523-537 | the messages of one read are its lines, parsed, in order |
| ReadLoop.LineIsRead | src/irc/irc.cpp:523-537 | a message printed with its end is read as exactly that message if and only if it survives, has a command and holds no line end |
| ReadLoop.LinesAreRead | src/irc/irc.cpp:523-537 | and so are any number of them |
| ReadLoop.TwoReads | src/irc/irc.cpp:523-537 | two reads bring the messages of the whole exactly when the cut is at a line end, and otherwise one message more |
| Decimal.ValueOfShow | src/core/util.h:37-43 | a printed number has its value |
| Decimal.ReadOfShow | src/core/util.h:28-35 | reading a printed number gives it back up to the greatest of the type, and the greatest beyond |
| Decimal.ReadNumber | src/core/util.h:28-35 | a number ends before the first character that is no digit |
| Decimal.ReadMinus | src/core/util.h:28-35 | a minus sign negates, and makes an unsigned number wrap around |
| Dcc.Listen | src/irc/dcc.cpp:129-142 | the line carries the name as it is, while the copy without quotes is made and not used |
| Dcc.LineIs | src/irc/dcc.cpp:136-142 | the characters of the line |
| Dcc.ParseDccSend | src/irc/dcc.cpp:410-435 | the stages of the parser, the read out of bounds included |
| Dcc.JoinedName | src/irc/message.cpp:152-181 | the merged words are the name that was quoted if and only if the name survives, and are never longer |
| Dcc.DccRoundTrip | src/irc/dcc.cpp:136-142 | what was printed is what is read, if and only if the name survives and the size is neither zero nor too great |
| Dcc.OutOfBoundsIff | src/irc/dcc.cpp:410-435 | what was printed is read out of bounds if and only if an opening quote stands alone among the words of the quoted name |
| Dcc.LeadingSpace | src/irc/message.cpp:152-181 | so it does when the name starts with a space |
| Dcc.QuoteAfterQuote | src/irc/message.cpp:152-181 | and when a word of it ends in a quote and the next is a quote |
| Dcc.SanitisedSurvives | src/irc/dcc.cpp:129-134 | for the copy without quotes only spaces would matter |
| Ipc.TakenIff | src/server_poll/daemon_fork.cpp:336-379 | a whole line is taken if and only if it fits with its end and has no NUL, and never at another place |
| Ipc.MessageTaken | src/server_poll/daemon_fork.cpp:376-382 | one call takes exactly the message that was written, and nothing behind it, if and only if it is deliverable |
| Ipc.StreamRefines | src/server_poll/daemon_fork.cpp:328-404 | for any split into arrivals and any calls, the messages dispatched are a prefix of those sent, and the unread bytes the rest of what arrived |
| Ipc.AllIsHeard | src/server_poll/daemon_fork.cpp:328-404 | when all has arrived, as many calls as messages hear all |
| Ipc.StuckForever | src/server_poll/daemon_fork.cpp:372-374 | a line that does not fit or has a NUL is never taken, whatever arrives |
| IpcMaster.LatestWins | src/server_poll/daemon_fork.cpp:315-326 | everybody else of the name is told to die, once, and the registrant is told nothing |
| IpcMaster.OperIsTold | src/server_poll/daemon_fork.cpp:266-271 | OPER goes once to every child but the sender |
| IpcMaster.WallopsIsTold | src/server_poll/daemon_fork.cpp:277-284 | WALLOPS goes once to every child |
| IpcMaster.DieIsTold | src/server_poll/daemon_fork.cpp:299-309 | so does DIE, and the master ends |
| IpcMaster.RehashIsTold | src/server_poll/daemon_fork.cpp:290-293 | for a REHASH every child is sent one without arguments |
| IpcMaster.UserIsTold | src/server_poll/daemon_fork.cpp:315-326 | USER names the child, and tells every other child of that name, ignoring case, to die, and nobody else anything |
| IpcMaster.CrashTellsNobody | src/server_poll/daemon_fork.cpp:315-326 | before the uncaught exception nobody has been told anything |
| IpcMaster.OthersAreIgnored | src/server_poll/daemon_fork.cpp:385-400 | any other command, or too few arguments, changes nothing |
| IpcMaster.StoppedIff | src/server_poll/daemon_fork.cpp:299-309 | the master ends in order exactly for a DIE with two arguments |
| IpcMaster.NeverTooMany | src/server_poll/daemon_fork.cpp:154-209 | over any run there are never more children than the limit |
| IpcMaster.SameNameIs | src/server_poll/daemon_fork.cpp:320-325 | names are the same if and only if they differ in the case of letters only |
| IpcMaster.StepKeepsSafe | src/server_poll/daemon_fork.cpp:154-404 | every step keeps descriptors distinct and single login |
| IpcMaster.SingleLogin | src/server_poll/daemon_fork.cpp:315-404 | over any run and any bytes, of two children whose names are equal ignoring case one has been told to die |
| IpcMaster.CrashIff | src/server_poll/daemon_fork.cpp:315-326 | the master dies of an uncaught exception exactly when a name with a space clashes |
| IpcMaster.WordsNeverCrash | src/server_poll/daemon_fork.cpp:315-326 | never, when names are words |
| IpcMaster.WithoutAt | src/server_poll/daemon_fork.cpp:350-354 | erasing by descriptor erases one child |
| IpcMaster.DieArrives | src/server_poll/daemon_fork.cpp:324-325 | the order to die can be read by the child if and only if the name has at most 466 characters |
| IpcMaster.ValidNicknameIs | src/irc/nick.cpp:50-62 | one to 29 characters, no digit first, each a digit, a minus sign or from A to ~ |
| IpcMaster.NicknamesAreDelivered | src/irc/nick.cpp:50-62 | for a valid nickname both the registration and the order to die can be read |
| IpcMaster.OwnChildrenAreSafe | src/server_poll/daemon_fork.cpp:315-326 | the registration of a valid nickname never ends the master, and the others of the name are sent the order |
| IpcServer.Server.NewClient | src/server_poll/daemon_fork.cpp:154-209 | a new child, unless there are too many |
| IpcServer.Server.Broadcast | src/server_poll/daemon_fork.cpp:420-427 | one copy to each child but one |
| IpcServer.Server.User | src/server_poll/daemon_fork.cpp:315-326 | the step of a registration, the uncaught exception included |
| IpcServer.Server.IpcRead | src/server_poll/daemon_fork.cpp:328-404 | one call is one step of the transition system |
| IpcServer.Server.TakeLine | src/server_poll/daemon_fork.cpp:336-382 | peeking into the buffer, cutting it and consuming take the next message of the stream |
| IpcServer.Server.Erase | src/server_poll/daemon_fork.cpp:350-354 | the children that are left |
| Board.PushKeepsChain | plugins/coincoin/message.c:398-402 | a post of the same second gets the next number, and both are marked |
| Board.FetchKeepsChain | plugins/coincoin/message.c:341-444 | an answer in order keeps the numbering right |
| Board.ReferencesAreUnique | plugins/coincoin/message.c:398-402 | time and number identify a post of the history |
| Board.HistoryIs | plugins/coincoin/message.c:341-444 | after an answer the history is the new posts, newest first, and at most the first 101 old ones with their numbers |
| Board.RosterIs | plugins/coincoin/message.c:378-441 | the chat holds exactly the authors of the posts that are kept, but oneself |
| Board.RosterAlways | plugins/coincoin/message.c:341-444 | so it does after any answers |
| Board.ReadOfClockText | plugins/coincoin/message.c:301-303 | a printed clock reads back as the time and number of its post |
| Board.ClockResolves | plugins/coincoin/message.c:301-317 | the clock printed for a post finds that very post if and only if no newer post of the same number was sent a whole number of days later |
| Board.ADayIsEnough | plugins/coincoin/message.c:308-317 | within a day, with answers in order, this is so |
| Board.HistoryIsMarked | plugins/coincoin/message.c:398-402 | after any answers, in order or not, a post without a mark has the number one |
| Board.HistoryKeepsChain | plugins/coincoin/message.c:341-444 | the numbering stays right over any answers in order |
| Board.StillResolves | plugins/coincoin/message.c:204-245 | after any later answers, while the post is kept, the clock still finds it if and only if it is not shadowed in that way |
| Board.ResolvesBehind | plugins/coincoin/message.c:386-408 | so it does in the middle of an answer, when any posts of it are in front of the list already |
| Board.TextIsKept | plugins/coincoin/message.c:386-408 | the text of a new post is resolved against the list as it was at its turn, and stays so over any further answers |
| Board.ReferClock | plugins/coincoin/message.c:282-329 | a clock in a text is taken whole and shown with the author it resolves to |
| Board.NthIsKth | plugins/coincoin/message.c:229-236 | the post named by nick and number is the one with just that many of the nick before it; there is none exactly if there are too few |
| BoardNames.NumberNames | plugins/coincoin/message.c:195-236 | "nick:k: " names the post of that nick, ignoring case, before which it has just k - 1, and none if there are fewer |
| BoardNames.NickNames | plugins/coincoin/message.c:195-236 | "nick: " names its newest, if the nickname has two characters at least |
| BoardNames.MarkNames | plugins/coincoin/message.c:219-224 | a superscript one, two or three names its first, second or third |
| BoardNames.ConvertWord | plugins/coincoin/message.c:186-254 | a word that names nobody is copied with its space |
| BoardNames.ConvertPost | plugins/coincoin/message.c:238-245 | one that does gives way to the clock of the post |
| BoardNames.ClockTextIs | plugins/coincoin/message.c:240-243 | the clock is the time of day in two digits each, and the number if the post is marked |
| BoardNames.ReferMinute | plugins/coincoin/message.c:303-317 | a clock without seconds is shown with the author of the newest post of that minute |
| BoardNames.ReferSecond | plugins/coincoin/message.c:301-317 | one with seconds with that of the newest post of that second numbered one |
| BoardNames.ReferNumbered | plugins/coincoin/message.c:301-317 | one with a number with that of the post of that number |
| BoardNames.ReferMarked | plugins/coincoin/message.c:291-317 | and so with a superscript, which stays in the text |
| BoardNames.ReferTotoz | plugins/coincoin/message.c:265-280 | a totoz is shown green up to its first closing bracket |
| BoardNames.ReferPlain | plugins/coincoin/message.c:256-339 | what is no digit, colon or bracket is copied |
| BoardNames.AnswerIsMade | plugins/coincoin/message.c:341-378 | posts that are new and well formed become messages as they are |
| BoardNames.AnswerEnds | plugins/coincoin/message.c:341-378 | what is behind the first known post is not looked at |
| Board.ReplyReaches | plugins/coincoin/message.c:186-329 | a reply that names a post shows, after any later answers, the author and clock of that very post, unless it is shadowed |
| Board.ReplyReachesBehind | plugins/coincoin/message.c:386-408 | so it does when it stands behind other new posts of its answer |
| Board.ReplyIsKept | plugins/coincoin/message.c:341-444 | at whatever place of whatever later answer it comes, the history holds that text for as long as it holds the reply |
| BoardRoom.MessageRef | plugins/coincoin/message.c:256-339 | the loop over a text: totozes, clocks and the rest |
| BoardRoom.ConvertMessage | plugins/coincoin/message.c:186-254 | the loop over the words of a reply |
| BoardRoom.FindNth | plugins/coincoin/message.c:229-236 | the search for the n-th post of a nick |
| BoardRoom.Search | plugins/coincoin/message.c:307-317 | the search for the first post that shows the clock |
| BoardRoom.Room.ParseMessage | plugins/coincoin/message.c:341-444 | the three loops give the history and the roster of `Board` |
| BoardRoom.Room.Flush | plugins/coincoin/message.c:386-408 | the new messages in front, oldest first, the numbers and marks in place |
| BoardRoom.Room.Purge | plugins/coincoin/message.c:409-441 | what is kept and who leaves |
| Markup.LexOfRender | src/core/util.cpp:208-290 | the emitted text reads back as the tags and characters that were emitted |
| Markup.ColoursAre | src/core/util.cpp:172-191 | the sixteen colours by their numbers |
| Markup.CodesAre | src/core/util.cpp:213-297 | what each code does to the character behind it |
| Markup.ColourCodeIs | src/core/util.cpp:229-243 | at most two digits are the colour, and at most two behind a comma the background |
| Markup.EscapesAre | src/core/util.cpp:212-214 | the characters that are written as named entities, or as they are |
| Markup.ControlsAre | src/core/util.cpp:212-214 | the control characters that are written as numbers |
| MarkupResets.MarkupMeans | src/core/util.cpp:194-304 | the tags show every character in the style of the codes if and only if nothing is shown where a code came again behind a reset in the middle of its text |
| MarkupResets.NoResetNoHarm | src/core/util.cpp:194-304 | without resets they always do |
| MarkupResets.ResetHarms | src/core/util.cpp:285-297 | an input with a reset for which they do not |
| Markup.WalkMatches | src/core/util.cpp:194-304 | without resets no tag is opened twice or closed unopened, and what stays open is known |
| MarkupResets.TagsAreClosed | src/core/util.cpp:194-304 | every tag of the emitted text is closed exactly once if and only if `Once`: what a reset has closed is not closed again, and nothing is left open |
| MarkupResets.WalkOnce | src/core/util.cpp:194-304 | the same from any flags and tags that are open |
| MarkupResets.NoResetOnce | src/core/util.cpp:194-304 | without resets: if and only if the input ends in text or has turned everything off |
| MarkupResets.ResetClosesTwice | src/core/util.cpp:285-297 | an input with a reset whose tags are closed twice |
| MarkupResets.ResetMayCloseOnce | src/core/util.cpp:285-297 | and two with a reset whose tags are closed once |
| Markup.ReadColour | src/core/util.cpp:229-243 | the digits of a colour code |
| Markup.Irc2Markup | src/core/util.cpp:194-304 | the loop emits what `Walk` says |
| Queue.FlushIsGroups | src/irc/conv_entity.cpp:43-69 | one message a group |
| Queue.GroupsArePieces | src/irc/conv_entity.cpp:43-69 | the groups are the queue in pieces: CTCP lines alone, the others in maximal runs |
| Queue.FlushSplits | src/im/conversation.cpp:455-457 | the receiver's splitting gives back the queue |
| Queue.NothingIsLost | src/irc/conv_entity.cpp:30-69 | over any run the receiver has got the first of the lines, in order, each once, and the others wait |
| Queue.Overtakes | src/irc/conv_entity.cpp:30-36 | a line without delay keeps the order exactly when nothing else waits than the same line |
| Queue.LinesAndCtcp | src/irc/conv_entity.cpp:43-69 | plain lines are sent together, and a line that starts with the character 1 alone |
| Queue.ConvEntity.EnqueueMessage | src/irc/conv_entity.cpp:30-41 | a timer is pending exactly while something waits |
| Queue.ConvEntity.FlushMessages | src/irc/conv_entity.cpp:43-69 | the erase loop sends what `FlushFrom` says and empties the queue |
| Accounts.GetNewAccountName | src/im/purple.cpp:261-284 | the restarting scan ends, and its name is the free one with the smallest suffix |
| Accounts.TakenAreFew | src/im/purple.cpp:261-284 | no more names can be taken than there are accounts |
| Accounts.TakenIs | src/im/purple.cpp:261-284 | only the other accounts of the protocol count |
| Acks.WordsAreShort | src/irc/dcc.cpp:228-251 | the last word taken is the first that acknowledges everything |
| Acks.BoundariesDoNotMatter | src/irc/dcc.cpp:205-254 | the transfer is over exactly when the bytes so far acknowledge everything, however they were read, and else their tail is queued |
| Acks.WordOfBytes | src/irc/dcc.cpp:228-234 | four bytes, most significant first, are read as their number |
| Acks.AcksEndTransfer | src/irc/dcc.cpp:205-254 | however the bytes are cut into reads, the transfer is over exactly when an acknowledgement that has come whole is at least the total |
| Acks.DccSend.DccRead | src/irc/dcc.cpp:205-254 | one read keeps that, in place |
| UrlEncode.DecodeOfEncode | plugins/lib/http.c:638-672 | decoding percent escapes and plus signs recovers every string |
| UrlEncode.EncodedByte | plugins/lib/http.c:647-668 | letters and digits are copied, a space may become a plus, and every other byte two upper-case digits behind a percent sign |
| UrlEncode.EncodedLength | plugins/lib/http.c:638-672 | the length is that of the input and two for every escaped byte |
| UrlEncode.EncodedIsSafe | plugins/lib/http.c:650-654 | only letters, digits, percent and plus signs are left |
| UrlEncode.EncodeOne | plugins/lib/http.c:647-668 | every write, the NUL of sprintf included, is inside the buffer, which is doubled at most once a byte |
| UrlEncode.BufferIs | plugins/lib/http.c:638-672 | the buffer is the first doubling, if any, that holds the encoding and its NUL |
| UrlEncode.HttpUrlEncode | plugins/lib/http.c:638-672 | the buffer holds the encoding and its NUL, and its size is known |

## Left out

- libpurple, sockets, processes, timers, files and logging: calls into them are parameters, events or entries of a log.
- Topics, the end of a NAMES list, part and quit texts: messages that say nothing about membership.
- The list of nicks each server keeps, into which a rename inserts the nick a second time; DCC peers.
- `Conversation::leave` from inside `delUser`: the destruction of the room is a step of its own.
- Status masks are sets of bit numbers; those without a letter or prefix are not shown to clients.
- Classes `ConversationChannel` and `ChatBuddy` are the flags `room` and `chat`, and the methods of `Nick` and `Channel` are methods of `IRC`, because Dafny's traits are not used here.
- `nickize` and `isValidNickname`: names are parameters.
- The order of `std::map` iteration: the loops over `users` and `cbuddies` take the entries in any order.
- Message senders and receivers are resolved to names when a message is made; an entity without a name counts as set.
- IpcServer.Server.MasterSend: does not model a failing `write`, which the protocol has no answer to.
- IpcServer.Server.IpcRead: does not model the child's side of the handlers, which hands the message to its IRC object.
- Decimal.ReadUnsigned: does not model other number formats of a locale.
- Board.ReadClock: does not model an overflow of the number behind the last colon; bytes are characters, and the offset to universal time is fixed.
- BoardRoom.Room.Collect: the first loop of `coincoin_parse_message` makes two passes over the posts, which see the same old list.
- Markup.Irc2Markup: does not model the italic case, which no code of `strpbrk`'s set reaches.
- Accounts.GetNewAccountName: takes fewer accounts than an `int` can count.
- UrlEncode.HttpUrlEncode: takes exactly the inputs whose buffer's size stays within `int`, and memory does not run out.
- `markup2irc`, the configuration library, the commands that only look up and reply, authentication, the other plugins.
