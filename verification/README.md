# ircd-hybrid: channels, resolver, tables

A Dafny model of four parts of the ircd-hybrid server, in the build that `include/config.h`
selects (TS5 and TS5_ONLY, JUPE_CHANNEL, no IGNORE_BOGUS_TS), and proofs about it.
`dafny verify dfyconfig.toml` checks everything.

**Channel synchronisation** (`src/channel.c`). `Channels` holds a server's channels: `m_sjoin`,
which merges an SJOIN line by its timestamp and rewrites it for the other links, and
`send_channel_modes`, which prints a channel as SJOIN lines. Both work on parameters and text.
`ChannelViews` says what servers have to agree about (timestamp, imnpst modes, limit, key, op and
voice) and shows that SJOIN is a function on that. On top of it: one hop (`SjoinAgreement`), what the length of
a line does to it (`SjoinLengths`), a tree of servers (`SjoinNetwork`), bursts (`SjoinLines`, `SjoinBurst`) and
arrival order (`SjoinOrder`). The line sent on is modelled as text: `m_sjoin` writes it into 512 bytes without a
check, and a link cuts it off after 510 characters. Where it does not fit the 512 bytes, what is behind them is
written over; the model says so (`inside` of `MSjoin`) and goes on as if nothing that matters was there.
`ModeChanges` and `ModeReplay` do the same for MODE, `ModeRights` says who may change modes and how that depends on
SJOIN, and `Memberships` and `MembershipRuns` are about the relations between users and channels.

**The resolver** (`adns/`). `ResolverPool` states the consistency conditions of `adns/check.c`;
the class `Resolver` keeps them over every run of submissions, replies, time-outs, collections and
cancellations. `Timeouts` is the poll timeout, `DomainNames` and `DomainText` are the encoder and
printer of domain names (sections 3.1 and 5.1 of RFC 1035), and `AnswerMemory` is the two-phase
accounting for the memory of an answer.

**Allocator, buffers, address tables.** `BlockHeaps` is the bitmap allocator, with its 64-bit words in
`BitWords`; `DataBuffers` is the chain of buffers that cuts input into lines; `IpPrefixes`, `IpTrees`,
`DlineTables`, `KlineTables` and `KlineCoverage` are the search trees for address ranges with their oracle filter.

**Netsplits** (`src/client.c`). `Netsplit` removes a server with all that depends on it,
`SplitLines` compares the two ways in which neighbours are told, and `ClientLists` holds the lists
with their pointers. `Chains` and `Text` are shared helpers.

Claims that turned out to be false of the code are kept as results, with the exact condition:

- `doc/README.TSora:320-328` says that the order of arrival does not matter. With timestamp 0 it does
  (`SjoinOrder.OrderIndependenceExact`): 0 merges modes with whatever came before.
- A relayed SJOIN that gets over the link as a whole agrees with the original unless its mode word starts with `0`
  and yet names modes that the channel lacks; those are used but not sent on (`SjoinAgreement.HopKeepsAgreement`). An
  SJOIN without an accepted user is not sent on at all, and may yet change timestamp and modes
  (`SjoinAgreement.HopAgrees`).
- A relayed SJOIN can get longer than the line it was made from, since the channel's modes, limit and key go into
  it. A good line of 506 characters becomes one that overruns `sjbuf`, and the next server does not get all of its
  users (`SjoinLengths.LongLineLoses`). When the two servers agree in spite of a cut is stated exactly
  (`SjoinAgreement.HopExact`). Lines of a burst always keep room for it (`SjoinLengths.RoomyFits`).
- A timestamp survives being printed if and only if it is below ten thousand million (`Text.TimeReads`).
- A burst rebuilds the channel if and only if its limit is not negative (`SjoinBurst.BurstRoundTrip`).
- A relayed MODE has its effect at the next server if and only if the sender may make changes there, which a
  remote user behind a server that marks it as deopped may not (`ModeReplay.HopReplays`).
- Deleting a node that has two children loses ranges that are not to be deleted in some trees; which ones is
  stated exactly (`IpTrees.LosslessExact`, and `IpTrees.DeletionDropsRange` for a tree that loses one).
- The oracle filter is sound for an entry if and only if its address has no bits outside its mask
  (`DlineTables.OracleNeedsMaskedAddress`, `DlineTables.OracleExact`). D-lines made with a nickname have such bits
  (`src/m_kline.c:1099-1100`) and then miss that very user (`DlineTables.NickDline`). For K-lines the filter is exact in
  any case (`KlineTables.KlineTable.MatchKline`): a line whose address is not masked matches nobody.
- A K-line that is added where a narrower range is found joins that range only (`KlineTables.LineReach`), and a range
  shorter than /8 is looked up only for addresses with the first byte it was added under (`IpPrefixes.OneHead`).
- A K-line is dropped for a more general one for everybody in the same list, without a look at the addresses: that one
  reaches all of its addresses if and only if it reaches its own (`KlineCoverage.RangeMet`), and need not
  (`KlineCoverage.LostLine`).
- The mode word of a remote sender can be one character longer than its buffer (`ModeReplay.WordFitsExact`).
- `adns_beforepoll` aborts when the timeout is within a second of the greatest int (`Timeouts.BeforePoll`).
- The name encoder reads on behind a name that ends in an escape that is cut off, and then writes beyond its buffer:
  it depends on the name alone, for every memory behind it, if and only if the encoder gets to no such escape
  (`DomainNames.EncodesExact`). A name handed to `adns_submit` without a search list has a NUL or a dot behind it and
  is safe (`DomainNames.SubmittedEncodes`); one that is searched for is not (`DomainNames.SearchOverruns`).
- The strings of a finished answer are those that were parsed if and only if they hold no NUL; the count of a TXT
  string stays, and then goes beyond its block (`AnswerMemory.RecordKeeps`).
- The padding in `BlockHeapCreate` (`src/blalloc.c:184`) aligns the elements of more than one only for sizes that
  leave 0 or 4 on division by 8 (`BlockHeaps.ElementsAligned`).
- A printed domain name reads back only if its bytes are below 8 or from 33 to 126: others
  are printed in octal (`adns/parse.c:43`) and read in decimal (`adns/transmit.c:100-107`).
- The comment at `src/blalloc.c:371` says that collection never removes the first block. It does
  (`BlockHeaps.BlockHeap.GarbageCollect`).
- The two ways of telling a neighbour of a netsplit come to the same if and only if the neighbour has no
  client of the subtree somewhere else (`SplitLines.SplitAgrees`, and `SplitLines.TwoPlaces` for one that has).

Abstractions used throughout: the network, clocks and lookups are parameters (`now`, maps from
nicknames to users, the outcome of a reply, memory that the system returns); sending is a returned line
or sequence; an error reply to a user is not recorded. Nodes of trees, links of member chains and buffers
are values held by a class that reassigns them.

## Model

| member | source | states |
|---|---|---|
| `Channels.Server.MSjoin` | src/channel.c:3623-4215 | Refused lines change nothing and are not sent on; every other line has exactly the effect and the forwarded line of SJoin, whose meaning SJoinRefines gives for what is agreed about and ModeRights.SjoinLinks for every link of the chain; the text of that line stays in its 512 bytes if and only if it has at most 511 characters |
| `Channels.Server.SendChannelModes` | src/channel.c:656-731 | The SJOIN lines written are those of Burst, which BurstRoundTrip reads back |
| `ChannelViews.SJoinRefines` | src/channel.c:3748-3819 | On a channel that is not juped, SJOIN on text, member chains and flags is Apply on what servers agree about: timestamps compared, modes merged, users added with or without their op and voice |
| `ChannelViews.StatusOfJoinAll` | src/channel.c:4083-4142 | The loop over the names gives new users the flags that survive the comparison, and a nick that is already a member none |
| `ModeRights.SjoinLinks` | src/channel.c:3748-4142 | After an SJOIN every member has its old link, without op and voice when the line's side is older, and every newcomer that of the first name for it: with its op and voice, or, when the line's side is younger, with neither, and deopped if and only if that name came with op; also the timestamp, for a juped channel too |
| `ModeRights.DeoppedNewcomer` | src/channel.c:4113-4121 | A newcomer with op from the younger side changes no modes afterwards, whatever its lines say, and nothing of them is sent on |
| `ModeRights.PlainNewcomer` | src/channel.c:930-940 | A newcomer of the same line without op can make every list of changes that a line has room for |
| `Text.TimeReads` | src/sprintf_irc.c:301-342 | A timestamp printed with %lu, in nine digits with one character before them for what is beyond a billion, reads back as it was if and only if it is below ten thousand million |
| `SjoinAgreement.RelayReads` | src/channel.c:4009-4199 | A line sent on that is not cut off is again well formed and, read at the next server, describes the accepted users and the merged modes; it exists when a nick was accepted |
| `SjoinAgreement.RestIs` | src/channel.c:4075-4142 | The text sent on and its length depend on the channel only through what servers agree about |
| `SjoinAgreement.WireCut` | src/send.c:401-406 | A line that is too long for a link loses the end of its names and nothing else |
| `SjoinAgreement.RelayAgrees` | src/channel.c:3748-3819 | A second server in the same state gets the same timestamp and op and voice map from the relayed line, and the same modes if and only if none were lost |
| `SjoinAgreement.HopKeepsAgreement` | src/channel.c:3748-4199 | Two servers that agree on a channel agree again after one processes an SJOIN that brings a user and the other the line sent on, if that fits into 510 characters, if and only if the line does not start its modes with 0 while naming ones that the channel needs |
| `SjoinAgreement.LosesIs` | src/channel.c:4009-4015 | The condition on line and channel says exactly when the merge at the second server would come out differently |
| `SjoinAgreement.HopAgrees` | src/channel.c:3748-4199 | The same for every line, also one without an accepted user, which is not sent on: then both agree if and only if it is younger, or as old and brings no mode that the channel lacks; for a line whose users are new, each named once, both agree if and only if it loses no modes and the line sent on fits |
| `SjoinAgreement.HopExact` | src/channel.c:3748-4199 | For every line that is sent on, cut off or not: both agree if and only if it loses no modes and the names that get through say of every nick that is not on the channel what the line said |
| `SjoinAgreement.HopBreaks` | src/send.c:401-406 | When the users of a line are new and the line sent on is too long, the next server does not get to know one of them |
| `SjoinAgreement.ZeroLineLoses` | src/channel.c:4009-4015 | A line with 0m for modes after which the two servers disagree |
| `SjoinLengths.LongLineLoses` | src/channel.c:3640-3640 | A good line of 49 users that comes in whole and loses no modes: what is written for the next server is longer than sjbuf, and the two servers disagree |
| `SjoinLengths.LongLineArrives` | src/send.c:401-406 | That line comes in whole: its text has 506 characters and is cut into those parameters |
| `SjoinLengths.TextAgain` | src/channel.c:4075-4142 | A server that agrees with the one before writes the very same text, so a line that fits once fits all the way |
| `SjoinLengths.RoomyFits` | src/channel.c:4075-4142 | A line whose sender, channel and names have at most 444 characters fits after the merge with any channel, whatever its timestamp, modes, limit and key |
| `SjoinNetwork.LinkAgrees` | src/channel.c:4009-4199 | What a server sends on, if it fits, describes the same change for the server behind the link and fits there as well |
| `SjoinNetwork.FloodAgrees` | src/channel.c:3748-4199 | An SJOIN that enters a tree of agreeing servers, loses no modes and fits after the merge leaves all of them in agreement, on the merge of the line with what they had |
| `SjoinLines.FullLineReads` | src/channel.c:3666-3698 | A line with written-out modes, cut into parameters, reads back as the timestamp, modes and names it was made from |
| `SjoinLines.ParseModeWord` | src/channel.c:3666-3698 | The mode word and arguments written by channel_modes are read back as the same modes, limit and key |
| `SjoinBurst.BurstOrderIs` | src/channel.c:656-731 | Every member is printed exactly once, and an operator comes first if there is one |
| `SjoinBurst.BurstLengths` | src/channel.c:656-731 | No line of a burst is longer than 444 characters, for the names and keys that the server allows |
| `SjoinBurst.BurstAmounts` | src/channel.c:656-731 | All lines of a burst together have the effect of one description of the whole channel, however the names are packed |
| `SjoinBurst.BurstRoundTrip` | src/channel.c:552-596 | A server without the channel that is fed the printed lines rebuilds its timestamp, modes, limit, key and op and voice map, if and only if the limit is not negative |
| `SjoinBurst.NegativeLimitArises` | src/channel.c:3693-3698 | An SJOIN gives a channel the limit -5, and its burst does not rebuild it |
| `SjoinBurst.BurstsConverge` | src/channel.c:3748-3819 | Two servers with disjoint members that exchange bursts end with the same view, which is the symmetric merge of the two, for all timestamps including 0 |
| `SjoinBurst.NetworkTakesBurst` | src/channel.c:4009-4199 | A network that relays a burst line by line ends with all servers in agreement on the merge; no line of it is ever cut off |
| `SjoinBurst.NetworksConverge` | src/channel.c:656-731 | Two networks, each in agreement, are linked: after both bursts every server of both has the same view |
| `SjoinOrder.FoldOutcome` | src/channel.c:3748-3819 | After SJOINs with nonzero timestamps and disjoint users in any order: the least timestamp, the flag union, greatest limit and strcmp-greatest key of the lines that have it, and op and voice only from those |
| `SjoinOrder.OrderIndependent` | doc/README.TSora:320-328 | Any two arrival orders of the same descriptions with nonzero timestamps end in the same view |
| `SjoinOrder.OrderIndependenceExact` | src/channel.c:3750-3751 | Descriptions with given timestamps are independent of their order whatever they say, if and only if timestamp 0 comes with at most one other value; the same when each has to name a user, as every line sent does |
| `SjoinOrder.ZeroBreaksOrder` | src/channel.c:3750-3751 | For any list of timestamps with 0 and two others there are descriptions, each with a user, whose outcome depends on the order |
| `ModeChanges.CollapseSigns` | src/channel.c:827-838 | The in-place loop leaves the collapsed string in the buffer, ended by NUL, for every string |
| `ModeChanges.CollapseMeans` | src/channel.c:827-838 | Collapsing keeps the list of letters with their signs in force, for every string |
| `ModeChanges.CollapseMinimal` | src/channel.c:827-838 | No sign is left that repeats the one in force |
| `ModeChanges.ModeChanger.Status` | src/channel.c:1000-1102 | One letter o or v: who may give it, to whom, the limit of four per local line, and what is written |
| `ModeChanges.ModeChanger.SetOrClearLimit` | src/channel.c:1527-1584 | One letter l: only once per line, with the argument eaten or the limit set or cleared |
| `ModeChanges.ModeChanger.SwitchFlag` | src/channel.c:1595-1873 | One of the letters imnpst: once per line for local users; under = all but i act as under - |
| `ModeChanges.ModeChanger.Run` | src/channel.c:946-1914 | A run over o, v, l and imnpst ends in the state that the step function gives, and the line sent on spells exactly the accepted changes, or there is none |
| `ModeChanges.SetChannelMode` | src/channel.c:879-1914 | For a line of o, v, l and imnpst only the named channel changes, to what Change says, and the line sent on is that of the accepted changes; who may not change modes changes none and sends nothing; ModeRights proves who that is, ModeReplay what the line does elsewhere |
| `ModeRights.Unauthorised` | src/channel.c:930-940 | Who is no server and no operator, and if behind a link is marked as deopped or on a channel without a timestamp, leaves the view as it was and sends no line, whatever the words |
| `ModeRights.Authorised` | src/channel.c:930-1584 | Everyone else can make every list of changes that a line has room for; a local user with at most four of op and voice and each letter once |
| `ModeRights.OneSwitch` | src/channel.c:1595-1873 | A single letter of imnpst is set or cleared if and only if the sender may change modes, no other mode changes, and the line is sent on as it came |
| `ModeRights.FlaggedAt` | src/channel.c:449-466 | Giving or taking op or voice changes the one flag of the one link, and op given takes the deopped mark away |
| `ModeRights.RemoteRights` | src/channel.c:937-940 | A user behind a link without op has changes taken if and only if the channel has a timestamp and the user is not marked |
| `ModeRights.MarkSpreads` | src/channel.c:1071-1072 | A marked user that gives op marks the other one, unless that one has op, and does nothing else |
| `ModeReplay.SentWordsAre` | src/channel.c:1886-1914 | The line, cut into parameters by the receiver, is the collapsed mode word and the arguments of the accepted changes |
| `ModeReplay.ChangeOk` | src/channel.c:879-1873 | In every run the view of the channel is the accepted changes applied to the old view, the members stay, every change is one the sender could make, and `len` stays below 200 |
| `ModeReplay.WordFitsExact` | src/channel.c:90-91 | The mode word with its NUL fits its 200 bytes if and only if there are fewer than 100 changes; there are never more, exactly 100 only with a cleared limit, and at most 11 from a local user |
| `ModeReplay.WordTooLong` | src/channel.c:1578-1584 | A remote sender reaches 100 changes: the letter i 99 times and -l, which is written without a length check |
| `ModeReplay.HopReplays` | src/channel.c:879-1914 | For lines of o, v, l and imnpst, the next server makes the very same changes if and only if the sender may make changes there; then both agree again |
| `ModeReplay.DeoppedElsewhere` | src/channel.c:930-940 | Two servers that agree, one of which has the sender deopped: they disagree after +m |
| `ModeReplay.LocalChangesAgree` | src/channel.c:930-1914 | For every line of o, v, l and imnpst of a local user, a neighbour that agreed makes the same changes from the line sent on and agrees again; when no line is sent nothing has changed |
| `ModeReplay.PathAgrees` | src/channel.c:879-1914 | Along a path of servers that agreed, each passes on the same such line and all agree afterwards |
| `Memberships.Registry.AddUser` | src/channel.c:402-422 | The member and the user's channel are linked at the front on both sides, both counts rise, all invariants stay |
| `Memberships.Registry.RemoveUser` | src/channel.c:424-447 | Exactly this membership goes from both sides; an empty channel that is not juped goes with all invitations to it |
| `Memberships.Registry.Sub1` | src/channel.c:2114-2160 | The count falls; a channel without users is dropped after its invitations, unless it is juped |
| `Memberships.Registry.AddInvite` | src/channel.c:2050-2083 | An invitation given again moves to the end; of a full list the oldest goes; both sides stay equal and no list gets longer than 20 |
| `Memberships.Registry.DelInvite` | src/channel.c:2089-2108 | The invitation goes from both sides |
| `Memberships.Registry.VoidInvites` | src/channel.c:1629-1632 | All invitations to a channel go from both sides |
| `MembershipRuns.ModeNotInvite` | src/channel.c:1623-1638 | Mode -i voids the invitations to the channel and nothing else |
| `MembershipRuns.JoinNames` | src/channel.c:4083-4142 | The loop over the names of an SJOIN gives the members that Channels.JoinAll says, and the users the channel |
| `MembershipRuns.SjoinMembers` | src/channel.c:3700-4142 | An SJOIN, older, younger or as old, leaves both relations consistent and other channels as they were |
| `MembershipRuns.Run` | src/channel.c:402-475 | After every sequence of registrations, joins, parts, invitations, mode changes, SJOINs and exits both relations are the same from either side, counts are list lengths, nobody is operator and deopped, and invitations are bounded and unique |
| `Memberships.Registry.ChangeFlag` | src/channel.c:449-466 | Only the flags of one member change, and nobody is both operator and deopped |
| `Memberships.Registry.SetDeopped` | src/channel.c:468-475 | The mark is set only on a member without op |
| `Memberships.Registry.SetJuped` | src/channel.c:1642-1663 | Juping and unjuping keep the relations; an unjuped channel without users goes |
| `Memberships.Registry.StripChannel` | src/channel.c:4033-4072 | All op and voice are taken; the relations stay |
| `Memberships.Registry.ExitUser` | src/client.c:1236-1241 | A user leaves all channels and loses all invitations: every list is the old one without that user, in order, no flag of others changes, and a channel that is left empty goes with its invitations unless it is juped |
| `Memberships.Symmetric` | src/channel.c:402-447 | In every consistent state a user is on a channel's list exactly when the channel is on the user's, for members and for invitations |
| `Memberships.PruneOk` | src/client.c:1236-1241 | Removing any set of users keeps all relations, counts and bounds |
| `Memberships.PruneSays` | src/client.c:1236-1241 | The same for any set of users, list by list |
| `Memberships.PruneTwice` | src/client.c:1236-1241 | Removing users in two steps is removing them at once |
| `Netsplit.ClientTable.Introduce` | src/client.c:764-789 | A new client, known before in another place or not, goes to the front of its server's list and of the global list; the tree stays well formed |
| `Netsplit.Rejoins` | src/client.c:1303-1329 | A server that was behind another splits and comes back with the other behind it |
| `Netsplit.ClientTable.ExitOne` | src/client.c:1161-1251 | A client without dependents leaves every list and channel, and nothing else changes |
| `Netsplit.ClientTable.RecurseRemove` | src/client.c:1303-1329 | Terminates, and removes exactly the clients that depend on the server; survivors keep their order in every list |
| `Netsplit.ClientTable.ExitServer` | src/client.c:1400-1640 | Exactly the server and all that depends on it are gone, every list is the old one without them, in order, everyone else is where it was, and all counts are consistent |
| `Netsplit.PruneNetOk` | src/client.c:1303-1329 | The records stay consistent when any set goes that is closed under dependence |
| `Netsplit.PruneNetSays` | src/client.c:1303-1329 | The same for any set of clients, list by list |
| `Netsplit.PruneNetTwice` | src/client.c:1303-1329 | Two removals, one after the other, are the removal of the union |
| `SplitLines.SendQuits` | src/client.c:1261-1292 | One SQUIT for a neighbour with QS, else the full series |
| `SplitLines.RemoveDependents` | src/client.c:1336-1372 | A neighbour without QS that is not behind the server is told of every client below it once, users by QUIT and servers by SQUIT, and of whoever is on a server before that server; one with QS that is neither behind nor the origin gets the one SQUIT; the others nothing; then all that depends on the server is gone |
| `SplitLines.SeriesNames` | src/client.c:1281-1291 | The series names exactly the clients of the subtree, users by QUIT and servers by SQUIT |
| `SplitLines.SeriesOnce` | src/client.c:1281-1291 | No client is named twice |
| `SplitLines.SeriesOrdered` | src/client.c:1281-1291 | Whoever is on a server is named before it |
| `SplitLines.ReceiveAllIs` | src/client.c:1336-1372 | A neighbour that reads such lines ends without all that is below a named client, in whatever order they come |
| `SplitLines.SplitAgrees` | src/client.c:1253-1260 | One SQUIT and the full series leave a neighbour in the same state if and only if it has no client of the subtree in another place |
| `SplitLines.TwoPlaces` | src/client.c:1253-1260 | A server with a user behind the one that it loses, and a neighbour that has that one behind the first and the user behind a third, for which the two ways differ |
| `ClientLists.Bucket.Add` | src/client.c:780-789 | The client is put in front, with all forward and backward pointers right |
| `ClientLists.Bucket.Del` | src/client.c:791-806 | The client is unlinked, the others keep their order and their pointers are right |
| `ResolverPool.OneQueue` | adns/check.c:117-167 | A query is on exactly the queue its state names, its id is negative exactly when it is done, and a waiting parent has live children that point back |
| `ResolverPool.NamesTried` | adns/query.c:130-191 | The names tried are the first ones of the plan, NXDOMAIN comes only after all of it, and the datagrams sent are bounded by 15 for each restart and one |
| `ResolverPool.PlanOnce` | adns/query.c:154-191 | The plan is the name and every search list entry, each once |
| `Resolver.Resolver.Submit` | adns/query.c:207-272 | A query is added and no other is touched. For a searched name without a final dot the names tried are the first of the list in order - the name itself first if it has enough dots, else last - up to the first that is not too long, which is asked for once and waits on udpw, or fails; when all are too long there is no such domain. Any other name is on no search and asked for once, or fails |
| `Resolver.Resolver.SearchNext` | adns/query.c:154-191 | The names of the plan up to the next that is not too long have been tried and that one is asked for, or the search has failed with NXDOMAIN after the last; all conditions stay, and the mutual recursion with query_simple terminates |
| `Resolver.Resolver.QuerySend` | adns/transmit.c:234-270 | While fewer than 15 datagrams were sent one more goes to the next server and the query waits for it; else it fails with a time-out |
| `Resolver.SendsGoRound` | adns/transmit.c:245-270 | As many datagrams in a row as there are servers, or fewer, go to different servers, and after a whole round all were asked |
| `Resolver.Resolver.QueryDone` | adns/query.c:506-548 | A finished top-level query is done with its status and no children; a child is freed and its parent is what Called says |
| `Resolver.Resolver.Callback` | adns/types.c:443-718 | The parent of a finished child fails, waits on for others, or is done, as its kind, the status and the address check demand |
| `Resolver.WaitingEnds` | adns/types.c:443-718 | A PTR query ends ok if and only if every name found for the address has it, and else with the fault of the first that does not, in whatever order they end; an address query ends ok after all its children |
| `Resolver.Resolver.ProcDgram` | adns/reply.c:88-373 | A reply that matches no waiting query changes nothing; any other leads to exactly the outcome its case has: failed, next name, sent again with retries cleared, waiting for as many children as were asked for, or done; for a child, its parent is what the callback makes of it; only one family is touched |
| `Resolver.SettledMeans` | adns/reply.c:88-373 | The outcomes of a reply one by one: its error, no such domain, no data, a new start with one datagram sent and the search as it was, or ok |
| `Resolver.Resolver.QueryFail` | adns/query.c:550-554 | The query is finished with this status, its children are gone; of a child the parent is told |
| `Resolver.Resolver.InternalCheck` | adns/event.c:658-682 | A finished query is handed out once, the one asked for or the oldest, and its record freed |
| `Resolver.Resolver.Cancel` | adns/query.c:433-459 | The query and its children are gone, no other is touched |
| `Resolver.Resolver.TimeoutsQueue` | adns/event.c:197-217 | The sweep ends although it restarts from the head; every query whose time has passed was sent once more or, after 15 datagrams, failed; of those that waited for children, a PTR query with a failed one is timed out with the other children gone, any other waits for the children left or is finished; a child is there as long as its parent waits for it, and everything else is as it was |
| `Resolver.SweepMore` | adns/event.c:197-217 | One step of the sweep deals with one such query and keeps what is known of all others on udpw |
| `Resolver.TopsMore` | adns/event.c:197-217 | One step of the sweep, for the queries that wait for children or are done: they are what all failures so far make of them |
| `Resolver.Resolver.Run` | adns/check.c:86-167 | Over every run the conditions hold and the queries handed out are different ones, submitted before and not cancelled |
| `TimeVals.AddMs` | adns/tvarith.h:35-43 | The sum is normalised and right to the microsecond |
| `Timeouts.LeastWaitIs` | adns/event.c:165-195 | The wait is the least of the caller's limit and of the times to all deadlines, none below zero |
| `Timeouts.FirstTimeout` | adns/event.c:154-217 | The sweep without acting computes that least wait, normalised |
| `Timeouts.BeforePoll` | adns/poll.c:51-70 | The poll timeout is the least wait in milliseconds, rounded up, and never above the caller's; the assertion on the range of an int holds if and only if it is at least a second below the greatest int |
| `DomainNames.MkQuery` | adns/transmit.c:46-143 | The datagram reads back as a query with this id, one question of this type and class Internet, no records, and the encoded name, or there is the error; what is written stays in the buffer if and only if it is at most the header, the name's length plus two, and four bytes; it is the encoding of the text, and stays there, when no escape is cut off or what is behind the text completes none |
| `DomainNames.WriteName` | adns/transmit.c:81-143 | The loop over labels, which stops only exactly at the end, writes the encoding of what it reads in memory, and as many bytes as stated, also when it fails |
| `DomainNames.GetLabel` | adns/transmit.c:92-124 | One label with its quotes is read from memory as the reference reader reads it, across the end of the text where an escape leads it there |
| `DomainNames.PlainEncodes` | adns/transmit.c:119-127 | A name of one label is encoded if and only if it has at most 63 characters and, unless quoting is allowed, only letters, digits and hyphens, with no hyphen in front |
| `DomainNames.EncodesExact` | adns/transmit.c:92-114 | The encoder depends on the text alone and stays in its buffer, for every memory behind the text, if and only if it gets to no escape that the end of the text cuts off |
| `DomainNames.EncodesText` | adns/transmit.c:92-114 | It does so also where an escape is cut off when a NUL follows, or a byte that is no digit and the text does not end in a backslash |
| `DomainNames.NameKeptFrom` | adns/transmit.c:92-143 | A query is made only when the text was read to its end and no further; a reader that has run beyond the end never makes one |
| `DomainNames.SubmittedEncodes` | adns/query.c:234-241 | A name submitted without a search list, with its last dot left out or not, is always encoded as its text says |
| `DomainNames.SearchOverruns` | adns/query.c:173-189 | The name a\ is tried with example.org and then alone, with the first try behind it in memory: at least ten bytes are written where there is room for eight |
| `DomainText.AppendQuoted` | adns/parse.c:34-57 | The loop prints the label as the reference printer does |
| `DomainText.Cursor.Next` | adns/parse.c:74-115 | The next label of a datagram, its end, or the error, for names without pointers |
| `DomainText.ParseDomain` | adns/parse.c:117-161 | The loops print the whole name or report the first error |
| `DomainText.PrintedEncodes` | adns/transmit.c:81-143 | Encoding a printed name gives its wire form back if and only if its bytes are below 8 or from 33 to 126 and it fits in 255 bytes; then also whatever is in memory behind it |
| `DomainText.ParsedEncodes` | adns/parse.c:117-161 | The same for every name that is parsed out of a datagram |
| `DomainText.WireReads` | adns/parse.c:117-161 | A name written on the wire anywhere in a datagram is parsed to its printed form, with the right end |
| `AnswerMemory.RecordFits` | adns/types.c:141-173 | No record's finaliser takes more, rounded, than was counted for the record, for every record layout |
| `AnswerMemory.AnswerFits` | adns/query.c:470-492 | What was counted suffices for CNAME, owner, the block of records and all records together |
| `AnswerMemory.PlacedApart` | adns/query.c:388-402 | Blocks taken one after the other are aligned, apart, and within the sum of their rounded sizes |
| `AnswerMemory.Query.AllocPreserved` | adns/query.c:355-363 | Both counters rise by the rounded size |
| `AnswerMemory.Query.SetCname` | adns/reply.c:206-216 | A CNAME is counted as preserved, an earlier one stays counted |
| `AnswerMemory.Query.Fail` | adns/query.c:413-419 | Only what is preserved stays counted; there are no records |
| `AnswerMemory.Query.ParseData` | adns/types.c:85-110 | A parser counts exactly the rounded sizes of the blocks its record holds, two bytes beyond the length for a domain name and one for other strings |
| `AnswerMemory.Query.Records` | adns/reply.c:302-340 | After a reply every record is parsed and counted, and the hosts without addresses wait for children; a refused record stops it |
| `AnswerMemory.Query.TransferInterim` | adns/query.c:369-386 | The block's rounded size moves from one counter to the other |
| `AnswerMemory.Query.HostaddrDone` | adns/types.c:443-460 | The sum of both counters is unchanged, and the record has the child's addresses and their number, or none: -1 after a temporary failure, else 0 |
| `AnswerMemory.Query.AllocFinal` | adns/query.c:388-402 | The counter never goes below zero |
| `AnswerMemory.Query.FinalRr` | adns/types.c:141-173 | The finaliser takes the sizes stated for the record, in that order, and makes the record that MovedRr says |
| `AnswerMemory.RecordKeeps` | adns/types.c:141-173 | Every string of a finished record is the one that was parsed if and only if it holds no NUL; its count, which stays, goes beyond its block exactly when it holds one; the addresses are those parsed |
| `AnswerMemory.Query.MakeFinal` | adns/query.c:470-504 | The blocks of the answer are laid into the buffer as stated, the records are the moved ones and the counter does not run out; without a buffer the query fails with nothing kept |
| `AnswerMemory.Life` | adns/query.c:334-504 | Over every life of a query the final blocks are aligned, apart and within the buffer |
| `BlockHeaps.LiveApart` | src/blalloc.c:221-300 | No two live elements overlap |
| `BlockHeaps.AddrsApart` | src/blalloc.c:104-148 | Different elements of the heap never overlap, in one block or in two |
| `BlockHeaps.ElementsAligned` | src/blalloc.c:184-185 | The elements of an aligned block are all aligned if and only if there is one, or the size given leaves 0 or 4 on division by 8 |
| `BlockHeaps.AskedApart` | src/blalloc.c:166-185 | Two live elements have the bytes that were asked for apart from each other |
| `BlockHeaps.BlockHeap.NewBlock` | src/blalloc.c:104-148 | A block of free elements is put in front; nothing live changes |
| `BlockHeaps.BlockHeap.FirstClear` | src/blalloc.c:262-292 | The search finds the first clear bit of a block with a free element, and it is a real element |
| `BlockHeaps.BlockHeap.Alloc` | src/blalloc.c:221-300 | It returns an element that was not live and never reaches its last exit; the live ones stay; counts and bitmaps agree |
| `BlockHeaps.BlockHeap.Free` | src/blalloc.c:314-364 | It returns 0 exactly for an address inside a block; a live element is freed, a double free changes nothing |
| `BlockHeaps.BlockHeap.GarbageCollect` | src/blalloc.c:378-431 | All live elements stay, in their places, and no block without a live element is left, the first included |
| `DataBuffers.LinesAppend` | src/dbuf.c:341-389 | After a line end the lines of two strings are the lines of both |
| `DataBuffers.FramedGet` | src/dbuf.c:341-389 | A returned message is the first complete nonempty line, has no line end and is shorter than the room; read or not, messages plus buffered lines stay the lines put |
| `DataBuffers.DBuf.Put` | src/dbuf.c:173-220 | The bytes are appended, whatever the buffers look like |
| `DataBuffers.DBuf.Delete` | src/dbuf.c:239-271 | The first bytes go, or all |
| `DataBuffers.DBuf.Get` | src/dbuf.c:274-292 | What is moved out and what stays are what there was |
| `DataBuffers.DBuf.Flush` | src/dbuf.c:298-325 | Exactly the line ends at the front go |
| `DataBuffers.DBuf.GetMsg` | src/dbuf.c:341-389 | The first complete line is returned and removed if and only if there is one that is shorter than the room; else no line goes; empty lines go in any case |
| `DataBuffers.DBuf.Run` | src/dbuf.c:173-389 | For every interleaving of puts and reads, the messages and then the lines still buffered are the lines of all bytes put |
| `IpTrees.AllApart` | src/dline_conf.c:99-135 | The ranges of a tree are pairwise apart |
| `IpTrees.Disjoint` | src/dline_conf.c:99-135 | No address is in two ranges of a tree |
| `IpTrees.InsertOk` | src/dline_conf.c:99-112 | Insertion of a disjoint range keeps the order |
| `IpTrees.InsertHas` | src/dline_conf.c:99-112 | The tree then has exactly the old entries and the new one |
| `IpTrees.FindIs` | src/dline_conf.c:119-135 | The search finds the one range that covers the address, or there is none |
| `IpTrees.FindSubtree` | src/dline_conf.c:119-135 | The loop is that search |
| `IpTrees.AmendHas` | src/dline_conf.c:395-443 | Changing the list at the found range changes nothing else |
| `IpTrees.DeleteOk` | src/dline_conf.c:146-211 | After deletion the tree is ordered and disjoint, a part of the old one, without any range in scope, and the lists of those are gathered in order |
| `IpTrees.GatheredIs` | src/dline_conf.c:146-176 | What deletion gathers are the lists of exactly the ranges in scope, each once and whole |
| `IpTrees.LosslessExact` | src/dline_conf.c:189-207 | Deletion keeps every range that is out of scope if and only if no deleted node with two children has its replacement deep in a subtree |
| `IpTrees.DeletionDropsRange` | src/dline_conf.c:189-207 | There is a consistent tree and a deletion after which a range that was not to be deleted is missing |
| `DlineTables.OracleFitsIs` | src/dline_conf.c:451-459 | The oracle fits a tree if and only if it never says no to an address that a range of the tree holds |
| `DlineTables.OracleGrows` | src/dline_conf.c:420-421 | Adding a masked address keeps the oracle fitting |
| `DlineTables.OracleExact` | src/dline_conf.c:451-489 | Look-up with the oracle equals look-up without it, for all addresses of a tree, if and only if the oracle has all bits of the last address of every range |
| `DlineTables.LookScans` | src/dline_conf.c:451-489 | Look-up without the oracle is a linear scan over the ranges of the tree |
| `DlineTables.NickDline` | src/m_kline.c:1099-1100 | After DLINE with the nickname of a user at 10.1.2.3 that user does not match |
| `DlineTables.WholeTable` | src/dline_conf.c:451-489 | With masks of eight bits or more, look-up in one tree finds what a scan of the whole table finds |
| `IpPrefixes.OneHead` | src/dline_conf.c:451-464 | All addresses of a range go to one tree if and only if its mask is at least eight bits long |
| `DlineTables.PlacedAnywhere` | src/dline_conf.c:77-112 | Placing a range for any address, masked or not, keeps the tree ordered and its ranges apart |
| `DlineTables.OracleNeedsMaskedAddress` | src/dline_conf.c:420-421 | The bits recorded for an entry admit all addresses of its range if and only if its address is masked |
| `DlineTables.DlineTable.FindException` | src/dline_conf.c:315-330 | The scan finds whether an unplaced exception covers the address |
| `DlineTables.DlineTable.AddException` | src/dline_conf.c:335-365 | An exception goes right behind the D-line whose range covers it, every other list stays; without one it goes to the list of unplaced ones |
| `DlineTables.DlineTable.RescanDlines` | src/dline_conf.c:370-390 | Every range gets exactly its exceptions, in order, right behind its D-line; those without a range stay unplaced, in order |
| `DlineTables.DlineTable.AddDline` | src/dline_conf.c:395-443 | For any address: when a wider range or an exception holds it nothing changes; else its range is in the tree with its own exceptions and, behind them, all those of exactly the ranges it replaces, in order and as often; in it an address that one of these exceptions covers gets an exception and any other the new D-line; every range that stays has its list with its exceptions put in, no range of another tree changes, and the oracle word gets its bits |
| `DlineTables.DlineTable.MatchDline` | src/dline_conf.c:451-489 | The answer is the look-up, cut short by the oracle; where only masked addresses were added it is the look-up without the oracle, for every address |
| `KlineTables.VerdictDecides` | src/dline_conf.c:702-750 | The item chosen from a list is the one the rules for E and K lines name |
| `KlineTables.KlineTable.Overruled` | src/dline_conf.c:495-640 | A new line is dropped exactly when one in the list overrules it |
| `KlineTables.KlineTable.AddLine` | src/dline_conf.c:495-640 | For any address: an overruled line changes nothing; else it joins the list of the range found, or gets a range of its own with what it takes over, and every other list stays |
| `KlineCoverage.RangeMet` | src/dline_conf.c:538-546 | A line with a shorter mask reaches all addresses of another if and only if it reaches the address that one was added with |
| `KlineCoverage.DroppedMet` | src/dline_conf.c:538-546 | A line that is dropped for one that is for its address changes nothing: everyone it is for is denied or exempt without it, and exempt in the case of an E-line |
| `KlineCoverage.LostLine` | src/dline_conf.c:538-546 | A K-line that is dropped for one with other addresses: its user matches nothing |
| `KlineCoverage.ExemptStays` | src/dline_conf.c:519-523 | E-lines of replaced ranges, or of the list that a K-line joins, go on to exempt |
| `KlineCoverage.TrimmedIs` | src/dline_conf.c:233-285 | Of the list that it joins a line for everybody leaves those with masks that are not to go and, unless it is an E-line, all E-lines, in order |
| `KlineCoverage.InheritedIs` | src/dline_conf.c:508-530 | A new range takes over the lines of exactly the ranges it replaces, in order: all of them, none for an E-line for everybody, the E-lines for such a K-line |
| `KlineTables.LineReach` | src/dline_conf.c:514-568 | A line is looked up for all its addresses if and only if the range whose list holds it is not narrower and its mask is at least eight bits long |
| `KlineTables.NarrowNode` | src/dline_conf.c:534-568 | A line for 10.1.2.0/24 in the node of 10.1.2.0/25 does not reach 10.1.2.200 |
| `KlineTables.VerdictFits` | src/dline_conf.c:702-711 | A line that matches an address has had the bits of that address put into the oracle word |
| `KlineTables.KlineTable.RunRace` | src/dline_conf.c:702-750 | The loop over a list computes that verdict |
| `KlineTables.KlineTable.MatchKline` | src/dline_conf.c:702-750 | For every address and every sequence of additions, masked or not, the answer is the look-up without the oracle |
| `KlineTables.LookScansKlines` | src/dline_conf.c:702-750 | That look-up is the verdict on the one range that a linear scan finds |

## Left out

- TCP in adns: connection management, `adns__querysend_tcp` and the queue tcpw.
- `adns_globalsystemfailure` (it fails queries without unlinking them), `adns__rereadconfig`, the sortlist, logging.
- Compressed names in `adns__findlabel_next`, and the rules for host names beyond those in `DomainText.HostLabel`.
- Counting of records and CNAMEs in `adns__procdgram`, with `cname_count`, which `query_alloc` never sets: a reply is one of the outcomes in `Resolver.Reply`.
- Expiry times of answers and the sorting of records.
- Resolver.Resolver.Submit: whether a name can be encoded is a function of the name; for a name that ends in a cut-off escape it depends on memory as well, which is in `DomainNames`.
- Queries are named by handles that are never used again; the C program names them by addresses.
- ModeChanges.SetChannelMode: lines of o, v, l and imnpst. A run that meets key (`k`), bans and exceptions (`b`, `e`, `I`) or juping (`j`) sets `beyond` and ends; such lines are outside its requires. `-k` on a channel without a key sends an empty argument, and its replay differs.
- ModeChanges.ModeChanger.Run: the same; it says what a run does up to the first of these letters.
- ModeReplay.HopReplays: the same lines only, and of a remote sender's lines those whose nicknames, where `find_chasing` finds their holder under another one, find one of the same length: the limit on the length of a line counts what is found.
- ModeReplay.LocalChangesAgree: the same lines only.
- ModeReplay.PathAgrees: the same lines only.
- ModeChanges.ModeChanger.SwitchFlag: the channel here has no invitations; those that `-i` voids are in `MembershipRuns.ModeNotInvite`.
- SplitLines.SendQuits: names that are not masked. A neighbour with QS gets QUITs for a server whose name is masked for it.
- SplitLines.RemoveDependents: the same.
- The size of the parameter buffer of `set_channel_mode`. `ModeChanges.IntOf` takes a number beyond an int to wrap around, which C leaves open.
- The checks before JOIN, KICK, INVITE and TOPIC (`m_join` and its like) and splits (`check_still_split`): the relations of `Memberships` are proved for the functions that change them.
- Juped channels in the agreement claims; `m_sjoin` itself is modelled with them.
- The DEOPPED mark and the MODE_LIMIT bit in the agreement claims: SJOIN carries neither.
- The links of the global client list (`prev`, `next`): `Netsplit` has it as a sequence. The lists with `lnext` and `lprev` are in `ClientLists` with their pointers.
- The source of `match` and of the character tables is not part of this model: `KlineTables` takes matching of host names as a function, and `DataBuffers` takes CR and LF as line ends.
- `trim_ip_Klines` and `trim_ip_Elines` compare an int with an unsigned long, which depends on the platform: `KlineTables.KlineTable.AddLine` takes that comparison as a parameter.
- The random choice in `delete_ip_subtree` is a function parameter `coin`; every statement holds for every such function.
- `DBufCount` and `BlockHeapCountMemory`, statistics that the code does not keep exact; the free list of buffers; running out of memory, except for the last buffer of an answer.
- `BlockHeapDestroy`, `dbuf_map` (its result is the front of the contents) and reports to operators.
- In-place update and aliasing of buffers, tree nodes, heap blocks and member links, which are values here; the heap's words, the oracle arrays, the table of trees, the name encoder's output and `collapse_signs` are arrays or words changed in place.
