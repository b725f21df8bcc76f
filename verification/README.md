# Mesh node: model and proofs

This project models the mesh protocol of `libraries/a7105_mesh`, and proves what its nodes keep to:
alone, in every run of calls and received packets, and together, in networks of any number of nodes.

The node is modelled twice. `Model` and `Operations` give it as a value and every function of the source
as a function from value to value, in source order and with the source's branches, constants and machine
integers. `MeshNodes.MeshNode` is the same node as an object with the fields of `struct A7105_Mesh`,
changed in place: each method is proved to do to the node's value what the function says, down to
`Update` and every client call, and `MeshNode.Run` carries the results about runs over to the object. The
parts of the node are classes of their own: registers, the handled-packet cache, the relay ring, the
response ring, the presence table.

## How the files fit together

- `Bytes`, `Packets`: bytes and wrap-around clocks; the 64-byte packet.
- `Registers`, `Filter`, `Relay`, `Responses`, `Presence`: the parts, each with its invariant.
- `Model`, `Operations`: the node and its calls. The invariant `Model.Inv` holds the parts' invariants and
  what JOIN and CONFLICT_NAME packets a node may send.
- `MeshNode`: the node as an object.
- `Joining`: what one node does about ids and operations, and over runs.
- `IdProtocol`, `Network`: no id is abandoned, on a network that loses, delays, duplicates and reorders.
- `TimedIds`, `Timed`: unique ids, on a network that delivers packets about ids at once.
- `Numbering`: both together; all nodes get onto the mesh, and the ids are exactly 1 to n.
- `Traffic`: what each phase of an update puts on the air. `Relaying`: which packets are relayed, and that each of
  them is. `Flood`: relaying ends.
- `Rebuild`: which responses survive being summarized in four bytes; `Repeats`: what is repeated over a run;
  `Persistence`: that it is repeated, and how often.
- `Sequences`: the numbers of a node's requests. `Once`: what a node answers, once. `Broadcasts`: who takes a broadcast.
- `Blocking`: who is told how an operation ended. `Errors`: which error text the client reads.
- `Server`, `Settings`, `Queries`: requests and replies, at either end; `Survey`: what a ping finds out.
- `Refused`: the operations that are refused and yet waited for. `Waiting`: when any wait ends, and what it keeps.
- `RoundTrips`: requests and replies from end to end, over any run of the requester in between.

Everything outside a node comes in as a value (`Model.Env`): the radio, one clock reading per phase of an
update, the random delays, what a client's callbacks answer and leave in a register, and the bytes found
where the source reads behind an array. Histories that no C variable keeps (packets sent, packets heard, ids
claimed, callbacks made, what each ring ever held) are ordinary parts of the value and ghost fields of the
objects; no decision reads them.

## Where code and documentation differ

The code is followed; each difference is stated by a member.

- README.md:252-256 says the lower unique id always re-joins. A node on the mesh never does
  (`Joining.LowerUniqueIdStays`, `Joining.MembershipIsPermanent`): `Check_For_Node_ID_Conflicts` (579-582) tests
  for any other unique id, where its comment says a lower one, and consumes every packet the re-join branch
  could act on.
- The response ring has four slots, but 1691 bounds it by the size of the relay ring, two: a response that comes
  while two are queued is sent once and never repeated (`Responses.AppendIsNewest`).
- The first reply to a bad register index carries index 0 and no name; its repeats carry 255, and the name of
  whatever lies behind the register array (`Rebuild.NameRebuilt`). The asking node knows a reply by its index. So
  INVALID_REGISTER_INDEX is reported only to who asked for 0 or 255; who asked for 255 may be told STATUS_OK and a
  made-up name (`RoundTrips.Register255CanBeNamed`); for all other bad indices the operation times out
  (`RoundTrips.RemoteName`).
- Repeats of an acknowledgement drop its error text (`Rebuild.AckRebuilt`), so a requester that hears only a
  repeat is told of success (`Settings.RepeatTellsSuccess`).
- Acknowledgements do not say which SET they answer: a requester takes any that is addressed to its id
  (`Settings.AckEndsSet`).
- The comment at 1165-1167 promises that an unexpected callback status is an error for the caller. It is
  acknowledged as a success (`Server.AckReportsExactly`).
- The comparison with values (2030-2038) compares the register's name bytes with the packet from its length
  byte on; it is modelled as written (`Registers.MeshRegister.MatchesNameAndValue`). So 1274-1279 does not keep out
  a value that the listener already has (`Broadcasts.SameValueLooksNew`).
- A failed SET whose callback sets no text carries one that an earlier failure left in the cache, if there is one
  (`Errors.FailureTextIs`).
- GET_REGISTER and SET_REGISTER refuse an unencodable register only after the node has become busy
  (`Operations.GetRegister`, `Operations.SetRegister`). Nothing is sent, but the operation is waited for. It ends by
  its timeout unless something else ends it in time (`Refused.RefusedOperationEnds`): for a SET any acknowledgement
  addressed to this node, for a GET a value of the register that an earlier operation cached. So a late answer to an
  earlier operation can report STATUS_OK (`Refused.RefusedSetCanSucceed`, `Refused.RefusedGetCanSucceed`), and the
  updates may repeat that earlier request (`Refused.RefusedRepeatsEarlierRequest`).
- `register_cache` holds the name a GET asks for, and also the error texts of SETs served meanwhile; after an error
  it is blanked (1187-1195). A node that serves such a SET while it waits forgets what it asked for
  (`Waiting.GetIsKept`), and its GET times out though the value arrives (`Waiting.GetCanBeForgotten`).
- A broadcast is queued for repeating like a value reply, and repeated under the node's own id, with the contents of
  the served register of that name (`Rebuild.BroadcastRebuilt`): listeners do not take it for a broadcast
  (`Rebuild.EchoIsNoBroadcast`).
- A CONFLICT_NAME packet goes out through `_Send_Request`, so it pushes back the timeout of the operation under
  way and replaces the request that is repeated (`Joining.DuplicateIsAnswered`).
- After a handler has replied, later handlers see the node's own reply: a pinging node that answers a PING
  records itself as present (`Survey.UpdateRecords`).

## Model

| member | source | states |
|---|---|---|
| `Numbering.MeshIsNumbered` | libraries/a7105_mesh/a7105_mesh.cpp:400-598 | The mesh forms: n <= 255 fresh nodes with distinct unique ids have all started to join at id 1, at any times, on a network that delivers JOIN and CONFLICT_NAME packets at once and updates joining nodes in time; after any further such run longer than n(5000+d) ms all of them are on the mesh, and their ids are exactly 1 to n, each held by one node |
| `Numbering.JoinerGetsThere` | libraries/a7105_mesh/a7105_mesh.cpp:480-573 | Nobody joins for ever: in such a run longer than n(5000+d) ms, whatever conflicts there are, every node that had started to join is on the mesh |
| `Network.IdsInUseHaveNoGap` | libraries/a7105_mesh/a7105_mesh.cpp:503-598 | In every run of n <= 255 fresh nodes with distinct unique ids, each joining once at id 1, over a network that loses, delays, duplicates and reorders: every id any node ever claimed is still held, and the ids in use are exactly 1 to K with K <= n |
| `Network.UsedIds` | libraries/a7105_mesh/a7105_mesh.cpp:503-598 | From the invariant of the network: the ids in use are exactly 1 to K, and every id ever claimed is among them |
| `Network.IdsNeverDecrease` | libraries/a7105_mesh/a7105_mesh.cpp:552-573 | An evicted node goes to the next id, the byte addition never wraps, the new id is at most n; every other node that has an id keeps it |
| `Network.EvictionsAreFew` | libraries/a7105_mesh/a7105_mesh.cpp:503-573 | In every run of n fresh nodes, whether they reach the mesh or not, nodes are moved off an id at most n(n-1)/2 times in all |
| `Network.JoiningSettlesByRank` | libraries/a7105_mesh/a7105_mesh.cpp:552-573 | After any run that leaves all n nodes joining, no id exceeds its holder's rank by descending unique id, and if the ids differ each id is exactly the rank |
| `Network.NetStepRefines` | libraries/a7105_mesh/a7105_mesh.cpp:600-642 | Every call of every node is a step of the abstract id protocol; a JOIN it sends states a claim it made, a CONFLICT_NAME the id it holds on the mesh, and a relayed one was heard before |
| `IdProtocol.MoverKeeps` | libraries/a7105_mesh/a7105_mesh.cpp:552-573 | Whatever packet moves a joining node off its id, some other node keeps that id and outranks it |
| `IdProtocol.MoveDoesNotWrap` | libraries/a7105_mesh/a7105_mesh.cpp:516-519 | A node that is moved on has an id below the number of nodes, so node_id + 1 fits the byte |
| `IdProtocol.StepKeepsInv` | libraries/a7105_mesh/a7105_mesh.cpp:503-598 | No step of the protocol abandons a claimed id or makes a sent packet about ids untrue |
| `IdProtocol.NoIdIsAbandoned` | libraries/a7105_mesh/a7105_mesh.cpp:503-598 | From the invariant: claimed ids are held, and held ids are 1 to K |
| `IdProtocol.IdAtMostRank` | libraries/a7105_mesh/a7105_mesh.cpp:552-573 | While nobody is on the mesh, an id never exceeds its holder's rank |
| `IdProtocol.SettledIdIsRank` | libraries/a7105_mesh/a7105_mesh.cpp:552-573 | With all ids different, each equals its holder's rank |
| `IdProtocol.MovesBound` | libraries/a7105_mesh/a7105_mesh.cpp:503-573 | In every reachable state of the protocol the ids given up so far number at most n(n-1)/2 |
| `Timed.MembersNeverShareAnId` | libraries/a7105_mesh/a7105_mesh.cpp:437-501 | For any number of nodes joining at any times and ids: if JOIN and CONFLICT_NAME packets reach all nodes at once and every joining node is updated at least every d ms, 2(599+d) <= 5000, no two nodes on the mesh ever share an id, whatever happens to other packets |
| `Timed.ActStepRefines` | libraries/a7105_mesh/a7105_mesh.cpp:480-598 | Each update or join is a step of the timing argument: taking up an id with a JOIN, becoming a member, sending the JOIN again, answering a duplicate, or nothing |
| `TimedIds.FirstMoves` | libraries/a7105_mesh/a7105_mesh.cpp:480-501 | A step of the higher seeker, or of the member, keeps the pair's timing bound |
| `TimedIds.SecondMoves` | libraries/a7105_mesh/a7105_mesh.cpp:480-501 | A step of the lower seeker, or of the seeker of a member's id, keeps the pair's timing bound |
| `TimedIds.StationStepKeepsInv` | libraries/a7105_mesh/a7105_mesh.cpp:480-598 | Every step keeps every pair of stations in order, hence never two members with one id |
| `Joining.UpdateWhileJoining` | libraries/a7105_mesh/a7105_mesh.cpp:480-573 | One update of a joining node exactly: next id iff evicted; on the mesh iff more than 5000 ms since the first JOIN; a JOIN is sent if evicted or more than the retransmit delay since the last, and otherwise nothing of the node's own is |
| `Joining.IdChangesExactly` | libraries/a7105_mesh/a7105_mesh.cpp:503-573 | A node that has started to join changes its id if and only if, still joining, it receives a CONFLICT_NAME for its id from another node or a JOIN for it from a higher unique id |
| `Joining.ConflictIsMarked` | libraries/a7105_mesh/a7105_mesh.cpp:503-523 | A CONFLICT_NAME that moves a joining node on is marked as handled |
| `Joining.MembershipIsPermanent` | libraries/a7105_mesh/a7105_mesh.cpp:503-550 | Over every run, once on the mesh a node stays there under one id |
| `Joining.LowerUniqueIdStays` | libraries/a7105_mesh/a7105_mesh.cpp:575-598 | The README rule that the lower unique id re-joins fails on the mesh: told of a conflict by a higher unique id, the node keeps its id and sends CONFLICT_NAME |
| `Joining.DuplicateIsAnswered` | libraries/a7105_mesh/a7105_mesh.cpp:2150-2152 | Any packet under a joined node's own id from another node is answered by exactly one packet, a CONFLICT_NAME, and reaches no handler; the CONFLICT_NAME replaces the request that is repeated, and the request time moves to now |
| `Joining.OffMeshIsDeaf` | libraries/a7105_mesh/a7105_mesh.cpp:2110-2201 | A node not on the mesh serves nothing, queues and relays nothing, and has no operation to time out |
| `Joining.EveryOperationIsReportedOnce` | libraries/a7105_mesh/a7105_mesh.cpp:2087-2097 | Over every run: callbacks made equal operations started, less the one under way; there is a callback whenever the node is not NOT_JOINED |
| `Joining.ReportsFromTheStart` | libraries/a7105_mesh/a7105_mesh.cpp:263-363 | The same balance for every run from a node's initialization on |
| `Blocking.ActReports` | libraries/a7105_mesh/a7105_mesh.cpp:366-478 | The callback that is told is the one given with the call that started the operation, or the library's own if none was, and no other action replaces it; and what a blocking call waits on is kept up to date |
| `Blocking.BlockingCallReturns` | libraries/a7105_mesh/a7105_mesh.cpp:366-478 | A call without a callback: over any number of updates, the status it waits on is missing if and only if the operation has not been reported, and else is the status of the one report |
| `Joining.OperationEndsOnTime` | libraries/a7105_mesh/a7105_mesh.cpp:1064-1075 | An operation no response ends is ended by the first update past its limit since the last Send_Request, by one callback, never before |
| `Joining.OperationEndsAtTheLatest` | libraries/a7105_mesh/a7105_mesh.cpp:719-742 | Past the limit the node is idle after one update and has reported exactly once, whatever arrived |
| `Bytes.ElapsedIsExact` | libraries/a7105_mesh/a7105_mesh.cpp:486-494 | The 32-bit millis() difference is the true elapsed time across wraps, below one clock period |
| `Bytes.ElapsedAdvances` | libraries/a7105_mesh/a7105_mesh.cpp:486-494 | Waiting ms more adds exactly ms to the measured time |
| `Operations.Ping` | libraries/a7105_mesh/a7105_mesh.cpp:646-684 | Refused unless idle, leaving the node as it was; else pinging with an empty presence table, and exactly a PING packet is sent, kept for repeating and numbered |
| `Operations.GetNumRegisters` | libraries/a7105_mesh/a7105_mesh.cpp:744-785 | Refused unless idle, leaving the node as it was; else exactly a GET_NUM_REGISTERS packet to the target is sent and kept for repeating |
| `Operations.GetRegisterName` | libraries/a7105_mesh/a7105_mesh.cpp:827-874 | Refused unless idle, leaving the node as it was; else exactly a GET_REGISTER_NAME packet with target and index is sent and kept for repeating |
| `Operations.GetRegister` | libraries/a7105_mesh/a7105_mesh.cpp:943-995 | Refused unless idle, leaving the node as it was; else busy, and exactly the packet with the register's name is sent and the name cached; or, if the register cannot be encoded, nothing is sent, the cached register stays, and the node is busy all the same |
| `Operations.SetRegister` | libraries/a7105_mesh/a7105_mesh.cpp:1077-1123 | Refused unless idle, leaving the node as it was; else busy, and exactly the packet with the register's name and value is sent; or, if the register cannot be encoded, nothing is sent and the node is busy all the same |
| `Operations.Broadcast` | libraries/a7105_mesh/a7105_mesh.cpp:1296-1321 | On the mesh, and for a register that can be encoded, exactly its value under node id 0 is sent; else nothing |
| `Operations.Listen` | libraries/a7105_mesh/a7105_mesh.cpp:1248-1256 | The node listens, or no longer, with the register given, and nothing else changes |
| `Refused.RefusedOperationEnds` | libraries/a7105_mesh/a7105_mesh.cpp:943-995 | A GET or SET refused for its lengths sends nothing but is reported on once; over any number of updates, the report is TIMEOUT if and only if, up to and with the first update past the limit, no acknowledgement to this node arrives (for a SET), no value of the register cached by an earlier operation (for a GET), and the node's own answer to a request it serves is neither |
| `Refused.UpdateEnds` | libraries/a7105_mesh/a7105_mesh.cpp:1029-1075 | What one update makes of any waiting GET or SET exactly: ended by the packet received (an acknowledgement to this node, a value of the cached name, or the node's own answer to a request it serves), or by its limit, or still waiting |
| `Refused.RefusedSetCanSucceed` | libraries/a7105_mesh/a7105_mesh.cpp:1213-1247 | A refused SET ends with STATUS_OK if an error-free acknowledgement to this node arrives, though nothing was sent |
| `Refused.RefusedGetCanSucceed` | libraries/a7105_mesh/a7105_mesh.cpp:1029-1062 | A refused GET ends with STATUS_OK and the value of the register cached by an earlier operation, if such a value arrives |
| `Refused.RefusedRepeatsEarlierRequest` | libraries/a7105_mesh/a7105_mesh.cpp:1558-1604 | What is repeated as the request of a refused operation is the request kept from before it |
| `Operations.Act` | libraries/a7105_mesh/a7105_mesh.cpp:600-642 | Any client call keeps the node invariant, membership, and the balance of operations and callbacks |
| `Broadcasts.UpdateTakes` | libraries/a7105_mesh/a7105_mesh.cpp:1258-1294 | One update of any node exactly: it takes a value under node id 0 if and only if it is on the mesh and listens, the packet was not handled before, is well-sized, and differs from the listener's register in the bytes compared; then the register has the packet's name and value, one report is made and the packet is marked; else none of that changes |
| `Broadcasts.BroadcastIsTaken` | libraries/a7105_mesh/a7105_mesh.cpp:1258-1294 | So a fresh broadcast that reaches a listening node is read and reported |
| `Broadcasts.RemoteBroadcast` | libraries/a7105_mesh/a7105_mesh.cpp:1248-1321 | A broadcast end to end, from the sender's call to a listener's register, relayed any number of times, over any run of the listener in between: one report, and the name and value that were broadcast |
| `Broadcasts.SecondCopyIsIgnored` | libraries/a7105_mesh/a7105_mesh.cpp:1258-1294 | Over every run: while the filter remembers it, no copy of a broadcast taken is taken again, whatever its hop count |
| `Broadcasts.TakingIsRemembered` | libraries/a7105_mesh/a7105_mesh.cpp:1290-1293 | A broadcast just taken is remembered |
| `Broadcasts.OtherNameIsNew` | libraries/a7105_mesh/a7105_mesh.cpp:2030-2038 | A value under another name never looks known |
| `Broadcasts.SameValueLooksNew` | libraries/a7105_mesh/a7105_mesh.cpp:2030-2038 | The listener's own value looks known if and only if it is empty, or the register's first bytes, its name, happen to be the value's length and first bytes |
| `Filter.SeenIsRemembered` | libraries/a7105_mesh/a7105_mesh.cpp:2212-2238 | The filter exactly: refused iff handled before, fewer than eight handlings since, and the sender not heard 1 to 3 below since |
| `Filter.MarkKeepsAtMostOnce` | libraries/a7105_mesh/a7105_mesh.cpp:2049-2061 | Handling what passed the filter keeps at-most-once: between two handlings of one request at least eight others or a packet 1 to 3 below |
| `Filter.HearTracks` | libraries/a7105_mesh/a7105_mesh.cpp:2063-2085 | Expiring entries keeps the ring equal, slot by slot, to what its history says |
| `Filter.MarkTracks` | libraries/a7105_mesh/a7105_mesh.cpp:2049-2061 | Writing a slot keeps the ring equal to what its history says |
| `Filter.FreshRequestPasses` | libraries/a7105_mesh/a7105_mesh.cpp:2220-2238 | A request passes if its sender was heard 1 to 3 below since it was last handled |
| `Filter.InOrderRequestPasses` | libraries/a7105_mesh/a7105_mesh.cpp:1826-1866 | In an in-order stream without three consecutive packets lost, a request that reuses a sequence number passes |
| `Sequences.ActNumbers` | libraries/a7105_mesh/a7105_mesh.cpp:1826-1866 | Every action numbers the requests, JOINs, CONFLICT_NAMEs and broadcasts it sends from the node's number on, and leaves the number behind the last; nothing else changes it |
| `Sequences.RunNumbers` | libraries/a7105_mesh/a7105_mesh.cpp:1826-1866 | Over every run, the k-th such packet of a node carries its unique id and the number k behind the first, modulo 16 |
| `Sequences.NextRequestPasses` | libraries/a7105_mesh/a7105_mesh.cpp:1826-2238 | A node on the mesh that heard the k-th such packet of a sender's run lets the (k+1)-th to (k+3)-th pass its filter, whatever it heard and handled since, unless it has handled that very packet |
| `Once.ReceivingSends` | libraries/a7105_mesh/a7105_mesh.cpp:2099-2201 | All that a node on the mesh sends on receiving: one CONFLICT_NAME for a duplicate of its id; else one reply, if the packet is a request that concerns it and was not handled before; else nothing |
| `Once.ReceivingResponds` | libraries/a7105_mesh/a7105_mesh.cpp:2099-2201 | Of each of the five requests: the one reply sent, its summary queued behind the others if there is room, the request marked, and the response delay started anew |
| `Once.AnsweredOnce` | libraries/a7105_mesh/a7105_mesh.cpp:2212-2249 | Over every run: while the filter remembers it, no copy of an answered request is answered again, whatever its hop count |
| `Once.AnswerIsRemembered` | libraries/a7105_mesh/a7105_mesh.cpp:2049-2061 | A request just answered is remembered |
| `Joining.EveryRunIsOrderly` | libraries/a7105_mesh/a7105_mesh.cpp:600-642 | Over every run of a node: at-most-once handling, in-order relaying without echo, and six repeats of every response that left its ring |
| `Relay.OfferKeepsInv` | libraries/a7105_mesh/a7105_mesh.cpp:1650-1683 | Queuing keeps the ring a FIFO and the record of the last two packets accepted, and accepts no echo but of JOINs |
| `Relay.SendOnKeepsInv` | libraries/a7105_mesh/a7105_mesh.cpp:1399-1405 | The popped packet is the oldest accepted, changed only in the hop nibble by one; the in-place edit spoils nothing |
| `Relay.UsedSlotsDiffer` | libraries/a7105_mesh/a7105_mesh.cpp:1654-1661 | No two used slots hold the same packet up to the hop count, JOINs apart |
| `Relaying.ReceivingTakesOn` | libraries/a7105_mesh/a7105_mesh.cpp:1606-1684 | On receiving, exactly: on the mesh the packet is queued to be relayed if and only if it is another's, no request or outcome addressed to this node, not the answer of the node it asks, no GET or SET for a register whose length and name bytes it has, has made less than six hops, is not (JOINs apart) one of the last two queued but for the hop count, and there is room; in any case the relay delay starts anew |
| `Relaying.UpdateRelays` | libraries/a7105_mesh/a7105_mesh.cpp:1380-1439 | One update of a node on the mesh exactly: past the delay since it last relayed or received, it sends on the oldest packet queued and not yet sent on, one hop further, and nothing else; else it relays nothing |
| `Relaying.TakenOnIsSentOn` | libraries/a7105_mesh/a7105_mesh.cpp:1380-1684 | Relaying is live: over every run, a received packet that was queued is on the air, with one hop more and no other change, at the node's next turn to relay, or the one after if another was queued before |
| `Relaying.RunRelays` | libraries/a7105_mesh/a7105_mesh.cpp:1380-1439 | Over every run what is relayed is what the ring records, and each turn sends a packet on while one is queued |
| `Relaying.RelayedIsTakenOn` | libraries/a7105_mesh/a7105_mesh.cpp:1399-1405 | Every packet relayed is a packet queued, in order, each once, one hop further |
| `Traffic.UpdateSends` | libraries/a7105_mesh/a7105_mesh.cpp:600-642 | What one update relays and repeats, exactly: at most one packet of each of the three repeaters, in their order, each with its condition |
| `Packets.SameSansHopMeaning` | libraries/a7105_mesh/a7105_mesh.cpp:1745-1756 | The byte comparison ignores exactly the hop nibble |
| `Packets.WithHopKeeps` | libraries/a7105_mesh/a7105_mesh.cpp:2279-2284 | Setting the hop keeps the packet's identity and all header fields but the hop |
| `Packets.HeaderFields` | libraries/a7105_mesh/a7105_mesh.cpp:1758-1778 | A prepared header reads back as written |
| `Flood.FloodingEnds` | libraries/a7105_mesh/a7105_mesh.cpp:1380-1439 | In every run of n nodes, whatever is lost, deliveries and relays number at most what is pending plus a constant per packet originated; with nothing originated flooding ends |
| `Flood.StepUsesUp` | libraries/a7105_mesh/a7105_mesh.cpp:1606-1684 | Each delivery and each relay strictly lowers what is pending; only originated packets raise it |
| `Flood.SendOnCosts` | libraries/a7105_mesh/a7105_mesh.cpp:1399-1405 | A relay raises the hop by exactly one, to at most 6, and pays for all its copies |
| `Flood.OfferCosts` | libraries/a7105_mesh/a7105_mesh.h:65-65 | Queuing a received packet costs less than its delivery paid; a packet that has made six hops leaves the ring as it was |
| `Flood.CopyCostIs` | libraries/a7105_mesh/a7105_mesh.h:65-65 | The constant: two events per copy and those of n-1 copies one hop on, one event after six hops |
| `Responses.RepeatKeepsInv` | libraries/a7105_mesh/a7105_mesh.cpp:1487-1556 | Live repeat counts stay nonincreasing from oldest to newest and below 6; what left was repeated exactly 6 times |
| `Responses.RepeatPaysOne` | libraries/a7105_mesh/a7105_mesh.cpp:1487-1556 | Each repeat lowers the repeats owed by exactly one, never below zero |
| `Responses.ChosenIsOldestLeast` | libraries/a7105_mesh/a7105_mesh.cpp:1503-1512 | The entry chosen is the oldest of the least repeated |
| `Responses.AppendIsNewest` | libraries/a7105_mesh/a7105_mesh.cpp:1688-1730 | With two queued (or all four slots used) the ring stays as it is; else the response becomes the newest entry, with count 0, and the others stay |
| `Persistence.UpdateRepeatsResponse` | libraries/a7105_mesh/a7105_mesh.cpp:1487-1556 | One update exactly: past the delay since it last sent or repeated anything, with a response queued, the node repeats the oldest of the least repeated and owes one repeat less; else it repeats none |
| `Persistence.ActRepeats` | libraries/a7105_mesh/a7105_mesh.cpp:1487-1604 | What an update repeats on the air: that response, rebuilt, and the request under way if that is due; nothing else |
| `Persistence.TurnsPay` | libraries/a7105_mesh/a7105_mesh.cpp:1487-1556 | Over every run in which no response is queued, each turn to repeat pays one of the repeats owed, until none is |
| `Persistence.RunCounts` | libraries/a7105_mesh/a7105_mesh.cpp:1487-1556 | Over every run, the count kept of each response is the number of times it was repeated |
| `Persistence.EachIsRepeatedSixTimes` | libraries/a7105_mesh/a7105_mesh.cpp:1487-1556 | After any run in which none is queued, with as many turns as repeats owed, the ring is empty and each response that was in it was repeated as often as makes six |
| `Persistence.ReplyIsRepeatedSixTimes` | libraries/a7105_mesh/a7105_mesh.cpp:1441-1556 | So a reply that fits its summary is on the air six times more, byte for byte as first sent, if the registers stay as they are |
| `Persistence.UpdateRepeatsRequest` | libraries/a7105_mesh/a7105_mesh.cpp:1558-1604 | One update exactly: the request under way is repeated past the delay, if it was less than four times |
| `Persistence.RequestIsRepeated` | libraries/a7105_mesh/a7105_mesh.cpp:1558-1604 | Over every run in which its operation goes on and nobody uses the node's id, a request is repeated as sent, once per turn, up to four times in all |
| `Persistence.CalledRequestIsRepeated` | libraries/a7105_mesh/a7105_mesh.cpp:1558-1604 | So the packet of every request call is repeated exactly four times, if its operation goes on for four turns |
| `Rebuild.RebuiltExactly` | libraries/a7105_mesh/a7105_mesh.cpp:1441-1485 | The packet rebuilt from the 4-byte entry equals the reply first sent, byte for byte, if and only if a name reply's index is good and an acknowledgement carries no error text; PONG, NUM_REGISTERS and REGISTER_VALUE always |
| `Rebuild.NameRebuilt` | libraries/a7105_mesh/a7105_mesh.cpp:1463-1469 | A name reply is rebuilt iff its index is good; to a bad index every repeat is the reply with index 255 and whatever register the memory behind the array makes |
| `Rebuild.ValueRebuilt` | libraries/a7105_mesh/a7105_mesh.cpp:1471-1476 | A value reply is always rebuilt |
| `Rebuild.AckRebuilt` | libraries/a7105_mesh/a7105_mesh.cpp:1478-1481 | An acknowledgement is rebuilt iff it carries no error text; every repeat is the bare header with the target |
| `Rebuild.BroadcastRebuilt` | libraries/a7105_mesh/a7105_mesh.cpp:1296-1321 | A value broadcast is repeated as the value reply for the served register of that name, or for the memory behind the registers, under the node's own id; the repeat is the broadcast, byte for byte, if and only if that id is 0 and that register has the contents broadcast |
| `Rebuild.EchoIsNoBroadcast` | libraries/a7105_mesh/a7105_mesh.cpp:1258-1294 | A node whose id is not 0 repeats a broadcast as a packet that no listener takes for one |
| `Rebuild.ReplyIsSummarized` | libraries/a7105_mesh/a7105_mesh.cpp:1688-1729 | A reply sent while the ring has room leaves that summary as its newest entry |
| `Repeats.RepeatingIsFaithful` | libraries/a7105_mesh/a7105_mesh.cpp:1487-1604 | Over every run in which the registers do not change and every reply fits its summary: each packet repeated, response or request, equals byte for byte one the node sent before, or is the value reply that stands for a broadcast made before |
| `Repeats.FaithfulFromTheStart` | libraries/a7105_mesh/a7105_mesh.cpp:1487-1604 | The same from a node's initialization on, where the only other thing that can be repeated is the zeroed request buffer |
| `Registers.ParseThenPrint` | libraries/a7105_mesh/a7105_mesh.cpp:1967-2003 | For every packet, re-encoding what was parsed reproduces its name and value fields and stays in bounds |
| `Registers.DecodedFields` | libraries/a7105_mesh/a7105_mesh.cpp:1967-2003 | Parsing leaves the register untouched or yields name_len >= 1, 2 <= name_len + data_len <= 57 and the packet's name and value |
| `Registers.PrintThenParse` | libraries/a7105_mesh/a7105_mesh.cpp:1890-1930 | A servable register reaches any reader with its name and value |
| `Registers.EncodedFields` | libraries/a7105_mesh/a7105_mesh.cpp:1890-1930 | An encoded packet carries the name and value and keeps the header |
| `Registers.U32Delivery` | libraries/a7105_mesh/a7105_mesh.cpp:97-192 | Setting a name and a 32-bit value, encoding, parsing and getting returns both if and only if the name has 1 to 53 bytes, whatever lies behind the buffers |
| `Registers.RegisterIndexRoundTrip` | libraries/a7105_mesh/a7105_mesh.cpp:1932-1965 | The index written is read back and the name undisturbed |
| `Registers.NameIsSet` | libraries/a7105_mesh/a7105_mesh.cpp:97-108 | Setting a name sets it, keeps the rest and tells the room left of 55 bytes; a longer one is refused and changes nothing |
| `Server.ServerIsAMap` | libraries/a7105_mesh/a7105_mesh.cpp:1125-1211 | With callbacks that do not interfere, an action stores the value of a fresh, well-sized SET of a served name and changes nothing else; names stay distinct, registers well formed |
| `Server.RunIsAMap` | libraries/a7105_mesh/a7105_mesh.cpp:1125-1211 | Over every run the registers are the map the received SETs make of the initial one |
| `Server.GetIsAnswered` | libraries/a7105_mesh/a7105_mesh.cpp:997-1027 | A fresh GET of a served name is answered with the register as the get-callback leaves it, and the registers become what the callback makes of them |
| `Server.ValueEndsGet` | libraries/a7105_mesh/a7105_mesh.cpp:1029-1062 | A waiting node takes the first fitting value and ends with STATUS_OK, and its client is told which node answered |
| `Server.RemoteSet` | libraries/a7105_mesh/a7105_mesh.cpp:1077-1211 | A SET request, relayed any number of times, stores the requester's value at the server |
| `RoundTrips.RemoteGet` | libraries/a7105_mesh/a7105_mesh.cpp:943-1062 | A GET end to end, request and reply relayed any number of times, over any run of the requester's updates and client calls between its call and the reply in which nothing has ended the operation: the server replies with the value its get-callback leaves, or else its map has; the reply ends the GET well with that value, and tells who sent it, if and only if the name held in the requester's cache, after the SETs it served meanwhile, is still the one asked for; else the GET is left to its timeout |
| `RoundTrips.GetSucceeds` | libraries/a7105_mesh/a7105_mesh.cpp:943-1062 | So a GET succeeds with the server's current value whenever the reply is in time and no SET served meanwhile erases the name |
| `Waiting.GetIsKept` | libraries/a7105_mesh/a7105_mesh.cpp:1029-1201 | An update that does not end a GET leaves the node asking for the same register if and only if it serves no SET whose error, or error text, replaces the name in the register cache |
| `Waiting.GetCanBeForgotten` | libraries/a7105_mesh/a7105_mesh.cpp:1183-1201 | The input that loses a GET: a SET of wrong size for a register of the node's own, without a callback, served while waiting. The GET goes on, no value of the register asked for ends it any more, only the time limit does |
| `Waiting.UpdateEnds` | libraries/a7105_mesh/a7105_mesh.cpp:804-1075 | What one update makes of any node that waits for a count, name, value or acknowledgement, exactly: ended by the packet received, else by its limit, else waiting for the same answer to the same question |
| `Waiting.WaitEndsExactly` | libraries/a7105_mesh/a7105_mesh.cpp:600-1247 | Over every run of updates and client calls: an operation is still to be reported if and only if no packet that ends it was received and no update was past its limit; then the node, its state and the targets asked are unchanged |
| `Server.AckReportsExactly` | libraries/a7105_mesh/a7105_mesh.cpp:1139-1181 | An acknowledgement reports an error iff the callback calls the value invalid or the value to be stored does not fit; an unexpected callback status is acknowledged as success |
| `RoundTrips.RemoteSetRoundTrip` | libraries/a7105_mesh/a7105_mesh.cpp:1077-1247 | A SET round trip, request and acknowledgement relayed any number of times, over any run of the requester in between that does not end the operation: the server's register becomes what the outcome says, the requester ends with the verdict, and STATUS_OK means the value was stored if and only if the server stores values itself, or its callback left the value there, or failed the SET with an error text |
| `Settings.SetIsServed` | libraries/a7105_mesh/a7105_mesh.cpp:1125-1211 | A fresh SET of a served name changes that register as the callback and the packet say, and is acknowledged to its sender with the outcome |
| `Settings.AckEndsSet` | libraries/a7105_mesh/a7105_mesh.cpp:1213-1247 | Any acknowledgement to a waiting requester's own id ends its SET, whoever sent it and whichever request it answers; as a failure iff it carries an error text |
| `Settings.AckTellsVerdict` | libraries/a7105_mesh/a7105_mesh.cpp:1125-1247 | A copy of the first acknowledgement tells the requester of an error iff the outcome is an error with a text |
| `Settings.RepeatTellsSuccess` | libraries/a7105_mesh/a7105_mesh.cpp:1441-1485 | A copy of any repeat of an acknowledgement ends the SET with STATUS_OK, whatever the outcome was |
| `Errors.RemoteErrorText` | libraries/a7105_mesh/a7105_mesh.cpp:1139-1247 | The text of a failed SET end to end: after any run of the requester that does not end the operation, the acknowledgement leaves the failure's text, cut off behind 54 bytes, where the client reads it, unless it is empty |
| `Errors.FailureTextIs` | libraries/a7105_mesh/a7105_mesh.cpp:1139-1181 | That text is the one the set-callback set, or one left in the cache, or the library's for either failure |
| `Errors.UnexpectedTextIs` | libraries/a7105_mesh/a7105_mesh.cpp:1163-1171 | A callback that answers anything unexpected leaves the library's text for that in the cache, and no failure |
| `Errors.SuccessLeavesCache` | libraries/a7105_mesh/a7105_mesh.cpp:1139-1181 | A SET that succeeds leaves the cache alone, unless its callback sets a text |
| `Errors.AckTells` | libraries/a7105_mesh/a7105_mesh.cpp:1213-1247 | An acknowledgement with an error text leaves it in the register cache, with the error flag set; one without leaves the cache as it was |
| `RoundTrips.RemoteCount` | libraries/a7105_mesh/a7105_mesh.cpp:744-825 | Asking a node for its number of registers, over any run of the requester between call and reply that does not end the operation: the node answers, and the answer ends the operation with that number |
| `RoundTrips.RemoteName` | libraries/a7105_mesh/a7105_mesh.cpp:827-941 | Asking for a name, over the reply as first sent and as repeated, and any run of the requester in between that does not end the operation: a good index ends it with that name; a bad one ends it iff it is 0 (by the first reply, as INVALID_REGISTER_INDEX) or 255 (by a repeat, with STATUS_OK if the memory behind the registers makes a name, else INVALID_REGISTER_INDEX); any other reply leaves it to its timeout |
| `RoundTrips.Register255CanBeNamed` | libraries/a7105_mesh/a7105_mesh.cpp:1463-1469 | Asking for register 255, which no node has, ends with STATUS_OK by a repeat when the memory behind the registers makes a name |
| `Queries.QueryIsAnswered` | libraries/a7105_mesh/a7105_mesh.cpp:787-911 | A fresh query addressed to the node is answered |
| `Survey.SurveyIsExact` | libraries/a7105_mesh/a7105_mesh.cpp:703-717 | After a ping and any run of updates, iterating from 0 yields in ascending order exactly the ids 1 to 254 whose PONGs were taken since |
| `Survey.UpdateRecords` | libraries/a7105_mesh/a7105_mesh.cpp:686-717 | One update adds exactly the PONG it takes; a pinging node that answers another's PING records itself |
| `Survey.PingIsAnswered` | libraries/a7105_mesh/a7105_mesh.cpp:686-701 | Every PING of another node, not handled before, is answered by a PONG on the air |
| `Survey.ReceivingAnswersPing` | libraries/a7105_mesh/a7105_mesh.cpp:686-701 | By exactly one, which with room in the ring becomes the newest response to be repeated |
| `RoundTrips.RemotePing` | libraries/a7105_mesh/a7105_mesh.cpp:646-717 | A ping end to end, over any run of the pinging node before, and any run without a new ping behind: every other node reached answers, and a PONG that comes back before the ping is over puts its sender among the nodes the client then iterates over |
| `Presence.IterateIsSortedMembers` | libraries/a7105_mesh/a7105_mesh.cpp:1325-1337 | Iteration yields exactly the members above the start and below 255, ascending, once each |
| `Presence.NextIsLeast` | libraries/a7105_mesh/a7105_mesh.cpp:1325-1337 | The next present node is the least one above, or 0 |
| `Presence.WithPresentAdds` | libraries/a7105_mesh/a7105_mesh.cpp:709-716 | Setting the bit adds exactly that id |
| `Registers.MeshRegister.ToPacket` | libraries/a7105_mesh/a7105_mesh.cpp:1890-1930 | In place: the encoding, byte by byte |
| `Registers.MeshRegister.FromPacket` | libraries/a7105_mesh/a7105_mesh.cpp:1967-2003 | In place: the decoding, or nothing |
| `Registers.MeshRegister.MatchesName` | libraries/a7105_mesh/a7105_mesh.cpp:2017-2028 | Compares the names byte by byte |
| `Registers.MeshRegister.MatchesNameAndValue` | libraries/a7105_mesh/a7105_mesh.cpp:2030-2038 | The loop decides the value comparison as written, for length bytes up to 57: one byte early, and into the memory behind the buffers where the lengths lead there |
| `Registers.MeshRegister.GetValueU32` | libraries/a7105_mesh/a7105_mesh.cpp:175-192 | Folds the four value bytes behind a name of up to 57 bytes, in the buffer or in the memory behind it, or reports a wrong length |
| `Registers.MeshRegister.SetError` | libraries/a7105_mesh/a7105_mesh.cpp:71-84 | The error text replaces the contents and the flag is set |
| `Registers.MeshRegister.SetName` | libraries/a7105_mesh/a7105_mesh.cpp:97-108 | In place: the name is set, or refused, and the room left is told |
| `Registers.MeshRegister.SetValueU32` | libraries/a7105_mesh/a7105_mesh.cpp:126-143 | In place: the value is set big-endian behind the name, or refused for want of room |
| `Filter.HandledPacketCache.NoteReceived` | libraries/a7105_mesh/a7105_mesh.cpp:2063-2085 | The loop over the slots expires exactly the entries the packet expires, and keeps the ring true to its history |
| `Filter.HandledPacketCache.HasSeen` | libraries/a7105_mesh/a7105_mesh.cpp:2225-2236 | The loop finds the header iff it is in a slot |
| `Relay.RelayRing.OfferPacket` | libraries/a7105_mesh/a7105_mesh.cpp:1650-1683 | Queues the packet unless a slot has it, its hop is 6, or the ring is full; the FIFO stays intact |
| `Relay.RelayRing.PopForRelay` | libraries/a7105_mesh/a7105_mesh.cpp:1368-1405 | Pops the oldest, one hop further, edited in its slot |
| `Responses.ResponseRing.SelectSlot` | libraries/a7105_mesh/a7105_mesh.cpp:1503-1512 | The loop finds the oldest of the least repeated |
| `Responses.ResponseRing.CountRepeat` | libraries/a7105_mesh/a7105_mesh.cpp:1517-1549 | Counts the repeat and drops the oldest once it has six |
| `Presence.PresenceTable.GetNext` | libraries/a7105_mesh/a7105_mesh.cpp:1325-1337 | The loop finds the least present id above the start, or 0 |
| `MeshNodes.MeshNode.constructor` | libraries/a7105_mesh/a7105_mesh.cpp:263-363 | A node over its parts starts as Initialize leaves it, sound |
| `MeshNodes.MeshNode.PrepPacketHeader` | libraries/a7105_mesh/a7105_mesh.cpp:1758-1778 | Changes the packet buffer to the header and nothing else |
| `MeshNodes.MeshNode.SendResponse` | libraries/a7105_mesh/a7105_mesh.cpp:1780-1824 | Queues a reply's summary, sends the packet, restarts the response timer |
| `MeshNodes.MeshNode.SendRequest` | libraries/a7105_mesh/a7105_mesh.cpp:1826-1850 | Stamps the request, takes the next sequence number, keeps a copy unless it is a JOIN, sends it |
| `MeshNodes.MeshNode.Join` | libraries/a7105_mesh/a7105_mesh.cpp:411-478 | A node not on the mesh claims the id from now and sends a JOIN for it |
| `MeshNodes.MeshNode.UpdateJoin` | libraries/a7105_mesh/a7105_mesh.cpp:480-501 | Accepts, resends or waits |
| `MeshNodes.MeshNode.CheckForNodeIdConflicts` | libraries/a7105_mesh/a7105_mesh.cpp:575-598 | Answers a packet under the node's own id from another node, whichever unique id is higher |
| `MeshNodes.MeshNode.HandleConflictName` | libraries/a7105_mesh/a7105_mesh.cpp:503-550 | A joining node marks the packet and joins at the next id |
| `MeshNodes.MeshNode.HandleDeferredJoining` | libraries/a7105_mesh/a7105_mesh.cpp:552-573 | A joining node defers to a higher unique id |
| `MeshNodes.MeshNode.CachePacketForRepeat` | libraries/a7105_mesh/a7105_mesh.cpp:1606-1684 | Queues what is not this node's business alone |
| `MeshNodes.MeshNode.UpdateRepeats` | libraries/a7105_mesh/a7105_mesh.cpp:1380-1439 | Relays the oldest queued packet when its delay is over |
| `MeshNodes.MeshNode.UpdateResponseRepeats` | libraries/a7105_mesh/a7105_mesh.cpp:1487-1556 | Rebuilds, sends and counts the least repeated response when its delay is over |
| `MeshNodes.MeshNode.UpdateRequestRepeats` | libraries/a7105_mesh/a7105_mesh.cpp:1558-1604 | Repeats the pending request up to four times |
| `MeshNodes.MeshNode.FilterPacket` | libraries/a7105_mesh/a7105_mesh.cpp:2212-2249 | Requests by the handled-packet cache, responses by the targets |
| `MeshNodes.MeshNode.HandlePing` | libraries/a7105_mesh/a7105_mesh.cpp:686-701 | Answers a PING of another node once |
| `MeshNodes.MeshNode.HandlePong` | libraries/a7105_mesh/a7105_mesh.cpp:703-717 | Records a PONG while pinging |
| `MeshNodes.MeshNode.HandleGetNumRegisters` | libraries/a7105_mesh/a7105_mesh.cpp:787-802 | Answers with the number of registers |
| `MeshNodes.MeshNode.HandleNumRegisters` | libraries/a7105_mesh/a7105_mesh.cpp:804-825 | Takes the number and ends the operation |
| `MeshNodes.MeshNode.HandleGetRegisterName` | libraries/a7105_mesh/a7105_mesh.cpp:876-911 | Answers with name and index, or an empty name |
| `MeshNodes.MeshNode.HandleRegisterName` | libraries/a7105_mesh/a7105_mesh.cpp:913-941 | Takes the name with the index asked for and ends the operation |
| `MeshNodes.MeshNode.HandleGetRegister` | libraries/a7105_mesh/a7105_mesh.cpp:997-1027 | Runs the get-callback and answers with the value |
| `MeshNodes.MeshNode.HandleRegisterValue` | libraries/a7105_mesh/a7105_mesh.cpp:1029-1062 | Takes the value of the register asked for and ends the operation |
| `MeshNodes.MeshNode.HandleSetRegister` | libraries/a7105_mesh/a7105_mesh.cpp:1125-1211 | Runs the set-callback or stores the value, acknowledges, clears the error |
| `MeshNodes.MeshNode.HandleSetRegisterAck` | libraries/a7105_mesh/a7105_mesh.cpp:1213-1247 | Takes the outcome addressed to this node and ends the operation |
| `MeshNodes.MeshNode.HandleBroadcast` | libraries/a7105_mesh/a7105_mesh.cpp:1258-1294 | Takes a new broadcast and marks it handled |
| `MeshNodes.MeshNode.UpdatePing` | libraries/a7105_mesh/a7105_mesh.cpp:719-742 | Ends a ping after its time |
| `MeshNodes.MeshNode.CheckForTimeout` | libraries/a7105_mesh/a7105_mesh.cpp:1064-1075 | Ends the operation with TIMEOUT after its time |
| `MeshNodes.MeshNode.HandleRx` | libraries/a7105_mesh/a7105_mesh.cpp:2099-2201 | All handlers in source order on one packet buffer |
| `MeshNodes.MeshNode.Update` | libraries/a7105_mesh/a7105_mesh.cpp:600-642 | All phases in source order |
| `MeshNodes.MeshNode.GetRegister` | libraries/a7105_mesh/a7105_mesh.cpp:943-995 | The call, with its refusals, in place; the register may be the node's own cache |
| `MeshNodes.MeshNode.SetRegister` | libraries/a7105_mesh/a7105_mesh.cpp:1077-1123 | The call, with its refusals, in place; the register may be the node's own cache |
| `MeshNodes.MeshNode.Broadcast` | libraries/a7105_mesh/a7105_mesh.cpp:1296-1321 | The broadcast under node id 0, in place; the register may be the node's own cache |
| `MeshNodes.MeshNode.GetNextPresentNode` | libraries/a7105_mesh/a7105_mesh.cpp:1325-1337 | The next present node of the node's table |
| `MeshNodes.MeshNode.Act` | libraries/a7105_mesh/a7105_mesh.cpp:600-642 | Whatever a client does with the object is the action on its value |
| `MeshNodes.MeshNode.Run` | libraries/a7105_mesh/a7105_mesh.cpp:600-642 | A run of actions on the object ends in the value that the run makes of its value, so what is proved of all runs holds of the object |
| `MeshNodes.Operate` | libraries/a7105_mesh/a7105_mesh.cpp:263-363 | A new node object and any run of it: its value is what the run makes of the initial value, and every operation begun was reported once or is under way |

## Left out

- The radio driver, serial output, debug dumps and seed generation: the model sends packets and receives them
  intact, corrupt or not at all.
- `_rejoin_finished` (379-398), the `pending_*` fields and the branch of `Handle_Conflict_Name` for nodes on the
  mesh (524-547): `_Handle_RX` never reaches them, as `Joining.DuplicateIsAnswered` and
  `Model.ConflictOnlyForJoiners` show.
- Waiting inside blocking calls: a call is its start, and waiting is repeated updates.
- The clock within one phase of an update: each phase reads it once.
- MeshNodes.MeshNode.Join: only a node not on the mesh joins; a second Join, or a reset, of a node on the mesh is
  not modelled, as the sketches join once.
- MeshNodes.MeshNode.HandleConflictName: does nothing for a node on the mesh; the branch for such nodes (524-547)
  is not modelled, as no packet reaches it.
- Registers.MeshRegister.MatchesNameAndValue: a register's two length bytes are at most 57, which the library's own
  setters and parser keep to; a client that writes larger ones into the structure is not modelled.
- Registers.MeshRegister.GetValueU32: the same bound on the name length, so memory is read at most 57 bytes past the
  buffer.
- Callbacks that call back into the node: a callback has a verdict, register contents and an error text.
- The client's broadcast register as a reference: the node keeps its own copy.
- `A7105_Mesh_Util_SetRegisterValueStr`, `GetRegisterNameStr` and `GetRegisterValueStr`: buffer copies like the
  name setter.
- What `pending_request_cache` holds before the first request: the source leaves it as the node's memory was,
  the model has it zeroed, as static storage is.
- The sketches, PinChangeInt, the build script and the hardware files.
