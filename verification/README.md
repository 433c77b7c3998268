# Routing, sharing and queueing kernels of ns-2, modelled and proved

ns-2 simulates networks. This project models the kernels of it that keep invariants, and proves what they are for.

* **AODV and AOMDV routing** (`Aodv*.dfy`, `Aomdv*.dfy`). Any number of nodes run the handlers; every packet ever sent
  stays receivable by any node at any later time, any number of times or never. The results are loop freedom over all
  runs, for AOMDV over every choice of alternative paths, with the sequence-number, path-set, advertisement,
  flood-control and node-disjointness properties it rests on or comes with. Each node is a value with one function per
  handler (`*Node.dfy`). The `Agent` classes carry the handlers out on the source's own structures: route entries that
  are objects in a linked table (`*Rtable.dfy`), referred to and possibly aliased, each owning a linked list of
  precursors or paths, and linked lists of broadcast ids and neighbours (`BsdList.dfy`); they are proved to leave the
  state and send the packets of those functions. `*Effects.dfy` say what each handler brings about, in terms of the table
  and the packet alone: who is answered and who is passed on, which routes are taken up, go down or stay. `*Props.dfy` and
  `*Bounds.dfy` say what one step keeps, `*Network.dfy` lifts it to runs.
* **The iterative solver's bottleneck scaling** (`Asim*.dfy`): `newupdate` as loops over arrays, shown to end and to
  compute weighted max-min fair rates, and exactly when its result fits the links.
* **BayTCP reassembly** (`Bay*.dfy`): the doubly linked queue against the set of bytes received.
* **Hop-by-hop reservation** (`Reservation.dfy`, `SaLink.dfy`): REQUEST, CONFIRM and TEARDOWN of any flows interleaved.
* **The token bucket** (`TokenBucket.dfy`), **RED's closed form** (`RedRouter.dfy`), **the send buffer**
  (`SendBuffer.dfy`, `SendQueue.dfy`), **the multicast hash** (`McastTable.dfy`) and **the round-robin selector**
  (`RoundRobin.dfy`).

Where the source changes fields, arrays or linked nodes step by step, a class does so here, and its methods are proved
against functions on values; the theorems are about those functions. Doubles are reals. Clocks, square roots, measured
latencies and the contents of buffers another module owns are parameters.

What the proofs brought to light:

* AODV and AOMDV start an entry's last hop count at INFINITY2, so the branch of `sendRequest` that begins an
  expanding-ring search with TTL_START is never taken (`AodvProps.RingNeverStarts`, `AomdvProps.RingNeverStarts`).
* `newupdate`'s result fits the links exactly if the short flows leave room on every link a bulk flow uses
  (`AsimSolver.Solver.ScaleAll`); otherwise no positive rates would.
* `ReassemblyQueue::add` takes the packet's untrimmed size from its trimmed start (baytcp/tcp-full-bay.cc:1319-1320;
  `recv` trims at 806-828 without shrinking the size), so a partly old segment can make `rcv_nxt_` acknowledge bytes that
  never came (`BayReassembly.PartialTrimOverruns`); and overlapping segments can leave it behind bytes that were received
  (`BayReassembly.OverlapMovesBack`). `BayReassembly.StaysFirstMissing` says exactly which segments keep it right.
* A FIN taken from the reassembly queue does not move `rcv_nxt_` past itself, as one in order does
  (baytcp/tcp-full-bay.cc:1056-1073, 1379-1403; `BayReassembly.FinFromQueue`).
* `SA_Agent::stop` (adc/sa.cc:136-143) sends a TEARDOWN whether or not the flow was accepted; it then takes the flow's
  rate from what the link has promised to others (`Reservation.QuitTakesFromOthers`, `Reservation.RefusedThenStopped`).
* `numfl_` starts at -1 (adc/salink.cc:59), so without a trace attached it runs one below the number of admitted flows.
* The purge of the send buffer unlinks packets without telling the drop target, unlike the purge at the head that it
  replaced (aodv/aodv_rqueue.cc:205-260; `SendBuffer.PurgedUntold`).
* A packet larger than the bucket overdraws it, and is released whole (`TokenBucket.OversizeOverdraws`); the bound on
  what is released then is the packet, not the bucket (`TokenBucket.Conformance`).

## Model

| member | source | states |
|---|---|---|
| AodvRuns.LoopFreedom | aodv/aodv.cc:654-935 | in every state of every run, following the next hops of live routes towards any destination never visits a node twice, however packets were lost, delayed, duplicated or reordered |
| AodvRuns.EveryHopClimbs | aodv/aodv.cc:704-709 | along every live route the pair (sequence number, fewer hops) gets strictly better, or the hop is the destination |
| AodvRuns.SeqnoDiscipline | aodv/aodv.cc:348-383 | a node's own number stays even, live routes hold even numbers and dead ones odd ones or 0, no entry is more than one ahead of its destination and no live one is ahead at all; live exactly when the hop count is finite |
| AodvRuns.EntriesOnlyFresher | aodv/aodv.cc:403-429 | from any point of a run to any later one a node's entries only get fresher, and its own number and broadcast id never fall |
| AodvRuns.HandlersMayAssert | aodv/aodv.cc:952-956 | in every run the node and packet at hand are what the handlers assume, so the parity and RTF_UP assertions never fail |
| AodvFlooding.OncePerWindow | aodv/aodv.cc:673-686 | a node that is not the source transmits one request (source, id) at most once in any BCAST_ID_SAVE window |
| AodvFlooding.HopsPlusTtl | aodv/aodv.cc:811-818 | every request on the air stems from exactly one first transmission; hop count plus time to live is that packet's time to live plus one, so the hop count is at most NETWORK_DIAMETER |
| AodvFlooding.ReverseRoutesShort | aodv/aodv.cc:696-741 | a live route after receiving a request is the old one or at most NETWORK_DIAMETER hops long |
| AodvNetwork.ApplyKeepsInv | aodv/aodv.cc:557-993 | whatever event happens at whichever node: routes stay backed by the next hop's present table, packets in flight by the present table of whoever sent them, and numbers by their owners |
| AodvNetwork.Reachable | aodv/aodv.cc:557-993 | that invariant holds in every state of every run from freshly booted nodes |
| AodvProps.SendRequestStep | aodv/aodv.cc:1063-1183 | a request sent keeps the routes and is backed by the node's own new number |
| AodvProps.RingNeverStarts | aodv/aodv.cc:1118-1134 | the first-search branch with TTL_START is never taken, because an entry's last hop count starts at INFINITY2; the time to live used never exceeds NETWORK_DIAMETER |
| AodvProps.RecvRequestStep | aodv/aodv.cc:654-821 | receiving a request keeps the node well formed and its entries getting fresher; a new route is the one the packet offers; what is sent is backed by the table |
| AodvProps.RecvReplyStep | aodv/aodv.cc:824-936 | the same for a reply, forwarded or not |
| AodvProps.RecvErrorStep | aodv/aodv.cc:939-993 | the same for a route error; the numbers reported are odd or 0 |
| AodvProps.HandleLinkFailureStep | aodv/aodv.cc:348-383 | the same for a broken link; which routes go down and what is told is `AodvEffects.FailureTells` |
| AodvProps.NbDeleteStep | aodv/aodv.cc:1354-1376 | the same when a neighbour expires |
| AodvProps.PurgeAllStep | aodv/aodv.cc:504-550 | the same for the periodic walk over the table |
| AodvProps.RtResolveStep | aodv/aodv.cc:437-501 | the same when data needs a route |
| AodvBounds.RecvRequestBounded | aodv/aodv.cc:762-804 | no number in the table or in what is sent runs ahead of its owner, even when a node answers as the destination |
| AodvBounds.NbDeleteBounded | aodv/aodv.cc:1354-1376 | the same when a broken link raises numbers by one |
| AodvBounds.RecvRequestPasses | aodv/aodv.cc:673-818 | a request is passed on only if the id was not cached, and is cached from then on |
| AodvBounds.IdPurgeKeeps | aodv/aodv.cc:243-255 | purging keeps every id that has not expired |
| BsdList.List.InsertHead | lib/bsd-list.h:131-136 | links a new element in before the first one |
| BsdList.List.InsertAfter | lib/bsd-list.h:116-122 | links a new element in behind the last one, where AOMDV uses it |
| BsdList.List.Remove | lib/bsd-list.h:138-143 | unlinks an element wherever it is, and nothing else moves |
| AodvRtable.RtEntry.PcInsert | aodv/aodv_rtable.cc:116-125 | a precursor is linked in unless it is there |
| AodvRtable.RtEntry.PcDelete | aodv/aodv_rtable.cc:141-152 | the first link of a precursor is taken out of the list |
| AodvRtable.RtEntry.PcDeleteAll | aodv/aodv_rtable.cc:155-162 | unlinks until the list is empty |
| AodvRtable.RtTable.Lookup | aodv/aodv_rtable.cc:177-187 | a walk over the links finds the one entry for a destination, or none |
| AodvRtable.RtTable.Add | aodv/aodv_rtable.cc:202-212 | a new entry at the head; every other entry stays as it was |
| AodvRtable.RtTable.Touched | aodv/aodv.cc:403-430 | whatever is done to one entry through a reference changes the table at its destination and nowhere else |
| AodvAgent.Agent.constructor | aodv/aodv.cc:138-150 | a node starts with number 2, broadcast id 1 and empty lists |
| AodvAgent.Agent.LookupId | aodv/aodv.cc:231-240 | a walk over the links finds exactly the cached ids |
| AodvAgent.Agent.PurgeIds | aodv/aodv.cc:243-255 | unlinks the expired ids during one walk and keeps the others in order |
| AodvAgent.Agent.Request | aodv/aodv.cc:1063-1183 | keeps every route; a request goes out exactly if one is due and not too many were in vain, under the next id, the next even number and the next ring |
| AodvAgent.Agent.ReceiveRequest | aodv/aodv.cc:654-821 | through references to the reverse and the forward entry, which may be one: answers exactly if this node is the destination or has a live route at least as new as asked, else passes one copy on while its time to live lasts; takes up the route back exactly if it is newer, or as new and shorter |
| AodvAgent.Agent.ReceiveReply | aodv/aodv.cc:824-936 | takes up a reply exactly if it is newer, or as new and shorter, and sends it one hop back exactly if it was taken up, is for another node and there is a live route; it may be about the node it goes back to |
| AodvAgent.Agent.ReceiveError | aodv/aodv.cc:939-993 | takes down exactly the routes over the sender that are named under their number or a later one, and tells those that had precursors |
| AodvAgent.Agent.LinkFailure | aodv/aodv.cc:348-383 | in one walk over the linked table takes down every route over the neighbour, under its number plus one, changes no other, and tells exactly those |
| AodvAgent.Agent.DeleteNeighbor | aodv/aodv.cc:1354-1376 | the neighbour is unlinked, the own number moves by two, and every route over it goes down and is told |
| AodvAgent.Agent.ReceiveHello | aodv/aodv.cc:1308-1335 | the sender is a neighbour for NEIGHBOR_LIFE; the own number moves exactly if it was none; no route changes |
| AodvAgent.Agent.PurgeRoutes | aodv/aodv.cc:504-550 | in one walk over the linked table takes down exactly the expired routes, and asks once for each destination without a route that packets wait for |
| AodvAgent.Agent.Resolve | aodv/aodv.cc:437-501 | a packet for a destination prolongs a live route; without one its source starts a search if one is due, and any other node sends an error; no other entry changes |
| AodvProps.RecvHelloStep | aodv/aodv.cc:1308-1335 | after a hello its sender is a neighbour, nobody else becomes or ceases to be one, and the own number moves exactly if it was none before |
| AodvEffects.RequestTells | aodv/aodv.cc:654-821 | a request of another node that was not heard before: its id is remembered, the route back is the one offered exactly if that is newer or as new and shorter; a reply goes back, under a number no lower than asked, if and only if this node is the destination or has a live route under that number or a later one; otherwise exactly one copy goes on unless its time to live is over, asking for no less than before and than this node knows; a request heard before or of its own changes nothing |
| AodvEffects.AnswersAsBefore | aodv/aodv.cc:762-804 | unless a request asks for its own source, whether it is answered depends only on the table before it came |
| AodvEffects.ReplyTells | aodv/aodv.cc:824-936 | a reply is taken up if and only if it offers a newer route, or one as new and shorter; it goes one hop back, over the route to who asked, if and only if it was taken up, is for another node, that route is live and its time to live is not over |
| AodvEffects.FailureTells | aodv/aodv.cc:348-383 | after a link failure no live route leads over the lost neighbour: each that did is down under its number plus one, every other is as it was but for that precursor, and one error tells exactly those with those numbers, none if there are none |
| AodvEffects.ErrorTells | aodv/aodv.cc:939-993 | after a route error exactly the live routes over its sender that it names under their number or a later one are down, under that number, and one error tells those that had precursors |
| AodvEffects.NeighborTells | aodv/aodv.cc:1354-1376 | losing a neighbour forgets it, raises the own number by two and has the effect of a link failure |
| AodvEffects.HelloTells | aodv/aodv.cc:1308-1335 | after a hello its sender is recorded for NEIGHBOR_LIFE, in place or as a new neighbour, and only the latter raises the own number, by two |
| AodvEffects.SearchTells | aodv/aodv.cc:1063-1183 | a request goes out if and only if there is no route, the last search has timed out and at most RREQ_RETRIES were in vain; its ring is two wider than the last, or the whole network from TTL_THRESHOLD on; after too many the node rests for MAX_RREQ_TIMEOUT |
| AodvEffects.SearchesEnd | aodv/aodv.cc:1105-1134 | of unanswered searches in a row the fourth reaches NETWORK_DIAMETER, and at one of any eight the node rests |
| AodvEffects.PurgeTells | aodv/aodv.cc:504-550 | the periodic walk takes down exactly the live routes that have expired, under their number plus one, and asks exactly once for each destination without a route that packets wait for and for which a search is due |
| AodvEffects.ResolveTells | aodv/aodv.cc:437-501 | a data packet prolongs a live route; without one its own source searches, and any other node reports the destination under the number it has |
| AomdvRuns.LoopFreedom | aomdv/aomdv.cc:784-1269 | in every state of every run, a packet spread over any choice of paths at each node never visits a node twice |
| AomdvRuns.EveryPathClimbs | aomdv/aomdv.cc:837-888 | every path of every entry leads to the destination in one hop, or to a node with a later number, or one with the same number that advertises exactly one hop less than the path; no path is longer than what its node advertises |
| AomdvRuns.PathSets | aomdv/aomdv_rtable.cc:181-285 | in every reachable entry: live exactly when there are paths, no two share a next hop or a last hop, they are counted exactly, and there are at most as many as allowed |
| AomdvRuns.SeqnoDiscipline | aomdv/aomdv.cc:473-519 | own numbers stay even, live entries hold even numbers not ahead of the destination, others odd ones or 0 at most one ahead |
| AomdvRuns.AdvertisementsStay | aomdv/aomdv.cc:1204-1206 | from any point of a run to any later one a node's number for a destination never falls, and while it stays the advertised hop count stays |
| AomdvRuns.OneAdvertisement | aomdv/aomdv.cc:1204-1206 | over a whole run a node tells one hop count per destination and number, even after it has moved on |
| AomdvRuns.KnownPathSameLength | aomdv/aomdv.cc:861-862 | a packet over a path already known under the same number has exactly the stored length: the hop-count assertions never fail |
| AomdvRuns.HandlersMayAssert | aomdv/aomdv.cc:1116-1117 | in every run the node and packet at hand are what the handlers assert |
| AomdvDisjoint.OneReplyPerNode | aomdv/aomdv.cc:1185-1214 | while it keeps what it recorded of a discovery, a node that is not the destination transmits at most one reply of it |
| AomdvFlooding.OncePerWindow | aomdv/aomdv.cc:810-817 | a node that is not the source transmits one request (source, id) at most once in any BCAST_ID_SAVE window, however many copies bring it paths |
| AomdvTrails.NodeDisjointReplies | aomdv/aomdv.cc:963-983 | the trails of two replies of one discovery that were started by different transmissions have no transmitting node in common but the destination |
| AomdvTrails.KeysReachable | aomdv/aomdv.cc:1413-1534 | a discovery (source, id) is for one destination only, and its id is used up |
| AomdvTrails.TrailOf | aomdv/aomdv.cc:1185-1260 | all transmissions of a trail belong to one discovery and one destination and start alike |
| AomdvNetwork.ApplyKeepsInv | aomdv/aomdv.cc:746-1338 | whatever event happens: packets stay consistent with what their sender advertises or has moved on from, paths stay backed by packets, numbers by their owners |
| AomdvNetwork.Reachable | aomdv/aomdv.cc:746-1338 | that invariant holds in every state of every run |
| AomdvProps.SendRequestStep | aomdv/aomdv.cc:1413-1534 | a request sent keeps the table and is backed by the node's own new number |
| AomdvProps.RingNeverStarts | aomdv/aomdv.cc:1461-1479 | the first-search branch with TTL_START is never taken here either: the last hop count starts at INFINITY2 and never becomes 0 |
| AomdvProps.RecvRequestStep | aomdv/aomdv.cc:784-1055 | receiving a request keeps path sets disjoint and counted, advertisements fixed per number, and entries getting fresher; new paths are the ones offered; what is sent is backed |
| AomdvProps.RecvReplyStep | aomdv/aomdv.cc:1058-1270 | the same for a reply |
| AomdvProps.RecvHelloStep | aomdv/aomdv.cc:1667-1690 | the same for a hello, which is handled as a reply of zero hops |
| AomdvProps.RecvErrorStep | aomdv/aomdv.cc:1273-1338 | the same for a route error |
| AomdvProps.HandleLinkFailureStep | aomdv/aomdv.cc:473-519 | the same for a broken link |
| AomdvProps.NbDeleteStep | aomdv/aomdv.cc:1728-1775 | the same when a neighbour expires and the data packets stuck for it leave over other paths |
| AomdvProps.PurgeAllStep | aomdv/aomdv.cc:635-681 | the same for the periodic walk over the table |
| AomdvProps.RtResolveStep | aomdv/aomdv.cc:568-632 | the same when data needs a route |
| AomdvEffects.RequestTells | aomdv/aomdv.cc:784-1055 | a request of another node: the path back is taken up alone if newer, prolonged if known, added if it shares no end with another and there is room, and otherwise refused; whether the request goes on; the destination answers each that does; a node with a live route at least as new as asked answers once for each discovery and only if it keeps the path back; any other node passes on the first copy and no later one; what is told of a route is fixed from then on |
| AomdvEffects.FirstCopyOn | aomdv/aomdv.cc:810-1051 | a request for another than its source that this node cannot answer is passed on if and only if it is the first copy, goes on and has time to live left: once, one hop further, asking for no less than it did and than this node knows |
| AomdvEffects.DestinationAnswers | aomdv/aomdv.cc:930-952 | the destination sends exactly one reply to each copy that goes on and to no other, under a number no lower than asked and than its own |
| AomdvEffects.ReplyTells | aomdv/aomdv.cc:1058-1270 | the path a reply came over is taken up as for a request; the reply goes back if and only if that path is kept, there is a live route to who asked, and it is the first of its discovery here |
| AomdvEffects.FailureTells | aomdv/aomdv.cc:473-519 | after a link failure every path over the lost neighbour is gone and no other; a route with none left is down under its number plus one or the highest reported, and one error tells exactly those that others rely on |
| AomdvEffects.ErrorTells | aomdv/aomdv.cc:1273-1338 | after a route error every path over its sender of a route it names under its number or a later one is gone and no other; a route with none left is down under the highest number reported, and one error tells exactly those that others rely on |
| AomdvEffects.NeighborTells | aomdv/aomdv.cc:1728-1775 | losing a neighbour forgets it, raises the own number by two and has the effect of a link failure; then exactly the routes for which salvageable data is stuck are used, and marked if some of it came from elsewhere |
| AomdvEffects.HelloTells | aomdv/aomdv.cc:1667-1710 | after a hello its sender is recorded as a neighbour and handled as a reply of zero hops about it |
| AomdvEffects.SearchTells | aomdv/aomdv.cc:1413-1534 | a request goes out if and only if there is no route, the last search has timed out and at most RREQ_RETRIES were in vain; ring, waiting time and rest as for AODV |
| AomdvEffects.PurgeTells | aomdv/aomdv.cc:635-681 | the periodic walk drops exactly the expired paths of routes past their time, takes those with none left down under a higher odd number, and asks exactly once for each destination without a route that packets wait for and for which a search is due |
| AomdvEffects.ResolveTells | aomdv/aomdv.cc:568-632 | a data packet leaves over the first path of a live route; without one its own source searches, and any other node reports the destination |
| AomdvPaths.WithoutKeeps | aomdv/aomdv_rtable.cc:262-275 | deleting by next hop removes exactly one path if there is one, keeps the others and their disjointness |
| AomdvPaths.UnexpiredKeeps | aomdv/aomdv_rtable.cc:389-406 | purging keeps exactly the unexpired paths, and their disjointness |
| AomdvRtable.RtEntry.PathInsert | aomdv/aomdv_rtable.cc:181-205 | walks to the last link and links the path in behind it, or at the head, and counts it |
| AomdvRtable.RtEntry.PathLookup | aomdv/aomdv_rtable.cc:207-218 | yields the first path over a next hop, or none |
| AomdvRtable.RtEntry.DisjointPathLookup | aomdv/aomdv_rtable.cc:220-232 | yields the first path with both the next hop and the last hop, or none |
| AomdvRtable.RtEntry.NewDisjointPath | aomdv/aomdv_rtable.cc:234-246 | tells whether neither the next hop nor the last hop is in use |
| AomdvRtable.RtEntry.PathLookupLasthop | aomdv/aomdv_rtable.cc:248-260 | yields the first path with a last hop, or none |
| AomdvRtable.RtEntry.PathDelete | aomdv/aomdv_rtable.cc:262-275 | unlinks the first path over a next hop and counts down |
| AomdvRtable.RtEntry.PathDeleteAll | aomdv/aomdv_rtable.cc:277-285 | unlinks until the list is empty |
| AomdvRtable.RtEntry.PathEmpty | aomdv/aomdv_rtable.cc:309-321 | tells whether there is no path; the count agrees |
| AomdvRtable.RtEntry.PathGetMaxHopcount | aomdv/aomdv_rtable.cc:347-360 | is the largest hop count of the list |
| AomdvRtable.RtEntry.PathGetMinHopcount | aomdv/aomdv_rtable.cc:362-374 | is the smallest hop count of the list |
| AomdvRtable.RtEntry.PathPurge | aomdv/aomdv_rtable.cc:389-406 | unlinks expired paths one by one, starting over after each; what is left is the unexpired ones in order, counted exactly |
| AomdvRtable.RtEntry.TakeReverse | aomdv/aomdv.cc:837-907 | the reverse path is renewed, prolonged, added or refused as the specification says; the hop-count assertion holds, and an entry that is up has a path and an even number |
| AomdvRtable.RtEntry.TakeForward | aomdv/aomdv.cc:1098-1143 | the same for the forward path |
| AomdvRtable.RtTable.Lookup | aomdv/aomdv_rtable.cc:470-480 | a walk over the links finds the one entry for a destination, or none |
| AomdvRtable.RtTable.Add | aomdv/aomdv_rtable.cc:495-505 | a new entry at the head; every other entry stays as it was |
| AomdvRtable.RtTable.Touched | aomdv/aomdv.cc:539-561 | whatever is done to one entry and its paths through a reference changes the table at its destination and nowhere else |
| AomdvAgent.Agent.GetId | aomdv/aomdv.cc:321-330 | a walk over the links yields the first record of a discovery, or none |
| AomdvAgent.Agent.PurgeIds | aomdv/aomdv.cc:333-345 | unlinks the expired records during one walk |
| AomdvAgent.Agent.Request | aomdv/aomdv.cc:1413-1534 | keeps every route; a request goes out exactly if one is due and not too many were in vain, under the next id, the next even number and the next ring |
| AomdvAgent.Agent.ReceiveRequest | aomdv/aomdv.cc:784-1055 | through references to the entries, to the record of the discovery and to paths: takes up, prolongs or refuses the path back, answers as the destination or once from the table, passes on the first copy and no later one, as `AomdvEffects.RequestTells` says; the path told of is there |
| AomdvAgent.Agent.ReceiveReply | aomdv/aomdv.cc:1058-1270 | takes up or refuses the path, and lets exactly the first reply of a discovery through that is worth it; the forward and the reverse entry may be one |
| AomdvAgent.Agent.ReceiveHello | aomdv/aomdv.cc:1667-1710 | the sender is a neighbour for some more time, and the rest is the reply of zero hops it stands for |
| AomdvAgent.Agent.ReceiveError | aomdv/aomdv.cc:1273-1338 | drops exactly the paths over the sender of the routes named under their number or a later one, and tells the routes lost that others rely on |
| AomdvAgent.Agent.LinkFailure | aomdv/aomdv.cc:473-519 | in one walk over the linked table drops exactly the paths over the neighbour, and tells the routes lost that others rely on |
| AomdvAgent.Agent.DeleteNeighbor | aomdv/aomdv.cc:1728-1775 | the neighbour is unlinked, the link failure follows, and the packets stuck in the interface queue are salvaged one by one |
| AomdvAgent.Agent.PurgeRoutes | aomdv/aomdv.cc:635-681 | in one walk over the linked table drops exactly the expired paths of routes past their time, and asks once for each destination without a route that packets wait for |
| AomdvAgent.Agent.Resolve | aomdv/aomdv.cc:568-632 | a packet for a destination takes the first path of a live route; without one its source starts a search if one is due, and any other node sends an error; no other entry changes |
| AsimLoads.BottlenecksAreFair | asim/asim.cc:845-958 | if every bulk flow crosses a full link on which no other bulk flow has a larger share of its wish, the rates are weighted max-min fair: no other rates that fit give a flow more without taking from one with no larger share |
| AsimLoads.SomeShrinks | asim/asim.cc:845-958 | when the load of a link drops, some flow crossing it sends less |
| AsimScaling.ScaleKeepsBalance | asim/asim.cc:912-923 | scaling one flow keeps what is left and what is asked of every link right, and on every link the difference between asked and gamma times left |
| AsimScaling.SettledKept | asim/asim.cc:907-931 | after a round every scaled bulk flow still has a used-up link on which nobody has a larger share |
| AsimScaling.RoomKept | asim/asim.cc:907-931 | residual capacity never goes negative on a link with bulk flows, nor does the pressure rise above gamma |
| AsimScaling.CappedBelow | asim/asim.cc:933-943 | as gamma falls, the flows scaled before were divided by no less than it |
| AsimScaling.NoRoomNoFit | asim/asim.cc:863-869 | where the short flows leave no room on a link of a bulk flow, no positive rates fit |
| AsimScaling.FlowsOnExactly | asim/asim.cc:496-515 | the index of a link lists exactly the flows whose paths use it |
| AsimSolver.FewRounds | asim/asim.cc:905-955 | rounds for different links are no more than the links |
| AsimSolver.Solver.constructor | asim/asim.cc:490-524 | builds the index of flows per link and adds the short flows' bursts to the rate estimates |
| AsimSolver.Solver.CountFlows | asim/asim.cc:495-504 | counts how often the paths list a link |
| AsimSolver.Solver.IndexLink | asim/asim.cc:493-520 | counts, then stores the flows of one link in order |
| AsimSolver.Solver.Prepare | asim/asim.cc:849-874 | leaves on every link the capacity 1.05 mu less the short flows and the sum of the bulk flows |
| AsimSolver.Solver.Select | asim/asim.cc:884-894 | finds the first link under most pressure, or none |
| AsimSolver.Solver.ScaleLink | asim/asim.cc:907-925 | divides every bulk flow on the link not scaled before by gamma and takes it off all its links, in place |
| AsimSolver.Solver.RunRound | asim/asim.cc:905-931 | one round keeps the books of all links, and the fairness bookkeeping when there was room |
| AsimSolver.Solver.ScaleAll | asim/asim.cc:845-956 | the loop ends after at most one round per link; short flows keep their rates; with positive wishes the new rates fit every link of a bulk flow exactly if the short flows left room there before, and then gamma never rises and the rates are weighted max-min fair |
| AsimSolver.Solver.UpdateHelper | asim/asim.cc:679-696 | adds up the flows on every link, or only those not scaled |
| AsimSolver.Solver.Update | asim/asim.cc:699-722 | moves every rate estimate half way to the load, cut off at 1.1 mu |
| AsimSolver.HalfWay | asim/asim.cc:699-722 | after the first iteration a rate estimate halves its distance to the load, or to 1.1 mu where the load is above that, and comes to rest there and nowhere else |
| AsimSolver.Solver.NewUpdate | asim/asim.cc:845-962 | all of the above at once; when there was room the cut-off never applies to a link of a bulk flow |
| BayReassembly.NextIsFirstMissing | baytcp/tcp-full-bay.cc:1054-1104 | after data segments of one segmentation in any order with duplicates, rcv_nxt_ is the first byte not received; the queue is sorted, beyond it, and holds every received byte not yet delivered |
| BayReassembly.SameBytesSameNext | baytcp/tcp-full-bay.cc:1054-1104 | two arrival orders that cover the same bytes acknowledge the same |
| BayReassembly.AllDelivered | baytcp/tcp-full-bay.cc:1054-1104 | once no hole is left everything is delivered and the queue is empty |
| BayReassembly.ReceiveAgrees | baytcp/tcp-full-bay.cc:801-829 | one more segment keeps all that, whether it is old, in order or early |
| BayReassembly.OldIsWholly | baytcp/tcp-full-bay.cc:801-829 | a segment reaching back before rcv_nxt_ was received before, and trimming drops it whole |
| BayReassembly.SplitSorted | baytcp/tcp-full-bay.cc:1341-1372 | the place where a segment is linked in keeps the queue sorted |
| BayReassembly.TakeOff | baytcp/tcp-full-bay.cc:1379-1403 | draining stops at the first hole: what is left lies strictly beyond rcv_nxt_ and nothing received is lost |
| BayReassembly.StaysFirstMissing | baytcp/tcp-full-bay.cc:801-829 | from any such state, whatever data segment comes next, rcv_nxt_ is the first missing byte afterwards if and only if the segment is old, or early, or meets an empty queue, or starts at rcv_nxt_ and ends where the queue begins or before |
| BayReassembly.PartialTrimOverruns | baytcp/tcp-full-bay.cc:1319-1320 | with [20,30) queued and 5 awaited, [0,10) moves rcv_nxt_ to 15: add takes the untrimmed size from the trimmed start, and bytes 10 to 14 are acknowledged that never came |
| BayReassembly.OverlapMovesBack | baytcp/tcp-full-bay.cc:1379-1403 | three overlapping segments after which rcv_nxt_ is 20 although bytes up to 30 have arrived |
| BayReassembly.FinInOrder | baytcp/tcp-full-bay.cc:1056-1073 | a FIN in order, whether or not old bytes come before it, takes up one sequence number behind its data and closes |
| BayReassembly.FinFromQueue | baytcp/tcp-full-bay.cc:1379-1403 | a FIN that waited for the data before it closes too, but takes up no number: rcv_nxt_ ends one lower than if the same two segments had come in order |
| BayReceiver.ReassemblyQueue.Insert | baytcp/tcp-full-bay.cc:1326-1372 | links a segment into the doubly linked list at the place the specification says |
| BayReceiver.ReassemblyQueue.Drain | baytcp/tcp-full-bay.cc:1379-1403 | unlinks the contiguous run at the head, moves rcv_nxt_ past it and joins its flags |
| BayReceiver.ReassemblyQueue.Add | baytcp/tcp-full-bay.cc:1314-1404 | both together; the end is the start given plus the size of the packet, trimmed or not |
| BayReceiver.ReassemblyQueue.Clear | baytcp/tcp-full-bay.cc:1297-1307 | empties the list and leaves rcv_nxt_ |
| BayReceiver.Agent.Recv | baytcp/tcp-full-bay.cc:801-1113 | trims, takes the in-order path or queues with the untrimmed size, and clears the queue on FIN; rcv_nxt_ and the queue are those of the specification; dupseg is set exactly for data received before, an acknowledgement is delayed exactly for data in order, and otherwise asked for at once unless the data is pushed up |
| Reservation.AllOrNothing | adc/salink.cc:86-132 | over any interleaving, what the messages of an accepted flow have entered on the links adds up to its rate on every link of its path and to nothing elsewhere, and for a flow that is idle to nothing anywhere; no link has either undecided |
| Reservation.LedgerConserved | adc/param-adc.cc:78-96 | in every run, whatever its sources do, the rate reserved on a link is the sum over the flows of what their messages entered there: plus the rate when admitted, minus it when rejected or torn down |
| Reservation.Unanimous | adc/salink.cc:105-110 | a REQUEST arrives with a good decision bit exactly if every link on the path has set the rate aside, and is answered with that bit |
| Reservation.AdmittedIfFits | adc/param-adc.cc:89-96 | in any run a link sets a flow's rate aside if and only if it fits beside what the link has promised to the flows that hold it; the decision bit stays good exactly then, and the program ends only for want of a slot |
| Reservation.QuietBooks | adc/param-adc.cc:78-96 | with no message under way every link has reserved exactly the rates of the accepted flows crossing it, counts them exactly, and has a free table |
| Reservation.NeverOverbooked | adc/param-adc.cc:89-96 | at every moment the reserved rate lies between 0 and utilization times bandwidth |
| Reservation.Reachable | adc/salink.cc:74-141 | in every state of every run the reserved rate of each link is the sum over the flows that hold it there |
| Reservation.TeardownNeedsHolder | adc/salink.cc:127-132 | a TEARDOWN leaves a link with the sum over the other holders exactly if the flow held a reservation there |
| Reservation.QuitTakesFromOthers | adc/sa.cc:136-143 | in whatever run: when a source stops a flow that was not accepted, the first link its TEARDOWN reaches has its rate less reserved than it promised to the flows that hold it |
| Reservation.RefusedThenStopped | adc/sa.cc:136-143 | a run of one flow of rate 2 over a link of limit 1: refused, stopped all the same, and the link has -2 reserved |
| SaLink.ParamAdc.AdmitFlow | adc/param-adc.cc:89-96 | admits exactly what fits and adds it |
| SaLink.ParamAdc.RejAction | adc/param-adc.cc:78-81 | takes a rate back |
| SaLink.ParamAdc.TeardownAction | adc/param-adc.cc:84-87 | takes a rate back |
| SaLink.SaLink.constructor | adc/salink.cc:59-65 | all slots free, the count one below zero |
| SaLink.SaLink.FindSlot | adc/salink.cc:185-192 | the first slot of a flow, or -1 |
| SaLink.SaLink.GetNxt | adc/salink.cc:194-205 | the first free slot, or -1 for a full table, on which the program ends |
| SaLink.SaLink.Recv | adc/salink.cc:74-141 | each message changes the table, the reserved rate, what was entered for the flow and the count, and sets the decision bit, as the protocol model says; a full table ends the program |
| TokenBucket.Conformance | adc/tbf.cc:74-149 | in any run, in no interval are more bits released than the rate earns in it and a bucketful, or the largest packet if that is larger |
| TokenBucket.TimerExact | adc/tbf.cc:126-149 | in any run the timer is pending exactly when packets wait; when it fires the tokens are the head packet's size if and only if that fits the bucket, and what is left is nothing, or negative by the difference; never more than the bucket |
| TokenBucket.InOrder | adc/tbf.cc:74-149 | in any run what is let in leaves in order or is waiting, at most qlen packets |
| TokenBucket.Fate | adc/tbf.cc:74-113 | a packet leaves at the instant it comes if and only if nothing waits and the tokens earned up to the bucket are enough for it; it is dropped only if there is no place in the queue, or if tokens are missing and nothing may wait |
| TokenBucket.TokensExact | adc/tbf.cc:74-149 | in any run the tokens are exactly a bucketful and what was earned less what was released, since whenever that is least: none is spent but on a release, none lost but to a full bucket |
| TokenBucket.ConformingPasses | adc/tbf.cc:74-149 | if in every interval what comes stays within a bucketful and what the rate earns, all of it is released at the very instant it comes, and nothing is ever queued or dropped |
| TokenBucket.OversizeOverdraws | adc/tbf.cc:126-140 | a packet larger than the bucket is released whole at one instant and leaves the tokens negative |
| TokenBucket.Tbf.GetUpdatedTokens | adc/tbf.cc:115-124 | earns the tokens since the last update, up to the bucket |
| TokenBucket.Tbf.Recv | adc/tbf.cc:74-113 | sends, queues or drops a packet as `TokenBucket.Fate` tells, and sets the timer for the first that waits |
| TokenBucket.Tbf.Timeout | adc/tbf.cc:126-149 | sends the head and sets the timer for the next, as the specification |
| RedRouter.OneEquilibrium | asim/asim.h:89-113 | there is at most one drop probability and delay at which an M/M/1 queue settles on the RED curve |
| RedRouter.RedRouter.Populate | asim/asim.h:79-86 | sets the two loads at which dropping starts and reaches MaxP |
| RedRouter.RedRouter.ComputeProbability | asim/asim.h:89-113 | in all three branches returns that point: 0 <= p < 1, delay L(1-p)/(1-L(1-p)) at most MaxTh, on the curve; in the quadratic branch 0 < p <= MaxP and MinTh < delay |
| RedRouter.LargerRoot | asim/asim.h:104-110 | the root taken is positive and solves the quadratic |
| RedRouter.HeavyLoad | asim/asim.h:97-101 | past Lambda_H the probability is at least MaxP and the delay is MaxTh |
| RedRouter.LightLoad | asim/asim.h:92-95 | up to Lambda_L nothing is dropped and the delay is at most MinTh |
| SendBuffer.EveryRun | aodv/aodv_rqueue.cc:51-138 | in every run: in order of time, at most 64 packets, every packet put in is queued or left in exactly one way, and purging anywhere equals purging at the head |
| SendBuffer.OldestForDestination | aodv/aodv_rqueue.cc:107-138 | taking a packet for a destination yields the oldest that has not timed out, and fails only if there is none |
| SendBuffer.OldestOfAll | aodv/aodv_rqueue.cc:89-103 | in any run taking a packet yields the one that has waited longest among those not timed out, fails only if there is none, and keeps the others in order |
| SendBuffer.MakesWay | aodv/aodv_rqueue.cc:51-85 | in any run a new packet is let in as the last; one that has not timed out makes way only if the buffer is full, one at most, and then it is the one that has waited longest |
| SendBuffer.HeadIsEnough | aodv/aodv_rqueue.cc:205-218 | on a queue in order of time the purge that scans everything equals the one that looks at the head only |
| SendBuffer.StepKeeps | aodv/aodv_rqueue.cc:51-138 | order, limit and accounting survive each operation |
| SendBuffer.PurgedUntold | aodv/aodv_rqueue.cc:205-260 | in every run the drop target is told of exactly the packets that made way for others, in order; of those the purge removes it is told nothing, though they are just those the purge it replaced would have told it of |
| SendBuffer.PurgeIsSilent | aodv/aodv_rqueue.cc:233-260 | a packet times out and is purged, and the drop target hears nothing |
| SendBuffer.Evicted | aodv/aodv_rqueue.cc:63-72 | what makes way has not timed out, and a time-out is given as the reason only if it times out at that very moment |
| SendQueue.RQueue.Enque | aodv/aodv_rqueue.cc:51-85 | purges, makes room and tells the drop target of whom and why, stamps the packet and links it in at the tail |
| SendQueue.RQueue.Deque | aodv/aodv_rqueue.cc:89-103 | takes the oldest packet that has not timed out |
| SendQueue.RQueue.DequeFor | aodv/aodv_rqueue.cc:107-138 | unlinks the first packet for a destination from head, tail or middle |
| SendQueue.RQueue.Find | aodv/aodv_rqueue.cc:141-151 | tells whether a packet for a destination waits |
| SendQueue.RQueue.RemoveHead | aodv/aodv_rqueue.cc:160-174 | takes the head off |
| SendQueue.RQueue.FindPacketWithDst | aodv/aodv_rqueue.cc:177-188 | the first packet for a destination and the one before it |
| SendQueue.RQueue.FindAgedPacket | aodv/aodv_rqueue.cc:220-230 | the first packet timed out and the one before it |
| SendQueue.RQueue.Purge | aodv/aodv_rqueue.cc:233-260 | unlinks until no packet has timed out; the rest stays in order, and the drop target is told nothing |
| SendQueue.RQueue.VerifyQueue | aodv/aodv_rqueue.cc:191-203 | the count equals len_ and the last packet is tail_: the assertions never fail |
| McastTable.HashTable.SetHash | classifier/classifier-mcast.cc:166-177 | the new entry becomes the newest of the flat list |
| McastTable.HashTable.Lookup | classifier/classifier-mcast.cc:87-100 | searching one bucket finds what a newest-first search of all entries finds, for one interface or any |
| McastTable.HashTable.LookupStar | classifier/classifier-mcast.cc:102-113 | the same for a search by group |
| McastTable.HashTable.SetIface | classifier/classifier-mcast.cc:259-270 | changes one entry in place and no other |
| McastTable.Classifier.Install | classifier/classifier-mcast.cc:182-202 | an entry goes to the source table or, with source 0, to the group table |
| McastTable.Classifier.ChangeIfaceOf | classifier/classifier-mcast.cc:259-270 | the entry found newest-first gets the new interface, in either table |
| McastTable.Classifier.ClassifyPacket | classifier/classifier-mcast.cc:115-155 | a packet gets the slot of the newest source entry open to its interface, whatever the group table holds; without one, that of the newest group entry open to it; a miss is reported exactly if there is no entry for the pair or the group; else the newest source entry, failing that the newest group entry, decides by accepting any interface or not |
| McastTable.ClassifyRoutes | classifier/classifier-mcast.cc:115-155 | the four searches in that order give exactly this verdict |
| McastTable.OthersUnaffected | classifier/classifier-mcast.cc:166-177 | an entry leaves the answers for other sources and groups alone |
| McastTable.OthersUnchanged | classifier/classifier-mcast.cc:259-270 | so does a change of interface |
| McastTable.ChangedAnswers | classifier/classifier-mcast.cc:259-270 | after a change the entry answers for the new interface unless a newer one does |
| McastTable.NextInShift | classifier/classifier-mcast.h:73-78 | adding an entry shifts every bucket's chain by one place |
| RoundRobin.EachOnce | classifier/classifier-mpath.cc:57-65 | with k occupied slots any k calls in a row return each of them exactly once |
| RoundRobin.TurnsOver | classifier/classifier-mpath.cc:57-65 | at the end of the table the calls start over |
| RoundRobin.MultiPathForwarder.Classify | classifier/classifier-mpath.cc:57-65 | returns the next occupied slot in turn and moves on; a stale position beyond the end is skipped |
| RoundRobin.MultiPathForwarder.ClassifyAll | classifier/classifier-mpath.cc:57-65 | as many calls as there are occupied slots return each once |
| RoundRobin.MultiPathForwarder.Alloc | classifier/classifier.cc:79-101 | grows by doubling and keeps what was there |
| RoundRobin.MultiPathForwarder.Install | classifier/classifier.cc:104-110 | sets one slot; maxslot_ stays the last occupied slot exactly if a target is installed or the slot lies below it |
| RoundRobin.MultiPathForwarder.Clear | classifier/classifier.cc:113-120 | empties one slot and finds the last occupied one again |
| RoundRobin.MultiPathForwarder.InstallNext | classifier/classifier.cc:185-189 | puts a target behind the last occupied slot |

## Left out

- AODV local repair (`local_rt_repair`, `LocalRepairTimer`): modelled with AODV_LOCAL_REPAIR compiled out; the timer takes a route down without raising its number, which the ordering argument does not cover.
- AOMDV's link-disjoint variant and link-layer detection: not part of the configuration that is shipped (aomdv/aomdv.h:106, 118). `rt_ll_failed` then only drops.
- AOMDV's `rt_hops`: never initialised in the repository; INFINITY and INFINITY2 are one value above every hop count.
- Wrap-around of sequence numbers, broadcast ids and hop counts, and the fixed number of destinations in a RERR packet: naturals and sequences are used instead.
- Data packets themselves: one appears as the event that resolves a route, or as a record of what the interface queue holds for a lost neighbour; which destinations the send buffer holds packets for is an input of the handlers.
- Per-hop latency measurement and jitter: measured latencies are an input of the handlers; delays are covered by packets being receivable at any later time.
- Timers of AODV and AOMDV: each is an event that may happen at any time; the walk of `nb_purge` is one such event for each neighbour that has expired.
- Freeing of memory: an element unlinked from a list is not reused.
- BsdList.List.InsertAfter: only behind the last element, where AOMDV uses the macro; imep's use of it in the middle of a list is not modelled.
- Addressing of replies: a reply may be received by any node, which includes the one it was sent to.
- AomdvDisjoint.OneReplyPerNode: assumes that no record of the discovery is lost to an id purge; after a purge the same request may be heard anew and answered again.
- BayTCP's sender and connection state machine: the base class in tcp.h is not part of this model; segments carry no SYN or RST here, and acknowledgements are not produced.
- BayReassembly.NextIsFirstMissing: for segments without FIN of one segmentation; FIN is handled by the model, but the theorem is about data. For a segment that overlaps others, `BayReassembly.StaysFirstMissing` gives the exact condition, one step from a state of one segmentation.
- BayReceiver.ReassemblyQueue.Drain: the link past a predecessor of the head, which cannot exist there, is not modelled.
- Measurement-based admission control, the other ADC classes and `SA_Agent`: Param_ADC is the one whose decisions are a running sum.
- Reservation.Reachable: for runs in which no source stops a flow that was not accepted; what happens otherwise is `Reservation.QuitTakesFromOthers`. A REQUEST that meets a full table ends the program, and the run with it.
- asim's input parser, queueing formulas with `pow`, `Update2`, `Update3` and `redFn`: not on the path of `newupdate`; the products slambda * snopkts are an input of the constructor.
- RedRouter.RedRouter.ComputeProbability: the square root is an argument that the caller must supply for the quadratic branch.
- The AOMDV send buffer (aomdv/aomdv_rqueue.cc): the same code as AODV's.
- `clearAll` of the multicast classifier, `getnxt` of the slot table, and the Tcl callbacks on a cache miss or wrong interface.
- RoundRobin.MultiPathForwarder.Classify: with no slot occupied the source divides by zero; at least one is required.
- Floating-point rounding everywhere.
- Tcl `command` methods, bindings, packet headers, tracing and logging.
