# DeepNF: a model of parallel network functions and their merger

DeepNF turns ordering constraints on network functions (NFs) into a service
graph, runs the NFs on copies of each packet where it can, and merges the
copies back into one packet. This project models that path from the
constraints to the merged packet, and the addressing that connects the pieces,
and proves what the design is for: that the merged packet is the one the NFs
would have produced one after the other. Where the code does not meet that,
the project says exactly when it does.

`dafny verify dfyconfig.toml` checks everything.

## How it is organised

| files | what they model |
|---|---|
| `Packets`, `MergeSpec`, `LoopEnds` | packets as fields with a written set; the merge as functions on a map from node ids to packets; for which conflict lists its loop ends |
| `Provenance`, `Conservation` | which leaf a field's value comes from; what is kept and what is lost |
| `MergeForest`, `NetworkFunctions`, `ServiceForest`, `HiddenWrites` | the rewriting loop against a recursive tree merge; functions with read and write sets; the merge against running the functions in sequence, and exactly when the two agree |
| `PacketBuffer`, `ActionTable`, `MergerOperator` | byte buffers, the action table and the merger as objects that are changed in place, proved against `MergeSpec` |
| `MergeProtocol`, `Liveness` | the merger's threads as a transition system over every interleaving; which services' packets can be merged at all, and whether the loop ends |
| `Parallelism`, `GraphPaths`, `ServiceGraph`, `Orchestrator`, `Construction` | the parallelizability check, the service graph, the orchestrator as an object, and its graph and recorded pairs told from the constraints alone |
| `FlatService`, `FlatBoundary`, `OrchestratedForest`, `ForkedService` | orchestrator and merger together: services of one level with their exact boundary, services whose graph is a forest, the repository's example input, services with two leaves whose paths part further up |
| `AddressText`, `Forwarder` | numbers and addresses as text; the forwarder's table |
| `MachineConfig`, `ConfigMessages`, `MachineSetup`, `Configure`, `Routing`, `Deployment` | machine descriptions and their messages, placement, address computation on every machine, end-to-end routing, and all of it run from the orchestrator's graph |

Packet values are generic: with byte sequences for values a packet is real,
with leaf ids for values the same merge function computes which leaf each
field comes from. That second reading is what makes the proof about shared
buffers possible: every live packet in `MergerOperator` is described by the
leaves that supply its fields, and live packets never share a leaf.

A service is a forest whose nodes are functions: a leaf sends its copy to the
merger, a node with two branches is collapsed by the conflict items that name
it as parent, and a link of a chain is a node with one branch, which no item
names. The merged packet of a tree stands at the nearest node below its links.

An NF is any function on packets that keeps to a profile: it leaves unwritten
fields alone, drops only if it may drop, and what it writes and whether it
drops depend on the fields it reads only. A written field counts as read,
since an NF may leave it as it was. A real packet is one that some buffer
decodes to (`DecodedExactly`); the exact results below quantify over real
packets and over NFs that make real packets of them, and what fails is shown
to fail for such a packet and such NFs.

## What the proofs found

- Insertion into the map of live packets does not overwrite
  (src/runtime/merger/MergerOperator.cpp:274). Flat services, where all
  branches have the same parent, therefore lose merges from four branches on:
  `FlatServiceLosses`, and for the orchestrator's own lists
  `OrchestratedLosses`.
- With three branches a write can be hidden by the first function's writes to
  the same field; `ThirdBranchExactly` says when.
- Together, for branches that the check admits with each other in the order in
  which they would run: for every list the orchestrator may produce, all
  functions within their rows and every real packet, a flat service merges to
  its sequential run if and only if no branch writes at all, or it has at most
  three branches, no field is written by two of them, and no write is hidden
  (`FlatServiceExactly`).
- A function's writes count as written only if the function is a leaf or a
  conflict item names it as parent. The writes of a chain's links are hidden:
  the merged packet carries them and does not count them. They survive only
  where that packet never gives way to another. `MergedServiceExactly` is the
  exact condition for forests: for every order of the list, all functions
  within their rows and every real packet, the merge is the sequential run if and
  only if no branch that some item lets give way hides a write, and no tree but
  the one with the smallest key does. In a forest every order of the list is
  one the orchestrator may produce (`AnyOrderListed`, `ForestServiceExactly`).
- That reaches ordinary inputs. With the order constraint proxy before
  dnf_loadbalancer, which rules out a parallel run, beside the priority
  compressor over dnf_firewall, the proxy's new destination is lost for every
  packet (`OrchestrateChainInput`, `ChainInputLosesRewrite`); what decides is
  whether the load balancer has a smaller id than the packet generator
  (`BesideExactly`). The repository's own two-level example is not affected
  (`OrchestrateComplexInput`, `ComplexInputIsSequential`).
- `isParallelizable` admits pairs that write the same field. For those, and
  only for those, the merged packet can differ from the sequential one
  (`AdmittedPairsMergeSequentially`). Which of two such branches wins is left
  to the order of a hash map: the one named first always does if and only if
  the check does not admit the pair the other way round
  (`FirstNamedWinsExactly`). The shipped table has a pair that it admits both
  ways, compressor and CiscoIOS (`AdmittedBothWays`).
- An order constraint chain beside a branch of the same root, as in r before a
  before c with r before b, gives c and b items at different parents, a and r.
  The merge always is the sequential run if and
  only if a writes nothing that c does not write, or b is not admitted beside
  c (`ForkedServiceExactly`).
- The merger waits for every node without neighbours, and a function that no
  constraint names is one that nothing is sent from. So with a first function
  and acyclic order constraints the merger can merge a packet if and only if every function is named by a constraint, or is the
  first one, or the last one of a service with some constraint
  (`CanMergeExactly`).
- The size test outside the critical section allows several merges of one
  packet id, up to one for each leaf (`EveryLeafSpawns`): every complete set
  has exactly one merge in every run if and only if the test is inside, or
  there is at most one leaf (`ExactlyOnceExactly`). The later merges look the
  id up again and crash, or merge an incomplete set of a newer packet
  (`SecondMergeGoesWrong`).
- With a last function the merger has a single leaf and the conflict list is
  never used (`OnlyLastIsLeaf`, `SoleLeafPassesThrough`).
- Without any constraint the first and the last function are not connected
  (`ServiceGraphShape`).
- A conflict item of a node with itself and its own parent makes the loop run
  forever (`SelfConflictNeverSettles`, `SelfItemSettlesExactly`). A list lets
  the loop end for all packets if and only if it does not move a lone packet
  for ever, which as many passes as the list is long decide
  (`LoopEndsExactly`). Lists of acyclic graphs never do, even with constraints
  of a function with itself (`OrchestratedLoopEnds`), nor do lists with major
  and minor distinct (`UpwardListsEnd`), for which alone the merge itself is
  modelled.
- `findAllLeaves` keeps no set of visited nodes. Its depth is bounded if and
  only if ranks fall along every edge below the root (`SearchEndsExactly`); on
  a cycle there it never ends (`CycleNeverEnds`).
- The comment at src/runtime/merger/MergerOperator.cpp:281 says that no
  conflicts are left for the final fold. No listed conflict is left
  (`LoopIsFixpoint`), but unlisted ones may be, and lost merges are not seen.

## Model

| member | source | states |
|---|---|---|
| `Packets.OverlayAssociative` | src/runtime/merger/MergerOperator.cpp:151-207 | Three packets merge to the same packet and the same written set however they are bracketed. |
| `Packets.OverlayCommutes` | src/runtime/merger/MergerOperator.cpp:151-207 | Copies of one packet whose writers touched different fields merge the same way in both orders of precedence. |
| `Packets.OverlayConflict` | src/runtime/merger/MergerOperator.cpp:178-197 | On a field both have written the major's value stays, and the two orders agree only if both wrote the same value. |
| `Packets.OverlayKeepsNull` | src/runtime/merger/MergerOperator.cpp:175-202 | Merging non-null packets never makes or unmakes a null packet. |
| `MergeSpec.LoopIsFixpoint` | src/runtime/merger/MergerOperator.cpp:239-279 | When the loop ends no conflict item has both members present, and one more pass changes nothing. |
| `MergeSpec.PacketsAccountedFor` | src/runtime/merger/MergerOperator.cpp:239-279 | n packets are those left, one fewer for each item fired and one fewer for each merge lost; so n leaves fire at most n - 1 items. |
| `MergeSpec.SelfConflictNeverSettles` | src/runtime/merger/MergerOperator.cpp:241-279 | An item of a node with itself that stands at its own parent fires in every pass and never changes the set of nodes: the reason lists are assumed to have major and minor distinct. |
| `MergeSpec.SelfItemSettlesExactly` | src/runtime/merger/MergerOperator.cpp:241-279 | For a list of one item of a node with itself: some pass is the last to collapse anything if and only if the parent is another node or the node has no packet. |
| `LoopEnds.LoopEndsExactly` | src/runtime/merger/MergerOperator.cpp:239-279 | For any list, items of a node with itself included: the loop ends for every set of packets if and only if from each major a lone packet comes to rest within as many passes as the list is long. |
| `LoopEnds.UpwardListsEnd` | src/runtime/merger/MergerOperator.cpp:239-279 | It ends for every list whose items of a node with itself stand at a parent of higher rank, and for every list without such items. |
| `Liveness.OrchestratedLoopEnds` | src/setup/Orchestrator.cpp:473-512 | It ends for every list the orchestrator may produce from an acyclic graph, constraints of a function with itself included. |
| `MergeSpec.DropTheorem` | src/runtime/merger/MergerOperator.cpp:217-305 | For every list with major and minor distinct, the merge is a drop exactly when some leaf packet was null, lost merges included; otherwise it is the merge without null checks. |
| `MergeSpec.LoopWritesWithin` | src/runtime/merger/MergerOperator.cpp:262-269 | Written sets that start within a set of fields stay within it if the action table does. |
| `Provenance.MergeNatural` | src/runtime/merger/MergerOperator.cpp:217-305 | Which leaf supplies which field of the result depends on the list and the written sets alone, not on the packets. |
| `Conservation.WrittenConserved` | src/runtime/merger/MergerOperator.cpp:262-274 | If no merge is lost, the final written set is the union of all leaves' and all fired parents' write sets. |
| `Conservation.SoleWriteConserved` | src/runtime/merger/MergerOperator.cpp:200-202 | If no merge is lost, a field that one leaf alone writes, and no fired parent, ends with that leaf's value. |
| `Conservation.FoldOrderIsFree` | src/runtime/merger/MergerOperator.cpp:281-297 | Copies of one packet whose writers touched different fields: folding them in any order, repetitions included, gives the packet and the written set that folding in ascending id gives. |
| `Conservation.FlatServiceLosses` | src/runtime/merger/MergerOperator.cpp:271-274 | With all pairs of n leaves listed under one parent, in any order and direction, the loop loses n/2 - 1 merges: none exactly when n is at most 3. |
| `Conservation.FourLeavesLoseTwo` | src/runtime/merger/MergerOperator.cpp:274 | With four leaves and a list that begins with two disjoint pairs, the second pair's packets vanish whatever they wrote. |
| `MergeForest.LoopIsForestMerge` | src/runtime/merger/MergerOperator.cpp:239-279 | For a conflict list made for a forest, the rewriting loop leaves exactly one packet for each tree, at the nearest node below its links, with the recursive merge of the tree, and loses nothing. |
| `MergeForest.Confluence` | src/runtime/merger/MergerOperator.cpp:241-279 | Two lists made for the same forest give the same merged packet; an independent pair may be listed in either or both directions. |
| `MergeForest.PermutedForestList` | src/runtime/merger/MergerOperator.cpp:237-243 | Every permutation of a list made for a forest is made for it too, so order never matters. |
| `NetworkFunctions.ParallelEqualsSequential` | src/runtime/merger/MergerOperator.cpp:151-207 | Functions that keep to their read and write sets, the first writing nothing the second reads: merging their two copies, in either precedence, gives the second after the first. |
| `NetworkFunctions.AlwaysParallelExactly` | src/runtime/merger/MergerOperator.cpp:151-207 | For all behaviours that make real packets of real packets, and every real packet, merging equals running in sequence if and only if the profiles are harmless to each other. |
| `NetworkFunctions.ThenRespects` | src/runtime/merger/ActionTable.cpp:10-30 | Running one function after the other keeps to their two profiles together. |
| `ServiceForest.TreeMergeIsSequential` | src/runtime/merger/MergerOperator.cpp:217-305 | For a tree of functions: some leaf copy is null exactly if the sequential run drops the packet; the recursive merge of the copies counts as written the leaves' and branching nodes' writes; and it is the sequential run's packet if no branch that gives way hides a write. |
| `ServiceForest.ForestRun` | src/runtime/merger/MergerOperator.cpp:281-297 | An independent forest run in sequence drops exactly when some leaf copy is dropped, and otherwise gives each field the value of the one tree that writes it. |
| `ServiceForest.FoldIsForestRun` | src/runtime/merger/MergerOperator.cpp:281-297 | The final fold in ascending node id puts the trees together as the sequential run would, if only the first of them hides writes. |
| `ServiceForest.MergedServiceIsSequential` | src/runtime/merger/MergerOperator.cpp:217-305 | For every forest of independent functions, chains included, and every list that covers its branchings and under which no write is hidden where it could be lost, the merger sends on exactly what the functions make of the packet in sequence, drops included. |
| `HiddenWrites.UpwardsPass` | src/runtime/merger/MergerOperator.cpp:243-274 | With the items of a tree listed from the leaves up, one pass replaces the tree's leaves by its recursive merge and touches nothing else. |
| `HiddenWrites.HiddenWriteIsLost` | src/runtime/merger/MergerOperator.cpp:262-297 | If a write is hidden where it can be lost, some order of the list, and some function that alone changes the field, give a merged packet with the old value, whatever the function writes and whatever packet is sent. |
| `HiddenWrites.MergedServiceExactly` | src/runtime/merger/MergerOperator.cpp:217-305 | Main result of the merger: for every order of the list, all functions within their rows and every real packet, the merge is the sequential run, if and only if no branch that gives way hides a write and no tree but the one with the smallest key does. |
| `PacketBuffer.NetworkRoundTrip` | src/runtime/packet.cpp:23-27 | Ports and ids survive network order modulo 2^16. |
| `PacketBuffer.NetworkOrder` | src/runtime/packet.cpp:23-27 | Numbers are in the order of their first byte, then of their second: the more significant byte comes first. |
| `PacketBuffer.FrameRoundTrip` | src/runtime/packet.cpp:14-56 | A frame built from fields decodes to those fields, the payload up to its first NUL. |
| `PacketBuffer.FrameBytes` | src/runtime/packet.cpp:14-42 | Every byte of the frame by its position: type, length, id, protocol, addresses, ports and payload, and zero everywhere else. |
| `PacketBuffer.DecodedExactly` | src/runtime/packet.cpp:14-56 | The well-formed packets are exactly those that some buffer decodes to. |
| `PacketBuffer.PatchDecode` | src/runtime/packet.cpp:123-129 | Overwriting one header field's bytes changes that field of the decoded packet and no other. |
| `PacketBuffer.Packet.FromFields` | src/runtime/packet.cpp:14-42 | The new buffer's bytes, and what it decodes to. |
| `PacketBuffer.Packet.GetSrcPort` | src/runtime/packet.cpp:101-103 | The number whose high byte is byte 34 and whose low byte is byte 35, which is the one whose network form is the stored source port. |
| `PacketBuffer.Packet.GetPayload` | src/runtime/packet.cpp:114-116 | The payload, which never contains a NUL. |
| `PacketBuffer.Packet.CheckNull` | src/runtime/packet.cpp:63-68 | True exactly when bytes 26 to 29 and 34 to 35, source address and source port, are zero. |
| `PacketBuffer.Packet.Nullify` | src/runtime/packet.cpp:70-74 | Makes bytes 26 to 29 and 34 to 35 zero and leaves every other byte alone; the packet is then null. |
| `PacketBuffer.Packet.WriteDestIp` | src/runtime/packet.cpp:123-125 | Bytes 30 to 33 become the address, no other byte and no other field changes. |
| `PacketBuffer.Packet.WriteDestPort` | src/runtime/packet.cpp:127-129 | Bytes 36 and 37, high byte first, become the port modulo 2^16; no other byte changes. |
| `PacketBuffer.Packet.WritePayload` | src/runtime/packet.cpp:131-145 | The packet moves to a fresh buffer with the new payload and keeps addresses, ports and id; the old buffer is not touched. |
| `ActionTable.ActionTable.constructor` | src/runtime/merger/ActionTable.cpp:10-22 | The table filled entry by entry holds the write set of every function. |
| `ActionTable.ActionTable.GetWriteFields` | src/runtime/merger/ActionTable.cpp:28-30 | Every function has an entry, within the mergeable fields. |
| `ActionTable.MergedFieldsAreMergeable` | src/runtime/merger/MergerOperator.cpp:180-196 | No packet ever counts as written outside destination address, destination port and payload, so the switch never takes its default branch. |
| `MergerOperator.ResolvePacketConflict` | src/runtime/merger/MergerOperator.cpp:151-207 | In place on the major's buffer: null if either was null; otherwise the overlay of the two, the major's buffer having taken only fields that the minor alone has written. |
| `MergerOperator.MergerOperator.PacketMapToPacketInfoMap` | src/runtime/merger/MergerOperator.cpp:351-386 | One entry for each stored packet with its function's write set; gives up exactly when a packet comes from an unknown node. |
| `MergerOperator.MergerOperator.CollapsePass` | src/runtime/merger/MergerOperator.cpp:243-278 | One pass over shared buffers does what one pass over copies would; the change flag is set exactly when the number of live packets went down; live packets never share a buffer. |
| `MergerOperator.MergerOperator.CollapseConflicts` | src/runtime/merger/MergerOperator.cpp:239-279 | The loop over shared buffers ends and computes the loop over copies, or returns a null packet because some stored packet was null. |
| `MergerOperator.MergerOperator.FoldPackets` | src/runtime/merger/MergerOperator.cpp:281-297 | The final fold over shared buffers computes the fold over copies. |
| `MergerOperator.MergerOperator.MergePacket` | src/runtime/merger/MergerOperator.cpp:217-305 | Aliasing is harmless: the packet returned is the merge of the stored packets as they were on entry. Replay: merging the stored packets again, as they are on exit, gives the same outcome. |
| `MergerOperator.CollapseKeepsLive` | src/runtime/merger/MergerOperator.cpp:271-274 | Replacing a pair by its merge keeps all live packets on buffers, and with leaves, of their own. |
| `MergeProtocol.SpawnedOnlyWhenComplete` | src/runtime/merger/MergerOperator.cpp:104-139 | In every interleaving a merge is spawned only for a complete set of its id, and once nobody has a complete set still to test, it has had a merge. |
| `MergeProtocol.SpawnedForReceivedPackets` | src/runtime/merger/MergerOperator.cpp:115-137 | What a merge is spawned for was received from every leaf under that id in that run. |
| `MergeProtocol.FirstPacketStays` | src/runtime/merger/MergerOperator.cpp:116-122 | The packet stored for a leaf under an id is the first one inserted there, whatever the leaf sends later and whatever steps follow. |
| `MergeProtocol.TestIgnoresPacketMap` | src/runtime/merger/MergerOperator.cpp:121-126 | A leaf tests the set it has stored its packet in, complete or not, even if the id has been erased or given to another set since. |
| `MergeProtocol.ExactlyOnceIfLocked` | src/runtime/merger/MergerOperator.cpp:116-138 | With the size test inside the critical section and no duplicate deliveries: exactly one merge for each complete set, no crash, each merge finding its own set. |
| `MergeProtocol.SpawnsAsWritten` | src/runtime/merger/MergerOperator.cpp:126-138 | With the test outside, as written, and no duplicates: between one merge and one for each leaf for a complete set, none for an incomplete one. |
| `MergeProtocol.EveryLeafSpawns` | src/runtime/merger/MergerOperator.cpp:126-138 | For any set of leaves, a run without duplicates in which one complete set gets a merge from every leaf: the upper bound is attained. |
| `MergeProtocol.ExactlyOnceExactly` | src/runtime/merger/MergerOperator.cpp:116-138 | In every run without duplicates every complete set that nobody is still to test has exactly one merge, if and only if the size test is inside the critical section or there is at most one leaf. |
| `MergeProtocol.SecondMergeGoesWrong` | src/runtime/merger/MergerOperator.cpp:131-138 | A concrete run in which two merges are spawned for one set; the second crashes, or merges an incomplete set of a later packet with the same id. |
| `Liveness.MergesExactly` | src/runtime/merger/MergerOperator.cpp:126-138 | Some run spawns a merge, the senders alone sending, if and only if every leaf the merger waits for is a sender. |
| `Liveness.CanMergeExactly` | src/setup/Orchestrator.cpp:255-263 | The merger can merge a packet of a service if and only if every function is named by a constraint, or is the first one, or the last one of a service with some constraint. |
| `Parallelism.IsParallelizable` | src/setup/Orchestrator.cpp:400-431 | The loop with its early exits answers whether no cell of the first row rules the second out, and on success collects exactly the conflicting fields in order. |
| `Parallelism.ProfileByCells` | src/setup/Orchestrator.cpp:404-424 | What a well-formed row reads, writes, drops and resizes, from its cells: a mark other than null, one other than null and R, a T under Drop, a T under Add/Rm. |
| `Parallelism.CheckByProfiles` | src/setup/Orchestrator.cpp:400-431 | For well-formed rows: allowed if and only if the first neither drops nor resizes and whatever it writes that the second reads, the second writes too. |
| `Parallelism.ConflictsByProfiles` | src/setup/Orchestrator.cpp:418-424 | A field is reported as conflicting exactly when the first touches it and the second writes it. |
| `Parallelism.AdmittedPairsMergeSequentially` | src/setup/Orchestrator.cpp:400-431 | For a pair the check admits: merging equals running in sequence for all functions within their rows and every real packet if and only if no field is written by both. |
| `Parallelism.SharedWriteKeepsMajor` | src/runtime/merger/MergerOperator.cpp:178-197 | On a field both write, one merge carries the value of the major packet. |
| `Parallelism.AdmittedBothWays` | inputs/action_table.json:11-17 | compressor and CiscoIOS both write the payload and are admitted with each other both ways. |
| `Parallelism.TablesAgree` | inputs/action_table.json:14-17 | The orchestrator's rows for the runtime's functions are well formed and have the merger's write sets. |
| `GraphPaths.SearchEndsExactly` | src/setup/Orchestrator.cpp:436-445 | The depth of a search along all edges from a node is bounded if and only if ranks can be given that fall along every edge it reaches. |
| `GraphPaths.CycleNeverEnds` | src/setup/Orchestrator.cpp:436-445 | With a cycle below the node no depth is enough. |
| `GraphPaths.LeavesStep` | src/setup/Orchestrator.cpp:436-445 | The leaves below a node are those below its neighbours, or the node itself if it has none. |
| `GraphPaths.SomeLeafBelow` | src/setup/Orchestrator.cpp:436-445 | In an acyclic graph every node leads to at least one leaf. |
| `ServiceGraph.ServiceGraphAcyclic` | src/setup/Orchestrator.cpp:86-180 | The finished graph is acyclic if the order constraints are and first and last are distinct and unnamed in them. |
| `ServiceGraph.ReachedFromFirst` | src/setup/Orchestrator.cpp:155-165 | Every function that a constraint names can be reached from the first one. |
| `ServiceGraph.ReachesLast` | src/setup/Orchestrator.cpp:167-179 | Every function that a constraint names reaches the last one. |
| `ServiceGraph.ServiceGraphShape` | src/setup/Orchestrator.cpp:86-180 | With some constraint: every node lies between first and last and the last is the only leaf. Without any: first and last are not connected. |
| `Orchestrator.Orchestrator.ParseOrderDependencies` | src/setup/Orchestrator.cpp:321-338 | The constraints split, in order, into those that allow parallel runs and those that do not; exactly the former that conflict are recorded, with the fields they conflict on. |
| `Orchestrator.Orchestrator.ParsePriorityDependencies` | src/setup/Orchestrator.cpp:301-316 | Exactly the priorities that allow parallel runs are kept, in order, and recorded with their conflicting fields if there are any. |
| `Orchestrator.Orchestrator.CheckLevelParallelizability` | src/setup/Orchestrator.cpp:448-471 | Exactly the ordered pairs of distinct functions of the level that allow parallel runs are added, each with the fields it conflicts on. |
| `Orchestrator.Orchestrator.AddEdge` | src/setup/ServiceGraphNode.cpp:25-31 | One edge more, and b is a neighbour of a exactly when a is a parent of b, as before. |
| `Orchestrator.Orchestrator.FindAllLeaves` | src/setup/Orchestrator.cpp:436-445 | Without a visited set the search ends on every graph without a cycle that the root reaches, and adds exactly the reachable nodes without neighbours. |
| `Orchestrator.Orchestrator.BuildGraph` | src/setup/Orchestrator.cpp:77-180 | The graph's edges are the order constraints and, if the positional entries are heeded, those from the first and to the last function; the pairs added are those on one level. |
| `Orchestrator.Orchestrator.constructor` | src/setup/Orchestrator.cpp:52-183 | From the constraints to the finished graph, the recorded pairs and the placement. |
| `Construction.Construct` | src/setup/Orchestrator.cpp:52-180 | From constraints and positional entries: the edges are the blocked order constraints, those from the first function to the roots and kept functions, and those from kept functions and leaves to the last, and no others; entries count exactly if there is one, or two for different places. A pair is recorded exactly if it may run in parallel and is either a listed constraint with a conflicting field, or both functions are in kept constraints, or one root reaches both and neither has an edge out. |
| `Construction.OrchestrateBetween` | src/setup/Orchestrator.cpp:142-180 | With a first and a last entry, in either order: every function that a counting constraint names is reached from the first and reaches the last, the last alone has no edge out, and the first one's neighbours are the roots and the kept functions. |
| `Construction.OrchestrateTwoTrees` | src/setup/Orchestrator.cpp:122-140 | Two blocked order constraints without a common function give an empty conflict list: leaves of different trees are not paired. |
| `Construction.WithoutParent` | src/setup/Orchestrator.cpp:480-486 | A pair whose major has no parent is listed at -1. |
| `Orchestrator.Orchestrator.CreateConflictsList` | src/setup/Orchestrator.cpp:473-512 | One item for each recorded pair and none twice, with the ids of major and minor and of a parent of the major; the items of one major stand together and have the same parent. |
| `Orchestrator.Orchestrator.LeafPorts` | src/setup/Orchestrator.cpp:254-263 | Exactly the nodes without neighbours have a port, 8001 above their id, and it leads back to the id. |
| `Orchestrator.Orchestrator.RoundRobinPartitioning` | src/setup/Orchestrator.cpp:284-290 | The running index places each function by its position modulo the number of machines. |
| `Orchestrator.PlacedWhenNamed` | src/setup/Orchestrator.cpp:284-290 | Every function has a machine: the one whose turn it was when its name last came up. |
| `Orchestrator.RoundRobinIsBalanced` | src/setup/Orchestrator.cpp:284-290 | Of m different functions on n machines, machine j gets m / n and one more if j is below m % n. |
| `FlatService.OrchestrateFlat` | src/setup/Orchestrator.cpp:52-267 | Constraints whose order constraints all allow parallel runs, with a first function, make a service of parallel branches with exactly the admitted pairs recorded, and the conflict list that goes with them. |
| `FlatService.OrchestratedListIsFlat` | src/setup/Orchestrator.cpp:473-512 | The conflict list for such a service pairs up all branches, with the first function as the one parent. |
| `FlatService.OrchestratedLosses` | src/setup/Orchestrator.cpp:473-512 | The orchestrator's own list makes the merger lose n/2 - 1 merges for n mutually parallel branches: none exactly up to three. |
| `FlatService.FirstItemDecides` | src/runtime/merger/MergerOperator.cpp:241-279 | With two or three branches the first item on the list fires and no other does. |
| `FlatService.ThirdBranchExactly` | src/runtime/merger/MergerOperator.cpp:262-297 | Of three branches' copies of one packet, one's sole write of a field arrives for every list, all copies and every real packet if and only if the first function does not write that field or the branch has the smaller id. |
| `FlatBoundary.SilentBranches` | src/runtime/merger/MergerOperator.cpp:217-305 | However many branches there are and whatever merges are lost: if no branch writes anything, the merge is the sequential run, drops included. |
| `FlatBoundary.PairLost` | src/runtime/merger/MergerOperator.cpp:271-274 | If the list begins with two disjoint pairs at one parent, the second pair's packets leave no trace: whatever all other packets have in common that merging keeps, the merged packet has. |
| `FlatBoundary.AnyGroupedList` | src/setup/Orchestrator.cpp:473-512 | Every sequence of the recorded pairs that keeps the pairs of a major together is one the orchestrator may list. |
| `FlatBoundary.FlatServiceExactly` | src/setup/Orchestrator.cpp:400-512 | The exact boundary for branches admitted in the order in which they would run: for every list the orchestrator may produce, all functions within their rows and every real packet, the merge is the sequential run if and only if no branch writes, or there are at most three branches, no field is written by two of them, and none of their writes is hidden by the first function's. |
| `FlatBoundary.FirstNamedWinsExactly` | src/setup/Orchestrator.cpp:448-512 | On a field that both of two branches write, the value of the one named first arrives for every list the orchestrator may produce, all functions and every real packet that neither drops, if and only if the check does not admit the pair the other way round. |
| `FlatService.OnlyLastIsLeaf` | src/setup/Orchestrator.cpp:167-180 | With a last function and some constraint, the last function is the only node the merger listens for. |
| `FlatService.SoleLeafPassesThrough` | src/runtime/merger/MergerOperator.cpp:217-305 | With one leaf the merger sends on each packet as it is, whatever the conflict list. |
| `FlatService.UnlistedBranches` | src/runtime/merger/MergerOperator.cpp:281-297 | Two leaf packets without an item: a field that counts as written in neither comes from the leaf with the smaller id. |
| `OrchestratedForest.OrchestratedListFor` | src/setup/Orchestrator.cpp:473-512 | If the recorded pairs are between the branches of a forest's nodes, with the node as the major's one parent, and every node has such a pair, then every list the orchestrator may produce is a list for the forest. |
| `OrchestratedForest.ForestServiceIsSequential` | src/setup/Orchestrator.cpp:473-512 | Then, without chains, what the merger sends on for every such list is the sequential run. |
| `OrchestratedForest.AnyOrderListed` | src/setup/Orchestrator.cpp:473-512 | For a forest every order of a list is one the orchestrator may produce. |
| `OrchestratedForest.ForestServiceExactly` | src/setup/Orchestrator.cpp:473-512 | With chains: for every list the orchestrator may produce, all functions within their rows and every real packet, the merge is the sequential run if and only if no write is hidden where it could be lost. |
| `OrchestratedForest.HiddenBehindFirst` | src/runtime/merger/MergerOperator.cpp:281-297 | A write that a tree hides is lost for every list, all functions and every packet that is not dropped, if another tree comes before it in the fold. |
| `OrchestratedForest.OrchestrateStar` | src/setup/Orchestrator.cpp:52-267 | Order constraints of one function with others, none of which allows a parallel run, and priorities that all do, make a graph of two levels with exactly the pairs of each level recorded, and a conflict list for it. |
| `OrchestratedForest.TwoLevelFits` | src/setup/Orchestrator.cpp:94-165 | Such a service with two functions below and one beside is a tree of two levels. |
| `OrchestratedForest.BesideFits` | src/setup/Orchestrator.cpp:94-165 | Such a service with one function below, beside a pair of priorities, is a pair and a chain. |
| `OrchestratedForest.BesideExactly` | src/runtime/merger/MergerOperator.cpp:262-297 | For that service, with a first function that passes packets on: the merge always is the sequential run if and only if the chain's first function writes nothing that its second does not, or the second has a smaller id than the service's first function. |
| `OrchestratedForest.ShippedPairs` | inputs/action_table.json:14-17 | Which pairs of the shipped functions the check admits and which it does not. |
| `OrchestratedForest.OrchestrateComplexInput` | inputs/input_complex.json:1-10 | The example input with two order constraints and a priority gives a list for its tree of two levels. |
| `OrchestratedForest.ComplexInputIsSequential` | inputs/input_complex.json:1-10 | Whatever its functions do within their rows, the merged packet is that of the sequential run. |
| `OrchestratedForest.OrchestrateChainInput` | src/setup/Orchestrator.cpp:321-338 | Proxy before load balancer, beside compressor over firewall: the list is one for a pair and a chain. |
| `OrchestratedForest.ChainInputLosesRewrite` | src/runtime/merger/MergerOperator.cpp:262-297 | For every list of that service, all functions within their rows and every packet that is not dropped, the merged packet has the destination the packet was sent with, and the sequential run the one the proxy wrote. |
| `ForkedService.ForkExactly` | src/setup/Orchestrator.cpp:473-512 | Two leaves at the ends of two paths, each listed at its own parent: for every list the orchestrator may produce, all functions within their rows and every real packet, the merge is the sequential run if and only if no path that gives way in an admitted direction hides a write. |
| `ForkedService.OrchestrateFork` | src/setup/Orchestrator.cpp:52-267 | Order constraints r before a, a before c and r before b, none of which allows a parallel run, make that graph, with the pairs of c and b recorded, and a conflict list for it. |
| `ForkedService.ForkedServiceExactly` | src/setup/Orchestrator.cpp:473-512 | For that service: the merge always is the sequential run if and only if a writes nothing that c does not write, or the check does not admit b beside c. |
| `AddressText.StoiOfToString` | src/runtime/address_util.cpp:3-30 | Every int prints to a text that reads back as that int, whatever follows but a digit. |
| `AddressText.PrintsDecimal` | src/runtime/address_util.cpp:24-29 | The printed digits, each times ten to the power of the digits behind it, add up to the number. |
| `AddressText.DecimalLength` | src/runtime/address_util.cpp:24-29 | A number prints in at most k digits if and only if it is below the k-th power of ten, so without leading zeros. |
| `AddressText.StoiExactly` | src/runtime/address_util.cpp:12 | A number is read if and only if the text begins with it, in decimal after spaces and a sign, and it fits 32 bits. |
| `AddressText.AddressExactly` | src/runtime/address_util.cpp:3-21 | Null without something, a first colon and something more; otherwise what the part after the colon reads as, or the exception it throws. |
| `AddressText.ToStringInjective` | src/runtime/config/configure.cpp:218 | Different ints print differently. |
| `AddressText.AddressRoundTrip` | src/runtime/address_util.cpp:3-30 | An address reads back as printed if and only if its ip is not empty and has no colon. |
| `Forwarder.Strtok` | src/runtime/forwarder/forwarder.cpp:107-111 | Tokenising in place yields the next token and leaves behind it what comes after, the delimiter overwritten. |
| `Forwarder.ReadEntry` | src/runtime/forwarder/forwarder.cpp:103-114 | The entry for a line, or failure where the source throws or follows a null pointer. |
| `Forwarder.ReadTable` | src/runtime/forwarder/forwarder.cpp:103-117 | The entries of all lines in order, unless one fails. |
| `Forwarder.LineExactly` | src/runtime/forwarder/forwarder.cpp:103-114 | Two tokens, any semicolons before and between them, are an entry unless one of them makes the source throw; an address that cannot be split is kept as null; fewer tokens are no entry. |
| `Forwarder.TableLineRoundTrip` | src/runtime/forwarder/forwarder.cpp:103-114 | A line that configuration writes is read back as the same port and address if and only if the ip is not empty and has no colon, semicolon or NUL. |
| `MachineConfig.IntThroughWire` | src/common/ServiceGraphUtil.cpp:20-24 | int to 64 unsigned bits to int is the identity; the other way round exactly for images of ints. |
| `MachineConfig.MachineConfigurator.AddMachine` | src/common/MachineConfigurator.cpp:115-117 | A machine is added under its own id unless that id is taken. |
| `MachineConfig.MachineConfigurator.AddNode` | src/common/MachineConfigurator.cpp:119-121 | A node is added under its own id unless that id is taken. |
| `MachineConfig.MachineConfigurator.GetNodesForMachine` | src/common/MachineConfigurator.cpp:81-104 | The known nodes of a machine in the machine's order; none for an unknown machine. |
| `ConfigMessages.MachineRoundTrip` | src/common/ServiceGraphUtil.cpp:19-48 | A machine survives its message. |
| `ConfigMessages.NodeRoundTrip` | src/common/ServiceGraphUtil.cpp:58-147 | A node survives its message, its function included. |
| `ConfigMessages.PartsByName` | src/common/ServiceGraphUtil.cpp:38-147 | Every part of a machine or node travels in the message's part of the same name, lists in their order. |
| `ConfigMessages.WithoutOwnMachine` | src/common/ServiceGraphUtil.cpp:157-168 | A message that lacks its own machine gives it the number 0, no addresses and no nodes. |
| `ConfigMessages.ConfigRoundTrip` | src/common/ServiceGraphUtil.cpp:157-215 | Every possible result of decoding an encoded configuration, whatever the order the maps are visited in, is that configuration. |
| `ConfigMessages.ConfiguratorFromMessage` | src/common/ServiceGraphUtil.cpp:157-183 | Fails exactly when some node's function is undeclared; otherwise the objects built are a possible decoding, the own machine among them. |
| `ConfigMessages.MessageFromConfigurator` | src/common/ServiceGraphUtil.cpp:193-215 | The message has exactly the configuration's machines and nodes under the wire forms of their ids. |
| `ConfigMessages.Transmit` | src/setup/Orchestrator.cpp:247-249 | Encoding and decoding gives fresh objects with the same contents. |
| `Configure.PortsApart` | src/runtime/config/configure.cpp:252-257 | Forwarder, container and merger ports never meet, different nodes have different ones, and forwarder ports are real exactly up to id 7998. |
| `Configure.ContainerIpsDiffer` | src/runtime/config/configure.cpp:203-218 | Different containers of a machine have different addresses. |
| `Configure.AtoiExactly` | src/runtime/config/configure.cpp:206 | The number a text begins with, and 0 if it begins with none. |
| `Configure.Configure.SetupBridgePorts` | src/runtime/config/configure.cpp:190-266 | Every node of the service gets its address: the container's own for local nodes, machine address and forwarder port for the others, if the machines' node lists do not overlap. |
| `Configure.Configure.WriteForwarderTable` | src/runtime/config/configure.cpp:282-291 | One line for each own node with its forwarder port and container address. |
| `Configure.Configure.FlowArguments` | src/runtime/config/configure.cpp:360-371 | For a function without neighbours, the packet generator aside, the merger's port; otherwise the address of each neighbour, as text. |
| `Routing.TableIsRead` | src/runtime/forwarder/forwarder.cpp:103-117 | What a machine writes into its forwarder's table is read back as its containers' addresses, each under its node's port. |
| `Routing.AddressReachesItsNode` | src/runtime/config/configure.cpp:204-262 | The address one machine works out for a node reaches that node's container and nothing else, directly or through the other machine's forwarder; through a forwarder if and only if the node id is at most 7998. |
| `Routing.EdgeIsRouted` | src/runtime/config/configure.cpp:360-371 | The text of the n-th address a function is started with parses and leads to its n-th neighbour and to nothing else. |
| `Routing.LeafReachesItsPort` | src/runtime/config/configure.cpp:362-364 | A leaf sends to the port under which the merger has that very leaf. |
| `MachineSetup.MakeConfigurator` | src/setup/Orchestrator.cpp:225-238 | Each machine's configuration holds its own machine, all others and all nodes, as placed. |
| `MachineSetup.PlaceNodes` | src/setup/Orchestrator.cpp:205-212 | Each machine ends with the ids of exactly the functions placed on it, in order. |
| `MachineSetup.DescribedIsPlacedOnce` | src/setup/Orchestrator.cpp:197-212 | No node is on two machines or twice on one. |
| `MachineSetup.DescribedIsWellPlaced` | src/setup/Orchestrator.cpp:197-222 | With real machine addresses outside the bridges' network and at most 253 nodes a machine, all that routing needs holds. |
| `MachineSetup.EveryEdgeIsRouted` | src/runtime/config/configure.cpp:204-262 | For every edge of a placed and configured service of up to 7999 functions and any sending machine, the address leads to the neighbour's container on its machine, and only there. `Deployment.Deploy` establishes the configuration. |
| `Deployment.LinkFunctions` | src/setup/Orchestrator.cpp:214-222 | Every node's neighbour ids are those of its function's neighbours in the graph, each once. |
| `Deployment.Deploy` | src/setup/Orchestrator.cpp:183-249 | From the orchestrator's graph and placement through the machines' configurations, their messages and each machine's own address computation: the service all machines know has the graph's neighbours, and every machine is configured. |
| `Deployment.GraphEdgeIsRouted` | src/runtime/config/configure.cpp:360-371 | For every edge of the orchestrator's graph and any sending machine, one of the addresses the function is started with leads to the neighbour's container, and only there. |
| `Deployment.GraphArgumentIsEdge` | src/runtime/config/configure.cpp:366-371 | Conversely, a function with neighbours is started with exactly as many addresses as the graph gives it neighbours, and each leads to the container of one of them and nowhere else. |
| `Deployment.HearLeaves` | src/setup/Orchestrator.cpp:255-263 | Every function without neighbours is started with one address, the merger's with port 8001 plus its id, at which the orchestrator has the merger expect that very function; the packet generator is started with none. |

## Left out

- MergerOperator.MergerOperator.MergePacket: requires major and minor distinct in every item; that is sufficient for the loop to end and not necessary, and `LoopEndsExactly` has the exact condition, but what the other lists that end compute is not modelled. Also requires stored packets on buffers of their own, which is how they are received. `PACKET_INFO` is a value, not an object; nothing in the source keeps a second pointer to one. Two merges of one id that overlap in time are steps of `MergeProtocol` only; their writes to one buffer are not interleaved byte by byte. One after the other they agree, which is the replay clause.
- Orchestrator.Orchestrator.FindAllLeaves: requires ranks that fall along every edge the root reaches; exactly otherwise the source's recursion does not end (`SearchEndsExactly`).
- Orchestrator.Orchestrator.constructor: takes parsed constraints; constraints that name a function without a node or a row, which the source answers with an exception or a null pointer, are excluded, and so are heeded positional entries without a first function when there is something to attach.
- Orchestrator.Orchestrator.AddEdge: a graph node is its function's name, and the neighbour and parent sets of all nodes are two maps of the orchestrator instead of pointer sets in node objects.
- Orchestrator.Orchestrator.CreateConflictsList: the parent taken is any element of the parent set, since the source takes the first by address.
- OrchestratedForest.OrchestratedListFor: the orchestrator also produces lists that are for no forest; of these, services of one level and services with two leaves (`ForkedService`) are decided exactly, and deeper services with three or more branches below one node, or with items of different parents and three or more leaves, are not.
- OrchestratedForest.BesideExactly: requires that the first function passes packets on, as the packet generator does, since in the model its writes would reach the pair and not the chain.
- Parallelism.TablesAgree: rows of functions the runtime does not have are not modelled. The row of dnf_firewall says that it never drops; whether the program keeps to that is not part of the model.
- Forwarder.ReadEntry: characters are not bytes of an encoding, and the sizes of the copies made of a token are not modelled.
- Configure.Configure.SetupBridgePorts: node ids are added to port numbers without wrap-around; `PortsApart` has the range where that is exact.
- Routing.AddressReachesItsNode: a packet sent to a machine's address and port is taken to reach the forwarder listening there, and one sent to a container's address to reach it; Open vSwitch, docker and the kernel are not modelled.
- MachineSetup.MakeConfigurator: requires machine addresses to be distinct.
- Sockets, files, shell and docker commands, sleeps, logging and thread creation: effects of the environment. Receiving and sending are steps or parameters.
- The JSON and protobuf libraries and their wire formats: parsed rows and message records are the starting point.
- `inet_ntop` and `inet_pton`: addresses inside packets are their four bytes.
- IP total length, checksums, version and header length, and TCP fields other than ports: the source leaves them zero or fills the length with the Ethernet header included; no claim about RFC 791 or RFC 793 conformance is made beyond the position of the fields used.
- `single_node_partitioning`, `write_graph_format`, `port_leaf_map.json` and `conflict_pairs.json`: unused alternatives and display outputs.
- The web interface, the stand-alone NF programs, the packet generator and receiver: NFs are any functions within their profiles.
