# Verification model of KOS

KOS (`staging/kos`) is the control plane of virtual networks on Kubernetes. This project models five of its parts
and proves properties of them. `dafny verify dfyconfig.toml` checks everything.

**Address sets** (`RunLists.dfy`, `RunSplicing.dfy`, `SortedUInt32Set.dfy`, `HashUInt32Set.dfy`, `SetMirror.dfy`). A set
of 32-bit numbers kept as maximal runs in an ordered structure, with an allocator over the gaps between runs that makes
two random choices. The external ordered structure is a list of runs with its operations by key and by rank; the random
choices are parameters. The run set is proved exact, and to agree with the hash set that the tests use as its oracle.

**IPAM controller** (`LockNames.dfy`, `ReleasePlan.dfy`, `AddressCache.dfy`, `Ipam*.dfy`). The lock-name codec, the plan
of locks to keep and release, the address cache with the pick-and-lock loop, and two state machines. In
`IpamProtocol.dfy` any number of controllers and workers exchange requests and replies with the API server's store and
receive FIFO notifications; a create call takes effect and is replied to at different steps. What caches and statuses
rest on is proved over every run, and every pick-and-lock is proved to be such a run. In `IpamAnticipation.dfy` one
edition of an attachment is processed under informers that lag.

**Connection agent** (`MacAddresses.dfy`, `ConnectionAgent*.dfy`). All workers and informer handlers as one state machine,
each section under a mutex a step, each fabric call a step that may fail, and any interleaving. Its invariant gives the
theorems in `ConnectionAgentTheorems.dfy`. `ConnectionAgentClass.dfy` has the handlers as methods that update the
agent's maps; each is proved to be a sequence of the machine's steps. `ConnectionAgentRun.dfy` shows runs that the machine
has, from a notification to an interface and back.

**OVS fabric** (`OvsFlows.dfy`, `OvsFabric.dfy`, `OvsInterleaved.dfy`, `OvsCalls.dfy`). Flows as records, the choice of a
flow as in section 5.3 of the OpenFlow Switch Specification 1.3 with any matching flow of the highest priority, and the
calls of the fabric with a fault possible at every command: as methods, and as a state machine that interleaves their
commands. Every sequence of calls is proved to be a run of the machine.

**Subnet validation and load driver** (`Subnets.dfy`, `Shares.dfy`, `Throughput*.dfy`). Prefix arithmetic, the
validator and its runs; the driver's shuffle, work shares, quotas and object names.

`Basics.dfy` holds 32-bit numbers, options and some arithmetic.

## What does not hold without a condition

Each has its exact condition and an input on which it fails.

- One lock for each edition of an attachment (`ipam.go:98-116`): the direct Get of the lock in the status is skipped
  when any owned lock, of whatever VNI and edition, is on the same address (`ipam.go:505-548`). So when a lock of an older
  edition on another network is still around, a controller that has not been notified of its own lock locks a second
  address. `OneLockIff`, `ShadowExample`.
- No two workers hold one picked address: a lock may be made, notified, deleted and notified again before the reply to
  the create call, and the address picked anew. `SharedIff`, `SharingExample`.
- A status address has a lock, except after an Invalid reply to the create call (`ipam.go:692-700`). `StatusBacking`,
  `RejectedExample`.
- A changed guest address replaces the interface, unless the MAC address is the same. `UpdateIsMissedIff`,
  `MissedUpdateExample`; `MacCollision`, `MacCollisionExample`.
- Deleting an interface leaves the flows of others alone, unless they share MAC address and VNI. `DeletionSparesIff`,
  `DeletionExample`.
- `Check` overlooks what follows a run that ends at 0xFFFFFFFF, as the successor wraps. `CheckIsExactBelowTheTop`,
  `CheckExample`.
- Two subnets created at the same time may conflict, as the source itself notes. `RacingCreates`, `RacingExample`.

## Where code and comments disagree

The model follows the code. `IsBetterThan` prefers the oldest lock (`ipam.go:892-897`), the comment at `ipam.go:569-571`
says the newest. `getAttachment` answers that an attachment found in both caches is deleted
(`connectionagent.go:694-715`), against its comment (`connectionagent.go:648-652`). The index of locks by owner has no
namespace, and the owner's UID is not checked when the attachment is gone (`ipam.go:497-519`); the model has one namespace.

## Model

| member | source | states |
|---|---|---|
| RunLists.MaximalRunsAreCanonical | staging/kos/pkg/uint32set/sortedset.go:34-47 | Two lists of disjoint, maximal runs with the same members are the same list |
| RunLists.AddThenRemove | staging/kos/pkg/uint32set/sortedset.go:230-249 | Inserting a probe node where none has its key and removing it again restores the list |
| RunLists.ChosenIsFree | staging/kos/pkg/uint32set/sortedset.go:163-228 | The two random draws settle on a number exactly when the range has a free one, and then on a free one of the range |
| RunLists.EveryFreeNumberCanBeChosen | staging/kos/pkg/uint32set/sortedset.go:163-228 | Every free number of the range is the outcome of some pair of draws |
| RunLists.GapIsInRange | staging/kos/pkg/uint32set/sortedset.go:176-226 | An eligible gap is not empty and lies within the range, so that neither random choice is over nothing |
| SortedSets.SortedUInt32Set.constructor | staging/kos/pkg/uint32set/sortedset.go:49-51 | A new set is valid and empty |
| SortedSets.SortedUInt32Set.IsEmpty | staging/kos/pkg/uint32set/sortedset.go:53-55 | True exactly of the empty set |
| SortedSets.SortedUInt32Set.Find | staging/kos/pkg/uint32set/sortedset.go:230-249 | Leaves the nodes as they were and answers the run containing the number, if any, and the rank of the first run that does not end before it |
| SortedSets.SortedUInt32Set.Has | staging/kos/pkg/uint32set/sortedset.go:57-63 | Membership, with the structure restored |
| SortedSets.SortedUInt32Set.Add | staging/kos/pkg/uint32set/sortedset.go:65-111 | Adds one member, says whether it is new, and keeps runs maximal and disjoint, also at 0 and 0xFFFFFFFF |
| SortedSets.SortedUInt32Set.Remove | staging/kos/pkg/uint32set/sortedset.go:251-259 | Removes one member, says whether it was there, and keeps the runs valid |
| SortedSets.SortedUInt32Set.InnerRemove | staging/kos/pkg/uint32set/sortedset.go:261-295 | The same for the four ways a number leaves a run |
| SortedSets.SortedUInt32Set.Check | staging/kos/pkg/uint32set/sortedset.go:113-156 | Never complains about a valid set; when hard it is exactly the comparison of all neighbours, otherwise exactly that of the first and the last run with themselves |
| SortedSets.CheckIsExactBelowTheTop | staging/kos/pkg/uint32set/sortedset.go:113-156 | The comparison it makes accepts exactly the maximal lists, among lists in which no run but the last ends at 0xFFFFFFFF |
| SortedSets.CheckExample | staging/kos/pkg/uint32set/sortedset.go:136-142 | A list it accepts whose runs overlap, the first ending at 0xFFFFFFFF |
| SortedSets.SortedUInt32Set.AddOneInRange | staging/kos/pkg/uint32set/sortedset.go:163-228 | Succeeds exactly when the range has a free number, returns the number the draws choose, adds just that; no index is ever out of bounds |
| SortedSets.SortedUInt32Set.Export | staging/kos/pkg/uint32set/sortedset.go:297-318 | All members in order: the runs written out one after the other |
| SortedSets.SortedUInt32Set.RExport | staging/kos/pkg/uint32set/sortedset.go:320-333 | First and last of every run, in order |
| SortedSets.FlattenIsSorted | staging/kos/pkg/uint32set/sortedset.go:297-318 | The export increases strictly and holds just the members |
| HashSets.HashUInt32Set.constructor | staging/kos/pkg/uint32set/hashset.go:37-39 | A new set is empty |
| HashSets.HashUInt32Set.Has | staging/kos/pkg/uint32set/hashset.go:58-61 | Membership |
| HashSets.HashUInt32Set.Add | staging/kos/pkg/uint32set/hashset.go:63-76 | Adds one member and widens the bounds so that they enclose all members |
| HashSets.HashUInt32Set.Remove | staging/kos/pkg/uint32set/hashset.go:78-88 | Removes one member; the bounds may go stale but still enclose the members |
| HashSets.HashUInt32Set.CouldAddInRange | staging/kos/pkg/uint32set/hashset.go:45-56 | Accepts an answer exactly when it is a free number of the range or a truthful refusal, and adds the number |
| HashSets.HashUInt32Set.Export | staging/kos/pkg/uint32set/hashset.go:90-106 | The members, strictly increasing, although the scan runs between stale bounds |
| HashSets.HashUInt32Set.RExport | staging/kos/pkg/uint32set/hashset.go:108-130 | The ends of the maximal runs of the members, in order |
| SetMirror.ExportsAgree | staging/kos/pkg/uint32set/uin32set_test.go:191-239 | Equal members mean equal exports of both kinds |
| SetMirror.OracleAccepts | staging/kos/pkg/uint32set/hashset.go:45-56 | The oracle accepts whatever the allocator answers and keeps the same members |
| SetMirror.Perform | staging/kos/pkg/uint32set/uin32set_test.go:203-236 | One operation on both sets: equal answers, those of a mathematical set |
| SetMirror.MirroredRun | staging/kos/pkg/uint32set/uin32set_test.go:191-239 | Over any sequence of operations both sets give the same answers, exports and emptiness, and those of a mathematical set |
| LockNames.NameRoundTrip | staging/kos/pkg/controllers/ipam/ipam.go:821-844 | A generated lock name parses back to its VNI and address exactly when the VNI fits 21 bits |
| LockNames.NamesAreDistinct | staging/kos/pkg/controllers/ipam/ipam.go:821-844 | On such VNIs different addresses have different lock names |
| LockNames.ParseIPLockName | staging/kos/pkg/controllers/ipam/ipam.go:826-844 | The loop over the address bytes computes what the name stands for, or fails, on every string |
| ReleasePlan.AnalyzeLocks | staging/kos/pkg/controllers/ipam/ipam.go:504-581 | The loops over the locks compute the plan: what slips in time, what is kept, what is released |
| ReleasePlan.BestOf | staging/kos/pkg/controllers/ipam/ipam.go:914-925 | The loop finds the best of a list |
| ReleasePlan.BestIsUnbeaten | staging/kos/pkg/controllers/ipam/ipam.go:892-925 | The best lock is in the list, no lock of the list was created before it, and none created at the same time has a greater UID |
| ReleasePlan.BestIgnoresOrder | staging/kos/pkg/controllers/ipam/ipam.go:892-925 | With distinct UIDs it does not depend on the order of the list |
| ReleasePlan.PlanIsPartition | staging/kos/pkg/controllers/ipam/ipam.go:504-581 | The locks considered are, counted with multiplicity, the slippers, the locks to release and the lock kept; slippers are just those of another edition |
| ReleasePlan.KeptIsRight | staging/kos/pkg/controllers/ipam/ipam.go:504-574 | A vanished attachment keeps nothing; otherwise what is kept is owned and in range, something whenever anything qualifies, the status lock whenever that is valid, and else the oldest qualifying one, of several the one with the greatest UID |
| ReleasePlan.AddListFuncUnites | staging/kos/pkg/controllers/ipam/ipam.go:943-965 | Adding a list keeps what was there, adds just what is new and repeats nothing |
| AddressCaches.AddressCache.TakeAddress | staging/kos/pkg/controllers/ipam/ipam.go:336-345 | One address is taken, all others stay as they were, over sets made on demand |
| AddressCaches.AddressCache.PickAddress | staging/kos/pkg/controllers/ipam/ipam.go:347-356 | Takes a free address of the range or, only when the range is full, none |
| AddressCaches.AddressCache.ReleaseAddress | staging/kos/pkg/controllers/ipam/ipam.go:358-370 | One address is released, and the set of its VNI dropped when empty |
| AddressCaches.AddressCache.TryToLock | staging/kos/pkg/controllers/ipam/ipam.go:653-700 | The first reply other than a lock that vanished decides: made or recovered, a collision, a failed Get, a permanent or a transient failure; each to its own outcome |
| AddressCaches.AddressCache.PickAndLockAddress | staging/kos/pkg/controllers/ipam/ipam.go:618-706 | Fails exactly when no address that may be picked is free; otherwise the address was free, of five or more neither one of the first two nor the last, and after a failed create the cache is as before, while a lock made or recovered, a collision and a failed Get keep the address |
| IpamPick.PickIsRun | staging/kos/pkg/controllers/ipam/ipam.go:618-706 | Whatever the replies, the protocol machine has a run that goes the same way and leaves the same in the cache, with the status update that follows |
| IpamNoLeak.StepKeepsNoLeak | staging/kos/pkg/controllers/ipam/ipam.go:312-370 | Every step of any controller, worker, notification or foreign lock keeps all caches accounted for |
| IpamNoLeak.NoAddressLeaks | staging/kos/pkg/controllers/ipam/ipam.go:312-370 | Over every run, restarts included, a cached address has a live lock, a delete as its last pending notification, or a worker awaiting the reply to a create call that has not taken effect; at quiescence it has a live lock |
| IpamSole.CacheIsExact | staging/kos/pkg/controllers/ipam/ipam.go:312-370 | With one controller making all locks its cache is, in every reachable state, exactly the live addresses, those with a pending delete and those of create calls not yet in effect; at quiescence just the live ones |
| IpamSole.NoCollisions | staging/kos/pkg/controllers/ipam/ipam.go:653-686 | Then the collision on a cache incoherence never happens, the address of a create call not yet in effect is not locked, and of two workers holding one address one has a call whose lock was made and is gone before its reply came |
| IpamSole.StepKeepsSole | staging/kos/pkg/controllers/ipam/ipam.go:312-370 | Every step keeps the cache exact |
| IpamSharing.Sharing | staging/kos/pkg/controllers/ipam/ipam.go:653-686 | From every such state with a create call in effect and not replied to some run lets another worker hold its address |
| IpamSharing.SharedIff | staging/kos/pkg/controllers/ipam/ipam.go:653-686 | From a reachable state two workers can come to hold an address, with no further create call taking effect, exactly when a create call for it is in effect and not replied to |
| IpamSharing.SharingExample | staging/kos/pkg/controllers/ipam/ipam.go:653-686 | A run of one pick and one lock made, and a state with two holders of the address that a run reaches from there |
| IpamStatus.KeepIsBacked | staging/kos/pkg/controllers/ipam/ipam.go:504-574 | A lock kept for the status was made, is owned by the attachment and is in the range read |
| IpamStatus.StatusBacking | staging/kos/pkg/controllers/ipam/ipam.go:692-744 | Over every run a status update with an address is backed by a lock with that owner, VNI, address and range exactly when it does not follow an Invalid reply |
| IpamStatus.RejectedExample | staging/kos/pkg/controllers/ipam/ipam.go:692-700 | A run with one worker whose update follows an Invalid reply and names no lock |
| IpamStatus.LockIsWrittenForOne | staging/kos/pkg/controllers/ipam/ipam.go:708-744 | No lock is ever written for two attachments or two addresses |
| IpamPass.PlanWithout | staging/kos/pkg/controllers/ipam/ipam.go:504-588 | A pass that considers no lock of this edition keeps and releases nothing |
| IpamPass.PlanWith | staging/kos/pkg/controllers/ipam/ipam.go:504-588 | A pass that considers the one lock of this edition keeps it, as the status lock or for the status, and releases nothing |
| IpamPass.PassLeavesOne | staging/kos/pkg/controllers/ipam/ipam.go:504-616 | A pass that is shown all locks of the edition leaves at most one, and one if any is in range: that of the status, or else the oldest; no other lock is touched |
| IpamOneLock.StepKeepsInv | staging/kos/pkg/controllers/ipam/ipam.go:396-451 | Every step, a failed pick included, keeps the phases: not locked, locked but not written, written from some revision on |
| IpamOneLock.OneLockPerEdition | staging/kos/pkg/controllers/ipam/ipam.go:98-116 | With lagging informers each edition gets at most one lock, none is released, and every status with an address names it, unless a shadow is around at the start |
| IpamShadow.ShadowLetsTwo | staging/kos/pkg/controllers/ipam/ipam.go:527-562 | From every start with a shadow some run locks two addresses for one edition |
| IpamShadow.OneLockIff | staging/kos/pkg/controllers/ipam/ipam.go:98-116 | So an edition gets at most one lock in every run exactly when no shadow is around at its start |
| IpamShadow.ShadowExample | staging/kos/pkg/controllers/ipam/ipam.go:527-562 | A start with a shadow, on VNIs 5 and 7, and a state with two locks that a run reaches from it |
| MacAddresses.MacCollision | staging/kos/pkg/controllers/connectionagent/connectionagent.go:1394-1404 | Two pairs share a MAC address exactly when the low 21 bits of the VNIs, the low 24 bits of the addresses and one bit of their first byte agree; every MAC address is local unicast |
| MacAddresses.MacBytes | staging/kos/pkg/controllers/connectionagent/connectionagent.go:1394-1404 | Bytes 1 to 3 are the low 24 bits of the address, bytes 4 and 5 the low 16 of the VNI, and byte 0 holds the next 5, one bit of the address and 10 in binary |
| MacAddresses.MacDeterminesVni | staging/kos/pkg/controllers/connectionagent/connectionagent.go:1394-1404 | On 21-bit VNIs the MAC address tells the VNI |
| MacAddresses.MacIsInjectiveOnPrivate | staging/kos/pkg/controllers/connectionagent/connectionagent.go:1394-1404 | On those and the private addresses of section 3 of RFC 1918 it tells the pair |
| MacAddresses.MacCollisionExample | staging/kos/pkg/controllers/connectionagent/connectionagent.go:1394-1404 | 8.0.0.1 and 9.0.0.1 collide on every VNI |
| AgentInvariant.UndisturbedKeeps | staging/kos/pkg/controllers/connectionagent/connectionagent.go:860-929 | What is known of an attachment survives steps of other workers that take nothing from it unless they queue it again |
| AgentSteps.EnvironmentStep | staging/kos/pkg/controllers/connectionagent/connectionagent.go:1111-1140 | Informer handlers, queue and back-off keep the invariant |
| AgentSteps.WorkKeepsInv | staging/kos/pkg/controllers/connectionagent/connectionagent.go:632-943 | Every step of every worker keeps it, in any interleaving |
| AgentTheorems.StepKeepsAll | staging/kos/pkg/controllers/connectionagent/connectionagent.go:600-943 | Every step keeps vnStates, interfaces, fabric and stop channels consistent |
| AgentTheorems.NoOrphanInterfaces | staging/kos/pkg/controllers/connectionagent/connectionagent.go:718-943 | In every reachable state a settled attachment seen in at most one VNI is a member of the live vnState of its interface's VNI, and that vnState has a local attachment |
| AgentTheorems.VnStatesAreConsistent | staging/kos/pkg/controllers/connectionagent/connectionagent.go:860-943 | A VNI has a vnState exactly while it has a local attachment; nobody is local and remote in one, or in two |
| AgentTheorems.StopChannelsCloseOnce | staging/kos/pkg/controllers/connectionagent/connectionagent.go:1049-1082 | A stop channel is closed once, by the worker that took its vnState out of the map, and with nobody working just those of removed vnStates are closed |
| AgentTheorems.FabricMatchesRecords | staging/kos/pkg/controllers/connectionagent/connectionagent.go:945-1025 | The fabric holds just the recorded interfaces, one attachment each, never local and remote for one |
| AgentTheorems.PassConverges | staging/kos/pkg/controllers/connectionagent/connectionagent.go:718-803 | A pass that got through leaves exactly one interface, of the attachment's kind, VNI and host; on private addresses with its guest address |
| AgentTheorems.UpdateIsMissedIff | staging/kos/pkg/controllers/connectionagent/connectionagent.go:945-966 | Exactly when a changed guest address leaves the interface alone |
| AgentTheorems.MissedUpdateExample | staging/kos/pkg/controllers/connectionagent/connectionagent.go:945-966 | Such a change: from 8.0.0.1 to 9.0.0.1 |
| AgentRuns.ComesAndGoes | staging/kos/pkg/controllers/connectionagent/connectionagent.go:600-1140 | From start-up, whatever the attachments, the machine gets to the interface of a local one although its first create call fails, on to that of a remote one of its network, and back when that is removed |
| AgentHandlers.ConnectionAgent.UpdateVnStateForExistingAtt | staging/kos/pkg/controllers/connectionagent/connectionagent.go:860-929 | The section is the joining step; its two results say where it leads, and exactly when the attachment stays |
| AgentHandlers.ConnectionAgent.EnterVnState | staging/kos/pkg/controllers/connectionagent/connectionagent.go:865-929 | The vnState of the VNI is made for a first local attachment, removed after a last one, and gains or loses just this attachment |
| AgentHandlers.ConnectionAgent.RemoveAttFromVNState | staging/kos/pkg/controllers/connectionagent/connectionagent.go:1049-1061 | The section is the departing step, and returns the vnState exactly if it took it out of the map |
| AgentHandlers.ConnectionAgent.AddVNI | staging/kos/pkg/controllers/connectionagent/connectionagent.go:1216-1225 | One VNI is added to those an attachment was seen in |
| AgentHandlers.ConnectionAgent.RemoveSeenInVNI | staging/kos/pkg/controllers/connectionagent/connectionagent.go:1227-1238 | One VNI is removed, and an entry that becomes empty |
| AgentHandlers.ConnectionAgent.ClearVNResources | staging/kos/pkg/controllers/connectionagent/connectionagent.go:1067-1082 | Closes the channel, queues just the remote attachments, forgets that they were seen there and changes nothing else, by steps of its worker |
| AgentHandlers.ConnectionAgent.UpdateVNState | staging/kos/pkg/controllers/connectionagent/connectionagent.go:833-848 | Steps of its worker that lead to implementing, clearing or straying as the results say |
| AgentHandlers.ConnectionAgent.ProcessDeletedAtt | staging/kos/pkg/controllers/connectionagent/connectionagent.go:805-831 | Steps of its worker that drop the vnState entry and the recorded interface, or keep the interface on an error |
| AgentHandlers.ConnectionAgent.DeleteIfc | staging/kos/pkg/controllers/connectionagent/connectionagent.go:956-980 | Deletes the recorded interface from fabric and record, or nothing on an error |
| AgentHandlers.ConnectionAgent.CreateIfc | staging/kos/pkg/controllers/connectionagent/connectionagent.go:982-1017 | Makes and records the interface of the right kind, exactly unless the pair is taken or the call fails |
| AgentHandlers.ConnectionAgent.CreateOrUpdateIfc | staging/kos/pkg/controllers/connectionagent/connectionagent.go:945-1025 | Steps of its worker that end with an error or an interface that needs no update |
| AgentHandlers.ConnectionAgent.ProcessExistingAtt | staging/kos/pkg/controllers/connectionagent/connectionagent.go:718-803 | Steps of its worker; it gets through exactly when no call fails on the way and the attachment is local or has other local ones in its network |
| AgentHandlers.ConnectionAgent.GetAttachment | staging/kos/pkg/controllers/connectionagent/connectionagent.go:653-716 | Steps of its worker; the answer is that of the classification of what the listers answer, or neither if the attachment was seen in several VNIs |
| AgentHandlers.ConnectionAgent.ProcessQueueItem | staging/kos/pkg/controllers/connectionagent/connectionagent.go:611-643 | A pass nobody interferes with is a run of the machine and keeps its invariant. Found by the local lister alone, the attachment gets through with just the interface it should have, or the pass fails; by the remote one alone, the same if its network has another local attachment here, and otherwise the network's vnState goes and it is queued again, or it ends without vnState entry and interface; by none or both, it ends without vnState entry and, but for an error, interface; seen in several VNIs, nothing changes. It is put in back-off exactly after an error, and an error has a failed call or a taken pair as its cause |
| OvsFlows.LocalFramesStayInNetwork | staging/kos/pkg/networkfabric/ovs/ovs.go:394-479 | Whatever flow of the highest priority is taken, what a local interface sends is dropped or gets to an interface of its network that it is addressed to |
| OvsFlows.TunnelledFramesStayInNetwork | staging/kos/pkg/networkfabric/ovs/ovs.go:394-479 | A tunnelled frame is dropped or gets to a local interface of the network it names |
| OvsFlows.StrayFramesAreDropped | staging/kos/pkg/networkfabric/ovs/ovs.go:394-408 | A frame from a device that serves no interface is dropped |
| OvsFlows.FrameIsDelivered | staging/kos/pkg/networkfabric/ovs/ovs.go:450-543 | With its flows in place an interface gets, and nobody else does, every frame and ARP request for it alone that a local interface of its network sends, itself apart |
| OvsFlows.TunnelledFrameIsDelivered | staging/kos/pkg/networkfabric/ovs/ovs.go:450-543 | It also gets those that arrive through the tunnel, if it is local; for a remote interface these are dropped |
| OvsFlows.LocalFramesGoWhereAddressed | staging/kos/pkg/networkfabric/ovs/ovs.go:450-543 | With all flows in place the outcomes for what a local interface sends are exactly the interfaces of its network with the MAC address or ARP target address, itself apart, or a drop if there is none |
| OvsFlows.TunnelledFramesGoWhereAddressed | staging/kos/pkg/networkfabric/ovs/ovs.go:450-543 | Likewise for what arrives through the tunnel, and the local interfaces |
| OvsFlows.DeletionSparesIff | staging/kos/pkg/networkfabric/ovs/ovs.go:481-502 | Deleting one interface leaves another's flows alone exactly when they do not share MAC address and VNI |
| OvsFlows.DeletionExample | staging/kos/pkg/networkfabric/ovs/ovs.go:481-502 | Two interfaces, for 8.0.0.1 and 9.0.0.1, of which deleting one takes a flow of the other |
| OvsFlows.DeletionIsComplete | staging/kos/pkg/networkfabric/ovs/ovs.go:481-502 | It takes all flows of the interface and no default flow |
| OvsFlows.AddingIsSound | staging/kos/pkg/networkfabric/ovs/ovs.go:450-479 | Adding an interface's flows keeps every flow justified, whatever it replaces |
| OvsFlows.DeletingIsSound | staging/kos/pkg/networkfabric/ovs/ovs.go:481-502 | Deleting an interface's flows keeps every flow justified by another interface |
| OvsFabrics.Bridge.AddPort | staging/kos/pkg/networkfabric/ovs/ovs.go:410-428 | Plugs a device in under a new name, or fails without effect |
| OvsFabrics.Bridge.DelPort | staging/kos/pkg/networkfabric/ovs/ovs.go:430-448 | Unplugs a device, or fails without effect |
| OvsFabrics.Bridge.AddFlows | staging/kos/pkg/networkfabric/ovs/ovs.go:952-958 | Adds all flows, replacing those with the same match and priority, or none |
| OvsFabrics.Bridge.DelFlows | staging/kos/pkg/networkfabric/ovs/ovs.go:960-966 | Deletes all flows covered by a request, or none |
| OvsFabrics.OvsFabric.LockVniIpPair | staging/kos/pkg/networkfabric/ovs/ovs.go:985-1003 | Locks a pair unless it is locked already |
| OvsFabrics.OvsFabric.UnlockVniIpPair | staging/kos/pkg/networkfabric/ovs/ovs.go:1005-1016 | Unlocks a pair |
| OvsFabrics.OvsFabric.CreateLocalIfc | staging/kos/pkg/networkfabric/ovs/ovs.go:131-177 | Succeeds exactly when pair and name are free and no command fails, and then has locked the pair and added the flows; otherwise neither lock nor flow is left, and no device unless the clean-up fails |
| OvsFabrics.OvsFabric.DeleteLocalIfc | staging/kos/pkg/networkfabric/ovs/ovs.go:179-200 | Stops at the first failure; the pair is unlocked exactly when the interface is gone; the flows of others stay |
| OvsFabrics.OvsFabric.CreateRemoteIfc | staging/kos/pkg/networkfabric/ovs/ovs.go:202-218 | Succeeds exactly when the pair is free and the command does not fail; otherwise nothing is left |
| OvsFabrics.OvsFabric.DeleteRemoteIfc | staging/kos/pkg/networkfabric/ovs/ovs.go:220-227 | The pair is unlocked exactly when the flows are gone; the flows of others stay |
| OvsFabrics.Perform | staging/kos/pkg/networkfabric/ovs/ovs.go:131-227 | One call succeeds exactly when pair, device name and number are free, or the interface is there, and no command fails; its effect on locks, devices and flows; devices left behind by a failed clean-up count |
| OvsFabrics.RunCalls | staging/kos/pkg/networkfabric/ovs/ovs.go:131-227 | Over any calls with any faults every reply is the one expected, the locked pairs are those of interfaces created and not yet deleted, no two share one, and with the agent's MAC addresses all flows are there |
| OvsFabrics.NetworksAreIsolated | staging/kos/pkg/networkfabric/ovs/ovs.go:394-408 | In every such state frames stay in their network, and those of half-deleted or leaked devices go nowhere |
| OvsFabrics.FramesAreDelivered | staging/kos/pkg/networkfabric/ovs/ovs.go:394-543 | When all interfaces have their flows, frames get just where they are addressed |
| OvsInterleaved.StepKeepsOk | staging/kos/pkg/networkfabric/ovs/ovs.go:131-227 | Every command of every call, in any interleaving and with any failure, keeps locks, devices and flows consistent |
| OvsInterleaved.LocksAreAccounted | staging/kos/pkg/networkfabric/ovs/ovs.go:985-1016 | In every interleaving a pair is locked exactly while a call for it is under way or its interface is there, no two share one, and with the agent's MAC addresses what is up has all its flows |
| OvsInterleaved.NetworksStayIsolated | staging/kos/pkg/networkfabric/ovs/ovs.go:394-543 | In every interleaving frames stay in their network, and those of devices that serve no interface go nowhere |
| OvsInterleaved.FramesGetThrough | staging/kos/pkg/networkfabric/ovs/ovs.go:394-543 | With the agent's MAC addresses, in every interleaving the frames of the interfaces that are up, and tunnelled ones, get just where they are addressed |
| OvsCalls.CallsAreRuns | staging/kos/pkg/networkfabric/ovs/ovs.go:131-227 | Any calls with any faults, taken one after the other, are a run of the interleaving machine to the same locks, devices, flows and interfaces |
| Subnets.RangeFits | staging/kos/pkg/registry/network/subnet/strategy.go:260-270 | The range arithmetic never wraps: last is base plus size less one |
| Subnets.RangeIsBlock | staging/kos/pkg/registry/network/subnet/strategy.go:260-270 | The range is the block of prefix notation |
| Subnets.OverlapIffShared | staging/kos/pkg/registry/network/subnet/strategy.go:277-280 | Ranges overlap exactly when some address is in both blocks |
| Subnets.SharedMeansNested | staging/kos/pkg/registry/network/subnet/strategy.go:277-280 | Then the block with the longer prefix lies within the other |
| Subnets.Validate | staging/kos/pkg/registry/network/subnet/strategy.go:94-135 | The checks and their loops compute the verdict, errors in order |
| Subnets.AllSubnetsWithVni | staging/kos/pkg/registry/network/subnet/strategy.go:177-190 | The loop selects the subnets of a VNI |
| Subnets.CheckSameVniSameNs | staging/kos/pkg/registry/network/subnet/strategy.go:192-221 | The loop reports each subnet of another namespace |
| Subnets.CheckCidrDoesNotOverlap | staging/kos/pkg/registry/network/subnet/strategy.go:223-254 | The loop reports each overlapping subnet but the one itself |
| Subnets.AcceptedIff | staging/kos/pkg/registry/network/subnet/strategy.go:94-135 | A subnet is accepted exactly when its VNI is between 1 and 2097151, its CIDR parses, the lister answers and no listed subnet conflicts, its own version counting only for the namespace |
| Subnets.ErrorsSay | staging/kos/pkg/registry/network/subnet/strategy.go:94-254 | Exactly which errors are reported for any subnet against any list |
| Subnets.AcceptedStayConsistent | staging/kos/pkg/registry/network/subnet/strategy.go:94-150 | Over any serial creates, updates and deletes, subnets sharing a VNI share a namespace and no address |
| Subnets.RacingCreates | staging/kos/pkg/registry/network/subnet/strategy.go:119-132 | Two creates validated against the same list keep that exactly when they do not conflict with each other |
| Subnets.RacingExample | staging/kos/pkg/registry/network/subnet/strategy.go:119-132 | Two subnets both accepted against the empty list that conflict |
| Shares.SharesAddUp | staging/kos/cmd/attachment-tput-driver/main.go:1025 | The threads' quotas add up to the number of attachments asked for |
| ThroughputDriver.ListSlots | staging/kos/cmd/attachment-tput-driver/main.go:951-957 | The nested loops list the slots of all networks |
| ThroughputDriver.EverySlotOnce | staging/kos/cmd/attachment-tput-driver/main.go:951-957 | Each slot is listed once |
| ThroughputDriver.Shuffle | staging/kos/cmd/attachment-tput-driver/main.go:1070-1086 | The loop does the shuffle that the random numbers say, although the input is overwritten on the way |
| ThroughputDriver.ShuffledIsPermutation | staging/kos/cmd/attachment-tput-driver/main.go:1070-1086 | For any random numbers nothing is lost or repeated |
| ThroughputDriver.EveryArrangement | staging/kos/cmd/attachment-tput-driver/main.go:1070-1086 | Every arrangement is the outcome of some random numbers |
| ThroughputDriver.SelectWork | staging/kos/cmd/attachment-tput-driver/main.go:1060-1068 | The loop selects every so-many-th slot, within bounds |
| ThroughputDriver.SelectedAre | staging/kos/cmd/attachment-tput-driver/main.go:1060-1068 | A thread's share is the slots at its number, and every so many further on, to the end of the list |
| ThroughputDriver.WorkIsPartitioned | staging/kos/cmd/attachment-tput-driver/main.go:1060-1068 | Together the threads have each slot just once, and with no more threads than slots each has one |
| ThroughputRuns.VirtNet.constructor | staging/kos/cmd/attachment-tput-driver/main.go:785-803 | The first name index of slot j is j + 1 |
| ThroughputRuns.RunThread | staging/kos/cmd/attachment-tput-driver/main.go:1088-1223 | The i-th create uses the i-th name of the thread's rounds; without a stop all are created; slots of other threads are left alone |
| ThroughputRuns.NextIsNamed | staging/kos/cmd/attachment-tput-driver/main.go:1116-1128 | With deletes at most a round behind, the slot's index is the one for the next create |
| ThroughputRuns.SelectedIsWork | staging/kos/cmd/attachment-tput-driver/main.go:1060-1068 | What a thread is given is work it can run on, with no slot twice |
| ThroughputRuns.NamesAreUnique | staging/kos/cmd/attachment-tput-driver/main.go:1088-1223 | No two creates of a whole run by whichever threads use the same name, with distinct VNIs and indices within 32 bits |
| ThroughputRuns.ShuffledSlots | staging/kos/cmd/attachment-tput-driver/main.go:951-959 | The slots of all networks, listed and shuffled twice, are all there |
| ThroughputRuns.Quota | staging/kos/cmd/attachment-tput-driver/main.go:1025 | The quota of a thread is its share of the attachments asked for |
| ThroughputRuns.RunOne | staging/kos/cmd/attachment-tput-driver/main.go:1022-1028 | A thread is given its share of the slots and its quota, runs on them, and leaves the slots of later threads where they start |
| ThroughputRuns.WholeRun | staging/kos/cmd/attachment-tput-driver/main.go:946-1030 | From the list of slots to the last thread: with distinct VNIs and indices within 32 bits no name is used twice by whichever threads, and without a stop every quota is filled |
| ThroughputRuns.ObjNamesAreDistinct | staging/kos/cmd/attachment-tput-driver/main.go:997-998 | Different VNI and index pairs are spelled differently |

## Left out

- Generated clients, informers and listers: a versioned store, FIFO notifications, a keyed work queue and arbitrary lister answers within the field selectors.
- Metrics, logging, flags, signals, HTTP and wall-clock waits; creation times are integers and random numbers parameters.
- Commands attached to interfaces (PostCreateExec, PostDeleteExec) and execution reports.
- The agent's start-up synchronisation (connectionagent.go:456-598): runs begin after it with nothing left over.
- Notifications of deletes that were missed (DeletedFinalStateUnknown), and progress under lasting ambiguity.
- Parsing of flow dumps, ListLocalIfcs and ListRemoteIfcs; the flow cookie (ovs.go:504-513), which only that parsing reads, is not a field of the flow records.
- IPv6 blocks; what a CIDR text parses to is an option, the parser belongs to the Go library.
- The sizes of the driver's networks, computed with floating point: any sizes.
- Kubernetes names and UIDs are numbers where only their identity or order matters; there is one namespace but in the subnet store.
- The external ordered set is a list; its balance and cost are not modelled, only the order, keys, ranks and values of its nodes.
- The node pointer that Find returns is the run it denotes; nodes are not shared between operations.
- vnState objects are values stored in the agent's map: the aliasing between the map and a handler that holds one is not modelled, and no handler uses a vnState after another may have changed it.
- In the agent's machine a map entry that only the worker of its attachment touches changes together with the neighbouring step of that worker.
- In the agent's machine a fabric call is one step, and fails if another interface has the VNI and address.
- AgentHandlers.ConnectionAgent.ProcessQueueItem: is about a worker nobody interferes with; interleavings are the machine's.
- OvsFabrics.RunCalls: calls come one after the other; their commands are interleaved in OvsInterleaved, where for one interface there is one call at a time.
- In the fabric the number read for a port is the device's own; a malformed answer read as 0 is not modelled.
- Updates of statuses that the API server refuses are counted as written in IpamStatus.
- IpamOneLock.OneLockPerEdition: one controller, a fixed subnet revision, no lock deleted by others, no failed API call and no update conflict, as its source promises the anticipation for; other editions make no lock meanwhile. The create call's effect and reply are one step there, as nothing but its one worker's own state depends on the reply.
- IpamSole.CacheIsExact: starts with the existing locks delivered, and an error reply to a create call means that nothing was made; IpamNoLeak has error replies to calls that made a lock.
- Lock names in the store are the canonical ones; ReleasePlan and LockNames treat arbitrary names.
- ThroughputRuns.WholeRun: index wrap-around is excluded by its condition; threads run one after the other, each on slots that no other touches; counters of 64 bits are unbounded.
