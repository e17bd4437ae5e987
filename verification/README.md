# Podmin, verified

A Dafny 4.11 model of the parts of Podmin whose correctness spans many steps, nodes or inputs, with proofs. `dafny verify dfyconfig.toml` checks the whole project.

Code that works by changing things is modelled by methods and classes that change things, each proved against a specification function or predicate; the results below are then lemmas about those specifications, most of them over whole runs.

- **NAT datapath** (`Checksum`, `Datapath`, `DatapathRuns`, `DatapathFlows`, `DatapathProbes`, `DatapathVerdicts`): the ingress program over two LRU maps. An adversary may evict entries or refuse updates between any two map operations. The incremental checksum is compared with full one's-complement recomputation (RFC 1624, RFC 8200).
- **Table compiler** (`Tables`, `TableProperties`): from a Service model to ranges in one backend array.
- **Workload certificate authority** (`Workload`, `WorkloadRotation`, `WorkloadAcceptance`, `WorkloadPromotion`, `WorkloadTrust`): rotation of the shared document by many nodes, and the trust bundle it implies. A call reads its clock once and may land its write at any later moment, so a commit may carry a reading of any age; a document is judged at readings at most five minutes behind the highest one so far. Times are nanoseconds; a certificate's year has 365 or 366 days.
- **Service snapshots** (`Wire`, `Contracts`, `Admission`, `Merge`, `MergeProperties`, `MergeOrder`, `NodeApply`, `ApplyProperties`, `ModelProperties`, `Delivery`): contracts, the leader's merge of node states, the checks every node applies, and where a packet for a Service of such a snapshot goes.
- **Coordination** (`Registry`, `RegistryEffects`, `Coordination`, `Overlays`, `CoordinationRuns`, `Publishing`, `Withdrawal`): the leader's registry, generation acquisition, publication, staleness, and runs of any number of nodes that may all believe they lead. Processes restart, and a write may land at any later moment while the object still equals what was read, whatever its writer was told.
- **Desired-state commits** (`Index`, `Deploy`, `DeployRuns`, `DeployFaults`): content-addressed payloads and the compare-and-swap loop on the index, run by any number of clients that may stop at any point, over a store that may refuse a write although nothing stands against it and may report a landed one as refused.
- **Allocators and image mirror** (`Ranges`, `Allocation`, `Subnets`, `SubnetBlocks`, `Images`): subnet allocation with exact failure conditions, and merging of OCI indexes against the check of a mirrored tag.

`Net` and `Sorting` hold shared types and facts about sorting, permutations and multisets.

Modelling choices:

- An ETag is the content of the object, so a conditional write lands exactly when the object equals what was read, even if it changed and returned in between.
- Where Go sorts with an unstable sort and ties are possible, the result is any sorted permutation.
- Address and prefix parsing, address formatting and digests are parameters, so results hold for all of them; a lemma that needs a fact about them (`Faithful`, `HexDigest`, injective VIPs as `VipsDiffer`) says so.
- Clocks, map iteration order, answers of the object store and whether the kernel or DNS accepts a change are inputs.

Properties the code does not have, with the exact condition under which it does:

- A rotation can write a document that every caller refuses at every time, in two ways. It can write a third certificate record (`WriteOverflowsExactly`, reached in `OverflowIsReachable`). And a slow call can record a publication under a clock reading from before the certificate, or so late that activation would fall after its expiry (`MisrecordIsReachable`, with perfectly synchronised clocks). `WriteAcceptedExactly` shows for one write, and `EveryDocumentAccepted` for whole runs, that these are the only ways. `TrustContinuity` asks for careful runs: a promoted issuer has 60 days and 5 minutes of life left, its promotion and a leaf's issue are at most 29 days late, and no publication is recorded early. `CarefulIsHarmless` shows that careful runs avoid both failures.
- An accepted hello that carries its session again forgets the stored state, so a replayed state can lower the session's sequence (`SequenceCanFall`); the leader sends itself such hellos every ten seconds (`internal/agent/coordinator/coordinator.go:180-216`). `SequenceFallsExactly` shows that nothing else lowers it.
- A session belongs to the last node that said hello under it, but it is ended by every registered node whose hello carried it: if two do, the later one loses it as soon as the earlier one changes its session or expires (`SharedSessionIsLost`). `ApartExactly` says exactly when two hellos come to carry one session, and `SessionIsItsNodes` that otherwise a session ends only with its own node.
- The leader compares ports through NUL-joined text. A port name that contains a NUL lets an endpoint through (`LeaderAcceptsShifted`) whose Service every node then refuses (`NulIsRefusedByNodes`). `LeaderCheckSufficesExactly` shows that this is the only way.
- Publishing one image tag can make another tag incomplete: `OtherTagCanBreak`, and exactly when in `OtherTagSurvivesExactly`.
- A write that landed can be reported as refused, as when a response is lost and the request is sent again; the loop then applies its mutation once more (`internal/cli/deploy/deploy.go:78-79`). An operation can so commit twice and undo what another did in between (`DeleteCanBeUndone`). `CommitsTwiceExactly` says exactly when it commits more than once. `Linearizable` holds all the same: the index is always the replay of each operation once, at its last commit.
- A payload write answered with a conflict is taken to mean that the payload is there (`internal/cli/deploy/deploy.go:28-36`), but the store also answers so after a conflicting request that left nothing (`internal/cloud/aws/objects.go:94-98`). A committed reference can then dangle (`DanglingIsReachable`); `EveryCommittedIndexIsSound` shows that this is the only way.
- In the probe loop a refused reverse insert skips the step to the next port, so that port is looked up again (`RefusedInsertIsRetried`). `LookedPortsDistinctExactly` shows that the ports looked up are pairwise different if and only if no insert but one at the last lookup is refused.
- A snapshot that a node loads at start keeps the stamp of the durable record but has no backends, so it differs from a record that has some (`LoadedDiffers`). Nodes of one stamp therefore agree in full only while backends are present (`AcceptedAgree`).
- With repeated names the /64 allocator gives each repetition a range of its own, so it can fail although there are enough for the names (`RepeatCanStarve`); `AllocateNodeGroups` states exactly when. This is about the function: its one caller takes NodeGroup names from map keys and prefixes the distinct zones with `nat64:`, so it never repeats a name (`internal/cloud/aws/compute.go:184-188`, `:295`, `:365-367`).

## Model

| member | source | states |
|---|---|---|
| Checksum.ChecksumReplace | internal/agent/dataplane/dataplane.bpf.c:56-73 | the loop over the address in 16-bit groups computes exactly the update `Replace`, within 32 bits |
| Checksum.TwoFoldsSuffice | internal/agent/dataplane/dataplane.bpf.c:59-70 | for all inputs the raw sum fits 32 bits and two folds leave at most 16 bits |
| Checksum.CoveredIsOctets | internal/agent/dataplane/dataplane.bpf.c:61-66 | the 16-bit groups that are summed are the pseudo-header's thirty-two address octets in the order they are sent, most significant first |
| Checksum.ReplaceIsResidue | internal/agent/dataplane/dataplane.bpf.c:56-73 | one update keeps checksum plus address words plus port unchanged modulo 65535 |
| Checksum.TranslateKeepsSum | internal/agent/dataplane/dataplane.bpf.c:104-110 | the two successive updates keep the whole covered sum unchanged modulo 65535, and the checksum is never zero |
| Checksum.VerifiesIsResidue | internal/agent/dataplane/dataplane.bpf.c:171-174 | the receiver's end-around-carry test holds exactly for positive multiples of 65535 |
| Checksum.TranslatePreservesValidity | internal/agent/dataplane/dataplane.bpf.c:171-174 | a translated checksum verifies exactly when the original did, and from a correct one it equals full recomputation with 0 sent as 0xffff |
| Checksum.TranslateRoundTrip | internal/agent/dataplane/dataplane.bpf.c:104-109 | translating there and back restores every nonzero checksum and the whole segment |
| Datapath.Program.constructor | internal/agent/dataplane/dataplane.bpf.c:76-83 | the maps start empty over one published table |
| Datapath.Program.Swap | internal/agent/dataplane/activation_linux.go:43-49 | publishing a new table leaves both flow maps as they were |
| Datapath.Program.RewritePacket | internal/agent/dataplane/dataplane.bpf.c:171-175 | addresses, ports and checksum rewritten as `Rewrite` says |
| Datapath.Program.FindPort | internal/agent/dataplane/dataplane.bpf.c:124-150 | the bounded probe updates the maps in place exactly as `Probe`, under any eviction between map operations |
| Datapath.Program.WriteForward | internal/agent/dataplane/dataplane.bpf.c:145-146 | the forward entry is written and read back, and the reverse claim undone when the write is refused |
| Datapath.Program.Send | internal/agent/dataplane/dataplane.bpf.c:153-175 | repair of one-sided eviction, ownership test and translation, as `Repair` |
| Datapath.Program.Forward | internal/agent/dataplane/dataplane.bpf.c:117-175 | lookup or creation of the forward entry, then sending, as `Route` |
| Datapath.Program.PodminIngress | internal/agent/dataplane/dataplane.bpf.c:76-176 | the whole program computes `Ingress`: verdict, packet and both maps |
| DatapathRuns.StepKeeps | internal/agent/dataplane/dataplane.bpf.c:103-175 | any packet, eviction elsewhere or table swap leaves a standing reverse entry unchanged |
| DatapathRuns.RunKeeps | internal/agent/dataplane/dataplane.bpf.c:103-175 | the same over any run |
| DatapathRuns.ForwardOwnsReply | internal/agent/dataplane/dataplane.bpf.c:117-175 | from any state and under any eviction, a forwarded packet's reply tuple is mapped back to that very flow, and its checksum verifies exactly when the original did |
| DatapathRuns.ReplyReturns | internal/agent/dataplane/dataplane.bpf.c:100-110 | a reply over a standing entry leaves towards the client as if it came from the VIP |
| DatapathRuns.ReplyUndoesForward | internal/agent/dataplane/dataplane.bpf.c:100-175 | translating a reply undoes the forward translation after any run of packets, evictions and table swaps that spares that one reverse entry |
| DatapathFlows.OuterTuplesExclusive | internal/agent/dataplane/dataplane.bpf.c:117-170 | while no reverse entry is evicted, two different flows never leave under one outer tuple, over whole runs |
| DatapathFlows.ProbePortsDistinct | internal/agent/dataplane/dataplane.bpf.c:126-149 | for every 32-bit hash, wrapping ones included, the 32 probe positions have pairwise different ports in 30000..32767 |
| DatapathProbes.ProbeEndsAtLastLook | internal/agent/dataplane/dataplane.bpf.c:126-149 | a probe looks up at most as many ports as attempts are left, and the port it settles on is the last one it looked up |
| DatapathProbes.LookedPortsDistinctExactly | internal/agent/dataplane/dataplane.bpf.c:126-149 | under any eviction and refusal, the ports a probe looks up are pairwise different if and only if no insert is refused before its last lookup |
| DatapathProbes.RefusedInsertIsRetried | internal/agent/dataplane/dataplane.bpf.c:138-146 | with empty maps and only the first insert refused, the probe looks up one port twice, for every hash |
| DatapathFlows.FlowsAreSticky | internal/agent/dataplane/dataplane.bpf.c:117-170 | with one table, standing reverse entries and accepted updates, every packet of a flow leaves under the same backend and source port, however often its forward entry is evicted |
| DatapathFlows.DroppedOnlyWhenFull | internal/agent/dataplane/dataplane.bpf.c:117-150 | a packet that is not itself a reply, of a flow of a service with backends, is dropped if and only if all 32 candidate tuples belong to other flows, provided forward entries are settled and nothing is evicted or refused during the packet |
| DatapathFlows.DroppedInRunsOnlyWhenFull | internal/agent/dataplane/dataplane.bpf.c:117-150 | the same after every run from empty maps with one table, standing reverse entries and accepted updates, where forward entries are always settled |
| DatapathVerdicts.VerdictsExactly | internal/agent/dataplane/dataplane.bpf.c:76-116 | under any interference, exactly which packets pass untouched, which are shot for their header, their protocol or an empty Service, and how a reply leaves; the maps change by eviction alone |
| DatapathVerdicts.KnownFlowExactly | internal/agent/dataplane/dataplane.bpf.c:117-175 | from any maps, without interference, a packet of a flow with a translation goes out under it, its lost reverse entry put back, if and only if the reply tuple is the flow's or nobody's; otherwise the translation is forgotten and the packet shot |
| DatapathVerdicts.NewFlowExactly | internal/agent/dataplane/dataplane.bpf.c:117-170 | from any maps, without interference, a new flow gets the backend its hash picks and the first of 32 source ports open to it, with both entries; without an open port the packet is shot and nothing changes |
| DatapathVerdicts.HashesReachEveryBackend | internal/agent/dataplane/dataplane.bpf.c:121-122 | the hashes below the count pick every backend of a Service's range in turn |
| Tables.PortEntry | internal/agent/dataplane/dataplane.go:158-170 | a port is refused exactly when some backend address or port is bad, else becomes one entry with its backends sorted |
| Tables.CollectServices | internal/agent/dataplane/dataplane.go:138-172 | the scan over Services accepts exactly when every VIP and slot is well formed, keys are distinct and both maps fit |
| Tables.Layout | internal/agent/dataplane/dataplane.go:174-178 | laying entries out in key order gives each the range after the previous one |
| Tables.Compile | internal/agent/dataplane/dataplane.go:122-180 | the compiler accepts exactly the acceptable snapshots and returns the tables of their sorted entries |
| TableProperties.PortRange | internal/agent/dataplane/dataplane.go:164-178 | each port's range is in bounds and is a sorted permutation of that port's own backends |
| TableProperties.RangesPartition | internal/agent/dataplane/dataplane.go:173-178 | ranges of different keys do not overlap, together they cover the backend array, and there are no other keys |
| TableProperties.LookupsLandOnOwnBackends | internal/agent/dataplane/dataplane.go:183-194 | for every hash both the Go lookup and the datapath's offset plus hash modulo count land on that port's own backend, and find none exactly when it has none |
| TableProperties.CompileIsCanonical | internal/agent/dataplane/dataplane.go:122-180 | reordering Services, ports or backends changes neither acceptance nor the tables |
| TableProperties.AcceptedExactly | internal/agent/dataplane/dataplane.go:122-172 | a snapshot compiles if and only if it is empty, or its addresses are IPv6 outside ::ffff:0:0/96, every port has a number, next header 6 or 17 and sound backends, no two ports share address, number and protocol, and there are at most 65536 of each |
| Workload.ValidateState | internal/agent/workload/workload.go:407-461 | the checks accept exactly the documents `Accepts` describes |
| Workload.PruneState | internal/agent/workload/workload.go:511-523 | pruning drops exactly the records whose retention is over, in order, and reports a change exactly when it dropped one |
| Workload.RecoverState | internal/agent/workload/workload.go:157-186 | an expired issuer: a usable pending one is promoted once published, else a new one is made |
| Workload.AdvanceState | internal/agent/workload/workload.go:187-207 | a pending issuer: its publication is recorded once and it is promoted after its activation time |
| Workload.RotateState | internal/agent/workload/workload.go:148-224 | one rotation step on the decoded document computes the plan `Attempted` |
| Workload.Ensure | internal/agent/workload/workload.go:126-236 | at most eight attempts, each write conditional on exactly what was read, a further one only after a conflict |
| Workload.LoopExactly | internal/agent/workload/workload.go:126-236 | the loop succeeds if and only if its last write was stored or, after conflicts only, an attempt had nothing to write; it gives up after eight conflicts |
| Workload.IssuingExactly | internal/agent/workload/workload.go:438-443 | an accepted document is accepted for issuing if and only if its issuer is valid now |
| Workload.Authority.constructor | internal/agent/workload/workload.go:91-96 | an authority starts with nothing installed |
| Workload.Authority.Sync | internal/agent/workload/workload.go:289-309 | installs the durable document exactly when its issuer is valid now, with the whole document's bundle; the revision moves exactly when the document does |
| Workload.Authority.Issue | internal/agent/workload/workload.go:345-390 | a leaf is signed by the installed issuer, lasts a day at most and never outlives its issuer |
| WorkloadRotation.SoundIsAccepted | internal/agent/workload/workload.go:407-461 | a sound document is accepted by every caller within the clock skew |
| WorkloadRotation.RotateSound | internal/agent/workload/workload.go:126-236 | every document written from a sound one is sound, and the current generation never goes back, whatever the age of the clock reading, if a promoted issuer has 60 days and 5 minutes of life left and no publication is recorded from before the certificate |
| WorkloadRotation.BootstrapSound | internal/agent/workload/workload.go:129-139 | the first document is sound |
| WorkloadRotation.WriteOverflowsExactly | internal/agent/workload/workload.go:208-220 | a write has a third record if and only if a retired record is still retained beside an issuer that is due for renewal; every caller refuses such a document |
| WorkloadAcceptance.WriteAcceptedExactly | internal/agent/workload/workload.go:126-236 | a document written from an accepted one, with a clock reading of any age, is accepted by every later caller if and only if the write neither overflows nor misrecords a publication; otherwise every caller refuses it at every time |
| WorkloadAcceptance.OverflowIsReachable | internal/agent/workload/workload.go:126-236 | a concrete run, with every step computed, from nothing to an accepted document whose next write has three records and is refused by every caller |
| WorkloadAcceptance.MisrecordIsReachable | internal/agent/workload/workload.go:187-207 | a concrete run with synchronised clocks in which a call six minutes old records a publication before the certificate began, and every caller refuses the result |
| WorkloadRotation.PromotionIsGated | internal/agent/workload/workload.go:174-207 | a generation becomes current only after the external object was read back equal to the whole bundle, old issuer included, and while the old issuer is valid only ten minutes after the recorded publication |
| WorkloadPromotion.WaitingExactly | internal/agent/workload/workload.go:187-207 | with a valid issuer, a waiting successor is promoted if and only if its activation time has passed and publication is off or recorded and read back whole; its certificate then issues; otherwise exactly what is written |
| WorkloadPromotion.RenewsExactly | internal/agent/workload/workload.go:208-224 | a valid issuer without a waiting successor gets one if and only if at most 30 days are left; a retired record goes after 30 days and 5 minutes; otherwise nothing is written |
| WorkloadPromotion.RecoversExactly | internal/agent/workload/workload.go:157-186 | after expiry a valid successor, found or made, is promoted at once if and only if publication is off or succeeded and was read back whole, and the certificate that then issues is valid now; otherwise exactly what is written |
| WorkloadTrust.StepKeepsInvariant | internal/agent/workload/workload.go:126-236 | careful commits, installs, issues and clock readings of any nodes keep the trust invariant, with commits under readings of any age unless they promote |
| WorkloadTrust.RunKeepsInvariant | internal/agent/workload/workload.go:126-236 | the same over any run |
| WorkloadTrust.EveryDocumentAccepted | internal/agent/workload/workload.go:407-480 | after every run, with clock readings of any age, the durable document is accepted by every later caller if and only if no commit overflowed it or misrecorded a publication, and then has one or two records with rising generations; otherwise every caller refuses it for ever |
| WorkloadTrust.GenerationNeverFalls | internal/agent/workload/workload.go:126-236 | in every run the document never disappears and its current generation never goes back |
| WorkloadTrust.CarefulIsHarmless | internal/agent/workload/workload.go:126-236 | every careful run avoids both ways of writing a refused document |
| WorkloadTrust.TrustContinuity | internal/agent/workload/workload.go:289-390 | at every moment of every careful run the certificate that signed each unexpired leaf is in the durable bundle |
| Wire.VipIsPlain | internal/agent/dataplane/dataplane.go:113-119 | a derived VIP lies in fd50:6f64:6d69::/64 and is never an IPv4-mapped address |
| Wire.DelegatedIsPlain | internal/agent/coordinator/coordinator.go:82-84 | no address inside a valid delegated prefix is IPv4-mapped |
| Wire.IdentityUnique | internal/agent/coordinator/coordinator.go:560-571 | the identity text of a valid namespace and name determines both, whatever the other pair is |
| Wire.FQDNUnique | internal/agent/service/controller.go:520-530 | a fully qualified name determines name and namespace |
| Wire.PortKeyUnique | internal/agent/service/controller.go:208-217 | two ports with one comparison key are equal if one of them has no NUL in its name and protocol |
| Wire.PortKeyReadsBack | internal/agent/service/controller.go:208-217 | two ports with one comparison key are equal if neither protocol contains a NUL, whatever the names |
| Contracts.ValidatePorts | internal/agent/service/controller.go:504-514 | ports are accepted exactly when each is in range and no two listen on one protocol and port |
| Contracts.ValidateContract | internal/agent/service/controller.go:476-517 | comparing each identity with the previous one decides exactly the whole contract: valid parts and strictly rising identities |
| Contracts.ValidateEndpoint | internal/agent/service/controller.go:192-218 | an endpoint is accepted exactly when its Service is in the contract, its address is global, and its ports agree |
| Contracts.ValidateNodeState | internal/agent/service/controller.go:165-221 | a node state is accepted exactly when all its endpoints are, their identities are distinct and there are at most 10000 |
| Contracts.LookupExact | internal/agent/service/controller.go:169-201 | in a rising contract the index finds a Service exactly by its identity |
| Admission.PortsExactly | internal/agent/service/controller.go:504-514 | ports are admitted if and only if all numbers are from 1 to 65535, protocols TCP or UDP, and no two listen on one number of one protocol |
| Admission.OfferedPortsExactly | internal/agent/service/controller.go:204-218 | with NUL-free names, an endpoint's ports are admitted if and only if they are the Service's own ports in any order |
| Admission.EndpointExactly | internal/agent/service/controller.go:192-218 | with NUL-free names, an endpoint is admitted if and only if it has the NodeGroup, a pod, a global address and exactly the ports of the contract's Service of its namespace and name |
| Admission.EndpointIdExactly | internal/agent/service/controller.go:199-203 | without NULs two endpoints clash if and only if namespace, Service, pod and address agree |
| Admission.ClusterIsAdmitted | internal/agent/service/controller.go:476-517 | a contract with a TCP and a UDP port at the ends of the number range, and a state with its endpoint, are admitted |
| Admission.Bounds | internal/agent/service/controller.go:165-168 | at most 10000 Services or endpoints and only a digest of 128 hexadecimal digits are admitted |
| Admission.NamesExactly | internal/manifest/manifest.go:34-35 | a namespace is one letter or digit, or two around at most 61 letters, digits and dashes; an identifier is one of at most 32 characters that begins with a letter |
| Admission.DelegatedExactly | internal/agent/coordinator/coordinator.go:82-84 | a delegated prefix is a /80 with six zero bytes at its end that is not all zero, multicast or link-local; the other tests decide nothing more |
| Admission.GlobalExactly | internal/agent/service/controller.go:202-204 | an endpoint address is global exactly outside ::, ::1, ff00::/8, fe80::/10 and the mapped forms of 127.0.0.0/8, 224.0.0.0/4 and 169.254.0.0/16 |
| Merge.GatherBackends | internal/agent/service/controller.go:321-330 | the claims of one slot, in peer order |
| Merge.CollectSlots | internal/agent/service/controller.go:310-315 | each NodeGroup contributes the sorted contract of its last hello |
| Merge.FillService | internal/agent/service/controller.go:321-337 | a Service gets exactly its claims as backends, sorted |
| Merge.FillServices | internal/agent/service/controller.go:309-338 | Services are assembled unless two NodeGroups own one identity, and refused exactly then |
| Merge.BuildClusterSnapshot | internal/agent/service/controller.go:263-343 | the merge fails exactly when two NodeGroups own one identity, else the snapshot is `Built`: stamped, digested, sorted, each Service with exactly its claims |
| MergeProperties.OwnershipHolds | internal/agent/coordinator/coordinator.go:302-312 | on every registry the coordinator can reach, the merge never fails on ownership |
| MergeProperties.ClaimMatchesOnce | internal/agent/service/controller.go:321-330 | each live endpoint matches exactly one Service |
| MergeProperties.EndpointsConserved | internal/agent/service/controller.go:263-343 | conservation: the multiset of all backends over all Services equals the multiset of endpoints of all live nodes |
| MergeProperties.IdentitiesDistinct | internal/agent/service/controller.go:309-340 | Service identities of a merged snapshot are pairwise distinct |
| MergeOrder.PeerOrderOnlyMovesTies | internal/agent/service/controller.go:263-343 | listing the peers in another order changes nothing but the order of backends that compare equal |
| MergeOrder.DisjointPrefixesFixOrder | internal/agent/service/controller.go:263-343 | with disjoint delegated prefixes peer order changes nothing at all |
| NodeApply.ChooseServices | internal/agent/service/controller.go:391-414 | remote Services and matching local ones are kept, missing local ones added, sorted |
| NodeApply.ConvertPort | internal/agent/service/controller.go:438-462 | a port is refused exactly when some backend does not serve it, else converted with all its backends |
| NodeApply.ConvertService | internal/agent/service/controller.go:419-464 | a Service is refused exactly when a check fails, else converted |
| NodeApply.Prepare | internal/agent/service/controller.go:365-473 | a snapshot passes exactly when every chosen Service does, and then gives the model and the DNS table |
| ApplyProperties.KeysCovered | internal/agent/service/controller.go:204-218 | comparing counts and one direction of membership gives equal key sets |
| ApplyProperties.NulBreaksTargets | internal/agent/service/controller.go:204-218 | for any valid ports with a NUL in a name there are endpoint ports that pass the leader's comparison without serving every port |
| ApplyProperties.LeaderAcceptsShifted | internal/agent/service/controller.go:192-218 | the leader accepts such an endpoint wherever it accepts one with the contract's own ports |
| ApplyProperties.NulIsRefusedByNodes | internal/agent/service/controller.go:418-465 | a snapshot built from a consistent registry with such an endpoint is refused by every node that keeps its Service |
| ApplyProperties.LeaderCheckSufficesExactly | internal/agent/service/controller.go:204-218 | every endpoint the leader's port comparison accepts serves every port if and only if no port name contains a NUL |
| ApplyProperties.OverlayIsWell | internal/agent/service/controller.go:391-414 | after the choice every local desired Service is present, no other Service of the local NodeGroup is, and identities are distinct |
| ApplyProperties.MergedServiceApplies | internal/agent/service/controller.go:418-465 | each Service of a merged snapshot passes every per-Service check |
| ApplyProperties.ProducerAndCheckerAgree | internal/agent/service/controller.go:365-473 | a snapshot built from a reachable registry with NUL-free port names passes every check on every node, whatever that node's own valid contract |
| ModelProperties.NamesMatchVips | internal/agent/service/controller.go:415-470 | DNS names and dataplane VIPs match one to one, and there are no other names |
| ModelProperties.ModelAcceptedExactly | internal/agent/service/controller.go:416-469 | the table compiler accepts a checked model exactly when it is empty, or within capacity with plain IPv6 addresses for the node and every backend of a Service with ports |
| ModelProperties.PublishedCompilesExactly | internal/agent/coordinator/coordinator.go:343-349 | a snapshot built from a consistent registry with NUL-free port names compiles on every node exactly when it is within capacity and the node address is plain: backends inside delegated prefixes are always plain |
| Delivery.KeysExactly | internal/agent/service/controller.go:438-462 | the published table has an address, port and protocol if and only if a Service with that VIP has a port of that number, TCP for next header 6 and UDP for 17 |
| Delivery.VipsExactly | internal/agent/dataplane/activation_linux.go:75-88 | the VIPs the program knows are exactly those of Services with ports |
| Delivery.BackendsExactly | internal/agent/service/controller.go:443-462 | under a Service port's key the table holds exactly the addresses and target ports its endpoints offer for that port, each as often as offered |
| Delivery.PacketReachesOwnPod | internal/agent/dataplane/dataplane.bpf.c:111-175 | from snapshot to packet: a packet that opens a flow to a Service port goes to an address and port that one of that Service's own endpoints offers for it, and is shot exactly when nothing is offered or no source port is open |
| Delivery.FirstPacketIsDelivered | internal/agent/dataplane/dataplane.bpf.c:111-175 | with empty flow maps the first packet to a Service port with an endpoint is delivered to such a pod |
| Registry.StepConsistent | internal/agent/coordinator/coordinator.go:283-376 | every hello, state, drain, expiry, acquisition and local drain keeps the registry consistent: live sessions, agreeing NodeGroups, disjoint ownership, states under their hello's digest and inside its prefix |
| Registry.RegistryAlwaysConsistent | internal/agent/coordinator/coordinator.go:283-410 | the same after any sequence of operations from the empty registry |
| Registry.SequenceNeverFalls | internal/agent/coordinator/coordinator.go:350-357 | over any run in which no accepted hello carries the session again, replayed or reordered states never lower its sequence, and while it is registered its node and hello stay the same |
| Registry.SequenceFallsExactly | internal/agent/coordinator/coordinator.go:283-376 | one operation lowers or forgets a session's sequence if and only if it is an accepted hello that carries the session again |
| Registry.RehelloLetsReplayIn | internal/agent/coordinator/coordinator.go:313-357 | after such a hello any valid state of the session is stored, however low its sequence |
| Registry.SequenceCanFall | internal/agent/coordinator/coordinator.go:192-216 | with any valid hello sent twice: the stored sequence goes from a high one to a lower replayed one |
| Registry.PeersConsistent | internal/agent/coordinator/coordinator.go:425-433 | a consistent registry, listed in any order, satisfies what the merge needs |
| Registry.RegistryFixesSnapshot | internal/agent/coordinator/coordinator.go:425-443 | with disjoint delegated prefixes the built snapshot is a function of the registry: every order in which the map yields its nodes gives the same one |
| Registry.BackendsInsidePrefixes | internal/agent/coordinator/coordinator.go:343-349 | every merged backend is an endpoint of a registered node and lies inside that node's delegated prefix |
| Registry.LeasesHold | internal/agent/coordinator/coordinator.go:394-404 | after any run that ends in an expiry, each registered node's state, or its hello if it has none, is one the leader accepted within the lease before that expiry |
| RegistryEffects.HelloExactly | internal/agent/coordinator/coordinator.go:283-321 | an admissible hello that no other node contradicts registers its node afresh under its session, ending its previous one, and nothing else changes; any other hello changes nothing |
| RegistryEffects.StateExactly | internal/agent/coordinator/coordinator.go:322-358 | a valid state of a registered session becomes its node's state, heard now, if and only if the session has none or one of a lower sequence; another digest removes node and session; every other state changes nothing; and which answer each gets |
| RegistryEffects.DrainExactly | internal/agent/coordinator/coordinator.go:367-374 | a drain removes its session and that session's node, and nothing else |
| RegistryEffects.LocalDrainExactly | internal/agent/coordinator/transport.go:109-116 | the leader's own drain removes its sessions, and its node if it had any |
| RegistryEffects.ExpiryExactly | internal/agent/coordinator/coordinator.go:389-404 | expiry keeps a node if and only if it was heard within 35 seconds, and ends exactly the sessions the others said hello under |
| RegistryEffects.SessionIsItsNodes | internal/agent/coordinator/coordinator.go:313-317 | while no two registered hellos carry one session, a session is its node's alone |
| RegistryEffects.ApartExactly | internal/agent/coordinator/coordinator.go:283-376 | an operation keeps it so if and only if it is not an accepted hello under another registered node's session |
| RegistryEffects.SharedSessionIsLost | internal/agent/coordinator/coordinator.go:313-317 | a session that two registered hellos carry ends when the earlier node changes its session or expires |
| Coordination.OverlayLocalContract | internal/agent/coordinator/coordinator.go:540-557 | the scan computes the overlay: other NodeGroups' unclaimed Services and the local contract, sorted |
| Coordination.ValidateSnapshotOwnership | internal/agent/service/controller.go:346-362 | accepts exactly snapshots whose identities are pairwise distinct |
| Coordination.ContractsOverlap | internal/agent/coordinator/coordinator.go:560-571 | reports exactly whether two contracts share an identity |
| Coordination.Coordinator.constructor | internal/agent/coordinator/coordinator.go:71-79 | a coordinator starts with an empty registry and nothing accepted |
| Coordination.Coordinator.FindConflict | internal/agent/coordinator/coordinator.go:302-312 | some other node is incompatible with the hello |
| Coordination.Coordinator.HandleHello | internal/agent/coordinator/coordinator.go:283-321 | a hello changes the registry exactly as `HelloStep` |
| Coordination.Coordinator.HandleNodeState | internal/agent/coordinator/coordinator.go:322-358 | a node state changes the registry exactly as `StateStep` |
| Coordination.Coordinator.HandleDrain | internal/agent/coordinator/coordinator.go:367-374 | a drain removes its session and that session's node |
| Coordination.Coordinator.ExpireLeases | internal/agent/coordinator/coordinator.go:394-404 | expiry removes the lapsed nodes and their sessions, and reports whether there were any |
| Coordination.Coordinator.DrainLocal | internal/agent/coordinator/transport.go:109-116 | the leader's own drain removes its sessions and its node |
| Coordination.Coordinator.Apply | internal/agent/coordinator/coordinator.go:470-494 | a snapshot is accepted exactly when its stamp is newer and every check passes; otherwise nothing changes |
| Coordination.Coordinator.ClearStale | internal/agent/coordinator/coordinator.go:497-518 | after the lease a follower applies its snapshot without backends and turns stale |
| Coordination.Coordinator.ApplyLocalTransition | internal/agent/coordinator/coordinator.go:521-537 | a local contract change is applied over the accepted snapshot, without backends when stale; the snapshot stays |
| Coordination.Coordinator.CompareAndSwap | internal/agent/coordinator/coordinator.go:222-255 | the writes issued and the one won, a further one only after a conflict |
| Coordination.Coordinator.Acquire | internal/agent/coordinator/coordinator.go:219-268 | a won generation empties the registry and is applied; otherwise nothing changes |
| Coordination.Coordinator.Publish | internal/agent/coordinator/coordinator.go:413-467 | a publication writes only a snapshot built from the listed registry that passes all three fences, and applies it only when stored |
| Coordination.AcquireExactly | internal/agent/coordinator/coordinator.go:222-262 | an acquisition is won if and only if its last write was stored after conflicts only, and what is won is that write; it gives up after five conflicts |
| Overlays.OverlayExactly | internal/agent/coordinator/coordinator.go:540-557 | the overlay has exactly the local contract and, unchanged, the Services of other NodeGroups it does not claim |
| Overlays.AcquisitionKeepsIdentities | internal/agent/coordinator/coordinator.go:222-243 | a new generation has exactly the local contract and, without backends, the Services of other NodeGroups it does not claim |
| Overlays.ChosenExactly | internal/agent/service/controller.go:391-414 | a node applies exactly the other NodeGroups' unclaimed Services with their backends, the snapshot's version of each unchanged local Service, and its own version of the rest |
| CoordinationRuns.ChosenBackends | internal/agent/coordinator/coordinator.go:470-557 | what a node applies never has a backend its snapshot did not have |
| CoordinationRuns.StepKeeps | internal/agent/coordinator/coordinator.go:87-557 | every step of any node, and every late landing of a write, keeps the world invariant |
| CoordinationRuns.RunKeeps | internal/agent/coordinator/coordinator.go:87-557 | the same over any run of any number of would-be leaders |
| CoordinationRuns.AcquireRequestsLegal | internal/agent/coordinator/coordinator.go:222-251 | every conditional write of an acquisition is one generation above what that attempt read |
| CoordinationRuns.DurableStampsRise | internal/agent/coordinator/coordinator.go:219-467 | the durable object only ever moves to a strictly newer generation and revision, and one generation has one leader |
| CoordinationRuns.SupersededWritesNeverLand | internal/agent/coordinator/coordinator.go:446-461 | once a stamp is durable, no write of a lower or equal stamp can take effect |
| CoordinationRuns.BroadcastsAreDurable | internal/agent/coordinator/coordinator.go:459-466 | nothing is broadcast that was not durable first |
| CoordinationRuns.AcceptedStampsRise | internal/agent/coordinator/coordinator.go:470-494 | a running process replaces its snapshot only by a strictly newer one |
| CoordinationRuns.AcceptedAgree | internal/agent/coordinator/coordinator.go:413-494 | nodes that hold snapshots of one generation agree on its leader, and two of one stamp that still have backends are equal |
| CoordinationRuns.LoadedDiffers | internal/agent/coordinator/coordinator.go:87-118 | a node that loads a durable record with backends holds a different snapshot under the same stamp |
| CoordinationRuns.AppliedBackendsAreLeased | internal/agent/coordinator/coordinator.go:283-557 | every backend any node applies was announced by a registered node, inside its delegated prefix, to the leader that durably published the very snapshot the node accepted |
| CoordinationRuns.StaleStaysWithdrawn | internal/agent/coordinator/coordinator.go:497-537 | withdrawn backends stay withdrawn, across local changes, until a strictly newer snapshot is accepted |
| Publishing.AcquisitionLands | internal/agent/coordinator/coordinator.go:219-268 | from every reachable state an idle node can take the next generation, and then leads with an empty registry |
| Publishing.PublicationLands | internal/agent/coordinator/coordinator.go:413-467 | a node that leads can publish: its registry becomes durable one revision higher, is applied and broadcast, and the node still leads |
| Publishing.EveryRoundLands | internal/agent/coordinator/coordinator.go:413-467 | for any rounds of messages there is a run in which every publication lands, one revision above the one before, built from exactly the messages so far |
| Publishing.LeaderPublishesEveryRound | internal/agent/coordinator/coordinator.go:219-467 | from every reachable state: an acquisition at revision zero, then any number of publications, the k-th at revision k |
| Withdrawal.WithdrawsExactly | internal/agent/coordinator/coordinator.go:497-518 | a node withdraws if and only if it holds a snapshot, has not withdrawn and accepted nothing for more than 35 seconds |
| Withdrawal.WithdrawalKeepsIdentities | internal/agent/coordinator/coordinator.go:497-518 | a withdrawal leaves exactly the identities, the local contract's and the others' unclaimed ones, without any backend, and the accepted snapshot |
| Withdrawal.LocalChangeExactly | internal/agent/coordinator/coordinator.go:521-537 | a local change replaces exactly this NodeGroup's Services and keeps the others with their backends, unless withdrawn |
| Withdrawal.AttemptWritesExactly | internal/agent/coordinator/coordinator.go:222-245 | an acquisition attempt writes if and only if the object could be read and the candidate names no identity twice; over distinct identities with a valid contract it always does |
| Index.FilenameIsLast | internal/manifest/index.go:182-187 | what follows the last slash is the last part of the split path |
| Index.PodObjectExactly | internal/manifest/index.go:172-179 | a Pod reference is accepted exactly when it is the content address of some digest under that NodeGroup |
| Index.ServiceIdentityExactly | internal/manifest/index.go:93-102 | a Service reference parses to a namespace and name exactly when it is their content address for some digest |
| Index.DeploymentKeyRoundTrip | internal/manifest/index.go:80-90 | deployment keys and identities are inverse, and nothing else parses |
| Index.IdentityTextUnique | internal/manifest/index.go:93-102 | two Service references clash exactly when namespace and name agree |
| Index.CheckEntry | internal/manifest/index.go:64-75 | one entry is admitted exactly when it is well formed and its Service identity is new |
| Index.ParseIndex | internal/manifest/index.go:46-78 | the scan accepts exactly the valid indexes, in whatever order the map is walked |
| Deploy.MakeCandidate | internal/cli/deploy/deploy.go:60-77 | one attempt's write: the mutation of what was read, if both are valid |
| Deploy.MutateIndex | internal/cli/deploy/deploy.go:57-84 | at most sixteen conditional writes, a further one only after a conflict |
| Deploy.LoopExactly | internal/cli/deploy/deploy.go:57-84 | the loop succeeds if and only if the last write it issued was answered as stored after conflicts only; each write is its own attempt's; it gives up after sixteen conflicts |
| Deploy.StorePayloads | internal/cli/deploy/deploy.go:27-38 | payloads are stored in order, an existing one counting as stored |
| Deploy.Commit | internal/cli/deploy/deploy.go:23-54 | nothing is written for bad names, and the index only after every payload |
| Deploy.MutationAcceptedExactly | internal/cli/deploy/deploy.go:39-42 | an apply on a valid index is refused exactly when its Service is malformed or another deployment claims it; a delete never is |
| DeployRuns.UploadAddressed | internal/cli/deploy/deploy.go:27-37 | whatever the names, a payload is stored under its own digest |
| DeployRuns.StepKeeps | internal/cli/deploy/deploy.go:23-84 | every step of any client keeps the run invariant |
| DeployRuns.Linearizable | internal/cli/deploy/deploy.go:57-84 | although a value may leave and return and a landed write may be reported as refused, the stored index is always the one-at-a-time replay of the operations that committed, each once at its last commit; all commits of an operation lie in its own interval, and a success is its last commit |
| DeployRuns.RealTimeOrder | internal/cli/deploy/deploy.go:57-84 | an operation that begins after another has returned makes all its commits after all commits of the other |
| DeployRuns.NoLostUpdate | internal/cli/deploy/deploy.go:57-84 | what a successful operation did is in the stored index unless a later commit touched the same deployment |
| DeployFaults.EveryCommittedIndexIsSound | internal/manifest/index.go:37-78 | every index ever committed is valid with unique Service identities, and a reference in it resolves to a stored body that verifies, unless its payload was refused while absent and was neither there before nor stored in the run, and only then |
| DeployFaults.NothingMissing | internal/cli/deploy/deploy.go:27-37 | in a run in which no payload is refused while absent, every reference of every committed index resolves |
| DeployFaults.DanglingIsReachable | internal/cli/deploy/deploy.go:27-42 | for any apply without a Service, a run in which its payload is refused while absent commits an index whose reference does not resolve |
| DeployFaults.CommitsCountedExactly | internal/cli/deploy/deploy.go:57-84 | an operation commits exactly as often as its landed writes were reported as refused, and once more if another of its writes landed |
| DeployFaults.CommitsTwiceExactly | internal/cli/deploy/deploy.go:78-79 | an operation commits more than once if and only if a landed write of it was reported as refused and another of its writes landed too |
| DeployFaults.DeleteCanBeUndone | internal/cli/deploy/deploy.go:57-84 | for any apply without a Service, a run in which its first write is reported as refused, a delete then succeeds, and the repeated apply brings the deployment back |
| DeployFaults.ExhaustionMeansProgress | internal/cli/deploy/deploy.go:59-83 | each of the sixteen conflicts of an operation that gave up is accounted for: a commit of another operation in its interval, a refusal without a change, or a landed write of its own reported as refused |
| DeployRuns.WritesAreMutations | internal/cli/deploy/deploy.go:60-78 | every write the loop issues is the mutation of exactly the index it expects to replace, and valid |
| Ranges.ClashIsOverlap | internal/cloud/aws/compute.go:404-409 | for an aligned /28 the containment test of two addresses is exactly intersection of the two ranges, masked or not |
| Ranges.EveryPrefixIsCidr | internal/cloud/aws/compute.go:375-395 | every address and length from 0 to 32 gives whole blocks of sixteen or lies inside one, and never runs past the last address |
| Ranges.LengthIsSize | internal/cloud/aws/compute.go:376-394 | lengths up to 28 are exactly the blocks of whole /28s, two to the power of 28 minus the length of them |
| Subnets.KeepOwned | internal/cloud/aws/compute.go:382-391 | owned ranges are refused exactly when one is not a /28 of the VPC, else all are kept masked |
| Subnets.FindRange | internal/cloud/aws/compute.go:399-416 | the scan finds the last free /28, or there is none |
| SubnetBlocks.VPCExactly | internal/cloud/aws/compute.go:376-395 | a VPC is refused exactly for lengths above 28; otherwise it has 2 to the power of 28 minus its length candidates |
| SubnetBlocks.OwnedExactly | internal/cloud/aws/compute.go:384-388 | an owned range is kept exactly when it parses, is a /28, and its address lies in the VPC |
| SubnetBlocks.CandidatesExactly | internal/cloud/aws/compute.go:393-402 | the candidates are exactly the aligned /28s of the VPC, tried from its end |
| SubnetBlocks.FreeExactly | internal/cloud/aws/compute.go:399-412 | a candidate is free exactly when none of its addresses is in an occupied range or in the range of an owning zone |
| Subnets.AllocateNAT64 | internal/cloud/aws/compute.go:375-422 | owned ranges are kept; new ones lie inside the VPC, meet nothing occupied and no other range, and are the last free ones in name order; it fails for space exactly when fewer free /28s exist than distinct names need one |
| Subnets.NextFree | internal/cloud/aws/compute.go:435-445 | the cursor stops at the first free /64, or there is none |
| Subnets.AllocateNodeGroups | internal/cloud/aws/compute.go:425-451 | owned /64s are kept and new ones are free and distinct; it fails if and only if some name comes after at least as many claims of lesser names as there are free /64s, which for names that do not repeat is exactly lack of space; those names get the first free ones in name order |
| Subnets.RepeatCanStarve | internal/cloud/aws/compute.go:431-448 | in every block with two free /64s, the names "a", "a" and "b" starve "b" although only two names need a range |
| Subnets.NewSlotsApart | internal/cloud/aws/compute.go:435-445 | new /64s lie in the VPC's /56 and meet nothing occupied and no other name's range, if what is owned is occupied |
| SubnetBlocks.Meets64 | internal/cloud/aws/compute.go:435-442 | two /64s meet exactly when they have an address in common |
| Images.AppendIndexChildren | internal/cli/images/publish.go:338-360 | succeeds exactly when every nested index can be read, and then the list has grown at its end by exactly the nested digests it lacked, each once, by descriptors taken from the blobs |
| Images.PublishedIndexComplete | internal/cli/images/publish.go:170-196 | complete exactly when every nested index can be read and every nested digest is listed |
| Images.MergeIndexes | internal/cli/images/publish.go:292-334 | succeeds exactly when the source tag is present and readable; keeps every other descriptor in order, moves the destination tag, and lists exactly the digests that follow |
| Images.Mirrored | internal/cli/images/publish.go:133-167 | complete exactly when the first descriptor of the tag has the expected digest and is complete |
| Images.PublishedIsMirrored | internal/cli/images/publish.go:112-196 | once blobs are uploaded, the check accepts a merged index for exactly the digest that was published, on every acyclic blob graph |
| Images.OtherTagSurvivesExactly | internal/cli/images/publish.go:304-334 | another tag that was complete stays complete exactly when it nests no digest that only the replaced tag listed and the new image does not bring back |
| Images.OtherTagCanBreak | internal/cli/images/publish.go:304-334 | three publications from an empty mirror, each a merge, after which an untouched tag that was complete no longer is |

## Left out

- Registry.LeasesHold: that expiry runs every second is not modelled.
- Datapath.Program.PodminIngress: packets are steps; true interleaving of two CPUs inside one packet and reuse of an evicted element's memory are not modelled, nor is byte order.
- DatapathFlows.FlowsAreSticky: starts from empty flow maps, so that every forward entry was written by the program.
- CoordinationRuns.AcceptedStampsRise: holds while the process runs; a restart forgets the accepted snapshot.
- CoordinationRuns.DurableStampsRise: generations and revisions are unbounded; 64-bit overflow is not modelled.
- Subnets.AllocateNodeGroups: the IPv6 ranges are addresses with an implied length of 64.
- IPv6 address zones: the text of an address with a zone is taken not to parse.
- Images.MergeIndexes: needs a rank on the blob graph, as the recursion of the source ends only on acyclic graphs; transient read errors of the object store are not modelled.
- DeployRuns.Linearizable: takes a reported success to mean that the write landed, and each issued write to land at most once.
- DeployFaults.ExhaustionMeansProgress: does not promise sixteen commits of others, because the store also reports conflicts without a change (`internal/cloud/aws/objects.go:94-98`).
- Cryptography, X.509, PEM, TLS and SPIFFE: certificates are records with a serial and a validity, signatures always verify.
- `publishBundle`: its outcome is an input of each rotation attempt.
- JSON, YAML and protobuf decoding, nil protobuf elements, duplicate JSON keys: decoded values are inputs.
- The text of the desired-configuration digest, which is not uniquely decodable.
- Liveness of publication: a write that lands but is not applied locally leaves the leader behind the durable revision until it acquires again.
- `Controller.BuildSnapshot`, `NodeState` and Pod selection: a node's own view of its Pods; endpoints enter the model in the states that nodes send.
- The dataplane reconciler's test for unchanged tables and its kernel activation beyond the table swap.
- The static Pod reconciler and its file staging.
- Cloud, gRPC and IMDS clients, the elector, zone resolution, infrastructure templates, progress display and command parsing.
