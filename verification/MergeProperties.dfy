// What the merge guarantees for a consistent registry: it never fails, identities are distinct, no endpoint is
// lost or invented, and the order of the peers does not matter.
module MergeProperties {
  import opened Net
  import opened Sorting
  import opened Wire
  import opened Contracts
  import opened Merge

  // ---- A consistent registry ----

  predicate PeerOk(p: Platform, peer: Peer) {
    && ContractOk(p, peer.hello.nodeGroup, peer.hello.configDigest, peer.hello.services)
    && (peer.state.Some? ==>
          && peer.state.value.configDigest == peer.hello.configDigest
          && NodeStateOk(p, peer.hello.nodeGroup, peer.hello.services, peer.state.value))
  }

  predicate Overlap(a: seq<Service>, b: seq<Service>) {
    exists i, j :: 0 <= i < |a| && 0 <= j < |b| && ServiceId(a[i]) == ServiceId(b[j])
  }

  // Nodes of one NodeGroup agree; nodes of different NodeGroups claim disjoint identities.
  predicate Compatible(a: Hello, b: Hello) {
    if a.nodeGroup == b.nodeGroup then a.configDigest == b.configDigest && a.services == b.services
    else !Overlap(a.services, b.services)
  }

  ghost predicate RegistryOk(p: Platform, peers: seq<Peer>) {
    && (forall peer :: peer in peers ==> PeerOk(p, peer))
    && (forall a, b :: a in peers && b in peers ==> Compatible(a.hello, b.hello))
  }

  // ---- Slots of a consistent registry ----

  function SlotId(slot: Slot): string {
    ServiceId(slot.item)
  }

  lemma ContractIdsDistinct(services: seq<Service>)
    requires Rising(services)
    ensures Distinct(Map(services, ServiceId))
  {
    forall i, j | 0 <= i < j < |services|
      ensures ServiceId(services[i]) != ServiceId(services[j])
    {
      RisingDistinct(services, i, j);
    }
  }

  lemma GroupSlotsDistinct(p: Platform, peers: seq<Peer>, group: string)
    requires RegistryOk(p, peers)
    ensures Distinct(Map(GroupSlots(peers, group), SlotId))
    ensures forall slot :: slot in GroupSlots(peers, group) ==> SlotFrom(peers, slot) && slot.group == group
  {
    if LastHello(peers, group).Some? {
      var hello := LastHello(peers, group).value;
      var peer :| peer in peers && peer.hello == hello;
      assert PeerOk(p, peer);
      var sorted := Sort(hello.services, ServiceLess);
      ContractIdsDistinct(hello.services);
      MapPermuted(hello.services, sorted, ServiceId);
      DistinctPermuted(Map(hello.services, ServiceId), Map(sorted, ServiceId));
      assert Map(GroupSlots(peers, group), SlotId) == Map(sorted, ServiceId);
      forall slot | slot in GroupSlots(peers, group)
        ensures SlotFrom(peers, slot)
      {
        assert slot.item in multiset(sorted);
        assert slot.item in hello.services;
      }
    }
  }

  // A slot is a service of the contract of some peer of its NodeGroup.
  ghost predicate SlotFrom(peers: seq<Peer>, slot: Slot) {
    exists peer :: peer in peers && peer.hello.nodeGroup == slot.group && peer.hello.configDigest == slot.digest
                   && slot.item in peer.hello.services
  }

  lemma DifferentGroupsApart(p: Platform, peers: seq<Peer>, a: Slot, b: Slot)
    requires RegistryOk(p, peers) && SlotFrom(peers, a) && SlotFrom(peers, b) && a.group != b.group
    ensures SlotId(a) != SlotId(b)
  {
    var x :| x in peers && x.hello.nodeGroup == a.group && a.item in x.hello.services;
    var y :| y in peers && y.hello.nodeGroup == b.group && b.item in y.hello.services;
    assert Compatible(x.hello, y.hello);
    var i :| 0 <= i < |x.hello.services| && x.hello.services[i] == a.item;
    var j :| 0 <= j < |y.hello.services| && y.hello.services[j] == b.item;
  }

  lemma {:induction false} FlattenDistinct(p: Platform, peers: seq<Peer>, groups: seq<string>)
    requires RegistryOk(p, peers) && Distinct(groups)
    ensures Distinct(Map(FlattenGroups(peers, groups), SlotId))
    ensures forall slot :: slot in FlattenGroups(peers, groups) ==> SlotFrom(peers, slot) && slot.group in groups
  {
    if groups != [] {
      var front, last := groups[..|groups| - 1], groups[|groups| - 1];
      FlattenDistinct(p, peers, front);
      GroupSlotsDistinct(p, peers, last);
      var a, b := FlattenGroups(peers, front), GroupSlots(peers, last);
      SlotSetsApart(p, peers, a, b);
      DistinctConcat(Map(a, SlotId), Map(b, SlotId));
      MapConcat(a, b, SlotId);
    }
  }

  lemma SlotSetsApart(p: Platform, peers: seq<Peer>, a: seq<Slot>, b: seq<Slot>)
    requires RegistryOk(p, peers)
    requires forall slot :: slot in a || slot in b ==> SlotFrom(peers, slot)
    requires forall x, y :: x in a && y in b ==> x.group != y.group
    ensures forall id :: id in Map(a, SlotId) ==> id !in Map(b, SlotId)
  {
    forall id | id in Map(a, SlotId) && id in Map(b, SlotId)
      ensures false
    {
      var i :| 0 <= i < |a| && Map(a, SlotId)[i] == id;
      var j :| 0 <= j < |b| && Map(b, SlotId)[j] == id;
      DifferentGroupsApart(p, peers, a[i], b[j]);
    }
  }

  lemma {:induction false} SortedGroups(peers: seq<Peer>)
    ensures var groups := Sort(GroupList(peers), StringLess);
            Distinct(groups) && forall group :: group in groups <==> group in GroupList(peers)
  {
    var list := GroupList(peers);
    var groups := Sort(list, StringLess);
    DistinctPermuted(list, groups);
    forall group
      ensures group in groups <==> group in list
    {
      assert group in multiset(groups) <==> group in multiset(list);
    }
  }

  lemma SlotsDistinct(p: Platform, peers: seq<Peer>)
    requires RegistryOk(p, peers)
    ensures Distinct(Map(Slots(peers), SlotId))
    ensures forall slot :: slot in Slots(peers) ==> SlotFrom(peers, slot)
  {
    SortedGroups(peers);
    FlattenDistinct(p, peers, Sort(GroupList(peers), StringLess));
  }

  /** The merge of a consistent registry never fails on ownership. */
  lemma OwnershipHolds(p: Platform, peers: seq<Peer>)
    requires RegistryOk(p, peers)
    ensures OneOwner(Slots(peers))
  {
    SlotsDistinct(p, peers);
    var slots := Slots(peers);
    forall i, j | 0 <= i < j < |slots|
      ensures ServiceId(slots[i].item) != ServiceId(slots[j].item)
    {
      assert Map(slots, SlotId)[i] != Map(slots, SlotId)[j];
    }
  }

  // ---- Each claim matches exactly one slot ----

  function MatchCount(slots: seq<Slot>, claim: Claim): nat {
    if slots == [] then 0
    else
      var last := |slots| - 1;
      MatchCount(slots[..last], claim) + if Matches(slots[last], claim) then 1 else 0
  }

  lemma {:induction false} MatchNone(slots: seq<Slot>, claim: Claim)
    requires forall slot :: slot in slots ==> !Matches(slot, claim)
    ensures MatchCount(slots, claim) == 0
  {
    if slots != [] {
      MatchNone(slots[..|slots| - 1], claim);
    }
  }

  lemma {:induction false} MatchOne(slots: seq<Slot>, claim: Claim, k: nat)
    requires k < |slots| && Matches(slots[k], claim) && Distinct(Map(slots, SlotId))
    ensures MatchCount(slots, claim) == 1
    decreases |slots|
  {
    var front, last := slots[..|slots| - 1], slots[|slots| - 1];
    assert Map(front, SlotId) == Map(slots, SlotId)[..|front|];
    if k == |slots| - 1 {
      forall slot | slot in front
        ensures !Matches(slot, claim)
      {
        var i :| 0 <= i < |front| && front[i] == slot;
        assert Map(slots, SlotId)[i] != Map(slots, SlotId)[k];
      }
      MatchNone(front, claim);
    } else {
      assert Map(slots, SlotId)[k] != Map(slots, SlotId)[|slots| - 1];
      MatchOne(front, claim, k);
    }
  }

  // A claim comes from one peer's state.
  ghost predicate ClaimFrom(peers: seq<Peer>, claim: Claim) {
    exists peer :: peer in peers && peer.state.Some? && claim.nodeGroup == peer.hello.nodeGroup
                   && claim.digest == peer.state.value.configDigest && claim.endpoint in peer.state.value.endpoints
  }

  lemma {:induction false} ClaimsFrom(peers: seq<Peer>)
    ensures forall claim :: claim in Claims(peers) ==> ClaimFrom(peers, claim)
  {
    if peers != [] {
      var front, last := peers[..|peers| - 1], peers[|peers| - 1];
      assert peers == front + [last];
      ClaimsFrom(front);
      forall claim | claim in Claims(peers)
        ensures ClaimFrom(peers, claim)
      {
        if claim in Claims(front) {
          assert ClaimFrom(front, claim);
        } else {
          var i :| 0 <= i < |PeerClaims(last)| && PeerClaims(last)[i] == claim;
          assert last in peers && claim.endpoint in last.state.value.endpoints;
        }
      }
    }
  }

  lemma {:induction false} FlattenContains(peers: seq<Peer>, groups: seq<string>, group: string, slot: Slot)
    requires group in groups && slot in GroupSlots(peers, group)
    ensures slot in FlattenGroups(peers, groups)
  {
    var front, last := groups[..|groups| - 1], groups[|groups| - 1];
    assert groups == front + [last];
    if group != last {
      FlattenContains(peers, front, group, slot);
    }
  }

  // Every service of every registered contract has a slot.
  lemma SortedAt(services: seq<Service>, s: Service) returns (i: nat)
    requires s in services
    ensures i < |Sort(services, ServiceLess)| && Sort(services, ServiceLess)[i] == s
  {
    var sorted := Sort(services, ServiceLess);
    assert s in multiset(services) && s in multiset(sorted);
    i :| 0 <= i < |sorted| && sorted[i] == s;
  }

  lemma ServiceHasSlot(p: Platform, peers: seq<Peer>, peer: Peer, s: Service)
    requires RegistryOk(p, peers) && peer in peers && s in peer.hello.services
    ensures Slot(peer.hello.nodeGroup, peer.hello.configDigest, s) in Slots(peers)
  {
    var group := peer.hello.nodeGroup;
    SortedGroups(peers);
    var hello := LastHello(peers, group).value;
    var other :| other in peers && other.hello == hello;
    assert Compatible(peer.hello, other.hello);
    var i := SortedAt(hello.services, s);
    assert GroupSlots(peers, group)[i] == Slot(group, peer.hello.configDigest, s);
    FlattenContains(peers, Sort(GroupList(peers), StringLess), group, GroupSlots(peers, group)[i]);
  }

  lemma {:induction false} ClaimMatchesOnce(p: Platform, peers: seq<Peer>, claim: Claim)
    requires RegistryOk(p, peers) && claim in Claims(peers)
    ensures MatchCount(Slots(peers), claim) == 1
  {
    ClaimsFrom(peers);
    var peer :| peer in peers && peer.state.Some? && claim.nodeGroup == peer.hello.nodeGroup
                && claim.digest == peer.state.value.configDigest && claim.endpoint in peer.state.value.endpoints;
    var e, contract := claim.endpoint, peer.hello.services;
    assert PeerOk(p, peer);
    var j :| 0 <= j < |peer.state.value.endpoints| && peer.state.value.endpoints[j] == e;
    assert EndpointOk(p, peer.hello.nodeGroup, contract, e);
    var s := Lookup(contract, Identity(e.namespace, e.service)).value;
    LookupExact(p, peer.hello.nodeGroup, contract, e.namespace, e.service, s);
    ServiceHasSlot(p, peers, peer, s);
    var slots := Slots(peers);
    var k :| 0 <= k < |slots| && slots[k] == Slot(peer.hello.nodeGroup, peer.hello.configDigest, s);
    SlotsDistinct(p, peers);
    MatchOne(slots, claim, k);
  }

  // ---- Conservation ----

  function BackendsOf(s: Service): multiset<Endpoint> { multiset(s.backends) }
  function EndpointsOf(peer: Peer): multiset<Endpoint> {
    if peer.state.Some? then multiset(peer.state.value.endpoints) else multiset{}
  }
  function EndpointOf(claim: Claim): Endpoint { claim.endpoint }

  // All backends of all services, and all endpoints of all live nodes.
  function AllBackends(services: seq<Service>): multiset<Endpoint> { Sum(services, BackendsOf) }
  function AllEndpoints(peers: seq<Peer>): multiset<Endpoint> { Sum(peers, EndpointsOf) }

  // What all slots gather together.
  function GatherAll(claims: seq<Claim>, slots: seq<Slot>): multiset<Endpoint> {
    if slots == [] then multiset{}
    else GatherAll(claims, slots[..|slots| - 1]) + multiset(Gather(claims, slots[|slots| - 1]))
  }

  lemma {:induction false} GatherAllStep(claims: seq<Claim>, claim: Claim, slots: seq<Slot>)
    ensures GatherAll(claims + [claim], slots)
            == GatherAll(claims, slots) + multiset{}[claim.endpoint := MatchCount(slots, claim)]
  {
    if slots != [] {
      GatherAllStep(claims, claim, slots[..|slots| - 1]);
      GatherStep(claims, claim, slots[|slots| - 1]);
    }
  }

  lemma {:induction false} GatherAllEmpty(slots: seq<Slot>)
    ensures GatherAll([], slots) == multiset{}
  {
    if slots != [] {
      GatherAllEmpty(slots[..|slots| - 1]);
    }
  }

  lemma {:induction false} GatherPartitions(claims: seq<Claim>, slots: seq<Slot>)
    requires forall claim :: claim in claims ==> MatchCount(slots, claim) == 1
    ensures GatherAll(claims, slots) == multiset(Map(claims, EndpointOf))
  {
    if claims == [] {
      GatherAllEmpty(slots);
    } else {
      var front, last := claims[..|claims| - 1], claims[|claims| - 1];
      assert claims == front + [last];
      GatherPartitions(front, slots);
      GatherAllStep(front, last, slots);
      MapAppend(front, last, EndpointOf);
      assert multiset{}[last.endpoint := 1] == multiset{last.endpoint};
    }
  }

  lemma {:induction false} ClaimsAreEndpoints(peers: seq<Peer>)
    ensures multiset(Map(Claims(peers), EndpointOf)) == AllEndpoints(peers)
  {
    if peers != [] {
      var front, last := peers[..|peers| - 1], peers[|peers| - 1];
      assert peers == front + [last];
      ClaimsAreEndpoints(front);
      SumAppend(front, last, EndpointsOf);
      MapConcat(Claims(front), PeerClaims(last), EndpointOf);
      if last.state.Some? {
        assert Map(PeerClaims(last), EndpointOf) == last.state.value.endpoints;
      }
    }
  }

  lemma {:induction false} AssembledBackends(slots: seq<Slot>, claims: seq<Claim>, items: seq<Service>)
    requires Assembled(slots, claims, items) && forall slot :: slot in slots ==> slot.item.backends == []
    ensures AllBackends(items) == GatherAll(claims, slots)
  {
    if slots != [] {
      var n := |slots| - 1;
      AssembledLast(slots, claims, items);
      AssembledBackends(slots[..n], claims, items[..n]);
      SumAppend(items[..n], items[n], BackendsOf);
    }
  }

  lemma {:induction false} AssembledLast(slots: seq<Slot>, claims: seq<Claim>, items: seq<Service>)
    requires slots != [] && Assembled(slots, claims, items) && slots[|slots| - 1].item.backends == []
    ensures var n := |slots| - 1;
            && Assembled(slots[..n], claims, items[..n]) && items == items[..n] + [items[n]]
            && BackendsOf(items[n]) == multiset(Gather(claims, slots[n]))
  {
    assert ItemFor(slots[|slots| - 1], claims, items[|slots| - 1]);
  }

  lemma SlotsBare(p: Platform, peers: seq<Peer>)
    requires RegistryOk(p, peers)
    ensures forall slot :: slot in Slots(peers) ==> ServiceOk(p, slot.group, slot.item) && ValidID(slot.group)
  {
    SlotsDistinct(p, peers);
    forall slot | slot in Slots(peers)
      ensures ServiceOk(p, slot.group, slot.item) && ValidID(slot.group)
    {
      var peer :| peer in peers && peer.hello.nodeGroup == slot.group && slot.item in peer.hello.services;
      assert PeerOk(p, peer);
      var i :| 0 <= i < |peer.hello.services| && peer.hello.services[i] == slot.item;
    }
  }

  /** Conservation: the backends of all Services are exactly the endpoints of all live nodes, each as often. */
  lemma EndpointsConserved(p: Platform, peers: seq<Peer>, generation: nat, revision: nat, leader: string,
                           snapshot: Snapshot, items: seq<Service>)
    requires RegistryOk(p, peers) && Built(p, peers, generation, revision, leader, snapshot, items)
    ensures AllBackends(snapshot.services) == AllEndpoints(peers)
  {
    var slots, claims := Slots(peers), Claims(peers);
    SlotsBare(p, peers);
    AssembledBackends(slots, claims, items);
    forall claim | claim in claims
      ensures MatchCount(slots, claim) == 1
    {
      ClaimMatchesOnce(p, peers, claim);
    }
    GatherPartitions(claims, slots);
    ClaimsAreEndpoints(peers);
    SumPermuted(snapshot.services, items, BackendsOf);
  }

  lemma ItemIds(slots: seq<Slot>, claims: seq<Claim>, items: seq<Service>)
    requires Assembled(slots, claims, items)
    ensures Map(items, ServiceId) == Map(slots, SlotId)
  {
    forall i | 0 <= i < |slots|
      ensures ServiceId(items[i]) == SlotId(slots[i])
    {
      assert ItemFor(slots[i], claims, items[i]);
      assert ServiceId(items[i]) == ServiceId(Bare(items[i]));
    }
  }

  /** Service identities of the merged snapshot are pairwise distinct. */
  lemma IdentitiesDistinct(p: Platform, peers: seq<Peer>, generation: nat, revision: nat, leader: string,
                           snapshot: Snapshot, items: seq<Service>)
    requires RegistryOk(p, peers) && Built(p, peers, generation, revision, leader, snapshot, items)
    ensures Distinct(Map(snapshot.services, ServiceId))
  {
    SlotsDistinct(p, peers);
    ItemIds(Slots(peers), Claims(peers), items);
    MapPermuted(items, snapshot.services, ServiceId);
    DistinctPermuted(Map(items, ServiceId), Map(snapshot.services, ServiceId));
  }
}
