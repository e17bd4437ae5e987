// The leader's merge of NodeGroup contracts and leased endpoints into one cluster snapshot.
module Merge {
  import opened Net
  import opened Sorting
  import opened Wire
  import opened Contracts

  // One registered node: its contract and its optional leased endpoint state.
  datatype Peer = Peer(hello: Hello, state: Option<NodeState>)

  // One leased endpoint with the NodeGroup and digest it was reported under.
  datatype Claim = Claim(nodeGroup: string, digest: string, endpoint: Endpoint)

  // One service of one NodeGroup's contract.
  datatype Slot = Slot(group: string, digest: string, item: Service)

  // ---- Orders; sorting leaves the order of ties open ----

  predicate ServiceLess(a: Service, b: Service) {
    if a.namespace != b.namespace then StringLess(a.namespace, b.namespace)
    else if a.name != b.name then StringLess(a.name, b.name)
    else StringLess(a.nodeGroup, b.nodeGroup)
  }

  predicate EndpointLess(a: Endpoint, b: Endpoint) {
    if a.address != b.address then StringLess(a.address, b.address) else StringLess(a.podUid, b.podUid)
  }

  lemma StringWeak(a: string, b: string, c: string)
    ensures StringLess(a, b) ==> !StringLess(b, a)
    ensures a != b ==> StringLess(a, b) || StringLess(b, a)
    ensures !StringLess(a, b) && !StringLess(b, c) ==> !StringLess(a, c)
    ensures !StringLess(a, a)
  {
    StringOrder(a, b, c);
    StringOrder(b, a, c);
    StringOrder(b, c, a);
    StringOrder(c, b, a);
    StringOrder(a, a, a);
  }

  lemma EndpointOrder(a: Endpoint, b: Endpoint, c: Endpoint)
    ensures EndpointLess(a, b) ==> !EndpointLess(b, a)
    ensures !EndpointLess(a, b) && !EndpointLess(b, c) ==> !EndpointLess(a, c)
    ensures EndpointLess(a, b) || EndpointLess(b, a) || (a.address == b.address && a.podUid == b.podUid)
  {
    StringWeak(a.address, b.address, c.address);
    StringWeak(b.address, c.address, a.address);
    StringWeak(c.address, a.address, b.address);
    StringWeak(c.address, b.address, a.address);
    StringWeak(a.podUid, b.podUid, c.podUid);
  }

  lemma ServiceOrder(a: Service, b: Service, c: Service)
    ensures ServiceLess(a, b) ==> !ServiceLess(b, a)
    ensures !ServiceLess(a, b) && !ServiceLess(b, c) ==> !ServiceLess(a, c)
    ensures ServiceLess(a, b) || ServiceLess(b, a)
            || (a.namespace == b.namespace && a.name == b.name && a.nodeGroup == b.nodeGroup)
  {
    StringWeak(a.namespace, b.namespace, c.namespace);
    StringWeak(b.namespace, c.namespace, a.namespace);
    StringWeak(c.namespace, a.namespace, b.namespace);
    StringWeak(c.namespace, b.namespace, a.namespace);
    StringWeak(a.name, b.name, c.name);
    StringWeak(b.name, c.name, a.name);
    StringWeak(c.name, a.name, b.name);
    StringWeak(c.name, b.name, a.name);
    StringWeak(a.nodeGroup, b.nodeGroup, c.nodeGroup);
  }

  lemma MergeOrders()
    ensures WeakOrder(ServiceLess) && WeakOrder(EndpointLess) && WeakOrder(StringLess)
  {
    forall a, b, c
      ensures ServiceLess(a, b) ==> !ServiceLess(b, a)
      ensures !ServiceLess(a, b) && !ServiceLess(b, c) ==> !ServiceLess(a, c)
    {
      ServiceOrder(a, b, c);
    }
    forall a, b, c
      ensures EndpointLess(a, b) ==> !EndpointLess(b, a)
      ensures !EndpointLess(a, b) && !EndpointLess(b, c) ==> !EndpointLess(a, c)
    {
      EndpointOrder(a, b, c);
    }
    forall a: string, b: string, c: string
      ensures StringLess(a, b) ==> !StringLess(b, a)
      ensures !StringLess(a, b) && !StringLess(b, c) ==> !StringLess(a, c)
    {
      StringWeak(a, b, c);
    }
  }

  // Sorting promises an arrangement, not which one.
  method Arrange<T(!new)>(xs: seq<T>, less: (T, T) -> bool) returns (ys: seq<T>)
    requires WeakOrder(less)
    ensures Sorted(ys, less) && multiset(ys) == multiset(xs) && |ys| == |xs|
  {
    SortSorted(xs, less);
    ys := Sort(xs, less);
  }

  // ---- What the merge reads ----

  function PeerClaims(peer: Peer): (r: seq<Claim>)
    ensures peer.state.None? ==> r == []
    ensures peer.state.Some? ==> |r| == |peer.state.value.endpoints|
    ensures peer.state.Some? ==> forall i :: 0 <= i < |r| ==>
              r[i] == Claim(peer.hello.nodeGroup, peer.state.value.configDigest, peer.state.value.endpoints[i])
  {
    match peer.state
    case None => []
    case Some(state) =>
      seq(|state.endpoints|, i requires 0 <= i < |state.endpoints| =>
        Claim(peer.hello.nodeGroup, state.configDigest, state.endpoints[i]))
  }

  function Claims(peers: seq<Peer>): seq<Claim> {
    if peers == [] then [] else Claims(peers[..|peers| - 1]) + PeerClaims(peers[|peers| - 1])
  }

  // The contract kept for a NodeGroup: its last hello.
  function LastHello(peers: seq<Peer>, group: string): (r: Option<Hello>)
    ensures r.Some? ==> exists peer :: peer in peers && peer.hello == r.value && r.value.nodeGroup == group
    ensures r.None? ==> forall peer :: peer in peers ==> peer.hello.nodeGroup != group
  {
    if peers == [] then None
    else
      var last := peers[|peers| - 1];
      assert peers == peers[..|peers| - 1] + [last];
      if last.hello.nodeGroup == group then Some(last.hello) else LastHello(peers[..|peers| - 1], group)
  }

  // Each NodeGroup once, in order of first appearance.
  function GroupList(peers: seq<Peer>): (r: seq<string>)
    ensures Distinct(r)
    ensures forall group :: group in r <==> exists peer :: peer in peers && peer.hello.nodeGroup == group
  {
    if peers == [] then []
    else
      var front, last := peers[..|peers| - 1], peers[|peers| - 1];
      assert peers == front + [last];
      var groups := GroupList(front);
      if last.hello.nodeGroup in groups then groups else groups + [last.hello.nodeGroup]
  }

  function SlotsOf(group: string, digest: string, services: seq<Service>): (r: seq<Slot>)
    ensures |r| == |services| && forall i :: 0 <= i < |r| ==> r[i] == Slot(group, digest, services[i])
  {
    seq(|services|, i requires 0 <= i < |services| => Slot(group, digest, services[i]))
  }

  function GroupSlots(peers: seq<Peer>, group: string): seq<Slot> {
    match LastHello(peers, group)
    case None => []
    case Some(hello) => SlotsOf(group, hello.configDigest, Sort(hello.services, ServiceLess))
  }

  function FlattenGroups(peers: seq<Peer>, groups: seq<string>): seq<Slot> {
    if groups == [] then []
    else FlattenGroups(peers, groups[..|groups| - 1]) + GroupSlots(peers, groups[|groups| - 1])
  }

  // All services of all contracts, NodeGroup by NodeGroup.
  function Slots(peers: seq<Peer>): seq<Slot> {
    FlattenGroups(peers, Sort(GroupList(peers), StringLess))
  }

  predicate Matches(slot: Slot, claim: Claim) {
    && claim.nodeGroup == slot.group && claim.digest == slot.digest && claim.endpoint.nodeGroup == slot.group
    && claim.endpoint.namespace == slot.item.namespace && claim.endpoint.service == slot.item.name
  }

  function Gather(claims: seq<Claim>, slot: Slot): seq<Endpoint> {
    if claims == [] then []
    else
      var front, last := Gather(claims[..|claims| - 1], slot), claims[|claims| - 1];
      if Matches(slot, last) then front + [last.endpoint] else front
  }

  // ---- What the merge produces ----

  function Bare(s: Service): Service {
    s.(backends := [])
  }

  ghost predicate ItemFor(slot: Slot, claims: seq<Claim>, item: Service) {
    && Bare(item) == Bare(slot.item)
    && Sorted(item.backends, EndpointLess)
    && multiset(item.backends) == multiset(slot.item.backends) + multiset(Gather(claims, slot))
  }

  ghost predicate Assembled(slots: seq<Slot>, claims: seq<Claim>, items: seq<Service>) {
    |items| == |slots| && forall i :: 0 <= i < |slots| ==> ItemFor(slots[i], claims, items[i])
  }

  // No identity is claimed by two NodeGroups.
  predicate OneOwner(slots: seq<Slot>) {
    forall i, j :: 0 <= i < j < |slots| && ServiceId(slots[i].item) == ServiceId(slots[j].item) ==>
      slots[i].group == slots[j].group
  }

  function DigestText(peers: seq<Peer>, groups: seq<string>): string {
    if groups == [] then ""
    else
      var group := groups[|groups| - 1];
      DigestText(peers, groups[..|groups| - 1])
      + group + "\0" + (match LastHello(peers, group) case Some(hello) => hello.configDigest case None => "") + "\0"
  }

  // A snapshot built from the peers: stamped, digested, and a sorted arrangement of the assembled items.
  ghost predicate Built(p: Platform, peers: seq<Peer>, generation: nat, revision: nat, leader: string,
                        snapshot: Snapshot, items: seq<Service>) {
    && snapshot.generation == generation && snapshot.revision == revision && snapshot.leader == leader
    && snapshot.configDigest == p.digest(DigestText(peers, Sort(GroupList(peers), StringLess)))
    && Assembled(Slots(peers), Claims(peers), items)
    && multiset(snapshot.services) == multiset(items) && Sorted(snapshot.services, ServiceLess)
  }

  // ---- The merge ----

  lemma {:induction false} GatherStep(claims: seq<Claim>, claim: Claim, slot: Slot)
    ensures Gather(claims + [claim], slot)
         == Gather(claims, slot) + if Matches(slot, claim) then [claim.endpoint] else []
  {
    assert (claims + [claim])[..|claims|] == claims;
  }

  // Nested loops over peers and their endpoints.
  method GatherBackends(peers: seq<Peer>, slot: Slot) returns (found: seq<Endpoint>)
    ensures found == Gather(Claims(peers), slot)
  {
    found := [];
    for i := 0 to |peers|
      invariant found == Gather(Claims(peers[..i]), slot)
    {
      var peer := peers[i];
      ghost var before, added := Claims(peers[..i]), PeerClaims(peer);
      assert Claims(peers[..i + 1]) == before + added by {
        assert peers[..i + 1][..i] == peers[..i];
      }
      if peer.state.Some? && peer.hello.nodeGroup == slot.group && peer.state.value.configDigest == slot.digest {
        var endpoints := peer.state.value.endpoints;
        assert before + added[..0] == before;
        for j := 0 to |endpoints|
          invariant found == Gather(before + added[..j], slot)
        {
          AppendNext(before, added, j);
          GatherStep(before + added[..j], added[j], slot);
          var e := endpoints[j];
          if e.nodeGroup == slot.group && e.namespace == slot.item.namespace && e.service == slot.item.name {
            found := found + [e];
          }
        }
        assert added[..|endpoints|] == added;
      } else {
        GatherNone(before, added, slot);
      }
    }
    assert peers[..|peers|] == peers;
  }

  lemma {:induction false} GatherNone(before: seq<Claim>, added: seq<Claim>, slot: Slot)
    requires forall i :: 0 <= i < |added| ==> !Matches(slot, added[i])
    ensures Gather(before + added, slot) == Gather(before, slot)
  {
    if added == [] {
      assert before + added == before;
    } else {
      var front, last := added[..|added| - 1], added[|added| - 1];
      GatherNone(before, front, slot);
      GatherStep(before + front, last, slot);
      assert before + front + [last] == before + added;
    }
  }

  // Fills one service with its sorted backends.
  method FillService(peers: seq<Peer>, slot: Slot) returns (item: Service)
    ensures ItemFor(slot, Claims(peers), item)
  {
    MergeOrders();
    var found := GatherBackends(peers, slot);
    var backends := Arrange(slot.item.backends + found, EndpointLess);
    item := slot.item.(backends := backends);
  }

  // The identities recorded so far and the NodeGroup that owns each.
  ghost predicate Owners(slots: seq<Slot>, owners: map<string, string>) {
    && (forall i :: 0 <= i < |slots| ==>
        ServiceId(slots[i].item) in owners && owners[ServiceId(slots[i].item)] == slots[i].group)
    && (forall id :: id in owners ==> exists i :: 0 <= i < |slots| && ServiceId(slots[i].item) == id)
  }

  // Whether one more slot clashes is decided by the recorded owner of its identity.
  lemma OneOwnerStep(slots: seq<Slot>, slot: Slot, owners: map<string, string>)
    requires Owners(slots, owners) && OneOwner(slots)
    ensures var id := ServiceId(slot.item); OneOwner(slots + [slot]) <==> (id in owners ==> owners[id] == slot.group)
  {
    var id, t := ServiceId(slot.item), slots + [slot];
    assert forall i :: 0 <= i < |slots| ==> t[i] == slots[i];
    if id in owners && owners[id] != slot.group {
      var i :| 0 <= i < |slots| && ServiceId(slots[i].item) == id;
      assert ServiceId(t[i].item) == ServiceId(t[|slots|].item) && t[i].group != t[|slots|].group;
    } else {
      forall i, j | 0 <= i < j < |t| && ServiceId(t[i].item) == ServiceId(t[j].item)
        ensures t[i].group == t[j].group
      {
        if j < |slots| {
          assert ServiceId(slots[i].item) == ServiceId(slots[j].item);
        }
      }
    }
  }

  lemma OwnersGrow(slots: seq<Slot>, slot: Slot, owners: map<string, string>)
    requires Owners(slots, owners)
    requires ServiceId(slot.item) in owners ==> owners[ServiceId(slot.item)] == slot.group
    ensures Owners(slots + [slot], owners[ServiceId(slot.item) := slot.group])
  {
    var id, t := ServiceId(slot.item), slots + [slot];
    var next := owners[id := slot.group];
    forall key | key in next
      ensures exists i :: 0 <= i < |t| && ServiceId(t[i].item) == key
    {
      if key == id {
        assert ServiceId(t[|slots|].item) == key;
      } else {
        var i :| 0 <= i < |slots| && ServiceId(slots[i].item) == key;
        assert ServiceId(t[i].item) == key;
      }
    }
  }

  lemma OneOwnerPrefix(slots: seq<Slot>, k: nat)
    requires k <= |slots| && OneOwner(slots)
    ensures OneOwner(slots[..k])
  {
  }

  method FillServices(peers: seq<Peer>, slots: seq<Slot>) returns (ok: bool, items: seq<Service>)
    ensures ok <==> OneOwner(slots)
    ensures ok ==> Assembled(slots, Claims(peers), items)
  {
    var owners: map<string, string> := map[];
    items := [];
    for k := 0 to |slots|
      invariant Owners(slots[..k], owners) && OneOwner(slots[..k])
      invariant Assembled(slots[..k], Claims(peers), items)
    {
      var id := ServiceId(slots[k].item);
      assert slots[..k + 1] == slots[..k] + [slots[k]];
      OneOwnerStep(slots[..k], slots[k], owners);
      if id in owners && owners[id] != slots[k].group {
        if OneOwner(slots) {
          OneOwnerPrefix(slots, k + 1);
        }
        return false, items;
      }
      OwnersGrow(slots[..k], slots[k], owners);
      owners := owners[id := slots[k].group];
      var item := FillService(peers, slots[k]);
      AssembledStep(slots, k, Claims(peers), items, item);
      items := items + [item];
    }
    assert slots[..|slots|] == slots;
    ok := true;
  }

  lemma AssembledStep(slots: seq<Slot>, k: nat, claims: seq<Claim>, items: seq<Service>, item: Service)
    requires k < |slots| && Assembled(slots[..k], claims, items) && ItemFor(slots[k], claims, item)
    ensures Assembled(slots[..k + 1], claims, items + [item])
  {
    var t := slots[..k + 1];
    assert forall i :: 0 <= i < k ==> t[i] == slots[..k][i];
  }

  method CollectSlots(peers: seq<Peer>, groups: seq<string>) returns (slots: seq<Slot>)
    ensures slots == FlattenGroups(peers, groups)
  {
    slots := [];
    for k := 0 to |groups|
      invariant slots == FlattenGroups(peers, groups[..k])
    {
      assert groups[..k + 1][..k] == groups[..k];
      slots := slots + GroupSlots(peers, groups[k]);
    }
    assert groups[..|groups|] == groups;
  }

  method BuildClusterSnapshot(p: Platform, generation: nat, revision: nat, leader: string, peers: seq<Peer>)
    returns (r: Option<Snapshot>, ghost items: seq<Service>)
    ensures r.None? <==> !OneOwner(Slots(peers))
    ensures r.Some? ==> Built(p, peers, generation, revision, leader, r.value, items)
  {
    var slots := CollectSlots(peers, Sort(GroupList(peers), StringLess));
    var ok, filled := FillServices(peers, slots);
    items := filled;
    if !ok {
      return None, items;
    }
    MergeOrders();
    var services := Arrange(filled, ServiceLess);
    var digest := p.digest(DigestText(peers, Sort(GroupList(peers), StringLess)));
    r := Some(Snapshot(generation, revision, leader, digest, services));
  }
}
