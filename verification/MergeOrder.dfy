// The order in which the registry is enumerated changes nothing in the merged snapshot but the order of ties,
// and nothing at all when the delegated prefixes are disjoint.
module MergeOrder {
  import opened Net
  import opened Sorting
  import opened Wire
  import opened Contracts
  import opened Merge
  import opened MergeProperties

  // ---- Slots and gathered endpoints do not depend on the order ----

  lemma RegistryPermuted(p: Platform, a: seq<Peer>, b: seq<Peer>)
    requires RegistryOk(p, a) && multiset(a) == multiset(b)
    ensures RegistryOk(p, b) && forall peer :: peer in a <==> peer in b
  {
    forall peer
      ensures peer in a <==> peer in b
    {
      assert peer in multiset(a) <==> peer in multiset(b);
    }
  }

  lemma {:induction false} GroupsPermuted(a: seq<Peer>, b: seq<Peer>)
    requires forall peer :: peer in a <==> peer in b
    ensures Sort(GroupList(a), StringLess) == Sort(GroupList(b), StringLess)
  {
    SameElements(GroupList(a), GroupList(b));
    MergeOrders();
    forall x, y | x in GroupList(a) && y in GroupList(a) && x != y
      ensures StringLess(x, y) || StringLess(y, x)
    {
      StringWeak(x, y, x);
    }
    SortCanonical(GroupList(a), GroupList(b), StringLess);
  }

  lemma GroupSlotsPermuted(p: Platform, a: seq<Peer>, b: seq<Peer>, group: string)
    requires RegistryOk(p, a) && forall peer :: peer in a <==> peer in b
    ensures GroupSlots(a, group) == GroupSlots(b, group)
  {
    var x, y := LastHello(a, group), LastHello(b, group);
    if x.Some? {
      var i :| i in a && i.hello == x.value;
      assert i in b;
      var j :| j in b && j.hello == y.value;
      assert Compatible(i.hello, j.hello);
    }
  }

  lemma {:induction false} FlattenPermuted(p: Platform, a: seq<Peer>, b: seq<Peer>, groups: seq<string>)
    requires RegistryOk(p, a) && forall peer :: peer in a <==> peer in b
    ensures FlattenGroups(a, groups) == FlattenGroups(b, groups)
  {
    if groups != [] {
      FlattenPermuted(p, a, b, groups[..|groups| - 1]);
      GroupSlotsPermuted(p, a, b, groups[|groups| - 1]);
    }
  }

  lemma SlotsPermuted(p: Platform, a: seq<Peer>, b: seq<Peer>)
    requires RegistryOk(p, a) && multiset(a) == multiset(b)
    ensures Slots(a) == Slots(b)
  {
    RegistryPermuted(p, a, b);
    GroupsPermuted(a, b);
    FlattenPermuted(p, a, b, Sort(GroupList(a), StringLess));
  }

  function ClaimSet(peer: Peer): multiset<Claim> { multiset(PeerClaims(peer)) }

  lemma {:induction false} ClaimsSum(peers: seq<Peer>)
    ensures multiset(Claims(peers)) == Sum(peers, ClaimSet)
  {
    if peers != [] {
      var front, last := peers[..|peers| - 1], peers[|peers| - 1];
      assert peers == front + [last];
      ClaimsSum(front);
      SumAppend(front, last, ClaimSet);
    }
  }

  lemma {:induction false} GatherWithout(claims: seq<Claim>, i: nat, slot: Slot)
    requires i < |claims|
    ensures multiset(Gather(claims, slot))
         == multiset(Gather(Without(claims, i), slot))
            + if Matches(slot, claims[i]) then multiset{claims[i].endpoint} else multiset{}
    decreases |claims|
  {
    var n := |claims| - 1;
    if i == n {
      assert Without(claims, i) == claims[..n];
    } else {
      GatherWithout(claims[..n], i, slot);
      assert Without(claims, i) == Without(claims[..n], i) + [claims[n]];
      GatherStep(Without(claims[..n], i), claims[n], slot);
    }
  }

  lemma {:induction false} GatherPermuted(a: seq<Claim>, b: seq<Claim>, slot: Slot)
    requires multiset(a) == multiset(b)
    ensures multiset(Gather(a, slot)) == multiset(Gather(b, slot))
  {
    assert |multiset(a)| == |multiset(b)|;
    if a != [] {
      var i := IndexOfImage(a, b);
      RemoveBoth(a, b, i);
      GatherPermuted(a[1..], Without(b, i), slot);
      GatherWithout(a, 0, slot);
      GatherWithout(b, i, slot);
      assert Without(a, 0) == a[1..];
    }
  }

  lemma RemoveBoth(a: seq<Claim>, b: seq<Claim>, i: nat)
    requires a != [] && i < |b| && b[i] == a[0] && multiset(a) == multiset(b)
    ensures multiset(a[1..]) == multiset(Without(b, i))
  {
    assert a == [a[0]] + a[1..];
    assert b == b[..i] + [b[i]] + b[i + 1..];
    assert multiset(a) == multiset{a[0]} + multiset(a[1..]);
    assert multiset(b) == multiset(Without(b, i)) + multiset{b[i]};
    Cancel(multiset(a[1..]), multiset(Without(b, i)), a[0]);
  }

  // ---- Snapshots equal up to ties ----

  datatype SortKey = SortKey(address: string, podUid: string)

  function KeyOf(e: Endpoint): SortKey { SortKey(e.address, e.podUid) }

  predicate SortKeyLess(a: SortKey, b: SortKey) {
    if a.address != b.address then StringLess(a.address, b.address) else StringLess(a.podUid, b.podUid)
  }

  // Same contract, same backends as often, and the same sort key at every position.
  ghost predicate EqualUpToTies(x: Service, y: Service) {
    && Bare(x) == Bare(y) && multiset(x.backends) == multiset(y.backends)
    && Map(x.backends, KeyOf) == Map(y.backends, KeyOf)
  }

  lemma SameKeys(a: seq<Endpoint>, b: seq<Endpoint>)
    requires Sorted(a, EndpointLess) && Sorted(b, EndpointLess) && multiset(a) == multiset(b)
    ensures Map(a, KeyOf) == Map(b, KeyOf)
  {
    var x, y := Map(a, KeyOf), Map(b, KeyOf);
    MapPermuted(a, b, KeyOf);
    assert forall i, j :: 0 <= i < j < |a| ==> SortKeyLess(x[j], x[i]) == EndpointLess(a[j], a[i]);
    assert forall i, j :: 0 <= i < j < |b| ==> SortKeyLess(y[j], y[i]) == EndpointLess(b[j], b[i]);
    forall k, l | k in x && l in x && k != l
      ensures SortKeyLess(k, l) || SortKeyLess(l, k)
    {
      StringWeak(k.address, l.address, k.address);
      StringWeak(k.podUid, l.podUid, k.podUid);
    }
    SortedUnique(x, y, SortKeyLess);
  }

  lemma ItemsAgree(slot: Slot, a: seq<Claim>, b: seq<Claim>, x: Service, y: Service)
    requires ItemFor(slot, a, x) && ItemFor(slot, b, y) && multiset(a) == multiset(b)
    ensures EqualUpToTies(x, y)
  {
    GatherPermuted(a, b, slot);
    SameKeys(x.backends, y.backends);
  }

  // The two sorted arrangements list the same contracts in the same places.
  lemma ContractsAgree(a: seq<Service>, b: seq<Service>, items: seq<Service>, others: seq<Service>)
    requires multiset(a) == multiset(items) && multiset(b) == multiset(others)
    requires Sorted(a, ServiceLess) && Sorted(b, ServiceLess)
    requires Map(items, Bare) == Map(others, Bare) && Distinct(Map(items, ServiceId))
    ensures Map(a, Bare) == Map(b, Bare)
  {
    MapPermuted(a, items, Bare);
    MapPermuted(b, others, Bare);
    MapPermuted(a, items, ServiceId);
    DistinctPermuted(Map(a, ServiceId), Map(items, ServiceId));
    BareSorted(a);
    BareSorted(b);
    BareTotal(a);
    SortedUnique(Map(a, Bare), Map(b, Bare), ServiceLess);
  }

  lemma BareSorted(a: seq<Service>)
    requires Sorted(a, ServiceLess)
    ensures Sorted(Map(a, Bare), ServiceLess)
  {
    var x := Map(a, Bare);
    forall i, j | 0 <= i < j < |x|
      ensures !ServiceLess(x[j], x[i])
    {
      assert !ServiceLess(a[j], a[i]);
    }
  }

  lemma BareTotal(a: seq<Service>)
    requires Distinct(Map(a, ServiceId))
    ensures TotalOn(Map(a, Bare), ServiceLess)
  {
    var x, ids := Map(a, Bare), Map(a, ServiceId);
    forall k, l | k in x && l in x && k != l
      ensures ServiceLess(k, l) || ServiceLess(l, k)
    {
      var i :| 0 <= i < |a| && x[i] == k;
      var j :| 0 <= j < |a| && x[j] == l;
      assert ids[i] != ids[j];
      ServiceOrder(k, l, k);
    }
  }

  lemma BareItems(slots: seq<Slot>, a: seq<Claim>, b: seq<Claim>, items: seq<Service>, others: seq<Service>)
    requires Assembled(slots, a, items) && Assembled(slots, b, others)
    ensures Map(items, Bare) == Map(others, Bare)
  {
    forall i | 0 <= i < |slots|
      ensures Bare(items[i]) == Bare(others[i])
    {
      assert ItemFor(slots[i], a, items[i]) && ItemFor(slots[i], b, others[i]);
    }
  }

  // Items in the two arrangements with one contract came from one slot.
  lemma ArrangedAgree(slots: seq<Slot>, a: seq<Claim>, b: seq<Claim>, items: seq<Service>, others: seq<Service>,
                      x: Service, y: Service)
    requires Assembled(slots, a, items) && Assembled(slots, b, others) && multiset(a) == multiset(b)
    requires Distinct(Map(slots, SlotId)) && x in items && y in others && Bare(x) == Bare(y)
    ensures EqualUpToTies(x, y)
  {
    var i :| 0 <= i < |items| && items[i] == x;
    var j :| 0 <= j < |others| && others[j] == y;
    ItemIds(slots, a, items);
    ItemIds(slots, b, others);
    var ids := Map(slots, SlotId);
    assert ids[i] == ServiceId(x) == ServiceId(Bare(x)) == ServiceId(y) == ids[j];
    assert i == j;
    ItemsAgree(slots[i], a, b, x, y);
  }

  /** Two snapshots built from the same registry in different orders are equal but for the order of ties. */
  lemma PeerOrderOnlyMovesTies(p: Platform, a: seq<Peer>, b: seq<Peer>, generation: nat, revision: nat, leader: string,
                               s: Snapshot, items: seq<Service>, t: Snapshot, others: seq<Service>)
    requires RegistryOk(p, a) && multiset(a) == multiset(b)
    requires Built(p, a, generation, revision, leader, s, items) && Built(p, b, generation, revision, leader, t, others)
    ensures |s.services| == |t.services|
    ensures forall k :: 0 <= k < |s.services| ==> EqualUpToTies(s.services[k], t.services[k])
    ensures s.configDigest == t.configDigest
  {
    SlotsPermuted(p, a, b);
    var slots := Slots(a);
    ClaimsSum(a);
    ClaimsSum(b);
    SumPermuted(a, b, ClaimSet);
    SlotsDistinct(p, a);
    ItemIds(slots, Claims(a), items);
    BareItems(slots, Claims(a), Claims(b), items, others);
    ContractsAgree(s.services, t.services, items, others);
    forall k | 0 <= k < |s.services|
      ensures EqualUpToTies(s.services[k], t.services[k])
    {
      assert Map(s.services, Bare)[k] == Map(t.services, Bare)[k];
      assert s.services[k] in multiset(items) && t.services[k] in multiset(others);
      ArrangedAgree(slots, Claims(a), Claims(b), items, others, s.services[k], t.services[k]);
    }
    RegistryPermuted(p, a, b);
    GroupsPermuted(a, b);
    DigestPermuted(p, a, b, Sort(GroupList(a), StringLess));
  }

  lemma {:induction false} DigestPermuted(p: Platform, a: seq<Peer>, b: seq<Peer>, groups: seq<string>)
    requires RegistryOk(p, a) && forall peer :: peer in a <==> peer in b
    ensures DigestText(a, groups) == DigestText(b, groups)
  {
    if groups != [] {
      var group := groups[|groups| - 1];
      DigestPermuted(p, a, b, groups[..|groups| - 1]);
      var x, y := LastHello(a, group), LastHello(b, group);
      if x.Some? {
        var i :| i in a && i.hello == x.value;
        assert i in b;
        var j :| j in b && j.hello == y.value;
        assert Compatible(i.hello, j.hello);
      }
    }
  }

  // ---- No ties under disjoint prefixes ----

  // The endpoints of each peer lie in that peer's prefix, and prefixes of different peers share no address.
  ghost predicate Delegated(p: Platform, peers: seq<Peer>, prefixes: seq<Prefix>) {
    && |prefixes| == |peers|
    && (forall i, e :: 0 <= i < |peers| && peers[i].state.Some? && e in peers[i].state.value.endpoints ==>
          p.address(e.address).Some? && Contains(prefixes[i], p.address(e.address).value))
    && (forall i, j, x :: 0 <= i < j < |peers| && Contains(prefixes[i], x) ==> !Contains(prefixes[j], x))
  }

  lemma BackendOwner(peers: seq<Peer>, e: Endpoint)
    requires e in AllEndpoints(peers)
    ensures exists i :: 0 <= i < |peers| && peers[i].state.Some? && e in peers[i].state.value.endpoints
  {
    SumMember(peers, EndpointsOf, e);
    var peer :| peer in peers && e in EndpointsOf(peer);
    var i :| 0 <= i < |peers| && peers[i] == peer;
  }

  // Two endpoints of one service that sort alike are the same endpoint.
  lemma NoTies(p: Platform, peers: seq<Peer>, prefixes: seq<Prefix>, x: Endpoint, y: Endpoint)
    requires RegistryOk(p, peers) && Delegated(p, peers, prefixes)
    requires x in AllEndpoints(peers) && y in AllEndpoints(peers)
    requires x.namespace == y.namespace && x.service == y.service && KeyOf(x) == KeyOf(y)
    ensures x == y
  {
    BackendOwner(peers, x);
    BackendOwner(peers, y);
    var i :| 0 <= i < |peers| && peers[i].state.Some? && x in peers[i].state.value.endpoints;
    var j :| 0 <= j < |peers| && peers[j].state.Some? && y in peers[j].state.value.endpoints;
    assert Contains(prefixes[i], p.address(x.address).value) && Contains(prefixes[j], p.address(x.address).value);
    assert i == j;
    assert PeerOk(p, peers[i]);
    EndpointIdsDiffer(peers[i].state.value.endpoints, x, y);
  }

  lemma EndpointIdsDiffer(endpoints: seq<Endpoint>, x: Endpoint, y: Endpoint)
    requires Distinct(Map(endpoints, EndpointId)) && x in endpoints && y in endpoints
    requires x.namespace == y.namespace && x.service == y.service && KeyOf(x) == KeyOf(y)
    ensures x == y
  {
    var ids := Map(endpoints, EndpointId);
    var k :| 0 <= k < |endpoints| && endpoints[k] == x;
    var l :| 0 <= l < |endpoints| && endpoints[l] == y;
    assert ids[k] == ids[l];
  }

  lemma BackendService(claims: seq<Claim>, item: Service, slot: Slot, e: Endpoint)
    requires ItemFor(slot, claims, item) && slot.item.backends == [] && e in item.backends
    ensures e.namespace == item.namespace && e.service == item.name
  {
    assert e in multiset(item.backends);
    assert Bare(item) == Bare(slot.item);
    GatherMatches(claims, slot, e);
  }

  lemma {:induction false} GatherMatches(claims: seq<Claim>, slot: Slot, e: Endpoint)
    requires e in Gather(claims, slot)
    ensures e.nodeGroup == slot.group && e.namespace == slot.item.namespace && e.service == slot.item.name
  {
    if claims != [] {
      var front := claims[..|claims| - 1];
      if e in Gather(front, slot) {
        GatherMatches(front, slot, e);
      }
    }
  }

  lemma ItemBackendService(p: Platform, peers: seq<Peer>, generation: nat, revision: nat, leader: string, s: Snapshot,
                           items: seq<Service>, service: Service, e: Endpoint)
    requires RegistryOk(p, peers) && Built(p, peers, generation, revision, leader, s, items)
    requires service in s.services && e in service.backends
    ensures e.namespace == service.namespace && e.service == service.name && e in AllEndpoints(peers)
  {
    assert service in multiset(items);
    var i :| 0 <= i < |items| && items[i] == service;
    var slots := Slots(peers);
    assert ItemFor(slots[i], Claims(peers), items[i]) && slots[i] in slots;
    SlotsBare(p, peers);
    BackendService(Claims(peers), service, slots[i], e);
    EndpointsConserved(p, peers, generation, revision, leader, s, items);
    SumContains(s.services, service, e);
  }

  lemma {:induction false} SumContains(services: seq<Service>, service: Service, e: Endpoint)
    requires service in services && e in service.backends
    ensures e in AllBackends(services)
  {
    if services[0] != service {
      SumContains(services[1..], service, e);
    } else {
      assert e in BackendsOf(services[0]);
    }
  }

  /** With disjoint prefixes the order of the peers changes nothing at all. */
  lemma DisjointPrefixesFixOrder(p: Platform, a: seq<Peer>, prefixes: seq<Prefix>, b: seq<Peer>, generation: nat,
                                 revision: nat, leader: string, s: Snapshot, items: seq<Service>, t: Snapshot,
                                 others: seq<Service>)
    requires RegistryOk(p, a) && Delegated(p, a, prefixes) && multiset(a) == multiset(b)
    requires Built(p, a, generation, revision, leader, s, items) && Built(p, b, generation, revision, leader, t, others)
    ensures s == t
  {
    PeerOrderOnlyMovesTies(p, a, b, generation, revision, leader, s, items, t, others);
    RegistryPermuted(p, a, b);
    forall k | 0 <= k < |s.services|
      ensures s.services[k] == t.services[k]
    {
      var x, y := s.services[k], t.services[k];
      assert EqualUpToTies(x, y);
      forall d, e | d in x.backends && e in x.backends && d != e
        ensures EndpointLess(d, e) || EndpointLess(e, d)
      {
        ItemBackendService(p, a, generation, revision, leader, s, items, x, d);
        ItemBackendService(p, a, generation, revision, leader, s, items, x, e);
        EndpointOrder(d, e, d);
        if d.address == e.address && d.podUid == e.podUid {
          NoTies(p, a, prefixes, d, e);
        }
      }
      BackendsSorted(p, a, generation, revision, leader, s, items, x);
      BackendsSorted(p, b, generation, revision, leader, t, others, y);
      SortedUnique(x.backends, y.backends, EndpointLess);
      assert x == Bare(x).(backends := x.backends) && y == Bare(y).(backends := y.backends);
    }
    assert s.services == t.services;
  }

  lemma BackendsSorted(p: Platform, peers: seq<Peer>, generation: nat, revision: nat, leader: string, s: Snapshot,
                       items: seq<Service>, service: Service)
    requires Built(p, peers, generation, revision, leader, s, items) && service in s.services
    ensures Sorted(service.backends, EndpointLess)
  {
    assert service in multiset(items);
    var i :| 0 <= i < |items| && items[i] == service;
    assert ItemFor(Slots(peers)[i], Claims(peers), items[i]);
  }
}
