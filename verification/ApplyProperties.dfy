// Producer and checker agree: what a leader builds from a consistent registry passes every check of every node,
// whatever that node's own valid contract, and becomes a model the table compiler accepts up to its capacity.
module ApplyProperties {
  import opened Net
  import opened Sorting
  import opened Wire
  import opened Contracts
  import opened Merge
  import opened MergeProperties
  import opened NodeApply
  import T = Tables

  // ---- Ports: what the leader compares and what a node looks up ----

  predicate NulFree(ports: seq<TargetPort>) {
    forall i :: 0 <= i < |ports| ==> NoNul(ports[i].name)
  }

  // Every service port finds a target on the endpoint, and every target found is a valid port.
  predicate AllTargetsFound(service: seq<TargetPort>, endpoint: seq<TargetPort>) {
    forall i :: 0 <= i < |service| ==> TargetsFound(service[i], endpoint)
  }

  predicate TargetsFound(port: TargetPort, offered: seq<TargetPort>) {
    && TargetsOf(port, offered) != []
    && forall i :: 0 <= i < |TargetsOf(port, offered)| ==> 1 <= TargetsOf(port, offered)[i] <= 65535
  }

  // As many distinct expected keys as there are ports: every expected key is met.
  lemma KeysCovered(service: seq<TargetPort>, endpoint: seq<TargetPort>)
    requires PortsAgree(service, endpoint)
    ensures KeysOf(endpoint) == KeysOf(service)
  {
    KeyCount(service);
    KeyCount(endpoint);
    assert KeysOf(endpoint) <= KeysOf(service);
    SubsetOfSameSize(KeysOf(endpoint), KeysOf(service));
  }

  lemma SubsetOfSameSize(a: set<string>, b: set<string>)
    requires a <= b && |b| <= |a|
    ensures a == b
  {
    assert |b| == |a| + |b - a| by {
      assert b == a + (b - a);
    }
  }

  lemma {:induction false} KeyCount(ports: seq<TargetPort>)
    ensures |KeysOf(ports)| <= |ports|
    ensures KeysDistinct(ports) ==> |KeysOf(ports)| == |ports|
  {
    if ports != [] {
      var n := |ports| - 1;
      var front, key := ports[..n], PortKey(ports[n]);
      KeyCount(front);
      KeysStep(ports, n);
      assert ports[..n + 1] == ports;
      if KeysDistinct(ports) {
        var keys := Map(ports, PortKey);
        assert Map(front, PortKey) == keys[..n];
        KeysOfPrefix(ports, n);
        forall i | 0 <= i < n
          ensures keys[i] != key
        {
          assert keys[i] != keys[n];
        }
        assert key !in KeysOf(front);
      }
    }
  }

  lemma {:induction false} TargetSource(port: TargetPort, offered: seq<TargetPort>, i: nat)
    requires i < |TargetsOf(port, offered)|
    ensures exists j :: 0 <= j < |offered| && Targets(port, offered[j])
                        && offered[j].targetPort == TargetsOf(port, offered)[i]
  {
    var front := offered[..|offered| - 1];
    if i < |TargetsOf(port, front)| {
      TargetSource(port, front, i);
      var j :| 0 <= j < |front| && Targets(port, front[j]) && front[j].targetPort == TargetsOf(port, front)[i];
      assert offered[j] == front[j];
    } else {
      assert Targets(port, offered[|offered| - 1]);
    }
  }

  // An offered port whose key is expected is one of the service's own ports.
  lemma OfferedIsExpected(service: seq<TargetPort>, endpoint: seq<TargetPort>, j: nat)
    requires PortsOk(service) && NulFree(service) && PortsAgree(service, endpoint) && j < |endpoint|
    ensures exists k :: 0 <= k < |service| && service[k] == endpoint[j]
  {
    assert PortKey(endpoint[j]) in KeysOf(service);
    var k :| 0 <= k < |service| && PortKey(service[k]) == PortKey(endpoint[j]);
    assert PortOk(service[k]);
    PortKeyUnique(service[k], endpoint[j]);
  }

  // Every target an endpoint offers for a port is one of the service's own, so valid.
  lemma {:induction false} TargetInRange(service: seq<TargetPort>, endpoint: seq<TargetPort>, port: TargetPort, k: nat)
    requires PortsOk(service) && NulFree(service) && PortsAgree(service, endpoint) && k < |TargetsOf(port, endpoint)|
    ensures 1 <= TargetsOf(port, endpoint)[k] <= 65535
  {
    TargetSource(port, endpoint, k);
    var l :| 0 <= l < |endpoint| && Targets(port, endpoint[l])
        && endpoint[l].targetPort == TargetsOf(port, endpoint)[k];
    OfferedIsExpected(service, endpoint, l);
    var i :| 0 <= i < |service| && service[i] == endpoint[l];
    assert PortOk(service[i]);
  }

  lemma {:induction false} TargetIsOffered(service: seq<TargetPort>, endpoint: seq<TargetPort>, i: nat)
    requires PortsOk(service) && NulFree(service) && KeysOf(endpoint) == KeysOf(service) && i < |service|
    ensures TargetsOf(service[i], endpoint) != []
  {
    var port := service[i];
    assert PortOk(port) && PortKey(port) in KeysOf(service);
    var j :| 0 <= j < |endpoint| && PortKey(endpoint[j]) == PortKey(port);
    PortKeyUnique(port, endpoint[j]);
    TargetsContain(port, endpoint, j);
  }

  lemma TargetsFoundWhenNulFree(service: seq<TargetPort>, endpoint: seq<TargetPort>)
    requires PortsOk(service) && NulFree(service) && PortsAgree(service, endpoint)
    ensures AllTargetsFound(service, endpoint)
  {
    KeysCovered(service, endpoint);
    forall i | 0 <= i < |service|
      ensures TargetsFound(service[i], endpoint)
    {
      TargetIsOffered(service, endpoint, i);
      forall k | 0 <= k < |TargetsOf(service[i], endpoint)|
        ensures 1 <= TargetsOf(service[i], endpoint)[k] <= 65535
      {
        TargetInRange(service, endpoint, service[i], k);
      }
    }
  }

  // The endpoint ports that pass the leader's comparison by moving the NUL between name and protocol.
  function Shifted(ports: seq<TargetPort>, k: nat, cut: nat): seq<TargetPort>
    requires k < |ports| && cut < |ports[k].name|
  {
    var t := ports[k];
    ports[k := TargetPort(t.name[..cut], t.name[cut + 1..] + "\0" + t.protocol, t.servicePort, t.targetPort)]
  }

  lemma ShiftedKeys(ports: seq<TargetPort>, k: nat, cut: nat)
    requires k < |ports| && cut < |ports[k].name| && ports[k].name[cut] == '\0'
    ensures Map(Shifted(ports, k, cut), PortKey) == Map(ports, PortKey)
  {
    var t, u := ports[k], Shifted(ports, k, cut)[k];
    var tail := Decimal(t.servicePort) + "\0" + Decimal(t.targetPort);
    assert t.name == u.name + "\0" + t.name[cut + 1..];
    assert PortKey(t) == u.name + "\0" + t.name[cut + 1..] + "\0" + (t.protocol + "\0" + tail);
    assert PortKey(u) == u.name + "\0" + (t.name[cut + 1..] + "\0" + t.protocol + "\0" + tail);
    assert PortKey(t) == PortKey(u);
  }

  lemma SameKeySets(a: seq<TargetPort>, b: seq<TargetPort>)
    requires Map(a, PortKey) == Map(b, PortKey)
    ensures KeysOf(a) == KeysOf(b)
  {
    KeysOfPrefix(a, |a|);
    KeysOfPrefix(b, |b|);
    assert a[..|a|] == a && b[..|b|] == b;
    assert Map(a, PortKey)[..|a|] == Map(b, PortKey)[..|b|];
  }

  lemma {:induction false} NoTargets(port: TargetPort, offered: seq<TargetPort>)
    requires forall j :: 0 <= j < |offered| ==> !Targets(port, offered[j])
    ensures TargetsOf(port, offered) == []
  {
    if offered != [] {
      NoTargets(port, offered[..|offered| - 1]);
    }
  }

  lemma OwnKeys(ports: seq<TargetPort>)
    ensures forall i :: 0 <= i < |ports| ==> PortKey(ports[i]) in KeysOf(ports)
  {
  }

  // Ports of a valid contract have distinct comparison keys.
  lemma ContractKeysDistinct(ports: seq<TargetPort>)
    requires PortsOk(ports)
    ensures KeysDistinct(ports)
  {
    var keys := Map(ports, PortKey);
    forall i, j | 0 <= i < j < |keys|
      ensures keys[i] != keys[j]
    {
      assert PortOk(ports[i]) && PortOk(ports[j]) && ListenKey(ports[i]) != ListenKey(ports[j]);
      if keys[i] == keys[j] {
        PortKeyReadsBack(ports[i], ports[j]);
      }
    }
  }

  // With a NUL in a port name, some endpoint passes the leader's comparison without serving that port.
  lemma NulBreaksTargets(ports: seq<TargetPort>, k: nat, cut: nat)
    requires PortsOk(ports)
    requires k < |ports| && cut < |ports[k].name| && ports[k].name[cut] == '\0'
    ensures PortsAgree(ports, Shifted(ports, k, cut)) && !AllTargetsFound(ports, Shifted(ports, k, cut))
  {
    var shifted := Shifted(ports, k, cut);
    ContractKeysDistinct(ports);
    ShiftedKeys(ports, k, cut);
    SameKeySets(ports, shifted);
    OwnKeys(shifted);
    forall j | 0 <= j < |shifted|
      ensures !Targets(ports[k], shifted[j])
    {
      if j == k {
        assert |shifted[j].name| < |ports[k].name|;
      } else {
        assert ListenKey(ports[if j < k then j else k]) != ListenKey(ports[if j < k then k else j]);
      }
    }
    NoTargets(ports[k], shifted);
    assert !TargetsFound(ports[k], shifted);
  }

  /** Exactly when the leader's port comparison suffices: for a valid contract, every endpoint it lets through serves
      every port if and only if no port name contains a NUL. */
  lemma LeaderCheckSufficesExactly(ports: seq<TargetPort>)
    requires PortsOk(ports)
    ensures (forall endpoint :: PortsAgree(ports, endpoint) ==> AllTargetsFound(ports, endpoint)) <==> NulFree(ports)
  {
    if NulFree(ports) {
      forall endpoint | PortsAgree(ports, endpoint)
        ensures AllTargetsFound(ports, endpoint)
      {
        TargetsFoundWhenNulFree(ports, endpoint);
      }
    } else {
      var k :| 0 <= k < |ports| && !NoNul(ports[k].name);
      var cut :| 0 <= cut < |ports[k].name| && ports[k].name[cut] == '\0';
      NulBreaksTargets(ports, k, cut);
    }
  }

  // The leader accepts such an endpoint wherever it accepts one with the contract's own ports.
  lemma {:induction false} LeaderAcceptsShifted(p: Platform, nodeGroup: string, contract: seq<Service>, e: Endpoint,
                                                k: nat, cut: nat)
    requires EndpointOk(p, nodeGroup, contract, e)
    requires var ports := Lookup(contract, Identity(e.namespace, e.service)).value.ports;
             PortsOk(ports) && k < |ports| && cut < |ports[k].name| && ports[k].name[cut] == '\0'
    ensures var ports := Lookup(contract, Identity(e.namespace, e.service)).value.ports;
            EndpointOk(p, nodeGroup, contract, e.(ports := Shifted(ports, k, cut)))
  {
    NulBreaksTargets(Lookup(contract, Identity(e.namespace, e.service)).value.ports, k, cut);
  }

  // A Service with such an endpoint fails its port check.
  lemma ShiftedIsRefused(p: Platform, s: Service, e: Endpoint, k: nat, cut: nat)
    requires PortsOk(s.ports) && e in s.backends
    requires k < |s.ports| && cut < |s.ports[k].name| && s.ports[k].name[cut] == '\0'
    requires e.ports == Shifted(s.ports, k, cut)
    ensures !ServiceApplies(p, s)
  {
    NulBreaksTargets(s.ports, k, cut);
    var i :| 0 <= i < |s.ports| && !TargetsFound(s.ports[i], e.ports);
    var b :| 0 <= b < |s.backends| && s.backends[b] == e;
    assert !TargetOk(p, s.ports[i], s.backends[b]);
    assert !PortTargetsOk(p, s.ports[i], s.backends);
  }

  /** A snapshot built from a consistent registry that holds such an endpoint is refused by every node that keeps its
      Service. */
  lemma NulIsRefusedByNodes(p: Platform, peers: seq<Peer>, generation: nat, revision: nat, leader: string,
                            snapshot: Snapshot, items: seq<Service>, s: Service, e: Endpoint, k: nat, cut: nat,
                            chosen: seq<Service>)
    requires RegistryOk(p, peers) && Built(p, peers, generation, revision, leader, snapshot, items)
    requires s in snapshot.services && e in s.backends && s in chosen
    requires k < |s.ports| && cut < |s.ports[k].name| && s.ports[k].name[cut] == '\0'
    requires e.ports == Shifted(s.ports, k, cut)
    ensures !ServiceApplies(p, s) && !Applies(p, chosen)
  {
    MergedContract(p, peers, generation, revision, leader, snapshot, items, s);
    ShiftedIsRefused(p, s, e, k, cut);
    var j :| 0 <= j < |chosen| && chosen[j] == s;
  }

  // ---- The overlay ----

  // What the overlay has established after a prefix of the snapshot.
  ghost predicate Selected(services: seq<Service>, nodeGroup: string, wanted: map<string, Service>, s: Selection) {
    && (forall item :: item in s.kept ==> item in services && ServiceId(item) !in s.rest)
    && Distinct(Map(s.kept, ServiceId))
    && (forall id :: id in s.rest ==> id in wanted && s.rest[id] == wanted[id])
    && (forall id :: id in wanted ==> id in s.rest || KeptAs(s.kept, wanted[id]))
    && (forall item :: item in s.kept && item.nodeGroup == nodeGroup ==>
          ServiceId(item) in wanted && wanted[ServiceId(item)] == Bare(item))
  }

  ghost predicate KeptAs(kept: seq<Service>, s: Service) {
    exists item :: item in kept && Bare(item) == s
  }

  lemma KeepItem(services: seq<Service>, kept: seq<Service>, item: Service)
    requires forall k :: k in kept ==> k in services
    requires Distinct(Map(kept, ServiceId)) && Distinct(Map(services + [item], ServiceId))
    ensures Distinct(Map(kept + [item], ServiceId))
  {
    var ids, all := Map(kept, ServiceId), Map(services + [item], ServiceId);
    MapAppend(kept, item, ServiceId);
    MapAppend(services, item, ServiceId);
    forall id | id in ids
      ensures id !in [ServiceId(item)]
    {
      var k :| 0 <= k < |kept| && ids[k] == id;
      assert kept[k] in services;
      var j :| 0 <= j < |services| && services[j] == kept[k];
      assert all[j] != all[|services|];
    }
    DistinctConcat(ids, [ServiceId(item)]);
  }

  lemma {:induction false} SelectEstablishes(services: seq<Service>, nodeGroup: string, wanted: map<string, Service>)
    requires Distinct(Map(services, ServiceId))
    ensures Selected(services, nodeGroup, wanted, Select(services, nodeGroup, wanted))
  {
    if services != [] {
      var n := |services| - 1;
      var front, item := services[..n], services[n];
      assert services == front + [item];
      assert Map(front, ServiceId) == Map(services, ServiceId)[..n];
      SelectEstablishes(front, nodeGroup, wanted);
      KeepItem(front, Select(front, nodeGroup, wanted).kept, item);
      SelectStep(front, item, nodeGroup, wanted);
    }
  }

  lemma {:induction false} SelectStep(front: seq<Service>, item: Service, nodeGroup: string,
                                      wanted: map<string, Service>)
    requires Selected(front, nodeGroup, wanted, Select(front, nodeGroup, wanted))
    requires Distinct(Map(Select(front, nodeGroup, wanted).kept + [item], ServiceId))
    ensures Selected(front + [item], nodeGroup, wanted, Select(front + [item], nodeGroup, wanted))
  {
    var before, after := Select(front, nodeGroup, wanted), Select(front + [item], nodeGroup, wanted);
    assert (front + [item])[..|front|] == front;
    forall id | id in wanted
      ensures id in after.rest || KeptAs(after.kept, wanted[id])
    {
      if id !in before.rest {
        var k :| k in before.kept && Bare(k) == wanted[id];
        assert k in after.kept;
      } else if id !in after.rest {
        assert item in after.kept;
      }
    }
  }

  lemma {:induction false} LeftoverMembers(local: seq<Service>, rest: map<string, Service>)
    ensures forall s :: s in Leftover(local, rest) <==> s in local && ServiceId(s) in rest
  {
    if local != [] {
      var front, last := local[..|local| - 1], local[|local| - 1];
      assert local == front + [last];
      LeftoverMembers(front, rest);
    }
  }

  lemma {:induction false} LeftoverDistinct(local: seq<Service>, rest: map<string, Service>)
    requires Distinct(Map(local, ServiceId))
    ensures Distinct(Map(Leftover(local, rest), ServiceId))
  {
    if local != [] {
      var n := |local| - 1;
      var front, last := local[..n], local[n];
      assert local == front + [last];
      assert Map(front, ServiceId) == Map(local, ServiceId)[..n];
      LeftoverDistinct(front, rest);
      LeftoverMembers(front, rest);
      if ServiceId(last) in rest {
        KeepItem(front, Leftover(front, rest), last);
      }
    }
  }

  // The chosen services: distinct identities, every local service, no other service of the local NodeGroup.
  ghost predicate ChosenWell(local: seq<Service>, nodeGroup: string, services: seq<Service>, chosen: seq<Service>) {
    && Distinct(Map(chosen, ServiceId))
    && (forall s :: s in local ==> KeptAs(chosen, s))
    && (forall s :: s in chosen && s.nodeGroup == nodeGroup ==> Bare(s) in local)
    && (forall s :: s in chosen ==> s in services || s in local)
  }

  lemma OverlayIsWell(p: Platform, nodeGroup: string, local: seq<Service>, services: seq<Service>, chosen: seq<Service>)
    requires ServicesOk(p, nodeGroup, local) && Distinct(Map(services, ServiceId))
    requires Chosen(local, nodeGroup, services, chosen)
    ensures ChosenWell(local, nodeGroup, services, chosen)
  {
    var wanted := Wanted(local);
    var s := Select(services, nodeGroup, wanted);
    var extra := Leftover(local, s.rest);
    SelectEstablishes(services, nodeGroup, wanted);
    ContractIdsDistinct(local);
    LeftoverDistinct(local, s.rest);
    LeftoverMembers(local, s.rest);
    AllDistinct(s.kept, extra, s.rest);
    var all := s.kept + extra;
    MapPermuted(all, chosen, ServiceId);
    DistinctPermuted(Map(all, ServiceId), Map(chosen, ServiceId));
    SameMembers(all, chosen);
    forall x | x in local
      ensures KeptAs(chosen, x)
    {
      LocalIsKept(p, nodeGroup, local, s, x);
      if KeptAs(s.kept, x) {
        var k :| k in s.kept && Bare(k) == x;
        assert k in chosen;
      } else {
        assert x in extra && x in chosen && Bare(x) == x;
      }
    }
    forall x | x in chosen && x.nodeGroup == nodeGroup
      ensures Bare(x) in local
    {
      if x in s.kept {
        assert Lookup(local, ServiceId(x)) == Some(Bare(x));
      } else {
        LocalIsBare(p, nodeGroup, local, x);
      }
    }
  }

  lemma SameMembers(a: seq<Service>, b: seq<Service>)
    requires multiset(a) == multiset(b)
    ensures forall x :: x in a <==> x in b
  {
    forall x
      ensures x in a <==> x in b
    {
      assert x in multiset(a) <==> x in multiset(b);
    }
  }

  lemma LocalIsBare(p: Platform, nodeGroup: string, local: seq<Service>, x: Service)
    requires ServicesOk(p, nodeGroup, local) && x in local
    ensures Bare(x) == x && ServiceOk(p, nodeGroup, x)
  {
    var i :| 0 <= i < |local| && local[i] == x;
    assert ServiceOk(p, nodeGroup, local[i]);
  }

  lemma {:induction false} LocalIsKept(p: Platform, nodeGroup: string, local: seq<Service>, s: Selection, x: Service)
    requires ServicesOk(p, nodeGroup, local) && x in local
    requires forall id :: id in Wanted(local) ==> id in s.rest || KeptAs(s.kept, Wanted(local)[id])
    ensures (Bare(x) == x && ServiceId(x) in s.rest) || KeptAs(s.kept, x)
  {
    LocalIsBare(p, nodeGroup, local, x);
    assert Lookup(local, ServiceId(x)).Some?;
    LookupExact(p, nodeGroup, local, x.namespace, x.name, x);
    assert Wanted(local)[ServiceId(x)] == x;
  }

  lemma AllDistinct(kept: seq<Service>, extra: seq<Service>, rest: map<string, Service>)
    requires Distinct(Map(kept, ServiceId)) && Distinct(Map(extra, ServiceId))
    requires forall s :: s in kept ==> ServiceId(s) !in rest
    requires forall s :: s in extra ==> ServiceId(s) in rest
    ensures Distinct(Map(kept + extra, ServiceId))
  {
    var a, b := Map(kept, ServiceId), Map(extra, ServiceId);
    forall id | id in a
      ensures id !in b
    {
      var i :| 0 <= i < |kept| && a[i] == id;
      assert kept[i] in kept;
      forall j | 0 <= j < |extra|
        ensures b[j] != id
      {
        assert extra[j] in extra;
      }
    }
    DistinctConcat(a, b);
    MapConcat(kept, extra, ServiceId);
  }

  // ---- Every check passes ----

  ghost predicate NamesNulFree(peers: seq<Peer>) {
    forall peer, s :: peer in peers && s in peer.hello.services ==> NulFree(s.ports)
  }

  lemma ContractServiceApplies(p: Platform, nodeGroup: string, s: Service)
    requires Faithful(p) && ValidID(nodeGroup) && ServiceOk(p, nodeGroup, s)
    ensures ServiceApplies(p, s)
  {
  }

  // A backend of a merged service offers every one of that service's ports.
  lemma BackendServes(p: Platform, peers: seq<Peer>, generation: nat, revision: nat, leader: string, snapshot: Snapshot,
                      items: seq<Service>, s: Service, e: Endpoint)
    requires RegistryOk(p, peers) && NamesNulFree(peers)
             && Built(p, peers, generation, revision, leader, snapshot, items)
    requires s in snapshot.services && e in s.backends
    ensures p.address(e.address).Some? && GlobalUnicast(p.address(e.address).value) && e.podUid != ""
    ensures AllTargetsFound(s.ports, e.ports)
  {
    var slot, claim := MergedOrigin(p, peers, generation, revision, leader, snapshot, items, s, e);
    ClaimsFrom(peers);
    var peer :| peer in peers && peer.state.Some? && claim.nodeGroup == peer.hello.nodeGroup
                && claim.digest == peer.state.value.configDigest && claim.endpoint in peer.state.value.endpoints;
    assert PeerOk(p, peer);
    var contract := peer.hello.services;
    var j :| 0 <= j < |peer.state.value.endpoints| && peer.state.value.endpoints[j] == e;
    assert EndpointOk(p, peer.hello.nodeGroup, contract, e);
    SlotsDistinct(p, peers);
    var other :| other in peers && other.hello.nodeGroup == slot.group && slot.item in other.hello.services;
    assert Compatible(peer.hello, other.hello);
    LookupExact(p, peer.hello.nodeGroup, contract, e.namespace, e.service, slot.item);
    LocalIsBare(p, peer.hello.nodeGroup, contract, slot.item);
    assert s.ports == Bare(s).ports == slot.item.ports;
    TargetsFoundWhenNulFree(s.ports, e.ports);
  }

  // The slot a published Service was made for.
  lemma ItemOrigin(p: Platform, peers: seq<Peer>, generation: nat, revision: nat, leader: string, snapshot: Snapshot,
                   items: seq<Service>, s: Service) returns (slot: Slot)
    requires Built(p, peers, generation, revision, leader, snapshot, items) && s in snapshot.services
    ensures slot in Slots(peers) && ItemFor(slot, Claims(peers), s)
  {
    assert s in multiset(items);
    var i :| 0 <= i < |items| && items[i] == s;
    slot := Slots(peers)[i];
  }

  // Where a merged backend came from: its slot and its claim.
  lemma MergedOrigin(p: Platform, peers: seq<Peer>, generation: nat, revision: nat, leader: string, snapshot: Snapshot,
                     items: seq<Service>, s: Service, e: Endpoint) returns (slot: Slot, claim: Claim)
    requires RegistryOk(p, peers) && Built(p, peers, generation, revision, leader, snapshot, items)
    requires s in snapshot.services && e in s.backends
    ensures slot in Slots(peers) && Bare(s) == Bare(slot.item)
    ensures claim in Claims(peers) && Matches(slot, claim) && claim.endpoint == e
  {
    slot := ItemOrigin(p, peers, generation, revision, leader, snapshot, items, s);
    SlotsBare(p, peers);
    assert e in multiset(s.backends);
    claim := GatherOrigin(Claims(peers), slot, e);
  }

  lemma {:induction false} GatherOrigin(claims: seq<Claim>, slot: Slot, e: Endpoint) returns (claim: Claim)
    requires e in Gather(claims, slot)
    ensures claim in claims && Matches(slot, claim) && claim.endpoint == e
  {
    var front, last := claims[..|claims| - 1], claims[|claims| - 1];
    if Matches(slot, last) && last.endpoint == e {
      claim := last;
    } else {
      claim := GatherOrigin(front, slot, e);
    }
  }

  lemma MergedServiceApplies(p: Platform, peers: seq<Peer>, generation: nat, revision: nat, leader: string,
                             snapshot: Snapshot, items: seq<Service>, s: Service)
    requires Faithful(p) && RegistryOk(p, peers) && NamesNulFree(peers)
    requires Built(p, peers, generation, revision, leader, snapshot, items) && s in snapshot.services
    ensures ServiceApplies(p, s)
  {
    MergedContract(p, peers, generation, revision, leader, snapshot, items, s);
    forall k | 0 <= k < |s.ports|
      ensures PortTargetsOk(p, s.ports[k], s.backends)
    {
      forall j | 0 <= j < |s.backends|
        ensures TargetOk(p, s.ports[k], s.backends[j])
      {
        BackendServes(p, peers, generation, revision, leader, snapshot, items, s, s.backends[j]);
        assert TargetsFound(s.ports[k], s.backends[j].ports);
      }
    }
    FilledServiceApplies(p, s);
  }

  // Without its backends a merged service is one of the registered contracts' services.
  lemma MergedContract(p: Platform, peers: seq<Peer>, generation: nat, revision: nat, leader: string,
                       snapshot: Snapshot, items: seq<Service>, s: Service)
    requires RegistryOk(p, peers) && Built(p, peers, generation, revision, leader, snapshot, items)
             && s in snapshot.services
    ensures ValidID(s.nodeGroup) && ServiceOk(p, s.nodeGroup, Bare(s))
  {
    assert s in multiset(items);
    var i :| 0 <= i < |items| && items[i] == s;
    var slot := Slots(peers)[i];
    assert ItemFor(slot, Claims(peers), items[i]) && slot in Slots(peers);
    SlotsBare(p, peers);
    assert Bare(s) == slot.item;
  }

  lemma FilledServiceApplies(p: Platform, s: Service)
    requires Faithful(p) && ValidID(s.nodeGroup) && ServiceOk(p, s.nodeGroup, Bare(s))
    requires forall k :: 0 <= k < |s.ports| ==> PortTargetsOk(p, s.ports[k], s.backends)
    ensures ServiceApplies(p, s)
  {
    ContractServiceApplies(p, s.nodeGroup, Bare(s));
  }

  /** Producer and checker agree: a snapshot built from a consistent registry passes every check on every node,
      whatever that node's own valid contract; every local desired Service is then present and no other Service
      of the local NodeGroup is. */
  lemma ProducerAndCheckerAgree(p: Platform, peers: seq<Peer>, generation: nat, revision: nat, leader: string,
                                snapshot: Snapshot, items: seq<Service>, nodeGroup: string, digest: string,
                                local: seq<Service>, chosen: seq<Service>)
    requires Faithful(p) && RegistryOk(p, peers) && NamesNulFree(peers)
    requires Built(p, peers, generation, revision, leader, snapshot, items)
    requires ContractOk(p, nodeGroup, digest, local) && Chosen(local, nodeGroup, snapshot.services, chosen)
    ensures Applies(p, chosen) && ChosenWell(local, nodeGroup, snapshot.services, chosen)
  {
    IdentitiesDistinct(p, peers, generation, revision, leader, snapshot, items);
    OverlayIsWell(p, nodeGroup, local, snapshot.services, chosen);
    forall i | 0 <= i < |chosen|
      ensures ServiceApplies(p, chosen[i])
    {
      assert chosen[i] in chosen;
      if chosen[i] in snapshot.services {
        MergedServiceApplies(p, peers, generation, revision, leader, snapshot, items, chosen[i]);
      } else {
        LocalIsBare(p, nodeGroup, local, chosen[i]);
        ContractServiceApplies(p, nodeGroup, chosen[i]);
      }
    }
  }
}
