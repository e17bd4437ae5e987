// What a leader accepts: a NodeGroup's contract and a node's endpoint state.
module Contracts {
  import opened Net
  import opened Sorting
  import opened Wire
  import T = Tables

  const MAX_ITEMS := 10000

  // ---- Contracts ----

  predicate PortOk(t: TargetPort) {
    1 <= t.servicePort <= 65535 && 1 <= t.targetPort <= 65535 && (t.protocol == "TCP" || t.protocol == "UDP")
  }

  function ListenKey(t: TargetPort): string {
    t.protocol + "/" + Decimal(t.servicePort)
  }

  predicate PortsOk(ports: seq<TargetPort>) {
    && (forall i :: 0 <= i < |ports| ==> PortOk(ports[i]))
    && forall i, j :: 0 <= i < j < |ports| ==> ListenKey(ports[i]) != ListenKey(ports[j])
  }

  predicate HexDigit(c: char) { '0' <= c <= '9' || 'a' <= c <= 'f' || 'A' <= c <= 'F' }

  predicate DigestOk(digest: string) {
    |digest| == 128 && forall i :: 0 <= i < 128 ==> HexDigit(digest[i])
  }

  function ServiceId(s: Service): string {
    Identity(s.namespace, s.name)
  }

  predicate ServiceOk(p: Platform, nodeGroup: string, s: Service) {
    && s.nodeGroup == nodeGroup && ValidNamespace(s.namespace) && ValidID(s.name)
    && s.fqdn == FQDN(s.name, s.namespace) && s.vip == p.text(DeriveVIP(p, s.namespace, s.name))
    && s.backends == [] && PortsOk(s.ports)
  }

  predicate Rising(services: seq<Service>) {
    forall i, j :: 0 <= i < j < |services| ==> StringLess(ServiceId(services[i]), ServiceId(services[j]))
  }

  predicate ServicesOk(p: Platform, nodeGroup: string, services: seq<Service>) {
    (forall i :: 0 <= i < |services| ==> ServiceOk(p, nodeGroup, services[i])) && Rising(services)
  }

  predicate ContractOk(p: Platform, nodeGroup: string, digest: string, services: seq<Service>) {
    ValidID(nodeGroup) && DigestOk(digest) && |services| <= MAX_ITEMS && ServicesOk(p, nodeGroup, services)
  }

  method ValidatePorts(ports: seq<TargetPort>) returns (ok: bool)
    ensures ok <==> PortsOk(ports)
  {
    var seen: set<string> := {};
    for i := 0 to |ports|
      invariant forall k :: 0 <= k < i ==> PortOk(ports[k]) && ListenKey(ports[k]) in seen
      invariant forall key :: key in seen ==> exists k :: 0 <= k < i && ListenKey(ports[k]) == key
      invariant forall j, k :: 0 <= j < k < i ==> ListenKey(ports[j]) != ListenKey(ports[k])
    {
      var t := ports[i];
      if !PortOk(t) || ListenKey(t) in seen {
        return false;
      }
      seen := seen + {ListenKey(t)};
    }
    ok := true;
  }

  lemma EmptyIsLeast(s: string)
    requires s != ""
    ensures StringLess("", s)
  {
  }

  // The checks of one Service against the identities before it.
  method ValidateService(p: Platform, nodeGroup: string, s: Service, previous: string, seen: set<string>)
    returns (ok: bool)
    ensures ok <==> ServiceOk(p, nodeGroup, s) && StringLess(previous, ServiceId(s)) && ServiceId(s) !in seen
  {
    if s.nodeGroup != nodeGroup || !ValidNamespace(s.namespace) || !ValidID(s.name)
       || !StringLess(previous, ServiceId(s)) || ServiceId(s) in seen
       || s.fqdn != FQDN(s.name, s.namespace) || s.vip != p.text(DeriveVIP(p, s.namespace, s.name))
         || s.backends != [] {
      return false;
    }
    ok := ValidatePorts(s.ports);
  }

  ghost predicate SeenIds(services: seq<Service>, n: nat, seen: set<string>) {
    n <= |services| && forall key :: key in seen <==> exists k :: 0 <= k < n && ServiceId(services[k]) == key
  }

  // One pass that remembers the previous identity and those seen.
  method ValidateContract(p: Platform, nodeGroup: string, digest: string, services: seq<Service>) returns (ok: bool)
    ensures ok <==> ContractOk(p, nodeGroup, digest, services)
  {
    if !ValidID(nodeGroup) || !DigestOk(digest) || |services| > MAX_ITEMS {
      return false;
    }
    var seen: set<string>, previous := {}, "";
    for i := 0 to |services|
      invariant ServicesOk(p, nodeGroup, services[..i]) && SeenIds(services, i, seen)
      invariant previous == if i == 0 then "" else ServiceId(services[i - 1])
    {
      ServicesStep(p, nodeGroup, services, i);
      var valid := ValidateService(p, nodeGroup, services[i], previous, seen);
      if !valid {
        return false;
      }
      SeenIdsStep(services, i, seen);
      previous, seen := ServiceId(services[i]), seen + {ServiceId(services[i])};
    }
    assert services[..|services|] == services;
    ok := true;
  }

  lemma SeenIdsStep(services: seq<Service>, i: nat, seen: set<string>)
    requires i < |services| && SeenIds(services, i, seen)
    ensures SeenIds(services, i + 1, seen + {ServiceId(services[i])})
  {
  }

  // Comparing with the previous identity alone decides the whole order.
  lemma ServicesStep(p: Platform, nodeGroup: string, services: seq<Service>, i: nat)
    requires i < |services| && ServicesOk(p, nodeGroup, services[..i])
    ensures var previous := if i == 0 then "" else ServiceId(services[i - 1]);
            ServicesOk(p, nodeGroup, services[..i + 1]) <==>
            ServiceOk(p, nodeGroup, services[i]) && StringLess(previous, ServiceId(services[i]))
            && forall k :: 0 <= k < i ==> ServiceId(services[k]) != ServiceId(services[i])
    ensures ServicesOk(p, nodeGroup, services) ==> ServicesOk(p, nodeGroup, services[..i + 1])
  {
    var id := ServiceId(services[i]);
    if i == 0 {
      EmptyIsLeast(id);
    } else {
      forall k | 0 <= k < i - 1
        ensures StringLess(ServiceId(services[i - 1]), id) ==> StringLess(ServiceId(services[k]), id)
      {
        assert StringLess(ServiceId(services[..i][k]), ServiceId(services[..i][i - 1]));
        StringOrder(ServiceId(services[k]), ServiceId(services[i - 1]), id);
      }
    }
    forall k | 0 <= k < i
      ensures StringLess(ServiceId(services[k]), id) ==> ServiceId(services[k]) != id
    {
      StringOrder(id, id, id);
    }
    if ServicesOk(p, nodeGroup, services[..i + 1]) && i > 0 {
      assert services[..i + 1][i] == services[i] && services[..i + 1][i - 1] == services[i - 1];
    }
  }

  // ---- Endpoint states ----

  // The last service of the contract under a key, as later map entries replace earlier ones.
  function Lookup(contract: seq<Service>, key: string): (r: Option<Service>)
    ensures r.Some? ==> r.value in contract && ServiceId(r.value) == key
    ensures r.None? ==> forall s :: s in contract ==> ServiceId(s) != key
  {
    if contract == [] then None
    else
      var last := contract[|contract| - 1];
      assert contract == contract[..|contract| - 1] + [last];
      if ServiceId(last) == key then Some(last) else Lookup(contract[..|contract| - 1], key)
  }

  function KeysOf(ports: seq<TargetPort>): set<string> {
    set k | 0 <= k < |ports| :: PortKey(ports[k])
  }

  // Every port of the endpoint is expected, and none twice.
  predicate PortsAgree(service: seq<TargetPort>, endpoint: seq<TargetPort>) {
    && |endpoint| == |service|
    && (forall i :: 0 <= i < |endpoint| ==> PortKey(endpoint[i]) in KeysOf(service))
    && KeysDistinct(endpoint)
  }

  function EndpointId(e: Endpoint): string {
    e.namespace + "\0" + e.service + "\0" + e.podUid + "\0" + e.address
  }

  predicate EndpointOk(p: Platform, nodeGroup: string, contract: seq<Service>, e: Endpoint) {
    && Lookup(contract, Identity(e.namespace, e.service)).Some?
    && e.nodeGroup == nodeGroup && e.podUid != ""
    && p.address(e.address).Some? && GlobalUnicast(p.address(e.address).value)
    && PortsAgree(Lookup(contract, Identity(e.namespace, e.service)).value.ports, e.ports)
  }

  predicate NodeStateOk(p: Platform, nodeGroup: string, contract: seq<Service>, state: NodeState) {
    && |state.endpoints| <= MAX_ITEMS
    && (forall i :: 0 <= i < |state.endpoints| ==> EndpointOk(p, nodeGroup, contract, state.endpoints[i]))
    && Distinct(Map(state.endpoints, EndpointId))
  }

  lemma KeysStep(ports: seq<TargetPort>, k: nat)
    requires k < |ports|
    ensures KeysOf(ports[..k + 1]) == KeysOf(ports[..k]) + {PortKey(ports[k])}
  {
    assert ports[..k + 1][k] == ports[k];
    assert forall i :: 0 <= i < k ==> ports[..k + 1][i] == ports[..k][i];
  }

  method CollectKeys(ports: seq<TargetPort>) returns (keys: set<string>)
    ensures keys == KeysOf(ports)
  {
    keys := {};
    for k := 0 to |ports|
      invariant keys == KeysOf(ports[..k])
    {
      KeysStep(ports, k);
      keys := keys + {PortKey(ports[k])};
    }
    assert ports[..|ports|] == ports;
  }

  predicate KeysDistinct(ports: seq<TargetPort>) {
    Distinct(Map(ports, PortKey))
  }

  // The expected keys shrink by each key met.
  method ComparePorts(service: seq<TargetPort>, endpoint: seq<TargetPort>) returns (ok: bool)
    ensures ok <==> PortsAgree(service, endpoint)
  {
    if |endpoint| != |service| {
      return false;
    }
    var expected := CollectKeys(service);
    ghost var all, keys := expected, Map(endpoint, PortKey);
    for i := 0 to |endpoint|
      invariant expected == all - KeysOf(endpoint[..i])
      invariant forall k :: 0 <= k < i ==> PortKey(endpoint[k]) in all
      invariant Distinct(keys[..i])
    {
      KeysStep(endpoint, i);
      KeysOfPrefix(endpoint, i);
      DistinctStep(keys, i);
      if PortKey(endpoint[i]) !in expected {
        return false;
      }
      expected := expected - {PortKey(endpoint[i])};
    }
    assert keys[..|endpoint|] == keys;
    ok := true;
  }

  lemma KeysOfPrefix(ports: seq<TargetPort>, k: nat)
    requires k <= |ports|
    ensures forall key :: key in KeysOf(ports[..k]) <==> key in Map(ports, PortKey)[..k]
  {
    var keys := Map(ports, PortKey);
    forall key | key in keys[..k]
      ensures key in KeysOf(ports[..k])
    {
      var i :| 0 <= i < k && keys[..k][i] == key;
      assert PortKey(ports[..k][i]) == key;
    }
    forall key | key in KeysOf(ports[..k])
      ensures key in keys[..k]
    {
      var i :| 0 <= i < k && PortKey(ports[..k][i]) == key;
      assert keys[..k][i] == key;
    }
  }

  // The contract as a map from identity to service.
  ghost predicate Indexed(contract: seq<Service>, services: map<string, Service>) {
    && (forall key :: key in services <==> Lookup(contract, key).Some?)
    && (forall key :: key in services ==> Lookup(contract, key) == Some(services[key]))
  }

  method IndexContract(contract: seq<Service>) returns (services: map<string, Service>)
    ensures Indexed(contract, services)
  {
    services := map[];
    for k := 0 to |contract|
      invariant Indexed(contract[..k], services)
    {
      assert contract[..k + 1][..k] == contract[..k];
      services := services[ServiceId(contract[k]) := contract[k]];
    }
    assert contract[..|contract|] == contract;
  }

  method ValidateEndpoint(p: Platform, nodeGroup: string, ghost contract: seq<Service>, services: map<string, Service>,
                          e: Endpoint)
    returns (ok: bool)
    requires Indexed(contract, services)
    ensures ok <==> EndpointOk(p, nodeGroup, contract, e)
  {
    var key := Identity(e.namespace, e.service);
    if key !in services || e.nodeGroup != nodeGroup || e.podUid == "" || p.address(e.address).None?
       || !GlobalUnicast(p.address(e.address).value) {
      return false;
    }
    ok := ComparePorts(services[key].ports, e.ports);
  }

  method ValidateNodeState(p: Platform, nodeGroup: string, contract: seq<Service>, state: NodeState) returns (ok: bool)
    ensures ok <==> NodeStateOk(p, nodeGroup, contract, state)
  {
    if |state.endpoints| > MAX_ITEMS {
      return false;
    }
    var services := IndexContract(contract);
    var seen: set<string> := {};
    ghost var ids := Map(state.endpoints, EndpointId);
    for i := 0 to |state.endpoints|
      invariant forall k :: 0 <= k < i ==> EndpointOk(p, nodeGroup, contract, state.endpoints[k])
      invariant Seen(ids, i, seen)
    {
      var e := state.endpoints[i];
      SeenNext(ids, i, seen);
      var valid := ValidateEndpoint(p, nodeGroup, contract, services, e);
      if !valid || EndpointId(e) in seen {
        return false;
      }
      seen := seen + {EndpointId(e)};
    }
    assert ids[..|ids|] == ids;
    ok := true;
  }

  // ---- What a contract guarantees about its own lookups ----

  lemma RisingDistinct(services: seq<Service>, i: nat, j: nat)
    requires Rising(services) && i < |services| && j < |services| && i != j
    ensures ServiceId(services[i]) != ServiceId(services[j])
  {
    StringOrder(ServiceId(services[i]), ServiceId(services[i]), ServiceId(services[i]));
  }

  // In a valid contract a lookup finds the one service with that namespace and name.
  lemma {:induction false} LookupExact(p: Platform, nodeGroup: string, contract: seq<Service>, namespace: string,
                                       name: string, s: Service)
    requires ServicesOk(p, nodeGroup, contract) && s in contract
    requires Lookup(contract, Identity(namespace, name)).Some?
    ensures s == Lookup(contract, Identity(namespace, name)).value <==> s.namespace == namespace && s.name == name
  {
    var found := Lookup(contract, Identity(namespace, name)).value;
    var i :| 0 <= i < |contract| && contract[i] == found;
    var j :| 0 <= j < |contract| && contract[j] == s;
    assert ServiceOk(p, nodeGroup, contract[i]) && ServiceOk(p, nodeGroup, contract[j]);
    IdentityUnique(found.namespace, found.name, namespace, name);
    if i != j {
      RisingDistinct(contract, i, j);
    }
  }
}
