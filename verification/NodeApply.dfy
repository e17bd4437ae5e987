// What each node does with a snapshot before it touches DNS and the dataplane: overlay its own contract,
// check everything again, and convert.
module NodeApply {
  import opened Net
  import opened Sorting
  import opened Wire
  import opened Contracts
  import opened Merge
  import T = Tables

  // ---- Overlay of the local contract ----

  function Wanted(local: seq<Service>): (r: map<string, Service>)
    ensures forall id :: id in r <==> Lookup(local, id).Some?
    ensures forall id :: id in r ==> Lookup(local, id) == Some(r[id])
  {
    if local == [] then map[]
    else
      var last := local[|local| - 1];
      Wanted(local[..|local| - 1])[ServiceId(last) := last]
  }

  datatype Selection = Selection(kept: seq<Service>, rest: map<string, Service>)

  // Keeps remote services and matching local ones; `rest` are the local services not met yet.
  function Select(services: seq<Service>, nodeGroup: string, wanted: map<string, Service>): Selection {
    if services == [] then Selection([], wanted)
    else
      var before, item := Select(services[..|services| - 1], nodeGroup, wanted), services[|services| - 1];
      var id := ServiceId(item);
      if id in before.rest && item.nodeGroup == nodeGroup then
        if Bare(item) == before.rest[id] then Selection(before.kept + [item], before.rest - {id}) else before
      else if id !in before.rest && item.nodeGroup != nodeGroup then Selection(before.kept + [item], before.rest)
      else before
  }

  // The local services left over, in some order.
  function Leftover(local: seq<Service>, rest: map<string, Service>): seq<Service> {
    if local == [] then []
    else
      var front, last := Leftover(local[..|local| - 1], rest), local[|local| - 1];
      if ServiceId(last) in rest then front + [last] else front
  }

  // A sorted arrangement of what is kept and what is added; the order of ties is open.
  ghost predicate Chosen(local: seq<Service>, nodeGroup: string, services: seq<Service>, chosen: seq<Service>) {
    var s := Select(services, nodeGroup, Wanted(local));
    Sorted(chosen, ServiceLess) && multiset(chosen) == multiset(s.kept + Leftover(local, s.rest))
  }

  method ChooseServices(local: seq<Service>, nodeGroup: string, services: seq<Service>) returns (chosen: seq<Service>)
    ensures Chosen(local, nodeGroup, services, chosen)
  {
    var wanted := Wanted(local);
    var kept, rest := [], wanted;
    for i := 0 to |services|
      invariant Selection(kept, rest) == Select(services[..i], nodeGroup, wanted)
    {
      assert services[..i + 1][..i] == services[..i];
      var item := services[i];
      var id := ServiceId(item);
      if id in rest && item.nodeGroup == nodeGroup {
        if Bare(item) == rest[id] {
          kept, rest := kept + [item], rest - {id};
        }
      } else if id !in rest && item.nodeGroup != nodeGroup {
        kept := kept + [item];
      }
    }
    assert services[..|services|] == services;
    MergeOrders();
    chosen := Arrange(kept + Leftover(local, rest), ServiceLess);
  }

  // ---- Checks ----

  predicate ServiceChecks(p: Platform, s: Service) {
    && ValidID(s.nodeGroup) && ValidNamespace(s.namespace) && ValidID(s.name) && s.fqdn == FQDN(s.name, s.namespace)
    && p.address(s.vip) == Some(T.IPv6(DeriveVIP(p, s.namespace, s.name)))
  }

  predicate Targets(port: TargetPort, target: TargetPort) {
    target.name == port.name && target.protocol == port.protocol && target.servicePort == port.servicePort
  }

  // The target ports a backend offers for one service port.
  function TargetsOf(port: TargetPort, offered: seq<TargetPort>): seq<nat> {
    if offered == [] then []
    else
      var front, last := TargetsOf(port, offered[..|offered| - 1]), offered[|offered| - 1];
      if Targets(port, last) then front + [last.targetPort] else front
  }

  predicate TargetOk(p: Platform, port: TargetPort, e: Endpoint) {
    && p.address(e.address).Some? && GlobalUnicast(p.address(e.address).value) && e.podUid != ""
    && TargetsOf(port, e.ports) != []
    && forall i :: 0 <= i < |TargetsOf(port, e.ports)| ==> 1 <= TargetsOf(port, e.ports)[i] <= 65535
  }

  predicate PortTargetsOk(p: Platform, port: TargetPort, backends: seq<Endpoint>) {
    forall i :: 0 <= i < |backends| ==> TargetOk(p, port, backends[i])
  }

  predicate ServiceApplies(p: Platform, s: Service) {
    && ServiceChecks(p, s) && PortsOk(s.ports)
    && forall i :: 0 <= i < |s.ports| ==> PortTargetsOk(p, s.ports[i], s.backends)
  }

  predicate Applies(p: Platform, services: seq<Service>) {
    (forall i :: 0 <= i < |services| ==> ServiceApplies(p, services[i])) && Distinct(Map(services, ServiceId))
  }

  // ---- Conversion ----

  function Word16(n: nat): Word { n % 0x1_0000 }

  function ProtocolNumber(protocol: string): Byte {
    if protocol == "UDP" then 17 else 6
  }

  function OfferedBackends(p: Platform, e: Endpoint, targets: seq<nat>): (r: seq<T.Backend>)
    ensures |r| == |targets|
  {
    seq(|targets|, i requires 0 <= i < |targets| =>
      T.Backend(if p.address(e.address).Some? then p.address(e.address).value else T.NotIPv6, Word16(targets[i])))
  }

  function PortBackends(p: Platform, port: TargetPort, backends: seq<Endpoint>): seq<T.Backend> {
    if backends == [] then []
    else
      var last := backends[|backends| - 1];
      PortBackends(p, port, backends[..|backends| - 1]) + OfferedBackends(p, last, TargetsOf(port, last.ports))
  }

  function PortModel(p: Platform, port: TargetPort, backends: seq<Endpoint>): T.Port {
    T.Port(ProtocolNumber(port.protocol), Word16(port.servicePort), PortBackends(p, port, backends))
  }

  function PortModels(p: Platform, s: Service): (r: seq<T.Port>)
    ensures |r| == |s.ports| && forall i :: 0 <= i < |r| ==> r[i] == PortModel(p, s.ports[i], s.backends)
  {
    seq(|s.ports|, i requires 0 <= i < |s.ports| => PortModel(p, s.ports[i], s.backends))
  }

  function ServiceModel(p: Platform, s: Service): T.Service {
    T.Service(T.IPv6(DeriveVIP(p, s.namespace, s.name)), PortModels(p, s))
  }

  function Models(p: Platform, services: seq<Service>): (r: seq<T.Service>)
    ensures |r| == |services| && forall i :: 0 <= i < |r| ==> r[i] == ServiceModel(p, services[i])
  {
    seq(|services|, i requires 0 <= i < |services| => ServiceModel(p, services[i]))
  }

  function DNSValues(p: Platform, services: seq<Service>): map<string, Address> {
    if services == [] then map[]
    else
      var last := services[|services| - 1];
      DNSValues(p, services[..|services| - 1])[last.fqdn := DeriveVIP(p, last.namespace, last.name)]
  }

  // One backend against one service port.
  method ConvertBackend(p: Platform, port: TargetPort, e: Endpoint) returns (ok: bool, out: seq<T.Backend>)
    ensures ok <==> TargetOk(p, port, e)
    ensures ok ==> out == OfferedBackends(p, e, TargetsOf(port, e.ports))
  {
    out := [];
    if p.address(e.address).None? || !GlobalUnicast(p.address(e.address).value) || e.podUid == "" {
      return false, out;
    }
    var address, matched := p.address(e.address).value, false;
    for j := 0 to |e.ports|
      invariant out == OfferedBackends(p, e, TargetsOf(port, e.ports[..j]))
      invariant forall i :: 0 <= i < |TargetsOf(port, e.ports[..j])| ==> 1 <= TargetsOf(port, e.ports[..j])[i] <= 65535
      invariant matched <==> TargetsOf(port, e.ports[..j]) != []
    {
      assert e.ports[..j + 1][..j] == e.ports[..j];
      var target := e.ports[j];
      if target.name == port.name && target.protocol == port.protocol && target.servicePort == port.servicePort {
        if target.targetPort == 0 || target.targetPort > 65535 {
          TargetsContain(port, e.ports, j);
          return false, out;
        }
        out := out + [T.Backend(address, Word16(target.targetPort))];
        matched := true;
      }
    }
    assert e.ports[..|e.ports|] == e.ports;
    ok := matched;
  }

  lemma {:induction false} TargetsContain(port: TargetPort, offered: seq<TargetPort>, j: nat)
    requires j < |offered| && Targets(port, offered[j])
    ensures exists i :: 0 <= i < |TargetsOf(port, offered)| && TargetsOf(port, offered)[i] == offered[j].targetPort
    decreases |offered|
  {
    var front := offered[..|offered| - 1];
    if j < |front| {
      TargetsContain(port, front, j);
      var i :| 0 <= i < |TargetsOf(port, front)| && TargetsOf(port, front)[i] == front[j].targetPort;
      assert TargetsOf(port, offered)[i] == offered[j].targetPort;
    } else {
      assert TargetsOf(port, offered)[|TargetsOf(port, front)|] == offered[j].targetPort;
    }
  }

  method ConvertPort(p: Platform, port: TargetPort, backends: seq<Endpoint>) returns (ok: bool, out: T.Port)
    ensures ok <==> PortTargetsOk(p, port, backends)
    ensures ok ==> out == PortModel(p, port, backends)
  {
    var protocol: Byte := 6;
    if port.protocol == "UDP" {
      protocol := 17;
    }
    out := T.Port(protocol, Word16(port.servicePort), []);
    var items: seq<T.Backend> := [];
    for i := 0 to |backends|
      invariant items == PortBackends(p, port, backends[..i])
      invariant forall k :: 0 <= k < i ==> TargetOk(p, port, backends[k])
    {
      assert backends[..i + 1][..i] == backends[..i];
      var valid, found := ConvertBackend(p, port, backends[i]);
      if !valid {
        return false, out;
      }
      items := items + found;
    }
    assert backends[..|backends|] == backends;
    out := T.Port(protocol, Word16(port.servicePort), items);
    ok := true;
  }

  method ConvertService(p: Platform, s: Service) returns (ok: bool, out: T.Service)
    ensures ok <==> ServiceApplies(p, s)
    ensures ok ==> out == ServiceModel(p, s)
  {
    var vip := DeriveVIP(p, s.namespace, s.name);
    out := T.Service(T.IPv6(vip), []);
    if !ValidID(s.nodeGroup) || !ValidNamespace(s.namespace) || !ValidID(s.name) || s.fqdn != FQDN(s.name, s.namespace)
       || p.address(s.vip) != Some(T.IPv6(vip)) {
      return false, out;
    }
    var portsOk := ValidatePorts(s.ports);
    if !portsOk {
      return false, out;
    }
    var ports: seq<T.Port> := [];
    for i := 0 to |s.ports|
      invariant ports == PortModels(p, s)[..i]
      invariant forall k :: 0 <= k < i ==> PortTargetsOk(p, s.ports[k], s.backends)
    {
      var valid, port := ConvertPort(p, s.ports[i], s.backends);
      if !valid {
        return false, out;
      }
      ports := ports + [port];
    }
    assert PortModels(p, s)[..|s.ports|] == PortModels(p, s);
    out := T.Service(T.IPv6(vip), ports);
    ok := true;
  }

  // The first i services pass and are converted.
  ghost predicate ConvertedTo(p: Platform, services: seq<Service>, i: nat, model: seq<T.Service>,
                              dns: map<string, Address>)
    requires i <= |services|
  {
    && (forall k :: 0 <= k < i ==> ServiceApplies(p, services[k]))
    && model == Models(p, services[..i]) && dns == DNSValues(p, services[..i])
  }

  lemma ConvertedStep(p: Platform, services: seq<Service>, i: nat, model: seq<T.Service>, dns: map<string, Address>)
    requires i < |services| && ConvertedTo(p, services, i, model, dns) && ServiceApplies(p, services[i])
    ensures ConvertedTo(p, services, i + 1, model + [ServiceModel(p, services[i])],
                        dns[services[i].fqdn := DeriveVIP(p, services[i].namespace, services[i].name)])
  {
    assert services[..i + 1][..i] == services[..i] && services[..i + 1][i] == services[i];
    assert Models(p, services[..i + 1]) == Models(p, services[..i]) + [ServiceModel(p, services[i])];
  }

  method ConvertServices(p: Platform, services: seq<Service>)
    returns (ok: bool, model: seq<T.Service>, dns: map<string, Address>)
    ensures ok <==> Applies(p, services)
    ensures ok ==> model == Models(p, services) && dns == DNSValues(p, services)
  {
    ok, model, dns := false, [], map[];
    var seen: set<string> := {};
    ghost var ids := Map(services, ServiceId);
    for i := 0 to |services|
      invariant !ok && Seen(ids, i, seen) && ConvertedTo(p, services, i, model, dns)
    {
      SeenNext(ids, i, seen);
      if ServiceId(services[i]) in seen {
        return;
      }
      var valid, converted := ConvertService(p, services[i]);
      if !valid {
        return;
      }
      ConvertedStep(p, services, i, model, dns);
      seen := seen + {ServiceId(services[i])};
      model := model + [converted];
      dns := dns[services[i].fqdn := DeriveVIP(p, services[i].namespace, services[i].name)];
    }
    assert ids[..|services|] == ids && services[..|services|] == services;
    ok := true;
  }

  // The whole of Apply before Reconcile.
  method Prepare(p: Platform, local: seq<Service>, nodeGroup: string, node: T.IP, snapshot: Snapshot)
    returns (ok: bool, model: T.Snapshot, dns: map<string, Address>, chosen: seq<Service>)
    ensures Chosen(local, nodeGroup, snapshot.services, chosen)
    ensures ok <==> Applies(p, chosen)
    ensures ok ==> model == T.Snapshot(node, Models(p, chosen)) && dns == DNSValues(p, chosen)
  {
    var services := ChooseServices(local, nodeGroup, snapshot.services);
    chosen := services;
    var converted;
    ok, converted, dns := ConvertServices(p, services);
    model := T.Snapshot(node, converted);
  }
}
