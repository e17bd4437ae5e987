// From a checked snapshot to a packet: which addresses, ports and protocols the published table listens on, which pods
// stand behind each, and where a packet for a Service goes.
module Delivery {
  import opened Net
  import opened Sorting
  import opened Wire
  import opened Contracts
  import opened NodeApply
  import opened ModelProperties
  import T = Tables
  import TP = TableProperties
  import D = Datapath
  import V = DatapathVerdicts

  // The next-header number a Service port's protocol stands for.
  predicate Numbered(protocol: string, number: Byte) {
    (protocol == "TCP" && number == 6) || (protocol == "UDP" && number == 17)
  }

  // The port of the Service under which a packet of this key is for it.
  ghost predicate Listens(p: Platform, s: Service, port: TargetPort, key: D.ServiceKey) {
    && port in s.ports && p.address(s.vip) == Some(T.IPv6(key.vip))
    && port.servicePort == key.port && Numbered(port.protocol, key.protocol)
  }

  // A snapshot that a node accepted and could compile.
  ghost predicate Published(p: Platform, services: seq<Service>, node: T.IP) {
    && Applies(p, services) && VipsDiffer(p, services)
    && T.Acceptable(T.Snapshot(node, Models(p, services)))
  }

  function TableOf(p: Platform, services: seq<Service>, node: T.IP): D.Tables {
    TP.Published(T.CompiledTables(T.Snapshot(node, Models(p, services))))
  }

  // ---- Keys ----

  lemma SlotListens(p: Platform, s: Service, k: nat)
    requires ServiceApplies(p, s) && k < |s.ports|
    ensures T.SlotsOf(ServiceModel(p, s))[k] == T.Slot(T.IPv6(Vip(p, s)), PortModel(p, s.ports[k], s.backends))
    ensures Listens(p, s, s.ports[k], T.KeyOf(T.SlotsOf(ServiceModel(p, s))[k]))
  {
    assert PortOk(s.ports[k]);
  }

  // A listening port is the slot of its key.
  lemma ListenerIsSlot(p: Platform, s: Service, port: TargetPort, key: D.ServiceKey) returns (slot: T.Slot)
    requires ServiceApplies(p, s) && Listens(p, s, port, key)
    ensures slot in T.SlotsOf(ServiceModel(p, s)) && T.KeyOf(slot) == key
    ensures slot == T.Slot(T.IPv6(Vip(p, s)), PortModel(p, port, s.backends))
  {
    var k :| 0 <= k < |s.ports| && s.ports[k] == port;
    SlotListens(p, s, k);
    slot := T.SlotsOf(ServiceModel(p, s))[k];
    assert T.KeyOf(slot).vip == key.vip && T.KeyOf(slot).port == key.port;
  }

  lemma SlotHasListener(p: Platform, services: seq<Service>, slot: T.Slot)
    requires Applies(p, services) && slot in T.Flatten(Models(p, services))
    ensures exists s, port :: s in services && Listens(p, s, port, T.KeyOf(slot))
  {
    FlattenedVips(p, services);
    var i :| 0 <= i < |services| && slot in T.SlotsOf(ServiceModel(p, services[i]));
    var k :| 0 <= k < |services[i].ports| && T.SlotsOf(ServiceModel(p, services[i]))[k] == slot;
    SlotListens(p, services[i], k);
  }

  lemma ListenerIsCompiled(p: Platform, services: seq<Service>, node: T.IP, s: Service, port: TargetPort,
                           key: D.ServiceKey) returns (slot: T.Slot)
    requires Published(p, services, node) && s in services && Listens(p, s, port, key)
    ensures slot in T.Flatten(Models(p, services)) && T.KeyOf(slot) == key
    ensures slot.port == PortModel(p, port, s.backends)
    ensures |TableOf(p, services, node).backends| <= 65536
    ensures TP.HoldsPort(TableOf(p, services, node).services, TableOf(p, services, node).backends, slot)
  {
    var i: nat :| i < |services| && services[i] == s;
    slot := ListenerIsSlot(p, s, port, key);
    SlotIsFlattened(p, services, i, slot);
    TP.PortRange(T.Snapshot(node, Models(p, services)), slot);
  }

  /** The published table has an address, port and protocol if and only if some Service with that VIP has a port with
      that number whose protocol is TCP for next header 6 and UDP for 17. */
  lemma KeysExactly(p: Platform, services: seq<Service>, node: T.IP, key: D.ServiceKey)
    requires Published(p, services, node)
    ensures key in TableOf(p, services, node).services <==>
              exists s, port :: s in services && Listens(p, s, port, key)
  {
    var snapshot := T.Snapshot(node, Models(p, services));
    if key in TableOf(p, services, node).services {
      TP.RangesPartition(snapshot);
      var slot :| slot in T.Flatten(snapshot.services) && T.KeyOf(slot) == key;
      SlotHasListener(p, services, slot);
    }
    if s, port :| s in services && Listens(p, s, port, key) {
      var _ := ListenerIsCompiled(p, services, node, s, port, key);
    }
  }

  /** The addresses that packets of other protocols are shot for are exactly the VIPs of Services with ports. */
  lemma VipsExactly(p: Platform, services: seq<Service>, node: T.IP, a: Address)
    requires Published(p, services, node)
    ensures a in TableOf(p, services, node).vips <==>
              exists s :: s in services && s.ports != [] && p.address(s.vip) == Some(T.IPv6(a))
  {
    var t := TableOf(p, services, node);
    if a in t.vips {
      var key :| key in t.services && key.vip == a;
      KeysExactly(p, services, node, key);
    }
    if s :| s in services && s.ports != [] && p.address(s.vip) == Some(T.IPv6(a)) {
      VipListens(p, services, node, s, a);
    }
  }

  lemma VipListens(p: Platform, services: seq<Service>, node: T.IP, s: Service, a: Address)
    requires Published(p, services, node) && s in services && s.ports != [] && p.address(s.vip) == Some(T.IPv6(a))
    ensures a in TableOf(p, services, node).vips
  {
    var i :| 0 <= i < |services| && services[i] == s;
    SlotListens(p, s, 0);
    var key := T.KeyOf(T.SlotsOf(ServiceModel(p, s))[0]);
    KeysExactly(p, services, node, key);
    assert key in TableOf(p, services, node).services && key.vip == a;
  }

  // ---- Backends ----

  // The address and target port one port of an endpoint offers for a Service port.
  function OfferedBy(p: Platform, port: TargetPort, e: Endpoint): TargetPort -> multiset<D.BackendValue> {
    (t: TargetPort) =>
      if t.name == port.name && t.protocol == port.protocol && t.servicePort == port.servicePort
         && t.targetPort <= 65535 && p.address(e.address).Some? && p.address(e.address).value.IPv6?
      then multiset{D.BackendValue(p.address(e.address).value.bytes, t.targetPort)}
      else multiset{}
  }

  function OfferedFor(p: Platform, port: TargetPort): Endpoint -> multiset<D.BackendValue> {
    (e: Endpoint) => Sum(e.ports, OfferedBy(p, port, e))
  }

  lemma OneMoreOffer(p: Platform, e: Endpoint, targets: seq<nat>, target: nat)
    requires p.address(e.address).Some? && p.address(e.address).value.IPv6? && target <= 65535
    ensures multiset(Map(OfferedBackends(p, e, targets + [target]), T.Value))
         == multiset(Map(OfferedBackends(p, e, targets), T.Value))
            + multiset{D.BackendValue(p.address(e.address).value.bytes, target)}
  {
    var offered, backend := OfferedBackends(p, e, targets), T.Backend(p.address(e.address).value, target);
    assert OfferedBackends(p, e, targets + [target]) == offered + [backend];
    MapAppend(offered, backend, T.Value);
  }

  lemma {:induction false} OffersOf(p: Platform, port: TargetPort, e: Endpoint, offered: seq<TargetPort>)
    requires p.address(e.address).Some? && p.address(e.address).value.IPv6?
    requires forall t :: t in offered && Targets(port, t) ==> t.targetPort <= 65535
    ensures multiset(Map(OfferedBackends(p, e, TargetsOf(port, offered)), T.Value))
         == Sum(offered, OfferedBy(p, port, e))
  {
    if offered != [] {
      var n := |offered| - 1;
      var front, last := offered[..n], offered[n];
      assert offered == front + [last];
      OffersOf(p, port, e, front);
      SumAppend(front, last, OfferedBy(p, port, e));
      if Targets(port, last) {
        OneMoreOffer(p, e, TargetsOf(port, front), last.targetPort);
      }
    }
  }

  lemma TargetInBounds(p: Platform, port: TargetPort, e: Endpoint, j: nat)
    requires TargetOk(p, port, e) && j < |e.ports| && Targets(port, e.ports[j])
    ensures 1 <= e.ports[j].targetPort <= 65535
  {
    TargetsContain(port, e.ports, j);
  }

  lemma {:induction false} EndpointOffers(p: Platform, port: TargetPort, e: Endpoint)
    requires TargetOk(p, port, e)
    ensures multiset(Map(OfferedBackends(p, e, TargetsOf(port, e.ports)), T.Value)) == OfferedFor(p, port)(e)
  {
    forall t | t in e.ports && Targets(port, t)
      ensures t.targetPort <= 65535
    {
      var j :| 0 <= j < |e.ports| && e.ports[j] == t;
      TargetInBounds(p, port, e, j);
    }
    OffersOf(p, port, e, e.ports);
  }

  lemma {:induction false} BackendsOffered(p: Platform, port: TargetPort, backends: seq<Endpoint>)
    requires PortTargetsOk(p, port, backends)
    ensures multiset(Map(PortBackends(p, port, backends), T.Value)) == Sum(backends, OfferedFor(p, port))
  {
    if backends != [] {
      var n := |backends| - 1;
      var front, last := backends[..n], backends[n];
      assert TargetOk(p, port, last) && backends == front + [last];
      BackendsOffered(p, port, front);
      EndpointOffers(p, port, last);
      SumAppend(front, last, OfferedFor(p, port));
      MapConcat(PortBackends(p, port, front), OfferedBackends(p, last, TargetsOf(port, last.ports)), T.Value);
    }
  }

  function Slice(t: D.Tables, key: D.ServiceKey): seq<D.BackendValue>
    requires key in t.services && t.services[key].offset + t.services[key].count <= |t.backends|
  {
    t.backends[t.services[key].offset..t.services[key].offset + t.services[key].count]
  }

  /** Under a Service port's key the table holds exactly what its endpoints offer for that port, each as often as it is
      offered: the endpoint's address with the target port of every one of its ports that has the Service port's name,
      protocol and number. */
  lemma BackendsExactly(p: Platform, services: seq<Service>, node: T.IP, s: Service, port: TargetPort,
                        key: D.ServiceKey)
    requires Published(p, services, node) && s in services && Listens(p, s, port, key)
    ensures var t := TableOf(p, services, node);
            && key in t.services && t.services[key].offset + t.services[key].count <= |t.backends| <= 65536
            && multiset(Slice(t, key)) == Sum(s.backends, OfferedFor(p, port))
  {
    var slot := ListenerIsCompiled(p, services, node, s, port, key);
    ListenerTargets(p, services, s, port);
    BackendsOffered(p, port, s.backends);
    PortIsSlice(TableOf(p, services, node), slot, key, Sum(s.backends, OfferedFor(p, port)));
  }

  lemma PortIsSlice(t: D.Tables, slot: T.Slot, key: D.ServiceKey, offered: multiset<D.BackendValue>)
    requires TP.HoldsPort(t.services, t.backends, slot) && T.KeyOf(slot) == key
    requires multiset(Map(slot.port.backends, T.Value)) == offered
    ensures key in t.services && t.services[key].offset + t.services[key].count <= |t.backends|
    ensures multiset(Slice(t, key)) == offered
  {
  }

  lemma ListenerTargets(p: Platform, services: seq<Service>, s: Service, port: TargetPort)
    requires Applies(p, services) && s in services && port in s.ports
    ensures PortTargetsOk(p, port, s.backends)
  {
    var i :| 0 <= i < |services| && services[i] == s;
    var k :| 0 <= k < |s.ports| && s.ports[k] == port;
  }

  // ---- Packets ----

  // A whole packet of a new flow for this address, port and protocol.
  predicate Opens(w: D.State, packet: D.Packet, key: D.ServiceKey) {
    && packet.ipv6 && V.WholeHeader(packet)
    && key == D.ServiceKey(packet.destination, packet.destinationPort, packet.nextHeader)
    && V.FiveTuple(packet) !in w.reverse && V.FiveTuple(packet) !in w.forward
  }

  lemma HashedIsOffered(w: D.State, packet: D.Packet, key: D.ServiceKey, h: U32) returns (backend: D.BackendValue)
    requires Opens(w, packet, key) && key in w.tables.services && w.tables.services[key].count != 0
    requires w.tables.services[key].offset + w.tables.services[key].count <= |w.tables.backends| <= 65536
    ensures V.HashedBackend(w, packet, h) == Some(backend) && backend in multiset(Slice(w.tables, key))
  {
    var service := w.tables.services[key];
    var k := h % service.count;
    V.SmallModulo(service.offset + k, 4294967296);
    backend := w.tables.backends[service.offset + k];
    assert Slice(w.tables, key)[k] == backend;
  }

  /** A packet that opens a flow to a Service port, with nothing evicted or refused meanwhile, is shot if no endpoint
      offers anything for that port. Otherwise it goes to an address and target port that one of that Service's own
      endpoints offers for it, under the first source port open to the flow, and is shot if none of the 32 is. */
  lemma PacketReachesOwnPod(p: Platform, services: seq<Service>, node: T.IP, s: Service, port: TargetPort,
                            key: D.ServiceKey, w: D.State, packet: D.Packet, hash: D.FlowKey -> U32,
                            adversary: D.Adversary) returns (backend: D.BackendValue)
    requires Published(p, services, node) && s in services && Listens(p, s, port, key)
    requires w.tables == TableOf(p, services, node) && Opens(w, packet, key) && V.Quiet(adversary)
    ensures var o, offered := D.Ingress(w, packet, hash, adversary), Sum(s.backends, OfferedFor(p, port));
            var flow, h := V.FiveTuple(packet), hash(V.FiveTuple(packet));
            && (offered == multiset{} ==> o.verdict == D.Shot && o.state == w)
            && (offered != multiset{} ==>
                  && backend in offered
                  && (forall j: nat :: V.FirstOpen(w, flow, backend, h, j) ==>
                        V.Sent(w, packet, V.Tried(backend, h, j), o))
                  && (V.NoneOpen(w, flow, backend, h) ==> o.verdict == D.Shot && o.state == w))
  {
    BackendsExactly(p, services, node, s, port, key);
    var offered := Sum(s.backends, OfferedFor(p, port));
    SliceSize(w.tables, key, offered);
    if offered == multiset{} {
      backend := D.BackendValue(seq(16, i => 0), 0);
      NothingOffered(w, packet, key, hash, adversary);
    } else {
      backend := HashedIsOffered(w, packet, key, hash(V.FiveTuple(packet)));
      HashedIsSent(w, packet, key, hash, adversary, backend);
    }
  }

  lemma HashedIsSent(w: D.State, packet: D.Packet, key: D.ServiceKey, hash: D.FlowKey -> U32, adversary: D.Adversary,
                     backend: D.BackendValue)
    requires Opens(w, packet, key) && key in w.tables.services && w.tables.services[key].count != 0
    requires V.Quiet(adversary) && V.HashedBackend(w, packet, hash(V.FiveTuple(packet))) == Some(backend)
    ensures var o, flow, h := D.Ingress(w, packet, hash, adversary), V.FiveTuple(packet), hash(V.FiveTuple(packet));
            && (forall j: nat :: V.FirstOpen(w, flow, backend, h, j) ==>
                  V.Sent(w, packet, V.Tried(backend, h, j), o))
            && (V.NoneOpen(w, flow, backend, h) ==> o.verdict == D.Shot && o.state == w)
  {
    forall j: nat
      ensures V.FirstOpen(w, V.FiveTuple(packet), backend, hash(V.FiveTuple(packet)), j) ==>
                V.Sent(w, packet, V.Tried(backend, hash(V.FiveTuple(packet)), j),
                       D.Ingress(w, packet, hash, adversary))
    {
      V.NewFlowExactly(w, packet, hash, adversary, backend, j);
    }
    V.NewFlowExactly(w, packet, hash, adversary, backend, 0);
  }

  lemma NothingOffered(w: D.State, packet: D.Packet, key: D.ServiceKey, hash: D.FlowKey -> U32,
                       adversary: D.Adversary)
    requires Opens(w, packet, key) && key in w.tables.services && w.tables.services[key].count == 0
    requires V.Quiet(adversary)
    ensures D.Ingress(w, packet, hash, adversary).verdict == D.Shot && D.Ingress(w, packet, hash, adversary).state == w
  {
    V.VerdictsExactly(w, packet, hash, adversary);
    V.QuietEvict(w, adversary, 0);
  }

  lemma SliceSize(t: D.Tables, key: D.ServiceKey, offered: multiset<D.BackendValue>)
    requires key in t.services && t.services[key].offset + t.services[key].count <= |t.backends|
    requires multiset(Slice(t, key)) == offered
    ensures t.services[key].count == 0 <==> offered == multiset{}
  {
    assert |multiset(Slice(t, key))| == t.services[key].count;
  }

  // The empty flow maps leave every source port open.
  lemma FirstPacketOpens(t: D.Tables, flow: D.FlowKey, backend: D.BackendValue, h: U32)
    ensures V.FirstOpen(D.State(t, map[], map[]), flow, backend, h, 0)
  {
  }

  /** With empty flow maps, the first packet to a Service port for which some endpoint offers something is delivered to
      such a pod, and to nothing else. */
  lemma FirstPacketIsDelivered(p: Platform, services: seq<Service>, node: T.IP, s: Service, port: TargetPort,
                               key: D.ServiceKey, packet: D.Packet, hash: D.FlowKey -> U32, adversary: D.Adversary)
    requires Published(p, services, node) && s in services && Listens(p, s, port, key) && V.Quiet(adversary)
    requires Opens(D.State(TableOf(p, services, node), map[], map[]), packet, key)
    requires Sum(s.backends, OfferedFor(p, port)) != multiset{}
    ensures var o := D.Ingress(D.State(TableOf(p, services, node), map[], map[]), packet, hash, adversary);
            && o.verdict.Ok? && o.verdict.packet.source == TableOf(p, services, node).node
            && D.BackendValue(o.verdict.packet.destination, o.verdict.packet.destinationPort)
               in Sum(s.backends, OfferedFor(p, port))
  {
    var w := D.State(TableOf(p, services, node), map[], map[]);
    var backend := PacketReachesOwnPod(p, services, node, s, port, key, w, packet, hash, adversary);
    FirstPacketOpens(w.tables, V.FiveTuple(packet), backend, hash(V.FiveTuple(packet)));
  }
}
