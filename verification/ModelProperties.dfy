// From checked services to dataplane tables: names and VIPs correspond one to one, and the table compiler
// accepts the model exactly when it fits the map capacity.
module ModelProperties {
  import opened Net
  import opened Sorting
  import opened Wire
  import opened Contracts
  import opened Merge
  import opened NodeApply
  import T = Tables
  import A = ApplyProperties
  import R = Registry

  // VIP derivation is injective on the identities at hand.
  ghost predicate VipsDiffer(p: Platform, services: seq<Service>) {
    forall i, j :: 0 <= i < j < |services| && ServiceId(services[i]) != ServiceId(services[j]) ==>
      DeriveVIP(p, services[i].namespace, services[i].name) != DeriveVIP(p, services[j].namespace, services[j].name)
  }

  lemma NamesDiffer(p: Platform, services: seq<Service>, i: nat, j: nat)
    requires Applies(p, services) && i < j < |services|
    ensures services[i].fqdn != services[j].fqdn && ServiceId(services[i]) != ServiceId(services[j])
  {
    var a, b := services[i], services[j];
    assert ServiceApplies(p, a) && ServiceApplies(p, b);
    assert Map(services, ServiceId)[i] != Map(services, ServiceId)[j];
    if a.fqdn == b.fqdn {
      FQDNUnique(a.name, a.namespace, b.name, b.namespace);
      assert false;
    }
  }

  lemma AppliesPrefix(p: Platform, services: seq<Service>, n: nat)
    requires Applies(p, services) && n <= |services|
    ensures Applies(p, services[..n])
  {
    assert Map(services[..n], ServiceId) == Map(services, ServiceId)[..n];
  }

  // Later names do not replace earlier ones.
  ghost predicate NamesApart(services: seq<Service>) {
    forall i, j :: 0 <= i < j < |services| ==> services[i].fqdn != services[j].fqdn
  }

  lemma {:induction false} DNSHolds(p: Platform, services: seq<Service>, i: nat)
    requires NamesApart(services) && i < |services|
    ensures services[i].fqdn in DNSValues(p, services)
    ensures DNSValues(p, services)[services[i].fqdn] == DeriveVIP(p, services[i].namespace, services[i].name)
    decreases |services|
  {
    var n := |services| - 1;
    if i < n {
      DNSHolds(p, services[..n], i);
      assert services[i].fqdn != services[n].fqdn;
    }
  }

  lemma {:induction false} DNSOnly(p: Platform, services: seq<Service>, name: string)
    requires name in DNSValues(p, services)
    ensures exists i :: 0 <= i < |services| && services[i].fqdn == name
  {
    var n := |services| - 1;
    if name != services[n].fqdn {
      DNSOnly(p, services[..n], name);
      var i :| 0 <= i < n && services[..n][i].fqdn == name;
      assert services[i].fqdn == name;
    }
  }

  ghost predicate VipsApart(p: Platform, services: seq<Service>) {
    forall i, j :: 0 <= i < j < |services| ==> Models(p, services)[i].vip != Models(p, services)[j].vip
  }

  // The name of the i-th service resolves to the VIP of its dataplane model.
  ghost predicate NameServed(p: Platform, services: seq<Service>, i: nat)
    requires i < |services|
  {
    && services[i].fqdn in DNSValues(p, services)
    && Models(p, services)[i].vip == T.IPv6(DNSValues(p, services)[services[i].fqdn])
  }

  lemma AppliesApart(p: Platform, services: seq<Service>)
    requires Applies(p, services)
    ensures NamesApart(services)
    ensures VipsDiffer(p, services) ==> VipsApart(p, services)
  {
    forall i, j | 0 <= i < j < |services|
      ensures services[i].fqdn != services[j].fqdn && ServiceId(services[i]) != ServiceId(services[j])
    {
      NamesDiffer(p, services, i, j);
    }
  }

  /** DNS names and dataplane VIPs match one to one: every service has exactly its name, its VIP and its model,
      no two services share a name or a VIP, and there are no other names. */
  lemma {:induction false} NamesMatchVips(p: Platform, services: seq<Service>)
    requires Applies(p, services) && VipsDiffer(p, services)
    ensures NamesApart(services) && VipsApart(p, services)
    ensures forall i: nat :: i < |services| ==> NameServed(p, services, i)
    ensures forall name :: name in DNSValues(p, services) ==>
              exists i :: 0 <= i < |services| && services[i].fqdn == name
  {
    AppliesApart(p, services);
    forall i: nat | i < |services|
      ensures NameServed(p, services, i)
    {
      DNSHolds(p, services, i);
    }
    forall name | name in DNSValues(p, services)
      ensures exists i :: 0 <= i < |services| && services[i].fqdn == name
    {
      DNSOnly(p, services, name);
    }
  }

  // ---- The compiler accepts the model ----

  predicate PlainAddress(p: Platform, e: Endpoint) {
    p.address(e.address).Some? && T.Plain(p.address(e.address).value)
  }

  // Backends of services that listen at all have ordinary IPv6 addresses, as addresses inside delegated prefixes are.
  ghost predicate BackendsPlain(p: Platform, services: seq<Service>) {
    forall s, e :: s in services && s.ports != [] && e in s.backends ==> PlainAddress(p, e)
  }

  lemma {:induction false} PortBackendsOk(p: Platform, port: TargetPort, backends: seq<Endpoint>)
    requires PortTargetsOk(p, port, backends)
    requires forall e :: e in backends ==> PlainAddress(p, e)
    ensures forall b :: b in PortBackends(p, port, backends) ==> T.BackendOk(b)
  {
    if backends != [] {
      var n := |backends| - 1;
      var last := backends[n];
      assert last in backends && TargetOk(p, port, last);
      PortBackendsOk(p, port, backends[..n]);
      var offered := OfferedBackends(p, last, TargetsOf(port, last.ports));
      forall b | b in offered
        ensures T.BackendOk(b)
      {
        var i :| 0 <= i < |offered| && offered[i] == b;
        assert Word16(TargetsOf(port, last.ports)[i]) == TargetsOf(port, last.ports)[i];
      }
    }
  }

  // Ports that listen apart have different port numbers or protocols in the tables.
  lemma ListenersDiffer(a: TargetPort, b: TargetPort)
    requires PortOk(a) && PortOk(b) && ListenKey(a) != ListenKey(b)
    ensures ProtocolNumber(a.protocol) != ProtocolNumber(b.protocol) || Word16(a.servicePort) != Word16(b.servicePort)
  {
  }

  lemma ServiceSlotsDistinct(p: Platform, s: Service)
    requires ServiceApplies(p, s)
    ensures T.DistinctKeys(T.SlotsOf(ServiceModel(p, s)))
  {
    var slots := T.SlotsOf(ServiceModel(p, s));
    forall i, j | 0 <= i < j < |slots|
      ensures T.KeyOf(slots[i]) != T.KeyOf(slots[j])
    {
      ListenersDiffer(s.ports[i], s.ports[j]);
    }
  }

  lemma ServiceSlotsOk(p: Platform, s: Service)
    requires ServiceApplies(p, s)
    requires s.ports != [] ==> forall e :: e in s.backends ==> PlainAddress(p, e)
    ensures forall slot :: slot in T.SlotsOf(ServiceModel(p, s)) ==> T.SlotOk(slot)
  {
    var slots := T.SlotsOf(ServiceModel(p, s));
    forall i | 0 <= i < |slots|
      ensures T.SlotOk(slots[i])
    {
      assert PortOk(s.ports[i]);
      PortBackendsOk(p, s.ports[i], s.backends);
    }
  }

  function Vip(p: Platform, s: Service): Address {
    DeriveVIP(p, s.namespace, s.name)
  }

  // Every flattened slot belongs to one of the services.
  lemma {:induction false} FlattenedVips(p: Platform, services: seq<Service>)
    ensures forall slot :: slot in T.Flatten(Models(p, services)) ==>
              exists i :: 0 <= i < |services| && slot in T.SlotsOf(ServiceModel(p, services[i]))
  {
    if services != [] {
      var n := |services| - 1;
      FlattenedVips(p, services[..n]);
      assert Models(p, services)[..n] == Models(p, services[..n]);
      forall slot | slot in T.Flatten(Models(p, services))
        ensures exists i :: 0 <= i < |services| && slot in T.SlotsOf(ServiceModel(p, services[i]))
      {
        if slot in T.Flatten(Models(p, services[..n])) {
          var i :| 0 <= i < n && slot in T.SlotsOf(ServiceModel(p, services[..n][i]));
          assert services[i] == services[..n][i];
        } else {
          assert slot in T.SlotsOf(ServiceModel(p, services[n]));
        }
      }
    }
  }

  lemma VipsDifferPrefix(p: Platform, services: seq<Service>, n: nat)
    requires VipsDiffer(p, services) && n <= |services|
    ensures VipsDiffer(p, services[..n])
  {
  }

  lemma JoinDistinct(a: seq<T.Slot>, b: seq<T.Slot>)
    requires T.DistinctKeys(a) && T.DistinctKeys(b) && forall x, y :: x in a && y in b ==> T.KeyOf(x) != T.KeyOf(y)
    ensures T.DistinctKeys(a + b)
  {
    var t := a + b;
    forall i, j | 0 <= i < j < |t|
      ensures T.KeyOf(t[i]) != T.KeyOf(t[j])
    {
      if i < |a| <= j {
        assert t[i] in a && t[j] in b;
      }
    }
  }

  lemma {:induction false} FlattenedKeysDistinct(p: Platform, services: seq<Service>)
    requires Applies(p, services) && VipsDiffer(p, services)
    ensures T.DistinctKeys(T.Flatten(Models(p, services)))
  {
    if services != [] {
      var n := |services| - 1;
      var front, last := services[..n], services[n];
      AppliesPrefix(p, services, n);
      VipsDifferPrefix(p, services, n);
      FlattenedKeysDistinct(p, front);
      FlattenModels(p, services);
      ServiceSlotsDistinct(p, last);
      LastKeysApart(p, services);
      JoinDistinct(T.Flatten(Models(p, front)), T.SlotsOf(ServiceModel(p, last)));
    }
  }

  lemma FlattenModels(p: Platform, services: seq<Service>)
    requires services != []
    ensures var n := |services| - 1;
            T.Flatten(Models(p, services))
            == T.Flatten(Models(p, services[..n])) + T.SlotsOf(ServiceModel(p, services[n]))
  {
    var n := |services| - 1;
    assert Models(p, services)[..n] == Models(p, services[..n]);
  }

  lemma SlotVip(p: Platform, s: Service, slot: T.Slot)
    requires slot in T.SlotsOf(ServiceModel(p, s))
    ensures slot.vip == T.IPv6(Vip(p, s))
  {
  }

  lemma KeysApart(p: Platform, services: seq<Service>, i: nat, n: nat, x: T.Slot, y: T.Slot)
    requires Applies(p, services) && VipsDiffer(p, services) && i < n < |services|
    requires x in T.SlotsOf(ServiceModel(p, services[i])) && y in T.SlotsOf(ServiceModel(p, services[n]))
    ensures T.KeyOf(x) != T.KeyOf(y)
  {
    NamesDiffer(p, services, i, n);
    SlotVip(p, services[i], x);
    SlotVip(p, services[n], y);
  }

  lemma LastKeysApart(p: Platform, services: seq<Service>)
    requires services != [] && Applies(p, services) && VipsDiffer(p, services)
    ensures var n := |services| - 1;
            forall x, y :: x in T.Flatten(Models(p, services[..n])) && y in T.SlotsOf(ServiceModel(p, services[n])) ==>
              T.KeyOf(x) != T.KeyOf(y)
  {
    var n := |services| - 1;
    FlattenedVips(p, services[..n]);
    forall x, y | x in T.Flatten(Models(p, services[..n])) && y in T.SlotsOf(ServiceModel(p, services[n]))
      ensures T.KeyOf(x) != T.KeyOf(y)
    {
      var i :| 0 <= i < n && x in T.SlotsOf(ServiceModel(p, services[..n][i]));
      KeysApart(p, services, i, n, x, y);
    }
  }

  // The capacities of the service and backend maps.
  predicate WithinCapacity(model: seq<T.Service>) {
    |T.Flatten(model)| <= T.MAX_TABLE_ENTRIES && T.BackendTotal(T.Flatten(model)) <= T.MAX_TABLE_ENTRIES
  }

  // Every backend of a checked service is in the model of each of its ports.
  lemma {:induction false} BackendIsOffered(p: Platform, port: TargetPort, backends: seq<Endpoint>, e: Endpoint)
    requires PortTargetsOk(p, port, backends) && e in backends
    ensures exists b :: b in PortBackends(p, port, backends) && b.address == p.address(e.address).value
  {
    var n := |backends| - 1;
    var last := backends[n];
    assert TargetOk(p, port, last);
    if e == last {
      var offered := OfferedBackends(p, last, TargetsOf(port, last.ports));
      assert offered[0] in PortBackends(p, port, backends);
    } else {
      BackendIsOffered(p, port, backends[..n], e);
      var b :| b in PortBackends(p, port, backends[..n]) && b.address == p.address(e.address).value;
      assert b in PortBackends(p, port, backends);
    }
  }

  lemma {:induction false} SlotIsFlattened(p: Platform, services: seq<Service>, i: nat, slot: T.Slot)
    requires i < |services| && slot in T.SlotsOf(ServiceModel(p, services[i]))
    ensures slot in T.Flatten(Models(p, services))
    decreases |services|
  {
    var n := |services| - 1;
    FlattenModels(p, services);
    if i < n {
      SlotIsFlattened(p, services[..n], i, slot);
    }
  }

  // A model whose slots are all well formed has ordinary backend addresses.
  lemma SlotsOkArePlain(p: Platform, services: seq<Service>, i: nat, e: Endpoint)
    requires Applies(p, services) && i < |services| && services[i].ports != [] && e in services[i].backends
    requires forall slot :: slot in T.Flatten(Models(p, services)) ==> T.SlotOk(slot)
    ensures PlainAddress(p, e)
  {
    var s := services[i];
    var slot := T.SlotsOf(ServiceModel(p, s))[0];
    assert ServiceApplies(p, s) && PortTargetsOk(p, s.ports[0], s.backends);
    SlotIsFlattened(p, services, i, slot);
    BackendIsOffered(p, s.ports[0], s.backends, e);
    var k :| 0 <= k < |s.backends| && s.backends[k] == e;
    assert TargetOk(p, s.ports[0], s.backends[k]);
  }

  // What holds of every checked model, whatever its backends.
  lemma ModelShape(p: Platform, services: seq<Service>)
    requires Applies(p, services) && VipsDiffer(p, services)
    ensures T.DistinctKeys(T.Flatten(Models(p, services)))
    ensures forall s :: s in Models(p, services) ==> T.Plain(s.vip)
    ensures (forall slot :: slot in T.Flatten(Models(p, services)) ==> T.SlotOk(slot)) <==> BackendsPlain(p, services)
  {
    var model := Models(p, services);
    FlattenedKeysDistinct(p, services);
    forall s | s in model
      ensures T.Plain(s.vip)
    {
      var i :| 0 <= i < |model| && model[i] == s;
      VipIsPlain(p, services[i].namespace, services[i].name);
    }
    if BackendsPlain(p, services) {
      FlattenedVips(p, services);
      forall slot | slot in T.Flatten(model)
        ensures T.SlotOk(slot)
      {
        var i :| 0 <= i < |services| && slot in T.SlotsOf(ServiceModel(p, services[i]));
        ServiceSlotsOk(p, services[i]);
      }
    }
    if forall slot :: slot in T.Flatten(model) ==> T.SlotOk(slot) {
      forall s, e | s in services && s.ports != [] && e in s.backends
        ensures PlainAddress(p, e)
      {
        var i :| 0 <= i < |services| && services[i] == s;
        SlotsOkArePlain(p, services, i, e);
      }
    }
  }

  lemma {:induction false} ShapeAccepted(node: T.IP, model: seq<T.Service>, plain: bool)
    requires T.DistinctKeys(T.Flatten(model)) && forall s :: s in model ==> T.Plain(s.vip)
    requires (forall slot :: slot in T.Flatten(model) ==> T.SlotOk(slot)) <==> plain
    ensures T.Acceptable(T.Snapshot(node, model)) <==> model == [] || (T.Plain(node) && plain && WithinCapacity(model))
  {
  }

  /** The table compiler accepts a checked model exactly when it is within capacity and the addresses of the node and of
      every listening backend are ordinary IPv6. */
  lemma ModelAcceptedExactly(p: Platform, services: seq<Service>, node: T.IP)
    requires Applies(p, services) && VipsDiffer(p, services)
    ensures T.Acceptable(T.Snapshot(node, Models(p, services))) <==>
              services == [] || (T.Plain(node) && BackendsPlain(p, services) && WithinCapacity(Models(p, services)))
  {
    ModelShape(p, services);
    ShapeAccepted(node, Models(p, services), BackendsPlain(p, services));
  }

  // A backend of a chosen service is one of the snapshot's: the local contract has none.
  lemma ChosenBackend(p: Platform, nodeGroup: string, local: seq<Service>, services: seq<Service>, chosen: seq<Service>,
                      s: Service, e: Endpoint)
    requires ServicesOk(p, nodeGroup, local) && A.ChosenWell(local, nodeGroup, services, chosen)
    requires s in chosen && e in s.backends
    ensures s in services
  {
    if s in local {
      A.LocalIsBare(p, nodeGroup, local, s);
    }
  }

  /** A snapshot published from a reachable registry compiles on every node exactly when it is within capacity. */
  lemma PublishedCompilesExactly(p: Platform, r: R.Roster, order: seq<string>, generation: nat, revision: nat,
                                 leader: string, snapshot: Snapshot, items: seq<Service>, nodeGroup: string,
                                 digest: string, local: seq<Service>, chosen: seq<Service>, node: T.IP)
    requires Faithful(p) && R.Consistent(p, r) && R.Lists(r.nodes, order) && A.NamesNulFree(R.PeersOf(r.nodes, order))
    requires Built(p, R.PeersOf(r.nodes, order), generation, revision, leader, snapshot, items)
    requires ContractOk(p, nodeGroup, digest, local) && Chosen(local, nodeGroup, snapshot.services, chosen)
    requires VipsDiffer(p, chosen)
    ensures T.Acceptable(T.Snapshot(node, Models(p, chosen))) <==>
              chosen == [] || (T.Plain(node) && WithinCapacity(Models(p, chosen)))
  {
    var peers := R.PeersOf(r.nodes, order);
    R.PeersConsistent(p, r, order);
    A.ProducerAndCheckerAgree(p, peers, generation, revision, leader, snapshot, items, nodeGroup, digest, local,
                              chosen);
    ModelAcceptedExactly(p, chosen, node);
    forall s, e | s in chosen && s.ports != [] && e in s.backends
      ensures PlainAddress(p, e)
    {
      ChosenBackend(p, nodeGroup, local, snapshot.services, chosen, s, e);
      R.BackendsInsidePrefixes(p, r, order, generation, revision, leader, snapshot, items, s, e);
    }
  }
}
