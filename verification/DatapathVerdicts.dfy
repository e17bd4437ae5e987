// What happens to every packet, said about the packet, the published table and the flow maps rather than about the
// program's steps: which packets pass untouched, which are shot, and where a Service packet goes.
module DatapathVerdicts {
  import opened Net
  import opened Datapath

  // A TCP header is 20 bytes, a UDP one 8 with a checksum, which IPv6 does not allow to be zero.
  predicate WholeHeader(p: Packet) {
    || (p.nextHeader == 6 && p.transportBytes >= 20)
    || (p.nextHeader == 17 && p.transportBytes >= 8 && p.checksum != 0)
  }

  function FiveTuple(p: Packet): FlowKey {
    FlowKey(p.source, p.destination, p.sourcePort, p.destinationPort, p.nextHeader)
  }

  // The packet with other endpoints; only its checksum may differ besides.
  predicate Readdressed(p: Packet, q: Packet, source: Address, sourcePort: Word, destination: Address,
                        destinationPort: Word) {
    q == p.(source := source, sourcePort := sourcePort, destination := destination, destinationPort := destinationPort,
            checksum := q.checksum)
  }

  // The maps after the eviction before the first lookup.
  function AfterEviction(s: State, e: Interference): State {
    State(s.tables, s.forward - e.evictForward, s.reverse - e.evictReverse)
  }

  /** The verdict of every packet that is not for a Service with backends, under any interference: what is not IPv6,
      and what is neither TCP nor UDP and not for a VIP, passes as it is; so does a whole TCP or UDP packet that is
      neither a reply nor for a listed address, port and protocol. A reply leaves towards its client as if from the
      VIP. Exactly a packet of another protocol for a VIP, a truncated header, a UDP checksum of zero and a Service
      without backends are shot. The maps change by eviction alone. */
  lemma VerdictsExactly(s: State, p: Packet, hash: FlowKey -> U32, adversary: Adversary)
    ensures var o, left := Ingress(s, p, hash, adversary), AfterEviction(s, adversary(0));
            var key := ServiceKey(p.destination, p.destinationPort, p.nextHeader);
            && (!p.ipv6 ==> o.state == s && o.verdict == Ok(p))
            && (p.ipv6 && p.nextHeader != 6 && p.nextHeader != 17 ==>
                  o.state == s && o.verdict == if p.destination in s.tables.vips then Shot else Ok(p))
            && (p.ipv6 && (p.nextHeader == 6 || p.nextHeader == 17) && !WholeHeader(p) ==>
                  o.state == s && o.verdict == Shot)
            && (p.ipv6 && WholeHeader(p) && FiveTuple(p) in left.reverse ==>
                  var r := left.reverse[FiveTuple(p)];
                  && o.state == left && o.verdict.Ok?
                  && Readdressed(p, o.verdict.packet, r.vip, r.vipPort, r.client, r.clientPort))
            && (p.ipv6 && WholeHeader(p) && FiveTuple(p) !in left.reverse && key !in s.tables.services ==>
                  o.state == left && o.verdict == Ok(p))
            && (p.ipv6 && WholeHeader(p) && FiveTuple(p) !in left.reverse && key in s.tables.services ==>
                  s.tables.services[key].count == 0 ==> o.state == left && o.verdict == Shot)
  {
  }

  // ---- A packet for a Service with backends ----

  // Nothing is evicted or refused.
  ghost predicate Quiet(adversary: Adversary) {
    forall i: nat :: adversary(i) == Interference({}, {}, false)
  }

  lemma QuietEvict(s: State, adversary: Adversary, i: nat)
    requires Quiet(adversary)
    ensures Evict(s, adversary(i)) == s
  {
  }

  // The tuple a backend's reply carries under a translation.
  function ReplyTuple(t: Tables, flow: FlowKey, v: ForwardValue): FlowKey {
    FlowKey(v.backend, t.node, v.backendPort, v.snatPort, flow.protocol)
  }

  function Client(flow: FlowKey): ReverseValue {
    ReverseValue(flow.source, flow.destination, flow.sourcePort, flow.destinationPort)
  }

  // The reply tuple is this flow's or nobody's.
  predicate Open(s: State, flow: FlowKey, v: ForwardValue) {
    var key := ReplyTuple(s.tables, flow, v);
    key !in s.reverse || s.reverse[key] == Client(flow)
  }

  // The k-th translation tried: the source port is 30000 plus the hash plus k, modulo 2^32 and then modulo 2768.
  function Tried(backend: BackendValue, h: U32, k: nat): ForwardValue {
    ForwardValue(backend.address, backend.port, 30000 + ((h + k) % 4294967296) % 2768)
  }

  // Both entries of the flow are there.
  function Joined(s: State, flow: FlowKey, v: ForwardValue): State {
    State(s.tables, s.forward[flow := v], s.reverse[ReplyTuple(s.tables, flow, v) := Client(flow)])
  }

  // The packet left towards the backend as if from the node, and both entries of its flow are there.
  predicate Sent(s: State, p: Packet, v: ForwardValue, o: Outcome) {
    && o.state == Joined(s, FiveTuple(p), v) && o.verdict.Ok?
    && Readdressed(p, o.verdict.packet, s.tables.node, v.snatPort, v.backend, v.backendPort)
  }

  lemma {:induction false} QuietProbe(s: State, flow: FlowKey, h: U32, backend: BackendValue, k: nat, j: nat,
                                      adversary: Adversary)
    requires Quiet(adversary) && k <= j < 32 && Open(s, flow, Tried(backend, h, j))
    requires forall i: nat :: k <= i < j ==> !Open(s, flow, Tried(backend, h, i))
    ensures Probe(s, flow, h, backend, k, ProbePort(h, k), adversary)
         == Finished(Joined(s, flow, Tried(backend, h, j)), Some(Tried(backend, h, j)))
    decreases j - k
  {
    QuietEvict(s, adversary, ProbeOp(k, 0));
    if k < j {
      assert !Open(s, flow, Tried(backend, h, k));
      QuietProbe(s, flow, h, backend, k + 1, j, adversary);
    } else {
      QuietClaim(s, flow, h, backend, k, adversary);
    }
  }

  lemma {:induction false} QuietClaim(s: State, flow: FlowKey, h: U32, backend: BackendValue, k: nat,
                                      adversary: Adversary)
    requires Quiet(adversary) && k < 32 && Open(s, flow, Tried(backend, h, k))
    ensures Probe(s, flow, h, backend, k, ProbePort(h, k), adversary)
         == Finished(Joined(s, flow, Tried(backend, h, k)), Some(Tried(backend, h, k)))
  {
    var v := Tried(backend, h, k);
    var held := s.(reverse := s.reverse[ReplyTuple(s.tables, flow, v) := Client(flow)]);
    QuietEvict(s, adversary, ProbeOp(k, 0));
    QuietEvict(s, adversary, ProbeOp(k, 1));
    QuietEvict(held, adversary, ProbeOp(k, 2));
    QuietEvict(Joined(s, flow, v), adversary, ProbeOp(k, 3));
    if ReplyTuple(s.tables, flow, v) in s.reverse {
      assert held == s;
    }
    assert Claim(held, flow, v, k, adversary) == Finished(Joined(s, flow, v), Some(v));
  }

  lemma {:induction false} QuietProbeFull(s: State, flow: FlowKey, h: U32, backend: BackendValue, k: nat,
                                          adversary: Adversary)
    requires Quiet(adversary) && k <= 32
    requires forall i: nat :: k <= i < 32 ==> !Open(s, flow, Tried(backend, h, i))
    ensures Probe(s, flow, h, backend, k, ProbePort(h, k), adversary) == Finished(s, None)
    decreases 32 - k
  {
    if k < 32 {
      QuietEvict(s, adversary, ProbeOp(k, 0));
      assert !Open(s, flow, Tried(backend, h, k));
      QuietProbeFull(s, flow, h, backend, k + 1, adversary);
    }
  }

  lemma QuietRepair(s: State, p: Packet, v: ForwardValue, adversary: Adversary)
    requires Quiet(adversary) && FiveTuple(p) in s.forward && s.forward[FiveTuple(p)] == v
    ensures var o := Repair(s, p, v, adversary);
            && (Open(s, FiveTuple(p), v) ==> Sent(s, p, v, o))
            && (!Open(s, FiveTuple(p), v) ==>
                  o.verdict == Shot && o.state == s.(forward := s.forward - {FiveTuple(p)}))
  {
    var flow := FiveTuple(p);
    QuietEvict(s, adversary, REPAIR);
    QuietEvict(s, adversary, REPAIR + 1);
    QuietEvict(s, adversary, REPAIR + 3);
    QuietEvict(Joined(s, flow, v), adversary, REPAIR + 2);
    assert s.forward[flow := v] == s.forward;
    assert Open(s, flow, v) && ReplyTuple(s.tables, flow, v) in s.reverse ==> Joined(s, flow, v) == s;
  }

  // A packet for a listed address, port and protocol with backends, which is not itself a reply.
  predicate ForService(s: State, p: Packet) {
    && p.ipv6 && WholeHeader(p) && FiveTuple(p) !in s.reverse
    && var key := ServiceKey(p.destination, p.destinationPort, p.nextHeader);
       key in s.tables.services && s.tables.services[key].count != 0
  }

  // The backend of a new flow: entry offset plus hash modulo count of the table, with 32-bit addition.
  function HashedBackend(s: State, p: Packet, h: U32): Option<BackendValue>
    requires ForService(s, p)
  {
    var service := s.tables.services[ServiceKey(p.destination, p.destinationPort, p.nextHeader)];
    var index := (service.offset + h % service.count) % 4294967296;
    if index < |s.tables.backends| && index < 65536 then Some(s.tables.backends[index]) else None
  }

  /** From any maps, if nothing is evicted or refused meanwhile, a packet for a Service with backends goes out under the
      translation its flow already has, if that translation's reply tuple is the flow's or nobody's; otherwise the
      translation is forgotten and the packet shot. A reverse entry lost to eviction is put back. */
  lemma KnownFlowExactly(s: State, p: Packet, hash: FlowKey -> U32, adversary: Adversary)
    requires Quiet(adversary) && ForService(s, p) && FiveTuple(p) in s.forward
    ensures var o, v := Ingress(s, p, hash, adversary), s.forward[FiveTuple(p)];
            && (Open(s, FiveTuple(p), v) ==> Sent(s, p, v, o))
            && (!Open(s, FiveTuple(p), v) ==>
                  o.verdict == Shot && o.state == s.(forward := s.forward - {FiveTuple(p)}))
  {
    QuietEvict(s, adversary, REVERSE_LOOKUP);
    QuietEvict(s, adversary, FORWARD_LOOKUP);
    QuietRepair(s, p, s.forward[FiveTuple(p)], adversary);
  }

  // The first of the 32 translations whose reply tuple is the flow's or nobody's.
  ghost predicate FirstOpen(s: State, flow: FlowKey, backend: BackendValue, h: U32, j: nat) {
    j < 32 && Open(s, flow, Tried(backend, h, j)) && forall i: nat :: i < j ==> !Open(s, flow, Tried(backend, h, i))
  }

  ghost predicate NoneOpen(s: State, flow: FlowKey, backend: BackendValue, h: U32) {
    forall i: nat :: i < 32 ==> !Open(s, flow, Tried(backend, h, i))
  }

  lemma ServiceIsRouted(s: State, p: Packet, hash: FlowKey -> U32, adversary: Adversary, service: ServiceValue)
    requires Quiet(adversary) && ForService(s, p)
    requires service == s.tables.services[ServiceKey(p.destination, p.destinationPort, p.nextHeader)]
    ensures Ingress(s, p, hash, adversary) == Route(s, p, service, hash(FiveTuple(p)), adversary)
  {
    QuietEvict(s, adversary, REVERSE_LOOKUP);
  }

  lemma PickedIsHashed(s: State, p: Packet, h: U32, service: ServiceValue, backend: BackendValue)
    requires ForService(s, p) && HashedBackend(s, p, h) == Some(backend)
    requires service == s.tables.services[ServiceKey(p.destination, p.destinationPort, p.nextHeader)]
    ensures BackendAt(s.tables, PickIndex(service, h)) == Some(backend)
  {
  }

  lemma {:induction false} RouteProbes(s: State, p: Packet, service: ServiceValue, h: U32, adversary: Adversary,
                                       backend: BackendValue, probed: Probed)
    requires Quiet(adversary) && FiveTuple(p) !in s.forward && service.count != 0
    requires BackendAt(s.tables, PickIndex(service, h)) == Some(backend)
    requires probed == Probe(s, FiveTuple(p), h, backend, 0, ProbePort(h, 0), adversary)
    ensures Route(s, p, service, h, adversary)
         == if probed.Finished? && probed.forward.Some? then Repair(probed.state, p, probed.forward.value, adversary)
            else Outcome(probed.state, Shot, Dropped)
  {
    QuietEvict(s, adversary, FORWARD_LOOKUP);
  }

  // Up to the probe for a source port nothing happens to the maps.
  lemma {:induction false} NewFlowProbes(s: State, p: Packet, hash: FlowKey -> U32, adversary: Adversary,
                                         backend: BackendValue, probed: Probed)
    requires Quiet(adversary) && ForService(s, p) && FiveTuple(p) !in s.forward
    requires HashedBackend(s, p, hash(FiveTuple(p))) == Some(backend)
    requires probed
          == Probe(s, FiveTuple(p), hash(FiveTuple(p)), backend, 0, ProbePort(hash(FiveTuple(p)), 0), adversary)
    ensures Ingress(s, p, hash, adversary)
         == if probed.Finished? && probed.forward.Some? then Repair(probed.state, p, probed.forward.value, adversary)
            else Outcome(probed.state, Shot, Dropped)
  {
    var service := s.tables.services[ServiceKey(p.destination, p.destinationPort, p.nextHeader)];
    ServiceIsRouted(s, p, hash, adversary, service);
    PickedIsHashed(s, p, hash(FiveTuple(p)), service, backend);
    RouteProbes(s, p, service, hash(FiveTuple(p)), adversary, backend, probed);
  }

  lemma JoinedSent(s: State, p: Packet, v: ForwardValue, o: Outcome)
    requires Sent(Joined(s, FiveTuple(p), v), p, v, o)
    ensures Sent(s, p, v, o)
  {
    var joined := Joined(s, FiveTuple(p), v);
    assert joined.reverse[ReplyTuple(s.tables, FiveTuple(p), v) := Client(FiveTuple(p))] == joined.reverse;
    assert joined.forward[FiveTuple(p) := v] == joined.forward;
  }

  /** And a packet of a new flow goes to the backend its hash picks, under the first of 32 source ports whose reply
      tuple is the flow's or nobody's; if there is none it is shot and nothing changes. */
  lemma NewFlowExactly(s: State, p: Packet, hash: FlowKey -> U32, adversary: Adversary, backend: BackendValue, j: nat)
    requires Quiet(adversary) && ForService(s, p) && FiveTuple(p) !in s.forward
    requires HashedBackend(s, p, hash(FiveTuple(p))) == Some(backend)
    ensures var o, flow, h := Ingress(s, p, hash, adversary), FiveTuple(p), hash(FiveTuple(p));
            && (FirstOpen(s, flow, backend, h, j) ==> Sent(s, p, Tried(backend, h, j), o))
            && (NoneOpen(s, flow, backend, h) ==> o.verdict == Shot && o.state == s)
  {
    var flow, h := FiveTuple(p), hash(FiveTuple(p));
    var probed := Probe(s, flow, h, backend, 0, ProbePort(h, 0), adversary);
    NewFlowProbes(s, p, hash, adversary, backend, probed);
    if FirstOpen(s, flow, backend, h, j) {
      var v := Tried(backend, h, j);
      QuietProbe(s, flow, h, backend, 0, j, adversary);
      QuietRepair(Joined(s, flow, v), p, v, adversary);
      JoinedSent(s, p, v, Ingress(s, p, hash, adversary));
    }
    if NoneOpen(s, flow, backend, h) {
      QuietProbeFull(s, flow, h, backend, 0, adversary);
    }
  }

  lemma SmallModulo(k: nat, n: nat)
    requires k < n
    ensures k % n == k
  {
  }

  /** Every backend of a Service is some hash's: the hashes below the count pick the backends of the range in order. */
  lemma HashesReachEveryBackend(s: State, p: Packet, k: U32, service: ServiceValue)
    requires ForService(s, p) && k < service.count && service.offset + service.count <= |s.tables.backends| <= 65536
    requires service == s.tables.services[ServiceKey(p.destination, p.destinationPort, p.nextHeader)]
    ensures HashedBackend(s, p, k) == Some(s.tables.backends[service.offset + k])
  {
    SmallModulo(k, service.count);
    SmallModulo(service.offset + k, 4294967296);
  }
}
