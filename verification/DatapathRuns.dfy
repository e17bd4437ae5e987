// Whole runs of the NAT datapath: packets, evictions and table swaps in any order.
module DatapathRuns {
  import opened Net
  import opened Checksum
  import opened Datapath

  datatype Event =
    | Arrival(packet: Packet, adversary: Adversary)
    | Eviction(victims: Interference)
    | Swap(next: Tables)

  function Step(s: State, event: Event, hash: FlowKey -> U32): State {
    match event
    case Arrival(p, adversary) => Ingress(s, p, hash, adversary).state
    case Eviction(victims) => Evict(s, victims)
    case Swap(next) => s.(tables := next)
  }

  function After(s: State, events: seq<Event>, hash: FlowKey -> U32): State {
    if events == [] then s else Step(After(s, events[..|events| - 1], hash), events[|events| - 1], hash)
  }

  // Turns a tuple around, as a reply does.
  function Turned(flow: FlowKey): FlowKey {
    FlowKey(flow.destination, flow.source, flow.destinationPort, flow.sourcePort, flow.protocol)
  }

  // An event that leaves one reverse entry alone.
  ghost predicate Spares(event: Event, key: FlowKey) {
    match event
    case Arrival(_, adversary) => SparesKey(adversary, key)
    case Eviction(victims) => key !in victims.evictReverse
    case Swap(_) => true
  }

  ghost predicate SparesKey(adversary: Adversary, key: FlowKey) {
    forall i: nat :: key !in adversary(i).evictReverse
  }

  ghost predicate AllSpare(events: seq<Event>, key: FlowKey) {
    forall event :: event in events ==> Spares(event, key)
  }

  // ---- The reverse map only gains entries, apart from eviction ----

  lemma {:induction false} ProbeKeeps(s: State, flow: FlowKey, h: U32, backend: BackendValue, attempt: nat, port: Word,
                                      adversary: Adversary, key: FlowKey)
    requires key in s.reverse && SparesKey(adversary, key)
    ensures var t := Probe(s, flow, h, backend, attempt, port, adversary).state;
            t.tables == s.tables && key in t.reverse && t.reverse[key] == s.reverse[key]
    decreases PROBES - attempt
  {
    if attempt < PROBES {
      var probed := ReplyKey(ForwardValue(backend.address, backend.port, port), s.tables.node, flow.protocol);
      var s0 := Evict(s, adversary(ProbeOp(attempt, 0)));
      if probed in s0.reverse {
        ProbeKeeps(s0, flow, h, backend, attempt + 1, ProbePort(h, attempt + 1), adversary, key);
      } else {
        ProbeKeeps(Evict(s0, adversary(ProbeOp(attempt, 1))), flow, h, backend, attempt + 1, port, adversary, key);
      }
    }
  }

  lemma RepairKeeps(s: State, p: Packet, value: ForwardValue, adversary: Adversary, key: FlowKey)
    requires key in s.reverse && SparesKey(adversary, key)
    ensures var t := Repair(s, p, value, adversary).state; key in t.reverse && t.reverse[key] == s.reverse[key]
  {
  }

  lemma RouteKeeps(s: State, p: Packet, service: ServiceValue, h: U32, adversary: Adversary, key: FlowKey)
    requires service.count != 0
    requires key in s.reverse && SparesKey(adversary, key)
    ensures var t := Route(s, p, service, h, adversary).state; key in t.reverse && t.reverse[key] == s.reverse[key]
  {
    var flow := FlowOf(p);
    var s1 := Evict(s, adversary(FORWARD_LOOKUP));
    if flow in s1.forward {
      RepairKeeps(s1, p, s1.forward[flow], adversary, key);
    } else {
      match BackendAt(s1.tables, PickIndex(service, h))
      case None =>
      case Some(backend) =>
        ProbeKeeps(s1, flow, h, backend, 0, ProbePort(h, 0), adversary, key);
        var probed := Probe(s1, flow, h, backend, 0, ProbePort(h, 0), adversary);
        if probed.Finished? && probed.forward.Some? {
          RepairKeeps(probed.state, p, probed.forward.value, adversary, key);
        }
    }
  }

  // An entry that is not evicted keeps its value through any event, table swaps included.
  lemma StepKeeps(s: State, event: Event, hash: FlowKey -> U32, key: FlowKey)
    requires key in s.reverse && Spares(event, key)
    ensures var t := Step(s, event, hash); key in t.reverse && t.reverse[key] == s.reverse[key]
  {
    if event.Arrival? {
      var p := event.packet;
      if p.ipv6 && Transport(p) && !Malformed(p) && ServiceKeyOf(p) in s.tables.services {
        var s0 := Evict(s, event.adversary(REVERSE_LOOKUP));
        var service := s.tables.services[ServiceKeyOf(p)];
        if FlowOf(p) !in s0.reverse && service.count != 0 {
          RouteKeeps(s0, p, service, hash(FlowOf(p)), event.adversary, key);
        }
      }
    }
  }

  lemma {:induction false} RunKeeps(s: State, events: seq<Event>, hash: FlowKey -> U32, key: FlowKey)
    requires key in s.reverse && AllSpare(events, key)
    ensures var t := After(s, events, hash); key in t.reverse && t.reverse[key] == s.reverse[key]
  {
    if events != [] {
      RunKeeps(s, events[..|events| - 1], hash, key);
      StepKeeps(After(s, events[..|events| - 1], hash), events[|events| - 1], hash, key);
    }
  }

  // ---- A forward translation always owns its reply tuple ----

  lemma RepairOwns(s: State, p: Packet, value: ForwardValue, adversary: Adversary)
    ensures var o := Repair(s, p, value, adversary);
            o.path.Forwarded? ==>
              && o.path.value == value
              && o.verdict == Ok(Rewrite(p, s.tables.node, value.snatPort, value.backend, value.backendPort))
              && var key := ReplyKey(value, s.tables.node, p.nextHeader);
                 key in o.state.reverse && o.state.reverse[key] == Owner(FlowOf(p))
  {
  }

  lemma {:induction false} ProbeKeepsTables(s: State, flow: FlowKey, h: U32, backend: BackendValue, attempt: nat,
                                            port: Word, adversary: Adversary)
    ensures Probe(s, flow, h, backend, attempt, port, adversary).state.tables == s.tables
    decreases PROBES - attempt
  {
    if attempt < PROBES {
      var s0 := Evict(s, adversary(ProbeOp(attempt, 0)));
      ProbeKeepsTables(s0, flow, h, backend, attempt + 1, ProbePort(h, attempt + 1), adversary);
      ProbeKeepsTables(Evict(s0, adversary(ProbeOp(attempt, 1))), flow, h, backend, attempt + 1, port, adversary);
    }
  }

  // From any state and under any eviction: the translated packet's reply tuple is mapped back to this very flow,
  // and the translated checksum verifies exactly when the original did.
  lemma ForwardOwnsReply(s: State, p: Packet, hash: FlowKey -> U32, adversary: Adversary)
    ensures var o := Ingress(s, p, hash, adversary);
            o.path.Forwarded? ==>
              && o.verdict.Ok?
              && var q := o.verdict.packet;
                 && q.source == s.tables.node && q.destination == o.path.value.backend
                 && Turned(FlowOf(q)) in o.state.reverse
                 && o.state.reverse[Turned(FlowOf(q))] == Owner(FlowOf(p))
                 && (Verifies(SegmentOf(q)) <==> Verifies(SegmentOf(p)))
  {
    var o := Ingress(s, p, hash, adversary);
    if o.path.Forwarded? {
      var flow := FlowOf(p);
      var s0 := Evict(s, adversary(REVERSE_LOOKUP));
      var service := s.tables.services[ServiceKeyOf(p)];
      var h := hash(flow);
      var s1 := Evict(s0, adversary(FORWARD_LOOKUP));
      if flow in s1.forward {
        RepairOwns(s1, p, s1.forward[flow], adversary);
      } else {
        var backend := BackendAt(s1.tables, PickIndex(service, h)).value;
        var probed := Probe(s1, flow, h, backend, 0, ProbePort(h, 0), adversary);
        ProbeKeepsTables(s1, flow, h, backend, 0, ProbePort(h, 0), adversary);
        RepairOwns(probed.state, p, probed.forward.value, adversary);
      }
      var value := o.path.value;
      RewriteValidity(p, s.tables.node, value.snatPort, value.backend, value.backendPort);
    }
  }

  lemma RewriteValidity(p: Packet, source: Address, sourcePort: Word, destination: Address, destinationPort: Word)
    requires Transport(p)
    ensures Verifies(SegmentOf(Rewrite(p, source, sourcePort, destination, destinationPort)))
            <==> Verifies(SegmentOf(p))
  {
    var seg := SegmentOf(p);
    CoveredTotal(seg);
    TotalConcat([p.nextHeader as Word], p.rest);
    assert [p.nextHeader as Word][..0] == [];
    TranslatePreservesValidity(seg, source, sourcePort, destination, destinationPort);
  }

  // A reply over a standing entry leaves towards the client as if it came from the VIP.
  lemma ReplyReturns(s: State, r: Packet, flow: FlowKey, hash: FlowKey -> U32, adversary: Adversary)
    requires r.ipv6 && Transport(r) && !Malformed(r) && flow.protocol == r.nextHeader
    requires FlowOf(r) in s.reverse && s.reverse[FlowOf(r)] == Owner(flow) && SparesKey(adversary, FlowOf(r))
    ensures var o := Ingress(s, r, hash, adversary);
            && o.path == Returned && o.verdict.Ok? && FlowOf(o.verdict.packet) == Turned(flow)
            && (Verifies(SegmentOf(o.verdict.packet)) <==> Verifies(SegmentOf(r)))
  {
    RewriteValidity(r, flow.destination, flow.destinationPort, flow.source, flow.sourcePort);
  }

  /** Translating a reply undoes the forward translation: after any run that leaves that one reverse entry alone
      (other evictions and table swaps included) the reply reaches the original client from the original VIP. */
  lemma {:induction false} ReplyUndoesForward(s: State, p: Packet, hash: FlowKey -> U32, adversary: Adversary,
                                              events: seq<Event>, r: Packet, later: Adversary)
    requires Ingress(s, p, hash, adversary).path.Forwarded?
    requires var q := Ingress(s, p, hash, adversary).verdict.packet;
             FlowOf(r) == Turned(FlowOf(q)) && AllSpare(events, FlowOf(r)) && SparesKey(later, FlowOf(r))
    requires r.ipv6 && !Malformed(r)
    ensures var t := After(Ingress(s, p, hash, adversary).state, events, hash);
            var o := Ingress(t, r, hash, later);
            && o.path == Returned && o.verdict.Ok? && FlowOf(o.verdict.packet) == Turned(FlowOf(p))
            && (Verifies(SegmentOf(o.verdict.packet)) <==> Verifies(SegmentOf(r)))
  {
    var o := Ingress(s, p, hash, adversary);
    ForwardOwnsReply(s, p, hash, adversary);
    RunKeeps(o.state, events, hash, FlowOf(r));
    ReplyReturns(After(o.state, events, hash), r, FlowOf(p), hash, later);
  }
}
