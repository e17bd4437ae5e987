// The NAT datapath: one ingress packet at a time over two LRU flow maps that an adversary
// may evict from between any two map operations.
module Datapath {
  import opened Net
  import opened Checksum

  const TCP: Byte := 6
  const UDP: Byte := 17
  const FRAGMENT: Byte := 44
  const TABLE_ENTRIES := 65536
  const PROBES := 32
  const PORT_BASE := 30000
  const PORT_SPAN := 2768

  datatype FlowKey = FlowKey(source: Address, destination: Address, sourcePort: Word, destinationPort: Word,
                             protocol: Byte)
  datatype ForwardValue = ForwardValue(backend: Address, backendPort: Word, snatPort: Word)
  datatype ReverseValue = ReverseValue(client: Address, vip: Address, clientPort: Word, vipPort: Word)
  datatype ServiceKey = ServiceKey(vip: Address, port: Word, protocol: Byte)
  datatype ServiceValue = ServiceValue(offset: U32, count: U32)
  datatype BackendValue = BackendValue(address: Address, port: Word)

  // One published service table; the flow maps are not part of it and outlive it.
  datatype Tables = Tables(node: Address, services: map<ServiceKey, ServiceValue>, vips: set<Address>,
                           backends: seq<BackendValue>)

  datatype State = State(tables: Tables, forward: map<FlowKey, ForwardValue>, reverse: map<FlowKey, ReverseValue>)

  // What may happen just before one map operation: evictions, and whether an update is refused.
  datatype Interference = Interference(evictForward: set<FlowKey>, evictReverse: set<FlowKey>, refuse: bool)
  type Adversary = nat -> Interference

  // `ipv6` covers the Ethernet type and header-length test; `transportBytes` is what follows the IPv6 header.
  datatype Packet = Packet(ipv6: bool, nextHeader: Byte, transportBytes: nat, source: Address, destination: Address,
                           sourcePort: Word, destinationPort: Word, checksum: Word, rest: seq<Word>)

  datatype Verdict = Shot | Ok(packet: Packet)

  // How a packet left: untouched, dropped, translated back to a client, or translated towards a backend.
  datatype Path = Untouched | Dropped | Returned | Forwarded(value: ForwardValue)

  datatype Outcome = Outcome(state: State, verdict: Verdict, path: Path)

  function FlowOf(p: Packet): FlowKey {
    FlowKey(p.source, p.destination, p.sourcePort, p.destinationPort, p.nextHeader)
  }

  function SegmentOf(p: Packet): Segment {
    Segment(p.source, p.destination, p.sourcePort, p.destinationPort, p.checksum, [p.nextHeader as Word] + p.rest)
  }

  // Rewrite of both addresses, both ports and the checksum.
  function Rewrite(p: Packet, source: Address, sourcePort: Word, destination: Address, destinationPort: Word): Packet {
    var t := Translate(SegmentOf(p), source, sourcePort, destination, destinationPort);
    p.(source := source, sourcePort := sourcePort, destination := destination, destinationPort := destinationPort,
       checksum := t.checksum)
  }

  function Owner(flow: FlowKey): ReverseValue {
    ReverseValue(flow.source, flow.destination, flow.sourcePort, flow.destinationPort)
  }

  predicate Matches(value: ReverseValue, flow: FlowKey) {
    value.client == flow.source && value.vip == flow.destination
    && value.clientPort == flow.sourcePort && value.vipPort == flow.destinationPort
  }

  // The tuple a backend's reply carries, which is the reverse-map key of a translation.
  function ReplyKey(value: ForwardValue, node: Address, protocol: Byte): FlowKey {
    FlowKey(value.backend, node, value.backendPort, value.snatPort, protocol)
  }

  function BackendAt(t: Tables, index: U32): Option<BackendValue> {
    if index >= TABLE_ENTRIES then None
    else if index < |t.backends| then Some(t.backends[index])
    else Some(BackendValue(seq(16, i => 0), 0)) // an unset array slot reads as zeroes
  }

  // 32-bit additions wrap.
  function PickIndex(service: ServiceValue, hash: U32): U32
    requires service.count != 0
  {
    (service.offset + hash % service.count) % 0x1_0000_0000
  }

  function ProbePort(hash: U32, k: nat): Word {
    PORT_BASE + ((hash + k) % 0x1_0000_0000) % PORT_SPAN
  }

  function Evict(s: State, e: Interference): State {
    s.(forward := s.forward - e.evictForward, reverse := s.reverse - e.evictReverse)
  }

  // Positions of the map operations of one packet in the adversary's script.
  const REVERSE_LOOKUP := 0
  const FORWARD_LOOKUP := 1
  const REPAIR := 200
  function ProbeOp(attempt: nat, op: nat): nat {
    2 + 5 * attempt + op
  }

  datatype Probed = Refused(state: State) | Finished(state: State, forward: Option<ForwardValue>)

  // Writes the forward entry of a claimed reverse tuple and reads it back.
  function Claim(s: State, flow: FlowKey, candidate: ForwardValue, attempt: nat, adversary: Adversary): Probed {
    var e := adversary(ProbeOp(attempt, 2));
    var s1 := Evict(s, e);
    if e.refuse then Refused(s1)
    else
      var s2 := Evict(s1.(forward := s1.forward[flow := candidate]), adversary(ProbeOp(attempt, 3)));
      Finished(s2, if flow in s2.forward then Some(s2.forward[flow]) else None)
  }

  function Probe(s: State, flow: FlowKey, hash: U32, backend: BackendValue, attempt: nat, port: Word,
                 adversary: Adversary): Probed
    decreases PROBES - attempt
  {
    if attempt >= PROBES then Finished(s, None)
    else
      var candidate := ForwardValue(backend.address, backend.port, port);
      var key := ReplyKey(candidate, s.tables.node, flow.protocol);
      var s0 := Evict(s, adversary(ProbeOp(attempt, 0)));
      if key in s0.reverse then
        if Matches(s0.reverse[key], flow) then Claim(s0, flow, candidate, attempt, adversary)
        else Probe(s0, flow, hash, backend, attempt + 1, ProbePort(hash, attempt + 1), adversary)
      else
        var e := adversary(ProbeOp(attempt, 1));
        var s1 := Evict(s0, e);
        if e.refuse then Probe(s1, flow, hash, backend, attempt + 1, port, adversary) // the port does not advance
        else
          var claimed := Claim(s1.(reverse := s1.reverse[key := Owner(flow)]), flow, candidate, attempt, adversary);
          if claimed.Refused? then Refused(DropReverse(Evict(claimed.state, adversary(ProbeOp(attempt, 4))), key))
          else claimed
  }

  function DropReverse(s: State, key: FlowKey): State {
    s.(reverse := s.reverse - {key})
  }

  function DropForward(s: State, flow: FlowKey, adversary: Adversary): Outcome {
    var s1 := Evict(s, adversary(REPAIR + 3));
    Outcome(s1.(forward := s1.forward - {flow}), Shot, Dropped)
  }

  // Translates towards the backend only over a reverse entry that is this flow's own.
  function Deliver(s: State, p: Packet, value: ForwardValue, owner: ReverseValue, adversary: Adversary): Outcome {
    if Matches(owner, FlowOf(p)) then
      Outcome(s, Ok(Rewrite(p, s.tables.node, value.snatPort, value.backend, value.backendPort)), Forwarded(value))
    else DropForward(s, FlowOf(p), adversary)
  }

  // Restores a reverse entry lost to one-sided eviction before translating.
  function Repair(s: State, p: Packet, value: ForwardValue, adversary: Adversary): Outcome {
    var flow := FlowOf(p);
    var key := ReplyKey(value, s.tables.node, flow.protocol);
    var s0 := Evict(s, adversary(REPAIR));
    if key in s0.reverse then Deliver(s0, p, value, s0.reverse[key], adversary)
    else
      var e := adversary(REPAIR + 1);
      var s1 := Evict(s0, e);
      if e.refuse then DropForward(s1, flow, adversary)
      else
        var s2 := Evict(s1.(reverse := s1.reverse[key := Owner(flow)]), adversary(REPAIR + 2));
        if key in s2.reverse then Deliver(s2, p, value, s2.reverse[key], adversary)
        else DropForward(s2, flow, adversary)
  }

  function Route(s: State, p: Packet, service: ServiceValue, hash: U32, adversary: Adversary): Outcome
    requires service.count != 0
  {
    var flow := FlowOf(p);
    var s1 := Evict(s, adversary(FORWARD_LOOKUP));
    if flow in s1.forward then Repair(s1, p, s1.forward[flow], adversary)
    else
      match BackendAt(s1.tables, PickIndex(service, hash))
      case None => Outcome(s1, Shot, Dropped)
      case Some(backend) =>
        match Probe(s1, flow, hash, backend, 0, ProbePort(hash, 0), adversary)
        case Refused(s2) => Outcome(s2, Shot, Dropped)
        case Finished(s2, None) => Outcome(s2, Shot, Dropped)
        case Finished(s2, Some(value)) => Repair(s2, p, value, adversary)
  }

  predicate Transport(p: Packet) {
    p.nextHeader == TCP || p.nextHeader == UDP
  }

  // The header tests before any flow lookup.
  predicate Malformed(p: Packet) {
    p.transportBytes < 8 || (p.nextHeader == TCP && p.transportBytes < 20) || (p.nextHeader == UDP && p.checksum == 0)
  }

  function ServiceKeyOf(p: Packet): ServiceKey {
    ServiceKey(p.destination, p.destinationPort, p.nextHeader)
  }

  function Ingress(s: State, p: Packet, hash: FlowKey -> U32, adversary: Adversary): Outcome {
    if !p.ipv6 then Outcome(s, Ok(p), Untouched)
    else if !Transport(p) then
      if p.destination in s.tables.vips then Outcome(s, Shot, Dropped) else Outcome(s, Ok(p), Untouched)
    else if Malformed(p) then Outcome(s, Shot, Dropped)
    else
      var flow := FlowOf(p);
      var s0 := Evict(s, adversary(REVERSE_LOOKUP));
      if flow in s0.reverse then
        var r := s0.reverse[flow];
        Outcome(s0, Ok(Rewrite(p, r.vip, r.vipPort, r.client, r.clientPort)), Returned)
      else if ServiceKeyOf(p) !in s.tables.services then Outcome(s0, Ok(p), Untouched)
      else if s.tables.services[ServiceKeyOf(p)].count == 0 then Outcome(s0, Shot, Dropped)
      else Route(s0, p, s.tables.services[ServiceKeyOf(p)], hash(flow), adversary)
  }

  /** The program itself, updating the maps in place. */
  class Program {
    const hash: FlowKey -> U32
    var tables: Tables
    var forward: map<FlowKey, ForwardValue>
    var reverse: map<FlowKey, ReverseValue>

    constructor (hash: FlowKey -> U32, tables: Tables)
      ensures this.hash == hash && View() == State(tables, map[], map[])
    {
      this.hash, this.tables := hash, tables;
      forward, reverse := map[], map[];
    }

    function View(): State
      reads this
    {
      State(tables, forward, reverse)
    }

    // The kernel may evict or refuse around every map operation.
    method Interfere(e: Interference)
      modifies this
      ensures View() == Evict(old(View()), e)
    {
      forward, reverse := forward - e.evictForward, reverse - e.evictReverse;
    }

    // Publication of a new table keeps both flow maps.
    method Swap(next: Tables)
      modifies this
      ensures View() == old(View()).(tables := next)
    {
      tables := next;
    }

    method RewritePacket(p: Packet, source: Address, sourcePort: Word, destination: Address, destinationPort: Word)
      returns (q: Packet)
      ensures q == Rewrite(p, source, sourcePort, destination, destinationPort)
    {
      var checksum := ChecksumReplace(p.checksum, p.source, source, p.sourcePort, sourcePort);
      checksum := ChecksumReplace(checksum, p.destination, destination, p.destinationPort, destinationPort);
      q := p.(source := source, sourcePort := sourcePort, destination := destination,
              destinationPort := destinationPort, checksum := checksum);
    }

    // The bounded probe for a source port.
    method FindPort(flow: FlowKey, h: U32, backend: BackendValue, adversary: Adversary)
      returns (refused: bool, found: Option<ForwardValue>)
      modifies this
      ensures tables == old(tables)
      ensures Probe(old(View()), flow, h, backend, 0, ProbePort(h, 0), adversary)
           == if refused then Refused(View()) else Finished(View(), found)
    {
      refused, found := false, None;
      var candidate := ForwardValue(backend.address, backend.port, ProbePort(h, 0));
      var attempt := 0;
      while attempt < PROBES
        invariant attempt <= PROBES && tables == old(tables)
        invariant candidate.backend == backend.address && candidate.backendPort == backend.port
        invariant !refused && found == None
        invariant Probe(old(View()), flow, h, backend, 0, ProbePort(h, 0), adversary)
               == Probe(View(), flow, h, backend, attempt, candidate.snatPort, adversary)
      {
        var key := ReplyKey(candidate, tables.node, flow.protocol);
        Interfere(adversary(ProbeOp(attempt, 0)));
        if key in reverse {
          if Matches(reverse[key], flow) {
            refused, found := WriteForward(flow, candidate, attempt, adversary);
            return;
          }
        } else {
          Interfere(adversary(ProbeOp(attempt, 1)));
          if adversary(ProbeOp(attempt, 1)).refuse {
            attempt := attempt + 1;
            continue;
          }
          reverse := reverse[key := Owner(flow)];
          refused, found := WriteForward(flow, candidate, attempt, adversary);
          if refused {
            Interfere(adversary(ProbeOp(attempt, 4)));
            reverse := reverse - {key};
          }
          return;
        }
        candidate := candidate.(snatPort := ProbePort(h, attempt + 1));
        attempt := attempt + 1;
      }
    }

    method WriteForward(flow: FlowKey, candidate: ForwardValue, attempt: nat, adversary: Adversary)
      returns (refused: bool, found: Option<ForwardValue>)
      modifies this
      ensures tables == old(tables)
      ensures Claim(old(View()), flow, candidate, attempt, adversary)
           == if refused then Refused(View()) else Finished(View(), found)
    {
      refused, found := false, None;
      Interfere(adversary(ProbeOp(attempt, 2)));
      if adversary(ProbeOp(attempt, 2)).refuse {
        refused := true;
        return;
      }
      forward := forward[flow := candidate];
      Interfere(adversary(ProbeOp(attempt, 3)));
      if flow in forward {
        found := Some(forward[flow]);
      }
    }

    method RemoveForward(flow: FlowKey, adversary: Adversary)
      modifies this
      ensures Outcome(View(), Shot, Dropped) == DropForward(old(View()), flow, adversary)
    {
      Interfere(adversary(REPAIR + 3));
      forward := forward - {flow};
    }

    // Repair of one-sided eviction, ownership test and translation.
    method Send(p: Packet, value: ForwardValue, adversary: Adversary) returns (verdict: Verdict, ghost path: Path)
      modifies this
      ensures Outcome(View(), verdict, path) == Repair(old(View()), p, value, adversary)
    {
      verdict, path := Shot, Dropped;
      var flow := FlowOf(p);
      var key := ReplyKey(value, tables.node, flow.protocol);
      Interfere(adversary(REPAIR));
      if key !in reverse {
        Interfere(adversary(REPAIR + 1));
        if adversary(REPAIR + 1).refuse {
          RemoveForward(flow, adversary);
          return;
        }
        reverse := reverse[key := Owner(flow)];
        Interfere(adversary(REPAIR + 2));
      }
      if key !in reverse || !Matches(reverse[key], flow) {
        RemoveForward(flow, adversary);
        return;
      }
      var q := RewritePacket(p, tables.node, value.snatPort, value.backend, value.backendPort);
      verdict, path := Ok(q), Forwarded(value);
    }

    // Looks up or creates the forward entry of a service flow, then sends.
    method Forward(p: Packet, service: ServiceValue, h: U32, adversary: Adversary)
      returns (verdict: Verdict, ghost path: Path)
      requires service.count != 0
      modifies this
      ensures Outcome(View(), verdict, path) == Route(old(View()), p, service, h, adversary)
    {
      verdict, path := Shot, Dropped;
      var flow := FlowOf(p);
      Interfere(adversary(FORWARD_LOOKUP));
      if flow in forward {
        verdict, path := Send(p, forward[flow], adversary);
        return;
      }
      var backend := BackendAt(tables, PickIndex(service, h));
      if backend.None? {
        return;
      }
      var refused, found := FindPort(flow, h, backend.value, adversary);
      if !refused && found.Some? {
        verdict, path := Send(p, found.value, adversary);
      }
    }

    method PodminIngress(p: Packet, adversary: Adversary) returns (verdict: Verdict, ghost path: Path)
      modifies this
      ensures Outcome(View(), verdict, path) == Ingress(old(View()), p, hash, adversary)
    {
      verdict, path := Ok(p), Untouched;
      if !p.ipv6 {
        return;
      }
      if p.nextHeader == FRAGMENT || (p.nextHeader != TCP && p.nextHeader != UDP) {
        if p.destination in tables.vips {
          verdict, path := Shot, Dropped;
        }
        return;
      }
      if p.transportBytes < 8 || (p.nextHeader == TCP && p.transportBytes < 20)
         || (p.nextHeader == UDP && p.checksum == 0) {
        verdict, path := Shot, Dropped;
        return;
      }
      var flow := FlowOf(p);
      Interfere(adversary(REVERSE_LOOKUP));
      if flow in reverse {
        var r := reverse[flow];
        var q := RewritePacket(p, r.vip, r.vipPort, r.client, r.clientPort);
        verdict, path := Ok(q), Returned;
        return;
      }
      if ServiceKeyOf(p) !in tables.services {
        return;
      }
      var service := tables.services[ServiceKeyOf(p)];
      if service.count == 0 {
        verdict, path := Shot, Dropped;
        return;
      }
      verdict, path := Forward(p, service, hash(flow), adversary);
    }
  }
}
